/**
 * What the reservation model promises: its field rules, one reservation per
 * table and slot, and where it differs from the shared schema.
 */
module ReservationModelProperties {
  import opened Wrappers
  import opened Text
  import opened Patterns
  import opened UniqueIndex
  import opened ReservationModel
  import Schema = ReservationSchema

  /** `date` fails exactly when it is unset or before the start of today. */
  lemma DateRule(r: ReservationDoc, today: int)
    ensures "date" in FailedPaths(r, today) <==> r.date.None? || r.date.value < today
  {
  }

  /** `guests` fails exactly when it is unset or outside 1-20. */
  lemma GuestsRule(r: ReservationDoc, today: int)
    ensures "guests" in FailedPaths(r, today) <==> r.guests.None? || r.guests.value < 1 || r.guests.value > 20
  {
  }

  /** `tableNumber` fails only when it is set outside 1-50. */
  lemma TableRule(r: ReservationDoc, today: int)
    ensures "tableNumber" in FailedPaths(r, today) <==> r.tableNumber.Some? && (r.tableNumber.value < 1 || r.tableNumber.value > 50)
  {
  }

  /** `status` is 'pending' unless given, and must be one of the four states. */
  lemma StatusRule(f: ReservationFields, now: nat, today: int)
    ensures f.status.None? ==> "status" !in FailedPaths(NewReservation(f, now), today)
    ensures f.status.Some? ==> ("status" in FailedPaths(NewReservation(f, now), today) <==> !Status(f.status.value))
  {
  }

  /** The stored e-mail has no upper-case ASCII letter, whatever was sent. */
  lemma EmailStoredLowerCase(f: ReservationFields, now: nat)
    requires f.customerEmail.Some?
    ensures NoUpper(NewReservation(f, now).customerEmail.value)
  {
    LowerHasNoUpper(f.customerEmail.value);
  }

  /** A valid reservation for a free table and slot is stored at the end. */
  lemma FreeSlotBooked(stored: seq<ReservationDoc>, f: ReservationFields, now: nat, today: int)
    requires Savable(NewReservation(f, now), today)
    requires forall k :: 0 <= k < |stored| ==> SlotKey(stored[k]) != SlotKey(NewReservation(f, now))
    ensures CreateSpec(stored, f, now, today) == (Ok(NewReservation(f, now)), stored + [NewReservation(f, now)])
  {
  }

  /** A second booking of the same table at the same date and time is refused with E11000, and nothing changes. */
  lemma DoubleBookingRefused(stored: seq<ReservationDoc>, k: nat, f: ReservationFields, now: nat, today: int)
    requires Savable(NewReservation(f, now), today)
    requires k < |stored|
    requires stored[k].date == f.date && stored[k].time == f.time && stored[k].tableNumber == f.tableNumber
    ensures CreateSpec(stored, f, now, today) == (Err(DuplicateKey(DuplicateKeyCode)), stored)
  {
    assert SlotKey(stored[k]) == SlotKey(NewReservation(f, now));
  }

  /** Two reservations without a table at the same date and time collide: the index is sparse only over whole documents. */
  lemma UntabledSlotTaken(stored: seq<ReservationDoc>, k: nat, f: ReservationFields, now: nat, today: int)
    requires Savable(NewReservation(f, now), today)
    requires k < |stored| && stored[k].tableNumber.None? && f.tableNumber.None?
    requires stored[k].date == f.date && stored[k].time == f.time
    ensures CreateSpec(stored, f, now, today).0 == Err(DuplicateKey(DuplicateKeyCode))
  {
    DoubleBookingRefused(stored, k, f, now, today);
  }

  /** The same slot at another table is free. */
  lemma OtherTableFree(a: ReservationDoc, b: ReservationDoc)
    requires a.date == b.date && a.time == b.time && a.tableNumber != b.tableNumber
    ensures SlotKey(a) != SlotKey(b)
  {
  }

  /** A phone number the shared schema accepts matches the model's phone pattern. */
  lemma SchemaPhoneAccepted(s: string)
    requires IndianMobilePattern(s)
    ensures PhonePattern(s)
  {
    assert s[0] != '+';
    assert forall i :: 0 <= i < |s| ==> PhoneChar(s[i]) by {
      assert forall i :: 0 <= i < |s| ==> IsDigit(s[i]);
    }
  }

  /** A time the shared schema accepts passes the model's `time` rule. */
  lemma SchemaTimeAccepted(r: ReservationDoc, today: int)
    requires r.time.Some? && Schema.CheckTime(r.time, false) == []
    ensures "time" !in FailedPaths(r, today)
  {
  }

  /** Special requests of 201 to 500 characters pass the shared schema and fail the model. */
  lemma SpecialRequestsStricter(r: ReservationDoc, today: int)
    requires r.specialRequests.Some? && 200 < |r.specialRequests.value| <= 500
    ensures Schema.CheckSpecialRequests(r.specialRequests) == []
    ensures "specialRequests" in FailedPaths(r, today)
  {
  }
}
