/**
 * models/Reservation.ts: the reservation document, its setters, default and
 * validators, and the unique, sparse index on (date, time, tableNumber)
 * that prevents double booking.
 *
 * Dates are time values; `today` is the time value of the start of the
 * current local day, read from the clock when the document is validated.
 * As in Mongoose, a validator other than `required` is skipped for an
 * unset value, `match` passes the empty string, and a required string must
 * be non-empty.
 */
module ReservationModel {
  import opened Wrappers
  import opened Text
  import opened Patterns
  import opened UniqueIndex

  /** The fields a new reservation is built from. */
  datatype ReservationFields = ReservationFields(
    userId: Option<string>,
    date: Option<int>,
    time: Option<string>,
    guests: Option<int>,
    tableNumber: Option<int>,
    specialRequests: Option<string>,
    status: Option<string>,
    customerName: Option<string>,
    customerPhone: Option<string>,
    customerEmail: Option<string>)

  datatype ReservationDoc = ReservationDoc(
    userId: Option<string>,
    date: Option<int>,
    time: Option<string>,
    guests: Option<int>,
    tableNumber: Option<int>,
    specialRequests: Option<string>,
    status: string,
    customerName: Option<string>,
    customerPhone: Option<string>,
    customerEmail: Option<string>,
    createdAt: nat,
    updatedAt: nat)

  const DefaultStatus: string := "pending"
  const MaxSpecialRequests: nat := 200
  const MaxTable: int := 50

  function MapOption(v: Option<string>, f: string -> string): Option<string> {
    match v
    case None => None
    case Some(s) => Some(f(s))
  }

  /** `new ReservationModel(fields)`: `customerName` trimmed, `customerEmail` lower-cased, `status` 'pending' unless given. */
  function NewReservation(f: ReservationFields, now: nat): (r: ReservationDoc)
    ensures r.customerName == MapOption(f.customerName, Trim)
    ensures r.customerEmail == MapOption(f.customerEmail, Lower)
    ensures f.status.None? ==> r.status == DefaultStatus
    ensures f.status.Some? ==> r.status == f.status.value
  {
    ReservationDoc(
      f.userId, f.date, f.time, f.guests, f.tableNumber, f.specialRequests,
      match f.status case None => DefaultStatus case Some(s) => s,
      MapOption(f.customerName, Trim), f.customerPhone, MapOption(f.customerEmail, Lower),
      now, now)
  }

  predicate RequiredString(s: Option<string>) {
    s.Some? && s.value != ""
  }

  /** A numeric range that applies only when the value is set. */
  predicate Within(v: Option<int>, lo: int, hi: int) {
    v.None? || lo <= v.value <= hi
  }

  /** The `date` validator: not before the start of today. */
  predicate NotPast(date: int, today: int) {
    date >= today
  }

  predicate Status(s: string) {
    s == "pending" || s == "confirmed" || s == "cancelled" || s == "completed"
  }

  /** A `match` validator: the empty string passes. */
  predicate Matches(v: string, pattern: string -> bool) {
    v == "" || pattern(v)
  }

  /** The paths whose validators fail, in the order of the schema. */
  function FailedPaths(r: ReservationDoc, today: int): (paths: seq<string>)
    ensures paths == [] <==> Savable(r, today)
  {
    (if r.userId.None? then ["userId"] else [])
    + (if r.date.None? || !NotPast(r.date.value, today) then ["date"] else [])
    + (if !RequiredString(r.time) || !Matches(r.time.value, TimePattern) then ["time"] else [])
    + (if r.guests.None? || !Within(r.guests, 1, 20) then ["guests"] else [])
    + (if !Within(r.tableNumber, 1, MaxTable) then ["tableNumber"] else [])
    + (if r.specialRequests.Some? && |r.specialRequests.value| > MaxSpecialRequests then ["specialRequests"] else [])
    + (if !Status(r.status) then ["status"] else [])
    + (if !RequiredString(r.customerName) then ["customerName"] else [])
    + (if !RequiredString(r.customerPhone) || !Matches(r.customerPhone.value, PhonePattern) then ["customerPhone"] else [])
    + (if !RequiredString(r.customerEmail) || !Matches(r.customerEmail.value, EmailPattern) then ["customerEmail"] else [])
  }

  /** Every validator passes. */
  predicate Savable(r: ReservationDoc, today: int) {
    && r.userId.Some?
    && r.date.Some? && r.date.value >= today
    && RequiredString(r.time) && TimePattern(r.time.value)
    && r.guests.Some? && 1 <= r.guests.value <= 20
    && (r.tableNumber.None? || 1 <= r.tableNumber.value <= 50)
    && (r.specialRequests.None? || |r.specialRequests.value| <= 200)
    && Status(r.status)
    && RequiredString(r.customerName)
    && RequiredString(r.customerPhone) && PhonePattern(r.customerPhone.value)
    && RequiredString(r.customerEmail) && EmailPattern(r.customerEmail.value)
  }

  /** What a save can fail with. */
  datatype SaveError = ValidationFailed(paths: seq<string>) | DuplicateKey(code: nat)

  /**
   * The key of the double-booking index. `date` and `time` are required, so
   * every stored reservation is in the sparse index; a reservation without
   * a table is indexed with a null `tableNumber`.
   */
  function SlotKey(r: ReservationDoc): (Option<int>, Option<string>, Option<int>) {
    (r.date, r.time, r.tableNumber)
  }

  /** `ReservationModel.create(fields)`: validation, then insertion under the unique index. */
  function CreateSpec(stored: seq<ReservationDoc>, f: ReservationFields, now: nat, today: int)
    : (Result<ReservationDoc, SaveError>, seq<ReservationDoc>)
  {
    var r := NewReservation(f, now);
    var failed := FailedPaths(r, today);
    if failed != [] then (Err(ValidationFailed(failed)), stored)
    else
      match Insert(stored, SlotKey, r)
      case None => (Err(DuplicateKey(DuplicateKeyCode)), stored)
      case Some(after) => (Ok(r), after)
  }

  /** The reservations collection. */
  class ReservationCollection {
    var reservations: seq<ReservationDoc>

    /**
     * No two stored reservations hold the same table at the same date and
     * time. Validity is not kept here: the `date` validator depends on the
     * day, and yesterday's reservations fail it today.
     */
    ghost predicate Valid()
      reads this
    {
      KeysDistinct(reservations, SlotKey)
    }

    constructor()
      ensures Valid() && reservations == []
    {
      reservations := [];
    }

    method Create(f: ReservationFields, now: nat, today: int) returns (r: Result<ReservationDoc, SaveError>)
      requires Valid()
      modifies this
      ensures Valid()
      ensures (r, reservations) == CreateSpec(old(reservations), f, now, today)
    {
      var doc := NewReservation(f, now);
      var failed := FailedPaths(doc, today);
      if failed != [] {
        return Err(ValidationFailed(failed));
      }
      var inserted := Insert(reservations, SlotKey, doc);
      if inserted.None? {
        return Err(DuplicateKey(DuplicateKeyCode));
      }
      reservations := inserted.value;
      r := Ok(doc);
    }
  }
}
