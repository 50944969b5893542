/**
 * packages/shared/src/schemas/reservation.ts: `ReservationSchema` and
 * `UpdateReservationSchema`, its `partial()`.
 *
 * Numbers are integers. A date string arrives together with what
 * `new Date(s)` makes of it: a time value, or `None` for an invalid date.
 * The clock is a parameter: `today` is the time value of midnight at the
 * start of the current local day. The schema has no refinement of its own,
 * so every key's issues are reported side by side.
 */
module ReservationSchema {
  import opened Wrappers
  import opened Text
  import opened Patterns
  import opened Zod

  datatype DateText = DateText(text: string, time: Option<int>)

  datatype Occasion = Birthday | Anniversary | Business | DateNight | Family | Other

  /** The request body, as far as the schema reads it. */
  datatype ReservationInput = ReservationInput(
    date: Option<DateText>,
    time: Option<string>,
    guests: Option<int>,
    occasion: Option<string>,
    specialRequests: Option<string>,
    contactPhone: Option<string>)

  /** A parsed reservation. */
  datatype Reservation = Reservation(
    date: string,
    time: string,
    guests: int,
    occasion: Option<Occasion>,
    specialRequests: Option<string>,
    contactPhone: string)

  /** A parsed update: only the keys that were sent. */
  datatype ReservationUpdate = ReservationUpdate(
    date: Option<string>,
    time: Option<string>,
    guests: Option<int>,
    occasion: Option<Occasion>,
    specialRequests: Option<string>,
    contactPhone: Option<string>)

  const PastDateMessage: string := "Reservation date cannot be in the past"
  const TimeMessage: string := "Invalid time format"
  const GuestsMinMessage: string := "At least 1 guest required"
  const GuestsMaxMessage: string := "Maximum 20 guests allowed"
  const SpecialRequestsMessage: string := "Special requests cannot exceed 500 characters"
  const PhoneMessage: string := "Invalid Indian phone number"
  const OccasionOptions: string := "'birthday' | 'anniversary' | 'business' | 'date' | 'family' | 'other'"

  const MinGuests: int := 1
  const MaxGuests: int := 20
  const MaxSpecialRequests: nat := 500

  function ParseOccasion(s: string): Option<Occasion> {
    if s == "birthday" then Some(Birthday)
    else if s == "anniversary" then Some(Anniversary)
    else if s == "business" then Some(Business)
    else if s == "date" then Some(DateNight)
    else if s == "family" then Some(Family)
    else if s == "other" then Some(Other)
    else None
  }

  /** `new Date(date) >= today`: false for an invalid date. */
  predicate NotPast(d: DateText, today: int) {
    d.time.Some? && d.time.value >= today
  }

  /** An absent key: "Required" in the full schema, nothing in the partial one. */
  function Absent(key: string, partial: bool): (r: seq<Issue>)
    ensures r == [] <==> partial
  {
    if partial then [] else [Issue([Key(key)], RequiredMessage)]
  }

  function CheckDate(v: Option<DateText>, today: int, partial: bool): (r: seq<Issue>)
    ensures r == [] <==> if v.None? then partial else NotPast(v.value, today)
  {
    match v
    case None => Absent("date", partial)
    case Some(d) => IssueIf(!NotPast(d, today), "date", PastDateMessage)
  }

  function CheckTime(v: Option<string>, partial: bool): (r: seq<Issue>)
    ensures r == [] <==> if v.None? then partial else TimePattern(v.value)
  {
    match v
    case None => Absent("time", partial)
    case Some(s) => IssueIf(!TimePattern(s), "time", TimeMessage)
  }

  /** `min(1)` and `max(20)`, each reported on its own. */
  function CheckGuests(v: Option<int>, partial: bool): (r: seq<Issue>)
    ensures r == [] <==> if v.None? then partial else MinGuests <= v.value <= MaxGuests
  {
    match v
    case None => Absent("guests", partial)
    case Some(g) =>
      IssueIf(g < MinGuests, "guests", GuestsMinMessage) + IssueIf(g > MaxGuests, "guests", GuestsMaxMessage)
  }

  /** An optional enum: absent is fine in both schemas. */
  function CheckOccasion(v: Option<string>): (r: seq<Issue>)
    ensures r == [] <==> v.None? || ParseOccasion(v.value).Some?
  {
    match v
    case None => []
    case Some(s) =>
      IssueIf(ParseOccasion(s).None?, "occasion",
        "Invalid enum value. Expected " + OccasionOptions + ", received '" + s + "'")
  }

  function CheckSpecialRequests(v: Option<string>): (r: seq<Issue>)
    ensures r == [] <==> v.None? || |v.value| <= MaxSpecialRequests
  {
    match v
    case None => []
    case Some(s) => IssueIf(|s| > MaxSpecialRequests, "specialRequests", SpecialRequestsMessage)
  }

  function CheckPhone(v: Option<string>, partial: bool): (r: seq<Issue>)
    ensures r == [] <==> if v.None? then partial else IndianMobilePattern(v.value)
  {
    match v
    case None => Absent("contactPhone", partial)
    case Some(s) => IssueIf(!IndianMobilePattern(s), "contactPhone", PhoneMessage)
  }

  /** Every key's issues, in the order of the schema. */
  function ReservationIssues(i: ReservationInput, today: int, partial: bool): seq<Issue> {
    CheckDate(i.date, today, partial)
    + CheckTime(i.time, partial)
    + CheckGuests(i.guests, partial)
    + CheckOccasion(i.occasion)
    + CheckSpecialRequests(i.specialRequests)
    + CheckPhone(i.contactPhone, partial)
  }

  function OccasionOf(v: Option<string>): Option<Occasion> {
    match v
    case None => None
    case Some(s) => ParseOccasion(s)
  }

  /** `ReservationSchema.safeParse(body)`. */
  function ParseReservation(i: ReservationInput, today: int): Result<Reservation, seq<Issue>> {
    var issues := ReservationIssues(i, today, false);
    if issues == [] then
      assert CheckDate(i.date, today, false) == [] && CheckTime(i.time, false) == [];
      assert CheckGuests(i.guests, false) == [] && CheckPhone(i.contactPhone, false) == [];
      Ok(Reservation(i.date.value.text, i.time.value, i.guests.value, OccasionOf(i.occasion),
                     i.specialRequests, i.contactPhone.value))
    else Err(issues)
  }

  /** `UpdateReservationSchema.safeParse(body)`. */
  function ParseUpdate(i: ReservationInput, today: int): Result<ReservationUpdate, seq<Issue>> {
    var issues := ReservationIssues(i, today, true);
    if issues == [] then
      Ok(ReservationUpdate(
        match i.date case None => None case Some(d) => Some(d.text),
        i.time, i.guests, OccasionOf(i.occasion), i.specialRequests, i.contactPhone))
    else Err(issues)
  }

  /** A present key obeys its rule. */
  predicate PresentKeysValid(i: ReservationInput, today: int) {
    && (i.date.Some? ==> NotPast(i.date.value, today))
    && (i.time.Some? ==> TimePattern(i.time.value))
    && (i.guests.Some? ==> 1 <= i.guests.value <= 20)
    && (i.occasion.Some? ==> ParseOccasion(i.occasion.value).Some?)
    && (i.specialRequests.Some? ==> |i.specialRequests.value| <= 500)
    && (i.contactPhone.Some? ==> IndianMobilePattern(i.contactPhone.value))
  }

  /** What the full schema demands: the required keys present, and every present key valid. */
  predicate ReservationValid(i: ReservationInput, today: int) {
    && i.date.Some? && i.time.Some? && i.guests.Some? && i.contactPhone.Some?
    && PresentKeysValid(i, today)
  }
}
