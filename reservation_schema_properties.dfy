/** What the reservation schemas accept, key by key, and how the two relate. */
module ReservationSchemaProperties {
  import opened Wrappers
  import opened Text
  import opened Patterns
  import opened Zod
  import opened ReservationSchema

  lemma IssuesEmpty(i: ReservationInput, today: int, partial: bool)
    ensures ReservationIssues(i, today, partial) == [] <==>
      && CheckDate(i.date, today, partial) == [] && CheckTime(i.time, partial) == []
      && CheckGuests(i.guests, partial) == [] && CheckOccasion(i.occasion) == []
      && CheckSpecialRequests(i.specialRequests) == [] && CheckPhone(i.contactPhone, partial) == []
  {
  }

  /** The full schema accepts exactly the valid reservations, and keeps what was sent. */
  lemma ReservationAccepted(i: ReservationInput, today: int)
    ensures ParseReservation(i, today).Ok? <==> ReservationValid(i, today)
    ensures ParseReservation(i, today).Ok? ==>
      var r := ParseReservation(i, today).value;
      && r.date == i.date.value.text && r.time == i.time.value && r.guests == i.guests.value
      && r.specialRequests == i.specialRequests && r.contactPhone == i.contactPhone.value
      && (r.occasion.Some? <==> i.occasion.Some?)
  {
    IssuesEmpty(i, today, false);
  }

  /** The update schema accepts exactly the bodies whose present keys are valid. */
  lemma UpdateAccepted(i: ReservationInput, today: int)
    ensures ParseUpdate(i, today).Ok? <==> PresentKeysValid(i, today)
    ensures ParseUpdate(i, today).Ok? ==>
      var u := ParseUpdate(i, today).value;
      && (u.date.Some? <==> i.date.Some?) && u.time == i.time && u.guests == i.guests
      && u.specialRequests == i.specialRequests && u.contactPhone == i.contactPhone
  {
    IssuesEmpty(i, today, true);
  }

  /** Whatever the full schema accepts, the update schema accepts too. */
  lemma FullIsUpdate(i: ReservationInput, today: int)
    ensures ParseReservation(i, today).Ok? ==> ParseUpdate(i, today).Ok?
  {
    ReservationAccepted(i, today);
    UpdateAccepted(i, today);
  }

  /** An empty update is accepted; an empty reservation lacks its four required keys. */
  lemma EmptyBodies(today: int)
    ensures var empty := ReservationInput(None, None, None, None, None, None);
      && ParseUpdate(empty, today) == Ok(ReservationUpdate(None, None, None, None, None, None))
      && ParseReservation(empty, today) == Err([
           Issue([Key("date")], RequiredMessage), Issue([Key("time")], RequiredMessage),
           Issue([Key("guests")], RequiredMessage), Issue([Key("contactPhone")], RequiredMessage)])
  {
    var empty := ReservationInput(None, None, None, None, None, None);
    assert ReservationIssues(empty, today, false)
      == [Issue([Key("date")], RequiredMessage)] + [Issue([Key("time")], RequiredMessage)]
         + [Issue([Key("guests")], RequiredMessage)] + [] + [] + [Issue([Key("contactPhone")], RequiredMessage)];
    var a, b, c, d := Issue([Key("date")], RequiredMessage), Issue([Key("time")], RequiredMessage),
      Issue([Key("guests")], RequiredMessage), Issue([Key("contactPhone")], RequiredMessage);
    assert [a] + [b] + [c] + [] + [] + [d] == [a, b, c, d];
    assert ParseReservation(empty, today) == Err(ReservationIssues(empty, today, false));
  }

  /** Midnight today is accepted; any earlier instant, or an invalid date, is refused. */
  lemma DateBoundary(text: string, t: int, today: int)
    ensures CheckDate(Some(DateText(text, Some(t))), today, false) == [] <==> t >= today
    ensures CheckDate(Some(DateText(text, None)), today, true) == [Issue([Key("date")], PastDateMessage)]
  {
  }

  /** An accepted time is one to two hour digits for 0-23, ':', and two minute digits for 00-59. */
  lemma TimeRule(s: string)
    ensures CheckTime(Some(s), false) == [] <==>
      (exists h: nat, m: nat :: h < 24 && m < 60 && s == FormatTime(h, m))
      || (exists h: nat, m: nat :: h < 10 && m < 60 && s == FormatShortTime(h, m))
  {
    if TimePattern(s) {
      TimePatternIsFormatted(s);
    }
    forall h: nat, m: nat | h < 24 && m < 60
      ensures TimePattern(FormatTime(h, m))
    {
      FormatTimeAccepted(h, m);
    }
    forall h: nat, m: nat | h < 10 && m < 60
      ensures TimePattern(FormatShortTime(h, m))
    {
      FormatShortTimeAccepted(h, m);
    }
  }

  /** Too few and too many guests are told apart. */
  lemma GuestsMessages(g: int)
    ensures g < 1 ==> CheckGuests(Some(g), true) == [Issue([Key("guests")], GuestsMinMessage)]
    ensures g > 20 ==> CheckGuests(Some(g), true) == [Issue([Key("guests")], GuestsMaxMessage)]
  {
  }

  /** A phone number with the country code is refused: the schema wants the bare ten digits. */
  lemma CountryCodeRefused(s: string)
    ensures !IndianMobilePattern("+91" + s)
  {
    assert ("+91" + s)[0] == '+';
  }

  /** Every rule is checked even when another fails: a body can carry an issue for each key. */
  lemma AllKeysReported(today: int)
    ensures var i := ReservationInput(Some(DateText("", None)), Some("25:00"), Some(0), Some("party"),
                                      None, Some("12345"));
      |ReservationIssues(i, today, false)| == 5
  {
    var i := ReservationInput(Some(DateText("", None)), Some("25:00"), Some(0), Some("party"), None, Some("12345"));
    assert !TimePattern("25:00");
    assert ParseOccasion("party").None?;
    assert !IndianMobilePattern("12345");
  }
}
