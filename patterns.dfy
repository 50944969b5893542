/**
 * The regular expressions the models and schemas validate with, written as
 * predicates over the characters of a string:
 *   e-mail  ^\w+([.-]?\w+)*@\w+([.-]?\w+)*(\.\w{2,3})+$   (User and Reservation)
 *   phone   ^\+?[\d\s-()]+$                               (User and Reservation)
 *   time    ^([0-1]?[0-9]|2[0-3]):[0-5][0-9]$             (reservation schema and model)
 *   mobile  ^[6-9]\d{9}$                                  (reservation schema)
 *   code    ^[A-Z0-9]+$                                   (coupon schema)
 */
module Patterns {
  import opened Wrappers
  import opened Text

  predicate IsSep(c: char) { c == '.' || c == '-' }

  /** Two separators in a row at `i`. */
  predicate DoubleSep(s: string, i: int)
    requires 0 <= i < |s| - 1
  {
    IsSep(s[i]) && IsSep(s[i + 1])
  }

  /** `\w+([.-]?\w+)*`: word runs joined by single dots or dashes. */
  predicate Words(s: string) {
    && |s| > 0
    && IsWordChar(s[0])
    && IsWordChar(s[|s| - 1])
    && (forall i :: 0 <= i < |s| ==> IsWordChar(s[i]) || IsSep(s[i]))
    && (forall i :: 0 <= i < |s| - 1 ==> !DoubleSep(s, i))
  }

  predicate AllWord(s: string) {
    forall i :: 0 <= i < |s| ==> IsWordChar(s[i])
  }

  /** `(\.\w{2,3})+`: one or more groups of a dot and two or three word characters. */
  predicate TldGroups(s: string)
    decreases |s|
  {
    || (|s| >= 3 && s[0] == '.' && AllWord(s[1..3]) && (|s| == 3 || TldGroups(s[3..])))
    || (|s| >= 4 && s[0] == '.' && AllWord(s[1..4]) && (|s| == 4 || TldGroups(s[4..])))
  }

  /** The part after '@': words, then top-level groups. */
  predicate DomainOk(d: string) {
    exists k :: 1 <= k < |d| && Words(d[..k]) && TldGroups(d[k..])
  }

  predicate EmailPattern(s: string) {
    exists i :: 0 <= i < |s| && s[i] == '@' && Words(s[..i]) && DomainOk(s[i + 1..])
  }

  lemma TestWords()
    ensures Words("test")
  {
  }

  lemma ExampleWords()
    ensures Words("example")
  {
  }

  lemma ComGroups()
    ensures TldGroups(".com")
  {
    assert ".com"[1..4] == "com" && ".com"[4..] == [];
  }

  lemma EmailExample()
    ensures EmailPattern("test@example.com")
  {
    var s := "test@example.com";
    var d := s[5..];
    TestWords();
    ExampleWords();
    ComGroups();
    assert s[..4] == "test" && s[4] == '@';
    assert d[..7] == "example" && d[7..] == ".com";
    assert DomainOk(d);
  }

  /** A '+' before the '@' is never accepted: `\w` and the separators exclude it. */
  lemma PlusBeforeAtRejected(s: string, p: nat)
    requires p < |s| && s[p] == '+'
    requires forall j :: 0 <= j <= p ==> s[j] != '@'
    ensures !EmailPattern(s)
  {
  }

  lemma PlusAddressRejected()
    ensures !EmailPattern("a+b@example.com")
  {
    PlusBeforeAtRejected("a+b@example.com", 1);
  }

  predicate PhoneChar(c: char) {
    IsDigit(c) || IsJsSpace(c) || c == '-' || c == '(' || c == ')'
  }

  /** An optional '+' and then one or more digits, spaces, dashes or parentheses. */
  predicate PhonePattern(s: string) {
    var body := if |s| > 0 && s[0] == '+' then s[1..] else s;
    |body| > 0 && forall i :: 0 <= i < |body| ==> PhoneChar(body[i])
  }

  function DigitValue(c: char): nat
    requires IsDigit(c)
  {
    c as int - '0' as int
  }

  /** `[0-1]?[0-9]|2[0-3]` followed by `:[0-5][0-9]`. */
  predicate TimePattern(s: string) {
    if |s| == 4 then
      IsDigit(s[0]) && s[1] == ':' && '0' <= s[2] <= '5' && IsDigit(s[3])
    else if |s| == 5 then
      && ((('0' <= s[0] <= '1') && IsDigit(s[1])) || (s[0] == '2' && '0' <= s[1] <= '3'))
      && s[2] == ':' && '0' <= s[3] <= '5' && IsDigit(s[4])
    else false
  }

  /** The hour and minute a valid time denotes. */
  function ParseTime(s: string): (r: (nat, nat))
    requires TimePattern(s)
    ensures r.0 < 24 && r.1 < 60
  {
    if |s| == 4 then (DigitValue(s[0]), 10 * DigitValue(s[2]) + DigitValue(s[3]))
    else (10 * DigitValue(s[0]) + DigitValue(s[1]), 10 * DigitValue(s[3]) + DigitValue(s[4]))
  }

  /** "HH:MM" with a two-digit hour. */
  function FormatTime(h: nat, m: nat): string
    requires h < 24 && m < 60
  {
    [DigitChar(h / 10), DigitChar(h % 10), ':', DigitChar(m / 10), DigitChar(m % 10)]
  }

  /** "H:MM" with a one-digit hour. */
  function FormatShortTime(h: nat, m: nat): string
    requires h < 10 && m < 60
  {
    [DigitChar(h), ':', DigitChar(m / 10), DigitChar(m % 10)]
  }

  /** Every hour 0-23 and minute 0-59 is accepted in two-digit form, and parses back. */
  lemma FormatTimeAccepted(h: nat, m: nat)
    requires h < 24 && m < 60
    ensures TimePattern(FormatTime(h, m)) && ParseTime(FormatTime(h, m)) == (h, m)
  {
  }

  /** Every hour 0-9 and minute 0-59 is accepted in one-digit form, and parses back. */
  lemma FormatShortTimeAccepted(h: nat, m: nat)
    requires h < 10 && m < 60
    ensures TimePattern(FormatShortTime(h, m)) && ParseTime(FormatShortTime(h, m)) == (h, m)
  {
  }

  /** Conversely, an accepted time is exactly one of those two renderings of what it parses to. */
  lemma TimePatternIsFormatted(s: string)
    requires TimePattern(s)
    ensures var (h, m) := ParseTime(s);
      if |s| == 4 then h < 10 && s == FormatShortTime(h, m) else s == FormatTime(h, m)
  {
    var (h, m) := ParseTime(s);
    if |s| == 4 {
      assert s == [s[0], s[1], s[2], s[3]];
      assert DigitChar(m / 10) == s[2] && DigitChar(m % 10) == s[3];
    } else {
      assert s == [s[0], s[1], s[2], s[3], s[4]];
      assert DigitChar(h / 10) == s[0] && DigitChar(h % 10) == s[1];
      assert DigitChar(m / 10) == s[3] && DigitChar(m % 10) == s[4];
    }
  }

  /** `^[6-9]\d{9}$`: ten digits, the first of them 6, 7, 8 or 9. */
  predicate IndianMobilePattern(s: string) {
    |s| == 10 && '6' <= s[0] <= '9' && AllDigits(s)
  }

  /** `^[A-Z0-9]+$`. */
  predicate CodePattern(s: string) {
    |s| > 0 && forall i :: 0 <= i < |s| ==> IsUpperAscii(s[i]) || IsDigit(s[i])
  }
}
