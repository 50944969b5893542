/**
 * The parts of Zod (version 3) the schemas rely on: issue paths, the default
 * issue messages, and the `z.string().email()` check.
 *
 * A JSON value that is absent, or present but not of the expected type, is
 * an `Option` holding `None`; Zod reports both as an `invalid_type` issue,
 * whose message is "Required" for an absent value.
 */
module Zod {
  import opened Wrappers
  import opened Text

  /** One step of an issue path: an object key or an array index. */
  datatype Segment = Key(name: string) | Index(index: nat)

  datatype Issue = Issue(path: seq<Segment>, message: string)

  const RequiredMessage: string := "Required"
  const InvalidEmailMessage: string := "Invalid email"
  const InvalidMessage: string := "Invalid"

  /** The default message of a failed `min(n)` on a string. */
  function AtLeast(n: nat): string {
    "String must contain at least " + Decimal(n) + " character(s)"
  }

  /** One issue at top-level key `key` when `failed` holds, none otherwise. */
  function IssueIf(failed: bool, key: string, message: string): (r: seq<Issue>)
    ensures failed <==> r == [Issue([Key(key)], message)]
    ensures !failed <==> r == []
  {
    if failed then [Issue([Key(key)], message)] else []
  }

  /** `z.string().min(n, message)` at key `key`: "Required" when absent. */
  function MinString(v: Option<string>, key: string, n: nat, message: string): (r: seq<Issue>)
    ensures r == [] <==> v.Some? && |v.value| >= n
    ensures |r| <= 1
  {
    match v
    case None => [Issue([Key(key)], RequiredMessage)]
    case Some(s) => IssueIf(|s| < n, key, message)
  }

  /** `z.string().email(message)` at key `key`: "Required" when absent. */
  function EmailString(v: Option<string>, key: string, message: string): (r: seq<Issue>)
    ensures r == [] <==> v.Some? && ZodEmail(v.value)
    ensures |r| <= 1
  {
    match v
    case None => [Issue([Key(key)], RequiredMessage)]
    case Some(s) => IssueIf(!ZodEmail(s), key, message)
  }

  predicate IsAlnum(c: char) {
    IsDigit(c) || IsUpperAscii(c) || IsLowerAscii(c)
  }

  predicate IsAsciiLetter(c: char) {
    IsUpperAscii(c) || IsLowerAscii(c)
  }

  /** `[A-Z0-9_'+\-\.]`, case-insensitively. */
  predicate LocalChar(c: char) {
    IsAlnum(c) || c == '_' || c == '\'' || c == '+' || c == '-' || c == '.'
  }

  /** `[A-Z0-9_+-]`, case-insensitively. */
  predicate LocalLastChar(c: char) {
    IsAlnum(c) || c == '_' || c == '+' || c == '-'
  }

  /** `([A-Z0-9_'+\-\.]*)[A-Z0-9_+-]`. */
  predicate LocalPart(l: string) {
    && |l| >= 1
    && (forall j :: 0 <= j < |l| - 1 ==> LocalChar(l[j]))
    && LocalLastChar(l[|l| - 1])
  }

  /** A dot at `j` is followed by a letter or digit. */
  predicate DotThenAlnum(p: string, j: int)
    requires 0 <= j < |p| - 1
  {
    p[j] == '.' ==> IsAlnum(p[j + 1])
  }

  /** Two dots in a row at `j`. */
  predicate DoubleDot(s: string, j: int)
    requires 0 <= j < |s| - 1
  {
    s[j] == '.' && s[j + 1] == '.'
  }

  /** `([A-Z0-9][A-Z0-9\-]*\.)+`: labels, each ending in a dot. */
  predicate Labels(p: string) {
    && |p| >= 2
    && p[|p| - 1] == '.'
    && IsAlnum(p[0])
    && (forall j :: 0 <= j < |p| ==> IsAlnum(p[j]) || p[j] == '-' || p[j] == '.')
    && (forall j :: 0 <= j < |p| - 1 ==> DotThenAlnum(p, j))
  }

  /** `[A-Z]{2,}`, case-insensitively. */
  predicate TopLevel(t: string) {
    |t| >= 2 && forall j :: 0 <= j < |t| ==> IsAsciiLetter(t[j])
  }

  predicate DomainPart(d: string) {
    exists k :: 0 <= k <= |d| && Labels(d[..k]) && TopLevel(d[k..])
  }

  predicate NoDoubleDot(s: string) {
    forall j :: 0 <= j < |s| - 1 ==> !DoubleDot(s, j)
  }

  /**
   * `z.string().email()`:
   * /^(?!\.)(?!.*\.\.)([A-Z0-9_'+\-\.]*)[A-Z0-9_+-]@([A-Z0-9][A-Z0-9\-]*\.)+[A-Z]{2,}$/i
   */
  predicate ZodEmail(s: string) {
    && |s| > 0 && s[0] != '.'
    && NoDoubleDot(s)
    && exists i :: 0 <= i < |s| && s[i] == '@' && LocalPart(s[..i]) && DomainPart(s[i + 1..])
  }

  lemma PlusLocalPart()
    ensures LocalPart("a+b")
  {
  }

  lemma ExampleLabels()
    ensures Labels("example.")
  {
  }

  lemma ComTopLevel()
    ensures TopLevel("com")
  {
  }

  lemma PlusAddressNoDoubleDot()
    ensures NoDoubleDot("a+b@example.com")
  {
  }

  /** A '+' in the local part is an e-mail address to Zod. */
  lemma ZodEmailPlusExample()
    ensures ZodEmail("a+b@example.com")
  {
    var s := "a+b@example.com";
    var d := s[4..];
    PlusLocalPart();
    ExampleLabels();
    ComTopLevel();
    PlusAddressNoDoubleDot();
    assert s[..3] == "a+b" && s[3] == '@';
    assert d[..8] == "example." && d[8..] == "com";
    assert DomainPart(d);
  }
}
