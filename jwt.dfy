/**
 * The token codec (jsonwebtoken's `sign` and `verify`).
 *
 * A token is a string, as it is on the wire, in the cookie and in the
 * `refreshTokens` array. `sign` renders the claims, the issued-at second
 * (`iat`, the current second), the expiry second and a signature as
 * length-prefixed fields; the signature is modelled as a perfect MAC, i.e.
 * by the secret itself, so that `verify` accepts exactly the strings that
 * were signed with the secret it is given. Because `iat` has one-second
 * resolution, signing the same claims with the same secret and lifetime
 * twice within one second yields the same string.
 */
module Jwt {
  import opened Wrappers
  import opened Text

  type UserId = nat
  type Token = string

  /** Claim sets: `{userId, email, role}` for access tokens, `{userId}` otherwise. */
  datatype Claims =
    | AccessClaims(userId: UserId, email: string, role: string)
    | SubjectClaims(userId: UserId)

  /** What a well-formed token carries. */
  datatype Decoded = Decoded(claims: Claims, signature: string, iat: nat, exp: nat)

  /** Lifetimes in seconds: "15m", "12h", "1h" and "7d". */
  const FifteenMinutes: nat := 15 * 60
  const TwelveHours: nat := 12 * 60 * 60
  const OneHour: nat := 60 * 60
  const SevenDays: nat := 7 * 24 * 60 * 60

  /** The process environment the auth code reads. */
  datatype Env = Env(jwtSecret: Option<string>, jwtRefreshSecret: Option<string>, nodeEnv: string)

  // ---------------------------------------------------------------- fields

  /** A length-prefixed field: decimal length, ':', the text. */
  function Field(x: string): string {
    Decimal(|x|) + ":" + x
  }

  function Fields(xs: seq<string>): string
    decreases |xs|
  {
    if xs == [] then "" else Field(xs[0]) + Fields(xs[1..])
  }

  /** The length of the longest prefix of decimal digits. */
  function DigitPrefix(s: string): (n: nat)
    ensures n <= |s| && AllDigits(s[..n])
    ensures n < |s| ==> !IsDigit(s[n])
  {
    if s != [] && IsDigit(s[0]) then
      var n := 1 + DigitPrefix(s[1..]);
      assert s[..n] == [s[0]] + s[1..][..n - 1];
      n
    else 0
  }

  /** Reads one field off the front of `s`, returning it and the rest. */
  function ReadField(s: string): Option<(string, string)> {
    var k := DigitPrefix(s);
    if k == 0 || k >= |s| || s[k] != ':' then None
    else
      var n := DigitsValue(s[..k]);
      if k + 1 + n > |s| then None else Some((s[k + 1..k + 1 + n], s[k + 1 + n..]))
  }

  /** Reads `count` fields off the front of `s`. */
  function ReadFields(s: string, count: nat): Option<(seq<string>, string)>
    decreases count
  {
    if count == 0 then Some(([], s))
    else match ReadField(s)
      case None => None
      case Some((x, rest)) =>
        match ReadFields(rest, count - 1)
        case None => None
        case Some((xs, rest')) => Some(([x] + xs, rest'))
  }

  lemma {:induction false} DigitPrefixOfDigits(d: string, t: string)
    requires AllDigits(d)
    requires t == [] || !IsDigit(t[0])
    ensures DigitPrefix(d + t) == |d|
    decreases |d|
  {
    if d != [] {
      assert (d + t)[1..] == d[1..] + t;
      DigitPrefixOfDigits(d[1..], t);
    } else {
      assert d + t == t;
    }
  }

  lemma ReadFieldOfField(x: string, rest: string)
    ensures ReadField(Field(x) + rest) == Some((x, rest))
  {
    var d := Decimal(|x|);
    var s := Field(x) + rest;
    assert s == d + (":" + x + rest);
    DigitPrefixOfDigits(d, ":" + x + rest);
    assert s[..|d|] == d;
    assert s[|d|] == ':';
    assert s[|d| + 1..|d| + 1 + |x|] == x;
    assert s[|d| + 1 + |x|..] == rest;
  }

  /** Reading one more field off a string that starts with a field. */
  lemma ReadFieldsStep(x: string, tail: string, count: nat)
    ensures ReadFields(Field(x) + tail, count + 1) ==
      match ReadFields(tail, count)
      case None => None
      case Some((xs, rest)) => Some(([x] + xs, rest))
  {
    ReadFieldOfField(x, tail);
  }

  lemma {:induction false} ReadFieldsOfFields(xs: seq<string>, rest: string)
    ensures ReadFields(Fields(xs) + rest, |xs|) == Some((xs, rest))
    decreases |xs|
  {
    if xs == [] {
      assert Fields(xs) + rest == rest;
    } else {
      assert Fields(xs) + rest == Field(xs[0]) + (Fields(xs[1..]) + rest);
      ReadFieldsStep(xs[0], Fields(xs[1..]) + rest, |xs| - 1);
      ReadFieldsOfFields(xs[1..], rest);
      assert [xs[0]] + xs[1..] == xs;
    }
  }

  function ReadNat(s: string): Option<nat> {
    if s != [] && AllDigits(s) then Some(DigitsValue(s)) else None
  }

  // ---------------------------------------------------------------- codec

  /** The seven fields of a token: kind, user id, email, role, iat, exp, signature. */
  function FieldsOf(d: Decoded): seq<string> {
    match d.claims
    case AccessClaims(id, email, role) => ["A", Decimal(id), email, role, Decimal(d.iat), Decimal(d.exp), d.signature]
    case SubjectClaims(id) => ["S", Decimal(id), "", "", Decimal(d.iat), Decimal(d.exp), d.signature]
  }

  function Serialize(d: Decoded): Token {
    Fields(FieldsOf(d))
  }

  /** The token contents the seven fields describe, if they describe any. */
  function Decode(fs: seq<string>): Option<Decoded>
    requires |fs| == 7
  {
    match (ReadNat(fs[1]), ReadNat(fs[4]), ReadNat(fs[5]))
    case (Some(id), Some(iat), Some(exp)) =>
      if fs[0] == "A" then Some(Decoded(AccessClaims(id, fs[2], fs[3]), fs[6], iat, exp))
      else if fs[0] == "S" then Some(Decoded(SubjectClaims(id), fs[6], iat, exp))
      else None
    case _ => None
  }

  function Parse(t: Token): Option<Decoded> {
    match ReadFields(t, 7)
    case None => None
    case Some((fs, rest)) => if rest != "" || |fs| != 7 then None else Decode(fs)
  }

  lemma ReadNatDecimal(n: nat)
    ensures ReadNat(Decimal(n)) == Some(n)
  {
  }

  lemma DecodeFieldsOf(d: Decoded)
    ensures Decode(FieldsOf(d)) == Some(d)
  {
    ReadNatDecimal(d.claims.userId);
    ReadNatDecimal(d.iat);
    ReadNatDecimal(d.exp);
  }

  /** Parsing a serialized token gives back what was serialized. */
  lemma ParseSerialize(d: Decoded)
    ensures Parse(Serialize(d)) == Some(d)
  {
    var fs := FieldsOf(d);
    assert Serialize(d) + "" == Fields(fs);
    ReadFieldsOfFields(fs, "");
    DecodeFieldsOf(d);
  }

  /** Distinct token contents give distinct strings. */
  lemma SerializeInjective(d1: Decoded, d2: Decoded)
    requires Serialize(d1) == Serialize(d2)
    ensures d1 == d2
  {
    ParseSerialize(d1);
    ParseSerialize(d2);
  }

  /** `jwt.sign(claims, secret, {expiresIn: ttl})` at second `now`. */
  function Sign(claims: Claims, secret: string, now: nat, ttl: nat): Token {
    Serialize(Decoded(claims, secret, now, now + ttl))
  }

  datatype VerifyError = Malformed | BadSignature | Expired

  /** `jwt.verify(token, secret)` at second `now`; an `Err` is the error it throws. */
  function Verify(t: Token, secret: string, now: nat): (r: Result<Claims, VerifyError>)
    ensures r.Ok? <==> Parse(t).Some? && Parse(t).value.signature == secret && now < Parse(t).value.exp
    ensures r.Ok? ==> r.value == Parse(t).value.claims
  {
    match Parse(t)
    case None => Err(Malformed)
    case Some(d) =>
      if d.signature != secret then Err(BadSignature)
      else if now >= d.exp then Err(Expired)
      else Ok(d.claims)
  }

  /** A token verifies with its own secret, and yields its claims, until it expires. */
  lemma SignThenVerify(claims: Claims, secret: string, now: nat, ttl: nat, later: nat)
    requires now <= later < now + ttl
    ensures Verify(Sign(claims, secret, now, ttl), secret, later) == Ok(claims)
  {
    ParseSerialize(Decoded(claims, secret, now, now + ttl));
  }

  /** From its expiry second on, a token is refused as expired. */
  lemma SignedTokenExpires(claims: Claims, secret: string, now: nat, ttl: nat, later: nat)
    requires later >= now + ttl
    ensures Verify(Sign(claims, secret, now, ttl), secret, later) == Err(Expired)
  {
    ParseSerialize(Decoded(claims, secret, now, now + ttl));
  }

  /** A token signed with one secret is refused under another. */
  lemma OtherSecretRefused(claims: Claims, secret: string, other: string, now: nat, ttl: nat, later: nat)
    requires other != secret
    ensures Verify(Sign(claims, secret, now, ttl), other, later) == Err(BadSignature)
  {
    ParseSerialize(Decoded(claims, secret, now, now + ttl));
  }

  /** Two signed tokens coincide exactly when claims, secret and issuing second coincide. */
  lemma SignCollides(c1: Claims, c2: Claims, s1: string, s2: string, n1: nat, n2: nat, ttl: nat)
    ensures Sign(c1, s1, n1, ttl) == Sign(c2, s2, n2, ttl) <==> c1 == c2 && s1 == s2 && n1 == n2
  {
    if Sign(c1, s1, n1, ttl) == Sign(c2, s2, n2, ttl) {
      SerializeInjective(Decoded(c1, s1, n1, n1 + ttl), Decoded(c2, s2, n2, n2 + ttl));
    }
  }
}
