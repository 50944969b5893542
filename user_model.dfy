/**
 * The User document (models/User.ts) and the users collection.
 *
 * A document is a value; the collection is a sequence indexed by id (ids
 * are handed out in insertion order, so `users[i].id == i`). bcrypt is an
 * oracle over the key bcryptjs derives from a password: a hashed password
 * remembers the text it was computed from, and `compare` holds exactly for
 * the texts with the same 72-byte key.
 */
module UserModel {
  import opened Wrappers
  import opened Text
  import opened Jwt
  import opened Patterns
  import opened TokenList
  import Utf8

  datatype Role = Customer | Admin

  function RoleName(r: Role): string {
    match r
    case Customer => "customer"
    case Admin => "admin"
  }

  /** `bcrypt.genSalt(12)`. */
  const SaltRounds: nat := 12
  /** A bcrypt hash is 60 characters long. */
  const HashLength: nat := 60

  /** A stored password: plain text until the pre-save hook replaces it by its hash. */
  datatype Secret = Plain(text: string) | Hashed(text: string, salt: nat)

  /** The Blowfish key bcrypt expands is 72 bytes long. */
  const BcryptKeyBytes: nat := 72

  /**
   * The key bcryptjs hashes for a password (versions $2a$ and $2b$): its
   * UTF-8 bytes and a terminating zero, repeated to fill 72 bytes. Bytes
   * after the 72nd never reach the hash.
   */
  function BcryptKey(p: string): (k: seq<int>)
    ensures |k| == BcryptKeyBytes
  {
    Cycle(Utf8.Encode(p) + [0], BcryptKeyBytes)
  }

  /** The first `n` bytes of `key` repeated forever. */
  function Cycle(key: seq<int>, n: nat): (r: seq<int>)
    requires key != []
    ensures |r| == n
    decreases n
  {
    if n <= |key| then key[..n] else key + Cycle(key, n - |key|)
  }

  /** `bcrypt.compare(candidate, stored)`: true against a hash of a text with the same key. */
  predicate ComparePassword(candidate: string, stored: Secret) {
    stored.Hashed? && BcryptKey(candidate) == BcryptKey(stored.text)
  }

  /** A password of 72 bytes or more is keyed by its first 72 bytes alone. */
  lemma LongPasswordKey(p: string)
    requires |Utf8.Encode(p)| >= BcryptKeyBytes
    ensures BcryptKey(p) == Utf8.Encode(p)[..BcryptKeyBytes]
  {
  }

  /** A shorter password's key starts with all of its bytes and the terminating zero. */
  lemma ShortPasswordKey(p: string)
    requires |Utf8.Encode(p)| < BcryptKeyBytes
    ensures BcryptKey(p)[..|Utf8.Encode(p)| + 1] == Utf8.Encode(p) + [0]
  {
    var key := Utf8.Encode(p) + [0];
    if |key| < BcryptKeyBytes {
      assert BcryptKey(p) == key + Cycle(key, BcryptKeyBytes - |key|);
    }
  }

  /**
   * Below 72 bytes, and without a NUL character, two passwords get the same
   * key exactly when they are the same text.
   */
  lemma ShortPasswordsCompareExactly(c: string, p: string)
    requires |Utf8.Encode(c)| < BcryptKeyBytes && |Utf8.Encode(p)| < BcryptKeyBytes
    requires Utf8.NoNul(c) && Utf8.NoNul(p)
    ensures BcryptKey(c) == BcryptKey(p) <==> c == p
  {
    if BcryptKey(c) == BcryptKey(p) {
      KeysFix(c, p);
      KeysFix(p, c);
      Utf8.EncodeInjective(c, p);
    }
  }

  /** Equal keys of a short, NUL-free `a` and a NUL-free `b` make `b`'s bytes start with `a`'s and its zero. */
  lemma KeysFix(a: string, b: string)
    requires |Utf8.Encode(a)| < BcryptKeyBytes && |Utf8.Encode(b)| < BcryptKeyBytes
    requires Utf8.NoNul(b)
    requires BcryptKey(a) == BcryptKey(b)
    ensures |Utf8.Encode(a)| <= |Utf8.Encode(b)| ==> Utf8.Encode(a) == Utf8.Encode(b)
  {
    var ea := Utf8.Encode(a);
    var eb := Utf8.Encode(b);
    if |ea| <= |eb| {
      ShortPasswordKey(a);
      ShortPasswordKey(b);
      assert BcryptKey(b)[|ea|] == 0;
      if |ea| < |eb| {
        Utf8.NoNulNoZeroByte(b);
        assert false;
      }
      assert ea + [0] == eb + [0];
      assert ea == (ea + [0])[..|ea|];
    }
  }

  /**
   * Past 72 bytes the rest is ignored: any candidate that shares an ASCII
   * 72-character head with the password is accepted, whatever follows.
   */
  lemma LongPasswordPrefixSuffices(head: string, rest: string, other: string, salt: nat)
    requires |head| == BcryptKeyBytes && Utf8.Ascii(head)
    ensures ComparePassword(head + other, Hashed(head + rest, salt))
  {
    Utf8.AsciiLength(head);
    Utf8.EncodeAppend(head, rest);
    Utf8.EncodeAppend(head, other);
    LongPasswordKey(head + rest);
    LongPasswordKey(head + other);
    assert (Utf8.Encode(head) + Utf8.Encode(rest))[..BcryptKeyBytes] == Utf8.Encode(head);
    assert (Utf8.Encode(head) + Utf8.Encode(other))[..BcryptKeyBytes] == Utf8.Encode(head);
  }

  function PasswordLength(p: Secret): nat {
    match p
    case Plain(t) => |t|
    case Hashed(_, _) => HashLength
  }

  datatype User = User(
    id: UserId,
    email: string,
    password: Secret,
    name: string,
    phone: Option<string>,
    role: Role,
    isActive: bool,
    refreshTokens: seq<Token>,
    createdAt: nat,
    updatedAt: nat,
    version: nat)

  /** The `lowercase` and `trim` setters of `email`, also applied to e-mail query values. */
  function NormalizeEmail(e: string): (r: string)
    ensures |r| <= |e|
    ensures r != [] ==> !IsJsSpace(r[0]) && !IsJsSpace(r[|r| - 1])
    ensures NoUpper(r)
  {
    var l := Lower(e);
    var a := TrimStart(l);
    var b := TrimEnd(a);
    LowerHasNoUpper(e);
    NoUpperSuffix(l, |l| - |a|);
    NoUpperPrefix(a, |b|);
    b
  }

  /** Normalising a normalised address changes nothing. */
  lemma NormalizeEmailIdempotent(e: string)
    ensures NormalizeEmail(NormalizeEmail(e)) == NormalizeEmail(e)
  {
    var y := Trim(Lower(e));
    TrimLowerCommute(y);
    TrimIdempotent(Lower(e));
    TrimLowerCommute(e);
    LowerIdempotent(Trim(e));
  }

  /** The fields a new document is built from. */
  datatype NewUserInput = NewUserInput(email: string, password: string, name: string, phone: Option<string>)

  /** `new UserModel(data)`: setters applied, defaults filled in, timestamps set to `now`. */
  function NewUser(id: UserId, input: NewUserInput, now: nat): (u: User)
    ensures u.id == id && u.role == Customer && u.isActive && u.refreshTokens == []
    ensures u.password == Plain(input.password)
    ensures u.email == NormalizeEmail(input.email) && u.name == Trim(input.name)
    ensures u.createdAt == now && u.updatedAt == now
  {
    var phone := match input.phone
      case None => None
      case Some(p) => Some(Trim(p));
    User(id, NormalizeEmail(input.email), Plain(input.password), Trim(input.name), phone,
         Customer, true, [], now, now, 0)
  }

  /** A new document's address and name are fixed points of their setters. */
  lemma NewUserSettled(id: UserId, input: NewUserInput, now: nat)
    ensures NormalizeEmail(NewUser(id, input, now).email) == NewUser(id, input, now).email
    ensures Trim(NewUser(id, input, now).name) == NewUser(id, input, now).name
  {
    NormalizeEmailIdempotent(input.email);
    TrimIdempotent(input.name);
  }

  /** The `match` validator passes empty strings; otherwise the pattern must match. */
  predicate PhoneAccepted(p: Option<string>) {
    p.None? || p.value == "" || PhonePattern(p.value)
  }

  /** The schema validators, which run before the pre-save hook. */
  predicate Savable(u: User) {
    && u.email != "" && EmailPattern(u.email)
    && PasswordLength(u.password) >= 6
    && 2 <= |u.name| <= 50
    && PhoneAccepted(u.phone)
  }

  /** The pre-save hook: a password that was set (still plain) is hashed; a stored hash is kept. */
  function PreSave(u: User, salt: nat): (r: User)
    ensures r.password.Hashed?
    ensures u.password.Hashed? ==> r == u
    ensures r == u.(password := r.password)
    ensures forall c :: ComparePassword(c, r.password) <==> BcryptKey(c) == BcryptKey(u.password.text)
  {
    match u.password
    case Plain(t) => u.(password := Hashed(t, salt))
    case Hashed(_, _) => u
  }

  /** Saving again without setting the password keeps the stored hash. */
  lemma PreSaveIdempotent(u: User, salt1: nat, salt2: nat)
    ensures PreSave(PreSave(u, salt1), salt2) == PreSave(u, salt1)
  {
  }

  /**
   * After the first save a new user's password is checked against the texts
   * with the key of the one given: exactly that text, below 72 bytes and
   * without NUL.
   */
  lemma NewUserPasswordChecks(id: UserId, input: NewUserInput, now: nat, salt: nat, candidate: string)
    ensures ComparePassword(candidate, PreSave(NewUser(id, input, now), salt).password)
        <==> BcryptKey(candidate) == BcryptKey(input.password)
    ensures |Utf8.Encode(candidate)| < BcryptKeyBytes && |Utf8.Encode(input.password)| < BcryptKeyBytes
        && Utf8.NoNul(candidate) && Utf8.NoNul(input.password)
        ==> (ComparePassword(candidate, PreSave(NewUser(id, input, now), salt).password) <==> candidate == input.password)
  {
    var u := NewUser(id, input, now);
    assert u.password == Plain(input.password);
    if |Utf8.Encode(candidate)| < BcryptKeyBytes && |Utf8.Encode(input.password)| < BcryptKeyBytes
      && Utf8.NoNul(candidate) && Utf8.NoNul(input.password) {
      ShortPasswordsCompareExactly(candidate, input.password);
    }
  }

  /** A value of `toObject()`. */
  datatype Value = Str(s: string) | Num(n: nat) | Flag(b: bool) | Pass(p: Secret) | Strs(items: seq<string>)

  /** `toObject()`: every path of the document, `phone` only when set. */
  function ToObject(u: User): (m: map<string, Value>)
    ensures "password" in m && "refreshTokens" in m && "__v" in m
    ensures "_id" in m && m["_id"] == Num(u.id)
    ensures "phone" in m <==> u.phone.Some?
  {
    var base := map[
      "_id" := Num(u.id), "email" := Str(u.email), "password" := Pass(u.password),
      "name" := Str(u.name), "role" := Str(RoleName(u.role)), "isActive" := Flag(u.isActive),
      "refreshTokens" := Strs(u.refreshTokens), "createdAt" := Num(u.createdAt),
      "updatedAt" := Num(u.updatedAt), "__v" := Num(u.version)];
    if u.phone.Some? then base["phone" := Str(u.phone.value)] else base
  }

  const HiddenKeys: set<string> := {"password", "refreshTokens", "__v"}

  /** The `toJSON` override: a copy of `toObject()` with the three secret paths deleted. */
  method ToJson(u: User) returns (ret: map<string, Value>)
    ensures ret.Keys == ToObject(u).Keys - HiddenKeys
    ensures forall k :: k in ret ==> ret[k] == ToObject(u)[k]
    ensures forall k :: k in ret ==> !ret[k].Pass? && !ret[k].Strs?
  {
    ret := ToObject(u);
    ret := ret - {"password"};
    ret := ret - {"refreshTokens"};
    ret := ret - {"__v"};
  }

  datatype TokenPair = TokenPair(accessToken: Token, refreshToken: Token)

  const SecretsMissing: string := "JWT secrets not configured"

  /** "12h" when NODE_ENV is "development", "15m" otherwise. */
  function AccessTtl(env: Env): nat {
    if env.nodeEnv == "development" then TwelveHours else FifteenMinutes
  }

  /**
   * `generateAuthTokens()`: access claims exactly `{userId, email, role}` under
   * JWT_SECRET, refresh claims exactly `{userId}` under JWT_REFRESH_SECRET for
   * seven days. It is a function of the document and cannot change it.
   */
  function GenerateAuthTokens(u: User, env: Env, now: nat): (r: Result<TokenPair, string>)
    ensures r.Err? <==> !Truthy(env.jwtSecret) || !Truthy(env.jwtRefreshSecret)
    ensures r.Err? ==> r.error == SecretsMissing
    ensures r.Ok? ==> Parse(r.value.accessToken) == Some(Decoded(
      AccessClaims(u.id, u.email, RoleName(u.role)), env.jwtSecret.value, now, now + AccessTtl(env)))
    ensures r.Ok? ==> Parse(r.value.refreshToken) == Some(Decoded(
      SubjectClaims(u.id), env.jwtRefreshSecret.value, now, now + SevenDays))
  {
    if !Truthy(env.jwtSecret) || !Truthy(env.jwtRefreshSecret) then Err(SecretsMissing)
    else
      var access := AccessClaims(u.id, u.email, RoleName(u.role));
      ParseSerialize(Decoded(access, env.jwtSecret.value, now, now + AccessTtl(env)));
      ParseSerialize(Decoded(SubjectClaims(u.id), env.jwtRefreshSecret.value, now, now + SevenDays));
      Ok(TokenPair(
        Sign(access, env.jwtSecret.value, now, AccessTtl(env)),
        Sign(SubjectClaims(u.id), env.jwtRefreshSecret.value, now, SevenDays)))
  }

  /** The two tokens of a pair always differ, so a reply carrying the access token never carries the refresh token. */
  lemma AccessAndRefreshDiffer(u: User, env: Env, now: nat)
    requires GenerateAuthTokens(u, env, now).Ok?
    ensures GenerateAuthTokens(u, env, now).value.accessToken != GenerateAuthTokens(u, env, now).value.refreshToken
  {
  }

  /** The refresh token depends only on the user id and the second it is issued in. */
  lemma RefreshTokenDependsOnIdAndSecond(u1: User, u2: User, env: Env, n1: nat, n2: nat)
    requires GenerateAuthTokens(u1, env, n1).Ok?
    ensures GenerateAuthTokens(u1, env, n1).value.refreshToken == GenerateAuthTokens(u2, env, n2).value.refreshToken
        <==> u1.id == u2.id && n1 == n2
  {
    SignCollides(SubjectClaims(u1.id), SubjectClaims(u2.id), env.jwtRefreshSecret.value,
                 env.jwtRefreshSecret.value, n1, n2, SevenDays);
  }

  // ----------------------------------------------------------- collection

  /** What every write to the collection keeps: ids are positions, e-mails unique, at most five sessions. */
  predicate StoreValid(users: seq<User>) {
    && (forall i :: 0 <= i < |users| ==> users[i].id == i && |users[i].refreshTokens| <= MaxSessions)
    && (forall i, j :: 0 <= i < j < |users| ==> users[i].email != users[j].email)
  }

  /** `findOne({email})` on an already normalised address, from position `from` on. */
  function FindByEmailFrom(users: seq<User>, email: string, from: nat): (r: Option<UserId>)
    requires from <= |users|
    ensures r.Some? ==> from <= r.value < |users| && users[r.value].email == email
    ensures r.None? ==> forall j :: from <= j < |users| ==> users[j].email != email
    decreases |users| - from
  {
    if from == |users| then None
    else if users[from].email == email then Some(from)
    else FindByEmailFrom(users, email, from + 1)
  }

  /** `findOne({email: query})`: the query value goes through the same setters first. */
  function FindByEmail(users: seq<User>, query: string): (r: Option<UserId>)
    ensures r.Some? ==> r.value < |users| && users[r.value].email == NormalizeEmail(query)
    ensures r.None? <==> forall j :: 0 <= j < |users| ==> users[j].email != NormalizeEmail(query)
  {
    FindByEmailFrom(users, NormalizeEmail(query), 0)
  }

  /** `findById(id)`. */
  function FindById(users: seq<User>, id: UserId): (r: Option<User>)
    ensures r.Some? <==> id < |users|
    ensures r.Some? ==> r.value == users[id]
  {
    if id < |users| then Some(users[id]) else None
  }

  /** `findByIdAndUpdate(id, {refreshTokens edit})`: the list replaced, `updatedAt` stamped. */
  function SetTokens(users: seq<User>, id: UserId, tokens: seq<Token>, now: nat): (r: seq<User>)
    requires id < |users|
    ensures |r| == |users|
    ensures r[id] == users[id].(refreshTokens := tokens, updatedAt := now)
    ensures forall j :: 0 <= j < |users| && j != id ==> r[j] == users[j]
  {
    users[id := users[id].(refreshTokens := tokens, updatedAt := now)]
  }

  /** Editing the list of the user just appended. */
  lemma SetTokensOfLast(users: seq<User>, u: User, tokens: seq<Token>, now: nat)
    requires u.id == |users|
    ensures SetTokens(users + [u], u.id, tokens, now) == users + [u.(refreshTokens := tokens, updatedAt := now)]
  {
  }

  /** Editing one user's list within the cap keeps the collection valid. */
  lemma SetTokensValid(users: seq<User>, id: UserId, tokens: seq<Token>, now: nat)
    requires StoreValid(users) && id < |users| && |tokens| <= MaxSessions
    ensures StoreValid(SetTokens(users, id, tokens, now))
  {
    var r := SetTokens(users, id, tokens, now);
    forall i, j | 0 <= i < j < |r|
      ensures r[i].email != r[j].email
    {
      assert r[i].email == users[i].email && r[j].email == users[j].email;
    }
  }

  /** Appending a user with a fresh address at the next id keeps the collection valid. */
  lemma AppendValid(users: seq<User>, u: User)
    requires StoreValid(users) && u.id == |users| && |u.refreshTokens| <= MaxSessions
    requires FindByEmailFrom(users, u.email, 0).None?
    ensures StoreValid(users + [u])
  {
  }
}
