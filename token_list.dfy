/**
 * The edits applied to a user's `refreshTokens` array:
 *   `$push: {$each: [t], $slice: -5}`   append, then keep the last five;
 *   `$pull: t`                          remove every element equal to t;
 *   `slice(-4)` then `push(t)`          the older in-memory variant;
 *   `filter(x => x !== t)`              the older in-memory removal.
 */
module TokenList {

  /** The session cap of both server variants. */
  const MaxSessions: nat := 5

  /** `s.slice(-n)` for n > 0, and `$slice: -n`: the last n elements, or all of them. */
  function Last<T>(s: seq<T>, n: nat): (r: seq<T>)
    ensures |r| == if |s| <= n then |s| else n
    ensures r == s[|s| - |r|..]
  {
    if |s| <= n then s else s[|s| - n..]
  }

  /** `$push: {$each: [x], $slice: -cap}`. */
  function PushCapped<T>(s: seq<T>, x: T, cap: nat): (r: seq<T>)
    ensures |r| <= cap && |r| <= |s| + 1
    ensures cap >= 1 ==> r != [] && r[|r| - 1] == x
    ensures r == (s + [x])[|s| + 1 - |r|..]
    ensures forall i :: 0 <= i < |r| ==> r[i] in s || r[i] == x
  {
    Last(s + [x], cap)
  }

  /** The first push onto an empty list. */
  lemma PushCappedEmpty<T>(x: T, cap: nat)
    requires cap >= 1
    ensures PushCapped([], x, cap) == [x]
  {
  }

  /** `$pull: x`, equally `s.filter(y => y !== x)`. */
  function Pull<T(==)>(s: seq<T>, x: T): (r: seq<T>)
    ensures x !in r
    ensures |r| <= |s|
    ensures forall i :: 0 <= i < |r| ==> r[i] in s && r[i] != x
    ensures forall i :: 0 <= i < |s| && s[i] != x ==> s[i] in r
  {
    if s == [] then []
    else
      assert s == [s[0]] + s[1..];
      (if s[0] == x then [] else [s[0]]) + Pull(s[1..], x)
  }

  /** Pulling removes every copy of `x` and keeps every other element as often as it occurred. */
  lemma {:induction false} PullMultiset<T>(s: seq<T>, x: T)
    ensures multiset(Pull(s, x)) == multiset(s)[x := 0]
    decreases |s|
  {
    if s != [] {
      PullMultiset(s[1..], x);
      assert s == [s[0]] + s[1..];
      assert multiset(s) == multiset([s[0]]) + multiset(s[1..]);
    }
  }

  /** Pulling distributes over concatenation: the survivors keep their order. */
  lemma {:induction false} PullConcat<T>(a: seq<T>, b: seq<T>, x: T)
    ensures Pull(a + b, x) == Pull(a, x) + Pull(b, x)
    decreases |a|
  {
    if a != [] {
      var h := if a[0] == x then [] else [a[0]];
      assert (a + b)[0] == a[0];
      assert (a + b)[1..] == a[1..] + b;
      PullConcat(a[1..], b, x);
      PullCons(a + b, x);
      PullCons(a, x);
      assert h + (Pull(a[1..], x) + Pull(b, x)) == (h + Pull(a[1..], x)) + Pull(b, x);
    } else {
      assert a + b == b;
    }
  }

  /** Pulling from a non-empty list: its head, unless pulled, then the rest pulled. */
  lemma PullCons<T>(s: seq<T>, x: T)
    requires s != []
    ensures Pull(s, x) == (if s[0] == x then [] else [s[0]]) + Pull(s[1..], x)
  {
  }

  /** Pulling an absent element changes nothing. */
  lemma {:induction false} PullAbsent<T>(s: seq<T>, x: T)
    requires x !in s
    ensures Pull(s, x) == s
    decreases |s|
  {
    if s != [] {
      PullAbsent(s[1..], x);
      assert s == [s[0]] + s[1..];
    }
  }

  /** Pulling twice is pulling once: a repeated logout is harmless. */
  lemma PullIdempotent<T>(s: seq<T>, x: T)
    ensures Pull(Pull(s, x), x) == Pull(s, x)
  {
    PullAbsent(Pull(s, x), x);
  }

  /** Rotation (pull the presented token, then push a different one) revokes the presented token. */
  lemma RotationRevokes<T>(s: seq<T>, presented: T, issued: T, cap: nat)
    requires presented != issued
    ensures presented !in PushCapped(Pull(s, presented), issued, cap)
  {
  }

  /** If the issued token equals the presented one, rotation leaves it honoured. */
  lemma RotationToSameTokenKeepsIt<T>(s: seq<T>, t: T, cap: nat)
    requires cap >= 1
    ensures t in PushCapped(Pull(s, t), t, cap)
  {
  }

  /** Rotation never grows the list past the cap and never drops other tokens below the window. */
  lemma RotationKeepsOthers<T>(s: seq<T>, presented: T, issued: T, y: T)
    requires y in s && y != presented
    requires |Pull(s, presented)| < MaxSessions
    ensures y in PushCapped(Pull(s, presented), issued, MaxSessions)
  {
    var p := Pull(s, presented);
    assert y in p;
    var i :| 0 <= i < |p| && p[i] == y;
    assert (p + [issued])[i] == y;
  }

  /** Taking the last n twice, with elements appended in between, is taking the last n once. */
  lemma LastOfLast<T>(u: seq<T>, v: seq<T>, n: nat)
    ensures Last(Last(u, n) + v, n) == Last(u + v, n)
  {
    var l := Last(u, n);
    if |u| > n {
      assert u + v == u[..|u| - n] + (l + v);
    }
  }

  lemma ConsAfter<T>(s: seq<T>, ts: seq<T>)
    requires ts != []
    ensures s + [ts[0]] + ts[1..] == s + ts
  {
    assert [ts[0]] + ts[1..] == ts;
  }

  /** Applying `$push … $slice: -cap` once per token, in order. */
  function PushAll<T>(s: seq<T>, ts: seq<T>, cap: nat): seq<T>
    decreases |ts|
  {
    if ts == [] then s else PushAll(PushCapped(s, ts[0], cap), ts[1..], cap)
  }

  /** After any run of logins and refreshes, the list holds exactly the last `cap` tokens issued. */
  lemma {:induction false} PushAllIsLast<T>(s: seq<T>, ts: seq<T>, cap: nat)
    requires |s| <= cap
    ensures PushAll(s, ts, cap) == Last(s + ts, cap)
    decreases |ts|
  {
    if ts == [] {
      assert s + ts == s;
    } else {
      var t, rest := ts[0], ts[1..];
      var s' := Last(s + [t], cap);
      assert PushAll(s, ts, cap) == PushAll(s', rest, cap);
      PushAllIsLast(s', rest, cap);
      LastOfLast(s + [t], rest, cap);
      ConsAfter(s, ts);
    }
  }

  /** The older login's `slice(-4)` then `push` is the same edit as `$push … $slice: -5`. */
  lemma SliceThenPushIsPushCapped<T>(s: seq<T>, x: T)
    ensures Last(s, MaxSessions - 1) + [x] == PushCapped(s, x, MaxSessions)
  {
    if |s| > MaxSessions - 1 {
      assert (s + [x])[|s| + 1 - MaxSessions..] == s[|s| - (MaxSessions - 1)..] + [x];
    }
  }
}
