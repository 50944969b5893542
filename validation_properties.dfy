/**
 * What the grouping of issues promises: the keys are exactly the joined
 * paths met, each key holds the messages of its issues in issue order, and
 * no message is lost or counted twice.
 */
module ValidationProperties {
  import opened Wrappers
  import opened Text
  import opened Zod
  import opened Validation

  /** The messages of the issues whose path joins to `k`, in issue order. */
  function MessagesAt(issues: seq<Issue>, k: string): seq<string> {
    if issues == [] then []
    else (if JoinPath(issues[0].path) == k then [issues[0].message] else []) + MessagesAt(issues[1..], k)
  }

  lemma {:induction false} MessagesAtAppend(issues: seq<Issue>, x: Issue, k: string)
    ensures MessagesAt(issues + [x], k) == MessagesAt(issues, k) + (if JoinPath(x.path) == k then [x.message] else [])
  {
    if issues == [] {
      assert [x][1..] == [];
    } else {
      assert (issues + [x])[1..] == issues[1..] + [x];
      MessagesAtAppend(issues[1..], x, k);
    }
  }

  /** The keys of the record are exactly the joined paths of the issues. */
  lemma {:induction false} GroupedKeys(issues: seq<Issue>, k: string)
    ensures k in Grouped(issues) <==> exists i :: 0 <= i < |issues| && JoinPath(issues[i].path) == k
  {
    if issues != [] {
      var init := issues[..|issues| - 1];
      GroupedKeys(init, k);
      if k in Grouped(init) {
        var i :| 0 <= i < |init| && JoinPath(init[i].path) == k;
        assert issues[i] == init[i];
      }
      if exists i :: 0 <= i < |issues| && JoinPath(issues[i].path) == k {
        var i :| 0 <= i < |issues| && JoinPath(issues[i].path) == k;
        if i < |init| {
          assert init[i] == issues[i];
        }
      }
    }
  }

  /** Under each key, the messages of exactly its issues, in the order of the issues. */
  lemma {:induction false} GroupedMessages(issues: seq<Issue>, k: string)
    ensures k in Grouped(issues) ==> Grouped(issues)[k] == MessagesAt(issues, k)
    ensures k !in Grouped(issues) ==> MessagesAt(issues, k) == []
  {
    if issues != [] {
      var init := issues[..|issues| - 1];
      var x := issues[|issues| - 1];
      assert init + [x] == issues;
      GroupedMessages(init, k);
      MessagesAtAppend(init, x, k);
    }
  }

  /** The keys in creation order: each key once, and no other. */
  lemma {:induction false} KeyOrderIsKeys(issues: seq<Issue>)
    ensures forall k :: k in KeyOrder(issues) <==> k in Grouped(issues)
    ensures forall i, j :: 0 <= i < j < |KeyOrder(issues)| ==> KeyOrder(issues)[i] != KeyOrder(issues)[j]
  {
    if issues != [] {
      KeyOrderIsKeys(issues[..|issues| - 1]);
    }
  }

  /** The number of messages under the keys of `order`. */
  function Total(order: seq<string>, errors: map<string, seq<string>>): nat
    requires forall k :: k in order ==> k in errors
  {
    if order == [] then 0 else |errors[order[0]]| + Total(order[1..], errors)
  }

  lemma {:induction false} TotalOtherKeys(order: seq<string>, errors: map<string, seq<string>>, p: string, v: seq<string>)
    requires forall k :: k in order ==> k in errors
    requires p !in order
    ensures Total(order, errors[p := v]) == Total(order, errors)
  {
    if order != [] {
      TotalOtherKeys(order[1..], errors, p, v);
    }
  }

  lemma {:induction false} TotalAppendKey(order: seq<string>, errors: map<string, seq<string>>, p: string)
    requires forall k :: k in order ==> k in errors
    requires p in errors
    ensures Total(order + [p], errors) == Total(order, errors) + |errors[p]|
  {
    if order == [] {
      assert [p][1..] == [];
    } else {
      assert (order + [p])[1..] == order[1..] + [p];
      TotalAppendKey(order[1..], errors, p);
    }
  }

  lemma {:induction false} TotalGrowOnce(order: seq<string>, errors: map<string, seq<string>>, p: string, m: string)
    requires forall k :: k in order ==> k in errors
    requires forall i, j :: 0 <= i < j < |order| ==> order[i] != order[j]
    requires p in order
    ensures Total(order, errors[p := errors[p] + [m]]) == Total(order, errors) + 1
  {
    if order[0] == p {
      assert p !in order[1..] by {
        forall j | 0 <= j < |order[1..]| ensures order[1..][j] != p {
          assert order[1..][j] == order[j + 1];
        }
      }
      TotalOtherKeys(order[1..], errors, p, errors[p] + [m]);
    } else {
      TotalGrowOnce(order[1..], errors, p, m);
    }
  }

  /** Every issue contributes exactly one message to the record. */
  lemma {:induction false} GroupedCount(issues: seq<Issue>)
    ensures (forall k :: k in KeyOrder(issues) ==> k in Grouped(issues))
         && Total(KeyOrder(issues), Grouped(issues)) == |issues|
  {
    KeyOrderIsKeys(issues);
    if issues != [] {
      var init := issues[..|issues| - 1];
      var x := issues[|issues| - 1];
      var path := JoinPath(x.path);
      var order := KeyOrder(init);
      var errors := Grouped(init);
      GroupedCount(init);
      KeyOrderIsKeys(init);
      if path in order {
        TotalGrowOnce(order, errors, path, x.message);
      } else {
        var v := [x.message];
        assert path !in errors;
        assert [] + [x.message] == v;
        assert Grouped(issues) == errors[path := v];
        assert KeyOrder(issues) == order + [path];
        TotalOtherKeys(order, errors, path, v);
        TotalAppendKey(order, errors[path := v], path);
      }
    }
  }

  /** Paths join with dots, array indices as decimals. */
  lemma JoinExample()
    ensures JoinPath([Key("items"), Index(0), Key("name")]) == "items.0.name"
  {
    var p := [Key("items"), Index(0), Key("name")];
    assert p[..2][..1] == [Key("items")];
    assert Decimal(0) == "0";
  }

  /** A key containing a dot joins like the nested path it spells, so their messages share one entry. */
  lemma DottedKeyMerges(m1: string, m2: string)
    ensures Grouped([Issue([Key("a.b")], m1), Issue([Key("a"), Key("b")], m2)]) == map["a.b" := [m1, m2]]
  {
    var a := [Issue([Key("a.b")], m1)];
    var issues := a + [Issue([Key("a"), Key("b")], m2)];
    assert issues[..1] == a;
    assert a[..0] == [];
    assert JoinPath([Key("a.b")]) == "a.b";
    assert [] + [m1] == [m1];
    assert Grouped(a) == map["a.b" := [m1]];
    assert [Key("a"), Key("b")][..1] == [Key("a")];
    assert JoinPath([Key("a"), Key("b")]) == "a.b";
    assert [m1] + [m2] == [m1, m2];
  }
}
