/**
 * A unique MongoDB index over a collection: a document whose key is already
 * stored is refused (duplicate key error E11000), any other is appended.
 * Documents are values and the collection is the sequence of them in
 * insertion order.
 */
module UniqueIndex {
  import opened Wrappers

  /** The code MongoDB reports for a unique-index violation. */
  const DuplicateKeyCode: nat := 11000

  predicate KeysDistinct<T, K(==)>(docs: seq<T>, key: T -> K) {
    forall i, j :: 0 <= i < j < |docs| ==> key(docs[i]) != key(docs[j])
  }

  predicate KeyTaken<T, K(==)>(docs: seq<T>, key: T -> K, k: K) {
    exists i :: 0 <= i < |docs| && key(docs[i]) == k
  }

  /** `insertOne(d)` under the index: `None` for a duplicate key, the new collection otherwise. */
  function Insert<T, K(==)>(docs: seq<T>, key: T -> K, d: T): (r: Option<seq<T>>)
    ensures r.None? <==> KeyTaken(docs, key, key(d))
    ensures r.Some? ==> r.value == docs + [d]
    ensures KeysDistinct(docs, key) && r.Some? ==> KeysDistinct(r.value, key)
  {
    if exists i :: 0 <= i < |docs| && key(docs[i]) == key(d) then None
    else
      var r := docs + [d];
      assert forall i :: 0 <= i < |docs| ==> r[i] == docs[i];
      Some(r)
  }

  /** Under the index no two stored documents share a key. */
  lemma AtMostOne<T, K>(docs: seq<T>, key: T -> K, i: nat, j: nat)
    requires KeysDistinct(docs, key)
    requires i < |docs| && j < |docs| && key(docs[i]) == key(docs[j])
    ensures i == j
  {
  }
}
