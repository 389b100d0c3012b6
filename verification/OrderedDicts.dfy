/** Ordered dictionaries: items in insertion order, keys unique.  Storing under an existing key keeps
    the item's place. */
module OrderedDicts {
  type Dict<K(==), V> = seq<(K, V)>

  ghost predicate Unique<K, V>(d: Dict<K, V>) {
    forall i, j :: 0 <= i < j < |d| ==> d[i].0 != d[j].0
  }

  /** The place of a key; the length when it is absent. */
  function Index<K(==), V>(d: Dict<K, V>, k: K): (i: nat)
    ensures i <= |d|
    ensures i < |d| ==> d[i].0 == k
    ensures forall j :: 0 <= j < i ==> d[j].0 != k
  {
    if d == [] || d[0].0 == k then 0 else Index(d[1..], k) + 1
  }

  predicate Has<K(==), V>(d: Dict<K, V>, k: K) {
    Index(d, k) < |d|
  }

  function Get<K(==), V>(d: Dict<K, V>, k: K): V
    requires Has(d, k)
  {
    d[Index(d, k)].1
  }

  function Put<K(==), V>(d: Dict<K, V>, k: K, v: V): (r: Dict<K, V>)
    ensures Has(r, k) && Index(r, k) == Index(d, k) && Get(r, k) == v
    ensures Unique(d) ==> Unique(r)
  {
    var i := Index(d, k);
    var r := if i < |d| then d[i := (k, v)] else d + [(k, v)];
    assert r[i].0 == k && forall j :: 0 <= j < i ==> r[j] == d[j];
    r
  }

  /** Storing under one key leaves the others alone. */
  lemma {:induction false} PutOther<K, V>(d: Dict<K, V>, k: K, v: V, x: K)
    requires x != k
    ensures Has(Put(d, k, v), x) <==> Has(d, x)
    ensures Has(d, x) ==> Get(Put(d, k, v), x) == Get(d, x)
  {
    var r := Put(d, k, v);
    var i := Index(d, x);
    if i < |d| {
      assert r[i] == d[i] && forall j | 0 <= j < i :: r[j].0 != x;
    } else {
      assert forall j | 0 <= j < |r| :: r[j].0 != x;
    }
  }

  function Drop<K(==), V>(d: Dict<K, V>, i: nat): (r: Dict<K, V>)
    requires i < |d|
    ensures Unique(d) ==> Unique(r) && forall j :: 0 <= j < |r| ==> r[j].0 != d[i].0
  {
    d[..i] + d[i + 1..]
  }

  /** `move_to_end()` */
  function ToEnd<K(==), V>(d: Dict<K, V>, k: K): (r: Dict<K, V>)
    requires Has(d, k)
    ensures Unique(d) ==> Unique(r)
  {
    Drop(d, Index(d, k)) + [d[Index(d, k)]]
  }

  /** Storing under an existing key and moving the item to the end. */
  function PutLast<K(==), V>(d: Dict<K, V>, k: K, v: V): (r: Dict<K, V>)
    requires Has(d, k)
    ensures r == Drop(d, Index(d, k)) + [(k, v)]
    ensures Unique(d) ==> Unique(r)
  {
    var p := Put(d, k, v);
    assert Drop(p, Index(p, k)) == Drop(d, Index(d, k));
    ToEnd(p, k)
  }

  /** Where the items of the result come from. */
  lemma PutLastAt<K, V>(d: Dict<K, V>, k: K, v: V, j: nat)
    requires Has(d, k) && j < |d|
    ensures |PutLast(d, k, v)| == |d|
    ensures PutLast(d, k, v)[j]
            == if j == |d| - 1 then (k, v) else if j < Index(d, k) then d[j] else d[j + 1]
  {
  }

  /** Storing items one after the other. */
  function PutAll<K(==), V>(d: Dict<K, V>, items: Dict<K, V>): Dict<K, V>
    decreases |items|
  {
    if items == [] then d else PutAll(Put(d, items[0].0, items[0].1), items[1..])
  }

  lemma {:induction false} PutAllAppend<K, V>(d: Dict<K, V>, items: Dict<K, V>, k: K, v: V)
    ensures PutAll(d, items + [(k, v)]) == Put(PutAll(d, items), k, v)
    decreases |items|
  {
    if items == [] {
      assert items + [(k, v)] == [(k, v)];
    } else {
      PutAllAppend(Put(d, items[0].0, items[0].1), items[1..], k, v);
      assert (items + [(k, v)])[1..] == items[1..] + [(k, v)];
    }
  }
}
