/**
 * A JavaScript `Map`: pairs in insertion order, no key twice. Setting a key that is
 * present keeps its position; deleting and setting again moves it to the back.
 */
module OrderedMap {
  import opened Prelude
  import opened Sequences

  datatype Pair<+K, +V> = Pair(key: K, val: V)

  ghost predicate Unique<K, V>(m: seq<Pair<K, V>>) {
    forall i, j :: 0 <= i < j < |m| ==> m[i].key != m[j].key
  }

  /** The position of `k`, or |m| when it is absent. */
  function Find<K(==), V>(m: seq<Pair<K, V>>, k: K): (i: nat)
    ensures i <= |m|
    ensures i < |m| ==> m[i].key == k
    ensures forall j :: 0 <= j < i ==> m[j].key != k
  {
    if m == [] then 0 else if m[0].key == k then 0 else 1 + Find(m[1..], k)
  }

  predicate Has<K(==), V>(m: seq<Pair<K, V>>, k: K) {
    Find(m, k) < |m|
  }

  function Lookup<K(==), V>(m: seq<Pair<K, V>>, k: K): Option<V> {
    var i := Find(m, k);
    if i < |m| then Some(m[i].val) else None
  }

  function KeyIsNot<K(==), V>(k: K): Pair<K, V> -> bool {
    (p: Pair<K, V>) => p.key != k
  }

  function Without<K(==,!new), V(!new)>(m: seq<Pair<K, V>>, k: K): seq<Pair<K, V>> {
    Filter(m, KeyIsNot(k))
  }

  function Put<K(==), V>(m: seq<Pair<K, V>>, k: K, v: V): (r: seq<Pair<K, V>>) {
    var i := Find(m, k);
    if i < |m| then m[i := Pair(k, v)] else m + [Pair(k, v)]
  }

  function Keys<K(!new), V(!new)>(m: seq<Pair<K, V>>): seq<K> {
    Map(m, KeyOf())
  }

  function KeyOf<K, V>(): Pair<K, V> -> K {
    (p: Pair<K, V>) => p.key
  }

  ghost function KeySet<K(!new), V(!new)>(m: seq<Pair<K, V>>): set<K> {
    set p | p in m :: p.key
  }

  lemma FindUnique<K, V>(m: seq<Pair<K, V>>, i: nat)
    requires Unique(m) && i < |m|
    ensures Find(m, m[i].key) == i
  {
  }

  lemma LookupIn<K(!new), V(!new)>(m: seq<Pair<K, V>>, k: K, v: V)
    requires Unique(m)
    ensures Lookup(m, k) == Some(v) <==> Pair(k, v) in m
  {
    if Pair(k, v) in m {
      var i :| 0 <= i < |m| && m[i] == Pair(k, v);
      FindUnique(m, i);
    }
  }

  lemma LookupNone<K(!new), V(!new)>(m: seq<Pair<K, V>>, k: K)
    ensures Lookup(m, k) == None <==> k !in KeySet(m)
  {
    if k in KeySet(m) {
      var p :| p in m && p.key == k;
    }
  }

  lemma {:induction false} FilterUnique<K(!new), V(!new)>(m: seq<Pair<K, V>>, p: Pair<K, V> -> bool)
    requires Unique(m)
    ensures Unique(Filter(m, p))
  {
    if m != [] {
      FilterUnique(m[1..], p);
      var rest := Filter(m[1..], p);
      FilterIn(m[1..], p);
      forall j | 0 <= j < |rest| ensures rest[j].key != m[0].key {
        assert rest[j] in m[1..];
      }
    }
  }

  lemma {:induction false} LookupFilter<K(!new), V(!new)>(m: seq<Pair<K, V>>, p: Pair<K, V> -> bool, k: K)
    requires Unique(m)
    ensures Lookup(Filter(m, p), k) ==
            if Lookup(m, k).Some? && p(Pair(k, Lookup(m, k).value)) then Lookup(m, k) else None
  {
    FilterUnique(m, p);
    FilterIn(m, p);
    match Lookup(Filter(m, p), k)
    case Some(v) =>
      LookupIn(Filter(m, p), k, v);
      LookupIn(m, k, v);
    case None =>
      if Lookup(m, k).Some? {
        var v := Lookup(m, k).value;
        LookupIn(m, k, v);
        LookupIn(Filter(m, p), k, v);
      }
  }

  lemma LookupAppend<K, V>(m: seq<Pair<K, V>>, q: Pair<K, V>, k: K)
    ensures Lookup(m + [q], k) ==
            if Lookup(m, k).Some? then Lookup(m, k) else if q.key == k then Some(q.val) else None
  {
    var i, j := Find(m, k), Find(m + [q], k);
    if i < |m| {
      assert (m + [q])[i].key == k;
    } else if j == |m| {
      assert (m + [q])[j] == q;
    } else {
      assert j == |m| + 1;
      assert (m + [q])[|m|] == q;
    }
  }

  lemma {:induction false} FindSameKeys<K, V>(m: seq<Pair<K, V>>, n: seq<Pair<K, V>>, k: K)
    requires |m| == |n| && forall i :: 0 <= i < |m| ==> m[i].key == n[i].key
    ensures Find(m, k) == Find(n, k)
  {
    if m != [] {
      FindSameKeys(m[1..], n[1..], k);
    }
  }

  lemma LookupPut<K, V>(m: seq<Pair<K, V>>, k: K, v: V, x: K)
    requires Unique(m)
    ensures Unique(Put(m, k, v))
    ensures Lookup(Put(m, k, v), x) == if x == k then Some(v) else Lookup(m, x)
  {
    var i := Find(m, k);
    if i < |m| {
      var m' := m[i := Pair(k, v)];
      assert forall j :: 0 <= j < |m| ==> m'[j].key == m[j].key;
      FindSameKeys(m, m', x);
    } else {
      LookupAppend(m, Pair(k, v), x);
    }
  }

  /** Deleting the key of row i removes exactly that row. */
  lemma {:induction false} WithoutAt<K(!new), V(!new)>(m: seq<Pair<K, V>>, i: nat)
    requires Unique(m) && i < |m|
    ensures Without(m, m[i].key) == m[..i] + m[i + 1..]
  {
    if i == 0 {
      FilterAll(m[1..], KeyIsNot(m[0].key));
    } else {
      WithoutAt(m[1..], i - 1);
      assert m[..i] + m[i + 1..] == [m[0]] + (m[1..][..i - 1] + m[1..][i..]);
    }
  }

  lemma WithoutAbsent<K(!new), V(!new)>(m: seq<Pair<K, V>>, k: K)
    requires !Has(m, k)
    ensures Without(m, k) == m
  {
    assert forall p :: p in m ==> p.key != k;
    FilterAll(m, KeyIsNot(k));
  }

  lemma {:induction false} KeySetSize<K(!new), V(!new)>(m: seq<Pair<K, V>>)
    requires Unique(m)
    ensures |KeySet(m)| == |m|
  {
    if m != [] {
      KeySetSize(m[1..]);
      assert m == [m[0]] + m[1..];
      assert KeySet(m) == {m[0].key} + KeySet(m[1..]);
      assert m[0].key !in KeySet(m[1..]);
    }
  }
}
