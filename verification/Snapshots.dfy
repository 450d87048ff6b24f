/**
 * Snapshot and restore: loading exported rows into an empty store, as a restart does from
 * disk and a replica does from its primary.
 */
module Snapshots {
  import opened Prelude
  import opened Sequences
  import opened OrderedMap
  import opened CacheSpec
  import CachePolicies

  /** Loading rows in order, one `set` each. */
  function Load(c: Config, s: Store, now: real, xs: seq<Export>): Store
    decreases |xs|
  {
    if xs == [] then s
    else
      var x := xs[|xs| - 1];
      Set(c, Load(c, s, now, xs[..|xs| - 1]), now, x.key, x.value, x.ttl)
  }

  function Reload(now: real): Export -> Row {
    (x: Export) => Pair(x.key, Entry(x.value, Deadline(now, x.ttl), 0))
  }

  function ExportKey(): Export -> string {
    (x: Export) => x.key
  }

  ghost predicate DistinctKeys(xs: seq<Export>) {
    forall i, j :: 0 <= i < j < |xs| ==> xs[i].key != xs[j].key
  }

  /** How many of n rows a store of this capacity keeps. */
  function Kept(c: Config, n: nat): (k: nat)
    ensures k <= n
  {
    if c.maxEntries < n then c.maxEntries else n
  }

  lemma LoadedAreFresh(now: real, xs: seq<Export>)
    ensures var rows := Map(xs, Reload(now));
            && Live(rows, now) == rows
            && (forall r :: r in rows ==> r.val.hits == 0)
  {
    var rows := Map(xs, Reload(now));
    forall r | r in rows ensures LiveAt(now)(r) && r.val.hits == 0 {
      var i :| 0 <= i < |rows| && rows[i] == r;
      assert rows[i] == Reload(now)(xs[i]);
    }
    FilterAll(rows, LiveAt(now));
  }

  /** One more row: appended, after dropping the oldest if the store is full. */
  lemma LoadOne(c: Config, s: Store, now: real, xs: seq<Export>, x: Export)
    requires c.Ok() && s.rows == Map(xs, Reload(now)) && |xs| <= c.maxEntries
    requires DistinctKeys(xs + [x])
    ensures var s' := Set(c, s, now, x.key, x.value, x.ttl);
            if |xs| < c.maxEntries then s' == Store(Map(xs + [x], Reload(now)), s.evicted)
            else s' == Store(Map(xs[1..] + [x], Reload(now)), s.evicted + [xs[0].key])
  {
    forall i | 0 <= i < |xs| ensures s.rows[i].key != x.key {
      assert (xs + [x])[i].key != (xs + [x])[|xs|].key;
    }
    assert !Has(s.rows, x.key);
    WithoutAbsent(s.rows, x.key);
    LoadedAreFresh(now, xs);
    if |xs| == c.maxEntries {
      CachePolicies.UnreadVictim(c, s.rows);
      assert s.rows[..0] + s.rows[1..] == Map(xs[1..], Reload(now));
    }
  }

  /** The last rows that fit; the keys of the others, oldest first. */
  function LastRows(c: Config, now: real, xs: seq<Export>): Store {
    var cut := |xs| - Kept(c, |xs|);
    Store(Map(xs[cut..], Reload(now)), Map(xs[..cut], ExportKey()))
  }

  lemma LoadNext(c: Config, now: real, xs: seq<Export>, x: Export)
    requires c.Ok() && DistinctKeys(xs + [x])
    ensures Set(c, LastRows(c, now, xs), now, x.key, x.value, x.ttl) == LastRows(c, now, xs + [x])
  {
    var n, all := |xs|, xs + [x];
    var cut := n - Kept(c, n);
    assert DistinctKeys(xs[cut..] + [x]) by {
      assert xs[cut..] + [x] == all[cut..];
    }
    LoadOne(c, LastRows(c, now, xs), now, xs[cut..], x);
    if n < c.maxEntries {
      assert xs[cut..] + [x] == all[0..] && xs[..cut] == all[..0];
    } else {
      assert xs[cut..][1..] + [x] == all[cut + 1..];
      assert xs[..cut] + [xs[cut]] == all[..cut + 1];
      MapSnoc(xs[..cut], xs[cut], ExportKey());
    }
  }

  lemma {:induction false} LoadKeepsLast(c: Config, now: real, xs: seq<Export>)
    requires c.Ok() && DistinctKeys(xs)
    ensures Load(c, EMPTY, now, xs) == LastRows(c, now, xs)
    decreases |xs|
  {
    if xs != [] {
      var n := |xs| - 1;
      LoadKeepsLast(c, now, xs[..n]);
      assert xs[..n] + [xs[n]] == xs;
      LoadNext(c, now, xs[..n], xs[n]);
    }
  }

  // ---- the round trip ----

  lemma ExportsDistinct(s: Store, now: real)
    requires Unique(s.rows)
    ensures DistinctKeys(Exports(s, now))
  {
    FilterUnique(s.rows, LiveAt(now));
  }

  /** The row that comes back for a live row: same value, the same time left from `later`,
      no reads. */
  function Restored(now: real, later: real): Row -> Row {
    (r: Row) => Pair(r.key, Entry(r.val.value,
                                  if r.val.expiresAt == None then None
                                  else Some(r.val.expiresAt.value + (later - now)), 0))
  }

  lemma RestoredRow(r: Row, now: real, later: real)
    requires !Expired(r.val, now)
    ensures Reload(later)(ToExport(now)(r)) == Restored(now, later)(r)
  {
  }

  lemma RestoredRows(live: seq<Row>, now: real, later: real)
    requires forall r :: r in live ==> !Expired(r.val, now)
    ensures Map(Map(live, ToExport(now)), Reload(later)) == Map(live, Restored(now, later))
  {
    forall r | r in live ensures Reload(later)(ToExport(now)(r)) == Restored(now, later)(r) {
      RestoredRow(r, now, later);
    }
    MapCompose(live, ToExport(now), Reload(later), Restored(now, later));
  }

  lemma ExportedKeys(live: seq<Row>, now: real)
    ensures Map(Map(live, ToExport(now)), ExportKey()) == Keys(live)
  {
  }

  lemma LastRowsOfExport(c: Config, live: seq<Row>, now: real, later: real)
    requires forall r :: r in live ==> !Expired(r.val, now)
    ensures var cut := |live| - Kept(c, |live|);
            LastRows(c, later, Map(live, ToExport(now))) ==
            Store(Map(live[cut..], Restored(now, later)), Keys(live[..cut]))
  {
    var xs := Map(live, ToExport(now));
    var cut := |live| - Kept(c, |live|);
    RestoredRows(live[cut..], now, later);
    MapDrop(live, ToExport(now), cut);
    ExportedKeys(live[..cut], now);
  }

  /** Exporting at `now` and loading at `later` into an empty store keeps exactly the most
      recent rows that fit, in recency order, each with the time it had left and no reads;
      the rest are evicted oldest first. Every policy does the same. */
  lemma {:induction false} SnapshotRoundTrip(c: Config, s: Store, now: real, later: real)
    requires c.Ok() && Unique(s.rows)
    ensures var live := Live(s.rows, now);
            var cut := |live| - Kept(c, |live|);
            Load(c, EMPTY, later, Exports(s, now)) ==
            Store(Map(live[cut..], Restored(now, later)), Keys(live[..cut]))
  {
    ExportsDistinct(s, now);
    LoadKeepsLast(c, later, Exports(s, now));
    FilterIn(s.rows, LiveAt(now));
    LastRowsOfExport(c, Live(s.rows, now), now, later);
  }

  lemma ExportReloaded(live: seq<Row>, now: real, x: Export)
    requires forall r :: r in live ==> !Expired(r.val, now)
    requires x in Map(live, ToExport(now))
    ensures ToExport(now)(Reload(now)(x)) == x
  {
    var i :| 0 <= i < |live| && Map(live, ToExport(now))[i] == x;
    assert live[i] in live && x == ToExport(now)(live[i]);
  }

  /** At one instant nothing but the hit counts is lost: what is exported again is the tail of
      what was exported, TTLs and all, so a key with a deadline never becomes permanent. */
  lemma {:induction false} SnapshotSameInstant(c: Config, s: Store, now: real)
    requires c.Ok() && Unique(s.rows)
    ensures var xs := Exports(s, now);
            Exports(Load(c, EMPTY, now, xs), now) == xs[|xs| - Kept(c, |xs|)..]
  {
    var live, xs := Live(s.rows, now), Exports(s, now);
    var cut := |xs| - Kept(c, |xs|);
    var tail := xs[cut..];
    ExportsDistinct(s, now);
    LoadKeepsLast(c, now, xs);
    assert Load(c, EMPTY, now, xs).rows == Map(tail, Reload(now));
    FilterIn(s.rows, LiveAt(now));
    TailReloaded(live, now, xs, cut);
    LoadedAreFresh(now, tail);
  }

  lemma TailReloaded(live: seq<Row>, now: real, xs: seq<Export>, cut: nat)
    requires xs == Map(live, ToExport(now)) && (forall r :: r in live ==> !Expired(r.val, now)) && cut <= |xs|
    ensures Map(Map(xs[cut..], Reload(now)), ToExport(now)) == xs[cut..]
  {
    forall x | x in xs[cut..] ensures ToExport(now)(Reload(now)(x)) == x {
      ExportReloaded(live, now, x);
    }
    MapBack(xs[cut..], Reload(now), ToExport(now));
  }
}
