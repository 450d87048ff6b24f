/**
 * Where the three eviction policies agree: "access-aware" is strict LRU when it samples
 * one key and strict LFU when it samples them all, and without reads no policy differs.
 * Equal stores hold the same rows, order, hits, deadlines and eviction log.
 */
module CachePolicies {
  import opened Prelude
  import opened Sequences
  import opened OrderedMap
  import opened CacheSpec

  lemma SameVictimSameStep(c: Config, d: Config, s: Store, now: real, op: Op)
    requires c.maxEntries == d.maxEntries
    requires op.OpSet? ==> Victim(c, Drop(s, op.key).rows) == Victim(d, Drop(s, op.key).rows)
    ensures Apply(c, s, now, op) == Apply(d, s, now, op)
  {
  }

  /** Sampling one key is strict LRU, on every run from every store. */
  lemma {:induction false} SampleOneIsLru(maxEntries: nat, sampleSize: nat, s: Store, trace: seq<Event>)
    ensures Run(Config(maxEntries, AccessAware, 1), s, trace) ==
            Run(Config(maxEntries, Lru, sampleSize), s, trace)
    decreases |trace|
  {
    var c, d := Config(maxEntries, AccessAware, 1), Config(maxEntries, Lru, sampleSize);
    if trace != [] {
      SameVictimSameStep(c, d, s, trace[0].now, trace[0].op);
      SampleOneIsLru(maxEntries, sampleSize, Apply(c, s, trace[0].now, trace[0].op), trace[1..]);
    }
  }

  /** Sampling as many keys as the store can hold is strict LFU. */
  lemma {:induction false} SampleAllIsLfu(c: Config, sampleSize: nat, s: Store, trace: seq<Event>)
    requires c.Ok() && c.policy == AccessAware && c.sampleSize >= c.maxEntries && Fits(c, s)
    ensures Run(c, s, trace) == Run(Config(c.maxEntries, Lfu, sampleSize), s, trace)
    decreases |trace|
  {
    var d := Config(c.maxEntries, Lfu, sampleSize);
    if trace != [] {
      var e := trace[0];
      SameVictimSameStep(c, d, s, e.now, e.op);
      ApplyFits(c, s, e.now, e.op);
      SampleAllIsLfu(c, sampleSize, Apply(c, s, e.now, e.op), trace[1..]);
    }
  }

  // ---- without reads ----

  predicate CountsAsRead(op: Op) {
    op.OpGet? || op.OpGetWithTtl?
  }

  ghost predicate Unread(s: Store) {
    forall r :: r in s.rows ==> r.val.hits == 0
  }

  lemma UnreadVictim(c: Config, rows: seq<Row>)
    requires c.Ok() && rows != [] && forall r :: r in rows ==> r.val.hits == 0
    ensures Victim(c, rows) == Some(0)
  {
    assert rows[0] in rows && rows[Victim(c, rows).value] in rows;
  }

  lemma UnreadKept(c: Config, s: Store, now: real, op: Op)
    requires Unread(s) && !CountsAsRead(op)
    ensures Unread(Apply(c, s, now, op))
  {
    FilterIn(s.rows, LiveAt(now));
    match op
    case OpSet(key, _, _) =>
      FilterIn(s.rows, KeyIsNot(key));
      FilterIn(Drop(s, key).rows, LiveAt(now));
    case OpDelete(key) => FilterIn(s.rows, KeyIsNot(key));
    case OpDeleteByPrefix(prefix) => FilterIn(s.rows, NotUnder(prefix));
    case OpHas(key) => FilterIn(s.rows, KeyIsNot(key));
    case OpTtl(key) => FilterIn(s.rows, KeyIsNot(key));
    case _ =>
  }

  /** While nothing is read, every policy gives up the oldest row, so all runs coincide. */
  lemma {:induction false} WithoutReadsPoliciesAgree(c: Config, d: Config, s: Store, trace: seq<Event>)
    requires c.Ok() && d.Ok() && c.maxEntries == d.maxEntries && Unread(s)
    requires forall i :: 0 <= i < |trace| ==> !CountsAsRead(trace[i].op)
    ensures Run(c, s, trace) == Run(d, s, trace)
    decreases |trace|
  {
    if trace != [] {
      var e := trace[0];
      if e.op.OpSet? {
        var rest := Drop(s, e.op.key).rows;
        FilterIn(s.rows, KeyIsNot(e.op.key));
        if rest != [] {
          UnreadVictim(c, rest);
          UnreadVictim(d, rest);
        }
      }
      SameVictimSameStep(c, d, s, e.now, e.op);
      UnreadKept(c, s, e.now, e.op);
      WithoutReadsPoliciesAgree(c, d, Apply(c, s, e.now, e.op), trace[1..]);
    }
  }
}
