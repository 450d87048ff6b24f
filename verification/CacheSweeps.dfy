/**
 * When the sweeper runs cannot be seen: sweeps may be added to or removed from a run
 * anywhere without changing what any read answers or which keys are evicted.
 */
module CacheSweeps {
  import opened Prelude
  import opened Sequences
  import opened OrderedMap
  import opened CacheSpec

  /** The operations whose answers count as observations. `delete`, `deleteByPrefix`,
      `size` and `sweep` report how many raw rows they met, expired ones included. */
  predicate Observable(op: Op) {
    match op
    case OpGet(_) => true
    case OpGetWithTtl(_) => true
    case OpHas(_) => true
    case OpTtl(_) => true
    case OpAccessCount(_) => true
    case OpKeys => true
    case OpDetailedKeys => true
    case OpExportEntries => true
    case OpEvictions => true
    case _ => false
  }

  function Observed(s: Store, e: Event): seq<Out> {
    if Observable(e.op) then [Answer(s, e.now, e.op)] else []
  }

  function Observations(c: Config, s: Store, trace: seq<Event>): seq<Out>
    decreases |trace|
  {
    if trace == [] then []
    else Observed(s, trace[0]) + Observations(c, Apply(c, s, trace[0].now, trace[0].op), trace[1..])
  }

  function NotSweep(): Event -> bool {
    (e: Event) => !e.op.OpSweep?
  }

  function WithoutSweeps(trace: seq<Event>): seq<Event> {
    Filter(trace, NotSweep())
  }

  // ---- one operation on a store and on its purged self ----

  lemma FilterLive(rows: seq<Row>, now: real, p: Row -> bool)
    ensures Live(Filter(rows, p), now) == Filter(Live(rows, now), p)
  {
    FilterCommutes(rows, p, LiveAt(now));
  }

  lemma LiveIdempotent(rows: seq<Row>, now: real)
    ensures Live(Live(rows, now), now) == Live(rows, now)
  {
    PurgeTwice(rows, now, now);
  }

  /** Dropping an expired row is invisible after a purge. */
  lemma DropExpired(s: Store, now: real, key: string)
    requires Unique(s.rows)
    requires Peek(s, now, key) == None
    ensures Live(Without(s.rows, key), now) == Live(s.rows, now)
    ensures !Has(Live(s.rows, now), key)
  {
    LookupLive(s, now, key);
    WithoutAbsent(Live(s.rows, now), key);
    FilterLive(s.rows, now, KeyIsNot(key));
  }

  lemma PurgeAppend(s: Store, now: real, key: string, e: Entry)
    ensures Live(Append(s, key, e).rows, now) ==
            Live(s.rows, now) + (if Expired(e, now) then [] else [Pair(key, e)])
  {
    FilterAppend(s.rows, [Pair(key, e)], LiveAt(now));
  }

  /** A full store with nothing expired equals any fitting store with the same live rows. */
  lemma FullIsPurged(s: Store, now: real)
    requires |Live(s.rows, now)| >= |s.rows|
    ensures Live(s.rows, now) == s.rows
  {
    FilterFull(s.rows, LiveAt(now));
  }

  lemma RoomPurge(c: Config, s: Store, now: real)
    requires c.Ok() && Fits(c, s)
    ensures var room, room' := MakeRoom(c, s, now), MakeRoom(c, Purge(s, now), now);
            Purge(room, now) == Purge(room', now)
  {
    LiveIdempotent(s.rows, now);
    if |Live(s.rows, now)| == |s.rows| {
      FullIsPurged(s, now);
    }
  }

  lemma SetPurge(c: Config, s: Store, now: real, key: string, value: string, ttl: Option<real>)
    requires c.Ok() && Fits(c, s)
    ensures Purge(Set(c, s, now, key, value, ttl), now) ==
            Purge(Set(c, Purge(s, now), now, key, value, ttl), now)
  {
    var d := Drop(s, key);
    FilterUnique(s.rows, KeyIsNot(key));
    FilterLive(s.rows, now, KeyIsNot(key));
    assert Drop(Purge(s, now), key) == Purge(d, now);
    RoomPurge(c, d, now);
    var e := Entry(value, Deadline(now, ttl), 0);
    PurgeAppend(MakeRoom(c, d, now), now, key, e);
    PurgeAppend(MakeRoom(c, Purge(d, now), now), now, key, e);
  }

  lemma DropPurge(s: Store, now: real, key: string)
    ensures Live(Drop(s, key).rows, now) == Live(Drop(Purge(s, now), key).rows, now)
  {
    RowFilterPurge(s.rows, now, KeyIsNot(key));
  }

  lemma TouchPurge(s: Store, now: real, key: string)
    requires Unique(s.rows)
    ensures Purge(Touch(s, now, key), now) == Purge(Touch(Purge(s, now), now, key), now)
  {
    PeekPurge(s, now, key);
    DropPurge(s, now, key);
    match Peek(s, now, key)
    case None =>
    case Some(e) =>
      PurgeAppend(Drop(s, key), now, key, e.(hits := e.hits + 1));
      PurgeAppend(Drop(Purge(s, now), key), now, key, e.(hits := e.hits + 1));
  }

  lemma ProbePurge(s: Store, now: real, key: string)
    requires Unique(s.rows)
    ensures Purge(Probe(s, now, key), now) == Purge(s, now)
  {
    if Peek(s, now, key) == None {
      DropExpired(s, now, key);
    }
  }

  lemma ProbeTwice(s: Store, now: real, key: string)
    requires Unique(s.rows)
    ensures Purge(Probe(s, now, key), now) == Purge(Probe(Purge(s, now), now, key), now)
  {
    FilterUnique(s.rows, LiveAt(now));
    ProbePurge(s, now, key);
    ProbePurge(Purge(s, now), now, key);
    LiveIdempotent(s.rows, now);
  }

  /** Every operation commutes with purging, up to purging again. */
  lemma ApplyPurge(c: Config, s: Store, now: real, op: Op)
    requires c.Ok() && Fits(c, s)
    ensures Purge(Apply(c, s, now, op), now) == Purge(Apply(c, Purge(s, now), now, op), now)
  {
    match op
    case OpSet(key, value, ttl) => SetPurge(c, s, now, key, value, ttl);
    case OpGet(key) => TouchPurge(s, now, key);
    case OpGetWithTtl(key) => TouchPurge(s, now, key);
    case OpHas(key) => ProbeTwice(s, now, key);
    case OpTtl(key) => ProbeTwice(s, now, key);
    case OpDelete(key) => DropPurge(s, now, key);
    case OpDeleteByPrefix(prefix) => RowFilterPurge(s.rows, now, NotUnder(prefix));
    case _ => LiveIdempotent(s.rows, now);
  }

  lemma RowFilterPurge(rows: seq<Row>, now: real, p: Row -> bool)
    ensures Live(Filter(rows, p), now) == Live(Filter(Live(rows, now), p), now)
  {
    FilterLive(rows, now, p);
    FilterLive(Live(rows, now), now, p);
    LiveIdempotent(rows, now);
  }

  lemma AnswerPurge(s: Store, now: real, op: Op)
    requires Unique(s.rows) && Observable(op)
    ensures Answer(s, now, op) == Answer(Purge(s, now), now, op)
  {
    LiveIdempotent(s.rows, now);
    match op
    case OpGet(key) => PeekPurge(s, now, key);
    case OpGetWithTtl(key) => PeekPurge(s, now, key);
    case OpHas(key) => PeekPurge(s, now, key);
    case OpTtl(key) => PeekPurge(s, now, key);
    case OpAccessCount(key) => PeekPurge(s, now, key);
    case _ =>
  }

  // ---- whole runs ----

  /** Two stores that differ only in expired rows still lying about. */
  ghost predicate Alike(c: Config, s: Store, t: Store, now: real) {
    Fits(c, s) && Fits(c, t) && Purge(s, now) == Purge(t, now)
  }

  lemma AlikeLater(c: Config, s: Store, t: Store, now: real, later: real)
    requires Alike(c, s, t, now) && now <= later
    ensures Alike(c, s, t, later)
  {
    PurgeTwice(s.rows, now, later);
    PurgeTwice(t.rows, now, later);
  }

  lemma AlikeStep(c: Config, s: Store, t: Store, now: real, op: Op)
    requires c.Ok() && Alike(c, s, t, now)
    ensures Alike(c, Apply(c, s, now, op), Apply(c, t, now, op), now)
    ensures Observed(s, Event(now, op)) == Observed(t, Event(now, op))
  {
    ApplyPurge(c, s, now, op);
    ApplyPurge(c, t, now, op);
    ApplyFits(c, s, now, op);
    ApplyFits(c, t, now, op);
    if Observable(op) {
      AnswerPurge(s, now, op);
      AnswerPurge(t, now, op);
    }
  }

  lemma AlikeSweep(c: Config, s: Store, t: Store, now: real)
    requires c.Ok() && Alike(c, s, t, now)
    ensures Alike(c, Purge(s, now), t, now)
  {
    LiveIdempotent(s.rows, now);
    FilterUnique(s.rows, LiveAt(now));
  }

  lemma RunHead(c: Config, s: Store, e: Event, rest: seq<Event>)
    ensures Run(c, s, [e] + rest) == Run(c, Apply(c, s, e.now, e.op), rest)
    ensures Observations(c, s, [e] + rest) ==
            Observed(s, e) + Observations(c, Apply(c, s, e.now, e.op), rest)
  {
    assert ([e] + rest)[1..] == rest;
  }

  lemma SweepHead(e: Event, rest: seq<Event>)
    ensures WithoutSweeps([e] + rest) == if e.op.OpSweep? then WithoutSweeps(rest) else [e] + WithoutSweeps(rest)
  {
    assert ([e] + rest)[1..] == rest;
  }

  lemma TailInRange(start: real, finish: real, e: Event, rest: seq<Event>)
    requires Monotone([e] + rest) && Between(start, finish, [e] + rest)
    ensures Monotone(rest) && Between(e.now, finish, rest) && start <= e.now <= finish
  {
    var trace := [e] + rest;
    assert trace[0] == e;
    assert forall i :: 0 <= i < |rest| ==> rest[i] == trace[i + 1];
  }

  lemma {:induction false} SweepsErased(c: Config, s: Store, t: Store, start: real, finish: real, trace: seq<Event>)
    requires c.Ok() && Alike(c, s, t, start) && start <= finish
    requires Monotone(trace) && Between(start, finish, trace)
    ensures Observations(c, s, trace) == Observations(c, t, WithoutSweeps(trace))
    ensures Alike(c, Run(c, s, trace), Run(c, t, WithoutSweeps(trace)), finish)
    decreases |trace|
  {
    if trace == [] {
      AlikeLater(c, s, t, start, finish);
    } else {
      var e, rest := trace[0], trace[1..];
      assert trace == [e] + rest;
      TailInRange(start, finish, e, rest);
      AlikeLater(c, s, t, start, e.now);
      RunHead(c, s, e, rest);
      SweepHead(e, rest);
      if e.op.OpSweep? {
        AlikeSweep(c, s, t, e.now);
        SweepsErased(c, Purge(s, e.now), t, e.now, finish, rest);
      } else {
        AlikeStep(c, s, t, e.now, e.op);
        SweepsErased(c, Apply(c, s, e.now, e.op), Apply(c, t, e.now, e.op), e.now, finish, rest);
        RunHead(c, t, e, WithoutSweeps(rest));
      }
    }
  }

  /** Two runs that are the same but for their sweeps read the same answers throughout,
      evict the same keys in the same order and end with the same live rows. */
  lemma {:induction false} SweepTimingUnobservable(c: Config, s: Store, start: real, finish: real, a: seq<Event>, b: seq<Event>)
    requires c.Ok() && Fits(c, s) && start <= finish
    requires Monotone(a) && Between(start, finish, a)
    requires Monotone(b) && Between(start, finish, b)
    requires WithoutSweeps(a) == WithoutSweeps(b)
    ensures Observations(c, s, a) == Observations(c, s, b)
    ensures Run(c, s, a).evicted == Run(c, s, b).evicted
    ensures Live(Run(c, s, a).rows, finish) == Live(Run(c, s, b).rows, finish)
  {
    SweepsErased(c, s, s, start, finish, a);
    SweepsErased(c, s, s, start, finish, b);
  }
}
