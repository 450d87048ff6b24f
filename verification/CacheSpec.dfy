/**
 * What each CacheStore operation does to the store, as functions. A store is its rows in
 * recency order (least recently used first) and the log of keys it has evicted; the
 * eviction counter is the length of that log. `now` is the clock in milliseconds, one
 * reading per operation; TTLs are in seconds.
 */
module CacheSpec {
  import opened Prelude
  import opened Sequences
  import opened OrderedMap

  datatype Entry = Entry(value: string, expiresAt: Option<real>, hits: nat)
  type Row = Pair<string, Entry>

  datatype Policy = Lru | AccessAware | Lfu
  datatype Config = Config(maxEntries: nat, policy: Policy, sampleSize: nat) {
    /** The bounds the node's environment parsing enforces. */
    predicate Ok() {
      maxEntries >= 1 && sampleSize >= 1
    }
  }

  datatype Store = Store(rows: seq<Row>, evicted: seq<string>)

  const EMPTY := Store([], [])

  ghost predicate Fits(c: Config, s: Store) {
    Unique(s.rows) && |s.rows| <= c.maxEntries
  }

  // ---- expiry ----

  predicate Expired(e: Entry, now: real) {
    e.expiresAt.Some? && now >= e.expiresAt.value
  }

  function LiveAt(now: real): Row -> bool {
    (r: Row) => !Expired(r.val, now)
  }

  function Live(rows: seq<Row>, now: real): seq<Row> {
    Filter(rows, LiveAt(now))
  }

  function Deadline(now: real, ttl: Option<real>): Option<real> {
    if ttl.Some? && ttl.value > 0.0 then Some(now + ttl.value * 1000.0) else None
  }

  function Remaining(e: Entry, now: real): Option<real> {
    if e.expiresAt == None then None
    else Some(if e.expiresAt.value - now > 0.0 then (e.expiresAt.value - now) / 1000.0 else 0.0)
  }

  // ---- eviction ----

  /** The first of the least-read rows among the first w. */
  function Coldest(rows: seq<Row>, w: nat): (i: nat)
    requires 0 < w <= |rows|
    ensures i < w
    ensures forall j :: 0 <= j < w ==> rows[i].val.hits <= rows[j].val.hits
    ensures forall j :: 0 <= j < i ==> rows[i].val.hits < rows[j].val.hits
  {
    if w == 1 then 0
    else
      var i := Coldest(rows, w - 1);
      if rows[w - 1].val.hits < rows[i].val.hits then w - 1 else i
  }

  /** How many rows from the cold end "access-aware" may choose from. */
  function Sampled(c: Config, n: nat): nat {
    if c.sampleSize < n then c.sampleSize else n
  }

  /** The row the policy gives up, if it looks at any. */
  function Victim(c: Config, rows: seq<Row>): (v: Option<nat>)
    ensures v.Some? ==> v.value < |rows|
  {
    if rows == [] then None
    else match c.policy
      case Lru => Some(0)
      case Lfu => Some(Coldest(rows, |rows|))
      case AccessAware =>
        var w := Sampled(c, |rows|);
        if w == 0 then None else Some(Coldest(rows, w))
  }

  function EvictAt(s: Store, i: nat): Store
    requires i < |s.rows|
  {
    Store(s.rows[..i] + s.rows[i + 1..], s.evicted + [s.rows[i].key])
  }

  function ByPolicy(c: Config, s: Store): Store {
    match Victim(c, s.rows)
    case None => s
    case Some(i) => EvictAt(s, i)
  }

  function Evict(c: Config, s: Store, now: real): Store {
    if |Live(s.rows, now)| < |s.rows| then s.(rows := Live(s.rows, now)) else ByPolicy(c, s)
  }

  // ---- operations ----

  function Purge(s: Store, now: real): Store {
    s.(rows := Live(s.rows, now))
  }

  /** `s` with room for one more row. */
  function MakeRoom(c: Config, s: Store, now: real): Store {
    if |s.rows| >= c.maxEntries then Evict(c, s, now) else s
  }

  function Drop(s: Store, key: string): Store {
    s.(rows := Without(s.rows, key))
  }

  function Append(s: Store, key: string, e: Entry): Store {
    s.(rows := s.rows + [Pair(key, e)])
  }

  /** The deadline counts from one reading of the clock, room is made at a later one. */
  function SetAt(
    c: Config, s: Store, now: real, later: real, key: string, value: string, ttl: Option<real>): Store
  {
    Append(MakeRoom(c, Drop(s, key), later), key, Entry(value, Deadline(now, ttl), 0))
  }

  /** A set within one instant. */
  function Set(c: Config, s: Store, now: real, key: string, value: string, ttl: Option<real>): Store {
    SetAt(c, s, now, now, key, value, ttl)
  }

  /** The live entry of `key`, if any. */
  function Peek(s: Store, now: real, key: string): Option<Entry> {
    var e := Lookup(s.rows, key);
    if e.Some? && !Expired(e.value, now) then e else None
  }

  /** A read that counts: a hit moves to the back with one more hit, an expired row goes. */
  function Touch(s: Store, now: real, key: string): Store {
    match Peek(s, now, key)
    case None => Drop(s, key)
    case Some(e) => Append(Drop(s, key), key, e.(hits := e.hits + 1))
  }

  /** A read that does not count: only an expired row goes. */
  function Probe(s: Store, now: real, key: string): Store {
    if Peek(s, now, key).Some? then s else Drop(s, key)
  }

  predicate StartsWith(key: string, prefix: string) {
    prefix <= key
  }

  function NotUnder(prefix: string): Row -> bool {
    (r: Row) => !StartsWith(r.key, prefix)
  }

  function DropPrefix(s: Store, prefix: string): Store {
    s.(rows := Filter(s.rows, NotUnder(prefix)))
  }

  datatype Detail = Detail(key: string, hits: nat, ttl: Option<real>)
  datatype Export = Export(key: string, value: string, ttl: Option<real>)

  function ToDetail(now: real): Row -> Detail {
    (r: Row) => Detail(r.key, r.val.hits, Remaining(r.val, now))
  }

  function ToExport(now: real): Row -> Export {
    (r: Row) => Export(r.key, r.val.value, Remaining(r.val, now))
  }

  function Exports(s: Store, now: real): seq<Export> {
    Map(Live(s.rows, now), ToExport(now))
  }

  // ---- one operation of a run ----

  datatype Op =
    | OpSet(key: string, value: string, ttl: Option<real>)
    | OpGet(key: string)
    | OpGetWithTtl(key: string)
    | OpDelete(key: string)
    | OpDeleteByPrefix(prefix: string)
    | OpHas(key: string)
    | OpTtl(key: string)
    | OpAccessCount(key: string)
    | OpKeys
    | OpDetailedKeys
    | OpExportEntries
    | OpSize
    | OpEvictions
    | OpClear
    | OpSweep

  /** The operations a primary forwards to its replicas. */
  predicate IsWrite(op: Op) {
    op.OpSet? || op.OpDelete? || op.OpDeleteByPrefix? || op.OpClear?
  }

  datatype Out =
    | Done
    | Hit(value: Option<string>)
    | HitWithTtl(hit: Option<(string, Option<real>)>)
    | Flag(flag: bool)
    | Count(count: nat)
    | MaybeTtl(ttl: Option<real>)
    | MaybeHits(hits: Option<nat>)
    | KeyList(keys: seq<string>)
    | Details(details: seq<Detail>)
    | Rows(exports: seq<Export>)

  function Apply(c: Config, s: Store, now: real, op: Op): Store {
    match op
    case OpSet(key, value, ttl) => Set(c, s, now, key, value, ttl)
    case OpGet(key) => Touch(s, now, key)
    case OpGetWithTtl(key) => Touch(s, now, key)
    case OpDelete(key) => Drop(s, key)
    case OpDeleteByPrefix(prefix) => DropPrefix(s, prefix)
    case OpHas(key) => Probe(s, now, key)
    case OpTtl(key) => Probe(s, now, key)
    case OpAccessCount(_) => s
    case OpKeys => Purge(s, now)
    case OpDetailedKeys => Purge(s, now)
    case OpExportEntries => Purge(s, now)
    case OpSize => s
    case OpEvictions => s
    case OpClear => s.(rows := [])
    case OpSweep => Purge(s, now)
  }

  function Answer(s: Store, now: real, op: Op): Out {
    match op
    case OpSet(_, _, _) => Done
    case OpGet(key) =>
      var e := Peek(s, now, key);
      Hit(if e.Some? then Some(e.value.value) else None)
    case OpGetWithTtl(key) =>
      var e := Peek(s, now, key);
      HitWithTtl(if e.Some? then Some((e.value.value, Remaining(e.value, now))) else None)
    case OpDelete(key) => Flag(Has(s.rows, key))
    case OpDeleteByPrefix(prefix) => Count(|s.rows| - |DropPrefix(s, prefix).rows|)
    case OpHas(key) => Flag(Peek(s, now, key).Some?)
    case OpTtl(key) =>
      var e := Peek(s, now, key);
      MaybeTtl(if e.Some? then Remaining(e.value, now) else None)
    case OpAccessCount(key) =>
      var e := Peek(s, now, key);
      MaybeHits(if e.Some? then Some(e.value.hits) else None)
    case OpKeys => KeyList(Keys(Live(s.rows, now)))
    case OpDetailedKeys => Details(Map(Live(s.rows, now), ToDetail(now)))
    case OpExportEntries => Rows(Exports(s, now))
    case OpSize => Count(|s.rows|)
    case OpEvictions => Count(|s.evicted|)
    case OpClear => Done
    case OpSweep => Count(|s.rows| - |Live(s.rows, now)|)
  }

  // ---- runs ----

  datatype Event = Event(now: real, op: Op)

  ghost predicate Monotone(trace: seq<Event>) {
    forall i, j :: 0 <= i < j < |trace| ==> trace[i].now <= trace[j].now
  }

  ghost predicate Between(start: real, finish: real, trace: seq<Event>) {
    forall i :: 0 <= i < |trace| ==> start <= trace[i].now <= finish
  }

  function Run(c: Config, s: Store, trace: seq<Event>): Store
    decreases |trace|
  {
    if trace == [] then s else Run(c, Apply(c, s, trace[0].now, trace[0].op), trace[1..])
  }

  // ---- what every operation keeps ----

  lemma FirstsUnique(rows: seq<Row>, i: nat)
    requires Unique(rows) && i < |rows|
    ensures Unique(rows[..i] + rows[i + 1..])
    ensures Without(rows, rows[i].key) == rows[..i] + rows[i + 1..]
  {
    WithoutAt(rows, i);
    FilterUnique(rows, KeyIsNot(rows[i].key));
  }

  /** Making room never fails while the bounds are the configured ones. */
  lemma RoomIsMade(c: Config, s: Store, now: real)
    requires c.Ok() && Fits(c, s)
    ensures Unique(MakeRoom(c, s, now).rows) && |MakeRoom(c, s, now).rows| < c.maxEntries
    ensures forall r :: r in MakeRoom(c, s, now).rows ==> r in s.rows
  {
    FilterUnique(s.rows, LiveAt(now));
    FilterIn(s.rows, LiveAt(now));
    if Victim(c, s.rows).Some? {
      FirstsUnique(s.rows, Victim(c, s.rows).value);
    }
  }

  lemma AppendUnique(rows: seq<Row>, key: string, e: Entry)
    requires Unique(rows) && forall r :: r in rows ==> r.key != key
    ensures Unique(rows + [Pair(key, e)])
  {
    forall i | 0 <= i < |rows| ensures rows[i].key != key {
      assert rows[i] in rows;
    }
  }

  /** No key is held twice and no run holds more than maxEntries rows. */
  lemma {:induction false} ApplyFits(c: Config, s: Store, now: real, op: Op)
    requires c.Ok() && Fits(c, s)
    ensures Fits(c, Apply(c, s, now, op))
  {
    FilterUnique(s.rows, LiveAt(now));
    match op
    case OpSet(key, value, ttl) =>
      FilterUnique(s.rows, KeyIsNot(key));
      FilterIn(s.rows, KeyIsNot(key));
      RoomIsMade(c, Drop(s, key), now);
      AppendUnique(MakeRoom(c, Drop(s, key), now).rows, key, Entry(value, Deadline(now, ttl), 0));
    case OpDeleteByPrefix(prefix) => FilterUnique(s.rows, NotUnder(prefix));
    case OpGet(key) => TouchFits(c, s, now, key);
    case OpGetWithTtl(key) => TouchFits(c, s, now, key);
    case OpDelete(key) => FilterUnique(s.rows, KeyIsNot(key));
    case OpHas(key) => FilterUnique(s.rows, KeyIsNot(key));
    case OpTtl(key) => FilterUnique(s.rows, KeyIsNot(key));
    case _ =>
  }

  lemma TouchFits(c: Config, s: Store, now: real, key: string)
    requires Fits(c, s)
    ensures Fits(c, Touch(s, now, key))
  {
    FilterUnique(s.rows, KeyIsNot(key));
    FilterIn(s.rows, KeyIsNot(key));
    match Peek(s, now, key)
    case None =>
    case Some(e) =>
      WithoutAt(s.rows, Find(s.rows, key));
      AppendUnique(Without(s.rows, key), key, e.(hits := e.hits + 1));
  }

  lemma {:induction false} RunFits(c: Config, s: Store, trace: seq<Event>)
    requires c.Ok() && Fits(c, s)
    ensures Fits(c, Run(c, s, trace))
    decreases |trace|
  {
    if trace != [] {
      ApplyFits(c, s, trace[0].now, trace[0].op);
      RunFits(c, Apply(c, s, trace[0].now, trace[0].op), trace[1..]);
    }
  }

  // ---- the purged store ----

  lemma LookupLive(s: Store, now: real, key: string)
    requires Unique(s.rows)
    ensures Lookup(Live(s.rows, now), key) == Peek(s, now, key)
  {
    LookupFilter(s.rows, LiveAt(now), key);
  }

  lemma PurgeTwice(rows: seq<Row>, t: real, now: real)
    requires t <= now
    ensures Live(Live(rows, t), now) == Live(rows, now)
  {
    FilterFilter(rows, LiveAt(t), LiveAt(now), LiveAt(now));
  }

  lemma PeekPurge(s: Store, now: real, key: string)
    requires Unique(s.rows)
    ensures Peek(Purge(s, now), now, key) == Peek(s, now, key)
  {
    LookupLive(s, now, key);
  }

  lemma PeekFilter(s: Store, now: real, key: string, p: Row -> bool)
    requires Unique(s.rows)
    ensures var e := Peek(s, now, key);
            Peek(s.(rows := Filter(s.rows, p)), now, key) ==
            if e.Some? && p(Pair(key, e.value)) then e else None
  {
    LookupFilter(s.rows, p, key);
  }

  /** Appending a live row binds its key and no other. */
  lemma PeekAppend(s: Store, now: real, key: string, e: Entry, k: string)
    requires Lookup(s.rows, key) == None && !Expired(e, now)
    ensures Peek(Append(s, key, e), now, k) == if k == key then Some(e) else Peek(s, now, k)
  {
    LookupAppend(s.rows, Pair(key, e), k);
  }
}
