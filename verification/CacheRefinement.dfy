/**
 * The store refines a plain TTL map: a bounded store answers like an unbounded map from
 * keys to values and deadlines, except for keys it has evicted since they were last set.
 */
module CacheRefinement {
  import opened Prelude
  import opened Sequences
  import opened OrderedMap
  import opened CacheSpec

  datatype Binding = Binding(value: string, expiresAt: Option<real>) {
    predicate LiveAt(now: real) {
      expiresAt.Some? ==> now < expiresAt.value
    }
  }

  type Table = map<string, Binding>

  // ---- the plain map ----

  /** The plain TTL map: writes only, no capacity, no recency. */
  function Plain(table: Table, now: real, op: Op): Table {
    match op
    case OpSet(key, value, ttl) => table[key := Binding(value, Deadline(now, ttl))]
    case OpDelete(key) => table - {key}
    case OpDeleteByPrefix(prefix) => map k | k in table && !StartsWith(k, prefix) :: table[k]
    case OpClear => map[]
    case _ => table
  }

  function RunPlain(table: Table, trace: seq<Event>): Table
    decreases |trace|
  {
    if trace == [] then table else RunPlain(Plain(table, trace[0].now, trace[0].op), trace[1..])
  }

  function TableAt(table: Table, now: real, key: string): Option<Binding> {
    if key in table && table[key].LiveAt(now) then Some(table[key]) else None
  }

  // ---- the store, key by key ----

  function BindingOf(e: Option<Entry>): Option<Binding> {
    if e.Some? then Some(Binding(e.value.value, e.value.expiresAt)) else None
  }

  /** What a reader of `key` would find, without counting the read. */
  function Bound(s: Store, now: real, key: string): Option<Binding> {
    BindingOf(Peek(s, now, key))
  }

  /** What one write does to the binding of one key. */
  function Effect(op: Op, b: Option<Binding>, now: real, key: string): Option<Binding> {
    match op
    case OpSet(k, value, ttl) => if k == key then Some(Binding(value, Deadline(now, ttl))) else b
    case OpDelete(k) => if k == key then None else b
    case OpDeleteByPrefix(prefix) => if StartsWith(key, prefix) then None else b
    case OpClear => None
    case _ => b
  }

  /** The keys one operation evicted. */
  function Evicted(before: Store, after: Store): seq<string> {
    if |before.evicted| <= |after.evicted| then after.evicted[|before.evicted|..] else []
  }

  lemma RoomBound(c: Config, s: Store, now: real, key: string)
    requires Unique(s.rows)
    ensures s.evicted <= MakeRoom(c, s, now).evicted
    ensures Bound(MakeRoom(c, s, now), now, key) ==
            if key in Evicted(s, MakeRoom(c, s, now)) then None else Bound(s, now, key)
  {
    PeekPurge(s, now, key);
    if |s.rows| >= c.maxEntries && |Live(s.rows, now)| == |s.rows| && Victim(c, s.rows).Some? {
      var victim := s.rows[Victim(c, s.rows).value].key;
      WithoutAt(s.rows, Victim(c, s.rows).value);
      PeekFilter(s, now, key, KeyIsNot(victim));
      assert MakeRoom(c, s, now).rows == Without(s.rows, victim);
      assert Evicted(s, MakeRoom(c, s, now)) == [victim];
      assert Peek(MakeRoom(c, s, now), now, key) == Peek(Drop(s, victim), now, key);
    } else {
      assert Evicted(s, MakeRoom(c, s, now)) == [];
    }
  }

  lemma RoomAbsent(c: Config, s: Store, now: real, key: string)
    requires Unique(s.rows) && Lookup(s.rows, key) == None
    ensures Lookup(MakeRoom(c, s, now).rows, key) == None
    ensures key !in Evicted(s, MakeRoom(c, s, now))
  {
    LookupFilter(s.rows, LiveAt(now), key);
    if Victim(c, s.rows).Some? {
      var i := Victim(c, s.rows).value;
      WithoutAt(s.rows, i);
      LookupFilter(s.rows, KeyIsNot(s.rows[i].key), key);
      FindUnique(s.rows, i);
    }
  }

  lemma SetBound(c: Config, s: Store, now: real, key: string, value: string, ttl: Option<real>, k: string)
    requires Unique(s.rows)
    ensures var s' := Set(c, s, now, key, value, ttl);
            && s.evicted <= s'.evicted && key !in Evicted(s, s')
            && Bound(s', now, k) ==
               if k in Evicted(s, s') then None else Effect(OpSet(key, value, ttl), Bound(s, now, k), now, k)
  {
    var d := Drop(s, key);
    FilterUnique(s.rows, KeyIsNot(key));
    LookupFilter(s.rows, KeyIsNot(key), key);
    PeekFilter(s, now, k, KeyIsNot(key));
    RoomBound(c, d, now, k);
    RoomAbsent(c, d, now, key);
    PeekAppend(MakeRoom(c, d, now), now, key, Entry(value, Deadline(now, ttl), 0), k);
  }

  lemma TouchBound(s: Store, now: real, key: string, k: string)
    requires Unique(s.rows)
    ensures Bound(Touch(s, now, key), now, k) == Bound(s, now, k)
    ensures Bound(Probe(s, now, key), now, k) == Bound(s, now, k)
  {
    PeekFilter(s, now, k, KeyIsNot(key));
    LookupFilter(s.rows, KeyIsNot(key), key);
    match Peek(s, now, key)
    case None =>
    case Some(e) => PeekAppend(Drop(s, key), now, key, e.(hits := e.hits + 1), k);
  }

  /** Every operation acts on every key as on a plain map, save for what it evicts. */
  lemma {:induction false} StepBound(c: Config, s: Store, now: real, op: Op, k: string)
    requires Unique(s.rows)
    ensures var s' := Apply(c, s, now, op);
            && s.evicted <= s'.evicted
            && Bound(s', now, k) == if k in Evicted(s, s') then None else Effect(op, Bound(s, now, k), now, k)
  {
    PeekPurge(s, now, k);
    match op
    case OpSet(key, value, ttl) => SetBound(c, s, now, key, value, ttl, k);
    case OpGet(key) => TouchBound(s, now, key, k);
    case OpGetWithTtl(key) => TouchBound(s, now, key, k);
    case OpHas(key) => TouchBound(s, now, key, k);
    case OpTtl(key) => TouchBound(s, now, key, k);
    case OpDelete(key) => PeekFilter(s, now, k, KeyIsNot(key));
    case OpDeleteByPrefix(prefix) => PeekFilter(s, now, k, NotUnder(prefix));
    case _ =>
  }

  // ---- keys lost to eviction ----

  /** `lost` after one operation: writing or deleting a key forgets that it was evicted. */
  function Lost(lost: set<string>, op: Op, evicted: seq<string>): set<string> {
    var kept := match op
      case OpSet(key, _, _) => lost - {key}
      case OpDelete(key) => lost - {key}
      case OpDeleteByPrefix(prefix) => set k | k in lost && !StartsWith(k, prefix)
      case OpClear => {}
      case _ => lost;
    kept + set k | k in evicted
  }

  /** The keys evicted since they were last written, after a run. */
  function RunLost(c: Config, s: Store, lost: set<string>, trace: seq<Event>): set<string>
    decreases |trace|
  {
    if trace == [] then lost
    else
      var s' := Apply(c, s, trace[0].now, trace[0].op);
      RunLost(c, s', Lost(lost, trace[0].op, Evicted(s, s')), trace[1..])
  }

  // ---- refinement ----

  ghost predicate Refines(s: Store, table: Table, lost: set<string>, now: real) {
    forall k :: Bound(s, now, k) == if k in lost then None else TableAt(table, now, k)
  }

  lemma BoundLater(s: Store, now: real, later: real, k: string)
    requires now <= later
    ensures Bound(s, later, k) ==
            if Bound(s, now, k).Some? && Bound(s, now, k).value.LiveAt(later) then Bound(s, now, k) else None
  {
  }

  lemma RefinesLater(s: Store, table: Table, lost: set<string>, now: real, later: real)
    requires Refines(s, table, lost, now) && now <= later
    ensures Refines(s, table, lost, later)
  {
    forall k ensures Bound(s, later, k) == if k in lost then None else TableAt(table, later, k) {
      BoundLater(s, now, later, k);
    }
  }

  lemma PlainEffect(table: Table, now: real, op: Op, k: string)
    ensures TableAt(Plain(table, now, op), now, k) == Effect(op, TableAt(table, now, k), now, k)
  {
  }

  lemma RefinesStep(c: Config, s: Store, table: Table, lost: set<string>, now: real, op: Op)
    requires Unique(s.rows) && Refines(s, table, lost, now)
    ensures var s' := Apply(c, s, now, op);
            Refines(s', Plain(table, now, op), Lost(lost, op, Evicted(s, s')), now)
  {
    var s' := Apply(c, s, now, op);
    var lost' := Lost(lost, op, Evicted(s, s'));
    forall k ensures Bound(s', now, k) == if k in lost' then None else TableAt(Plain(table, now, op), now, k) {
      StepBound(c, s, now, op, k);
      PlainEffect(table, now, op, k);
    }
  }

  lemma {:induction false} RunRefines(
    c: Config, s: Store, table: Table, lost: set<string>, start: real, finish: real, trace: seq<Event>)
    requires c.Ok() && Fits(c, s) && Refines(s, table, lost, start)
    requires start <= finish && Monotone(trace) && Between(start, finish, trace)
    ensures Refines(Run(c, s, trace), RunPlain(table, trace), RunLost(c, s, lost, trace), finish)
    decreases |trace|
  {
    if trace == [] {
      RefinesLater(s, table, lost, start, finish);
    } else {
      var e, rest := trace[0], trace[1..];
      var s' := Apply(c, s, e.now, e.op);
      RefinesLater(s, table, lost, start, e.now);
      RefinesStep(c, s, table, lost, e.now, e.op);
      ApplyFits(c, s, e.now, e.op);
      RunRefines(c, s', Plain(table, e.now, e.op), Lost(lost, e.op, Evicted(s, s')), e.now, finish, rest);
    }
  }

  function TtlOf(b: Binding, now: real): Option<real> {
    Remaining(Entry(b.value, b.expiresAt, 0), now)
  }

  /** What a reader sees of a key bound to b. */
  ghost predicate ReadsAs(s: Store, now: real, key: string, b: Option<Binding>) {
    && Answer(s, now, OpGet(key)) == Hit(if b.Some? then Some(b.value.value) else None)
    && Answer(s, now, OpGetWithTtl(key)) ==
       HitWithTtl(if b.Some? then Some((b.value.value, TtlOf(b.value, now))) else None)
    && Answer(s, now, OpHas(key)) == Flag(b.Some?)
    && Answer(s, now, OpTtl(key)) == MaybeTtl(if b.Some? then TtlOf(b.value, now) else None)
  }

  lemma BoundReads(s: Store, now: real, key: string)
    ensures ReadsAs(s, now, key, Bound(s, now, key))
  {
  }

  /** After any run from empty, a read answers from the plain map unless the key was evicted
      since it was last written; a miss on a key the plain map still holds means just that. */
  lemma {:induction false} ReadsRefineTable(c: Config, start: real, now: real, trace: seq<Event>, key: string)
    requires c.Ok() && start <= now && Monotone(trace) && Between(start, now, trace)
    ensures |Run(c, EMPTY, trace).rows| <= c.maxEntries
    ensures ReadsAs(Run(c, EMPTY, trace), now, key,
                    if key in RunLost(c, EMPTY, {}, trace) then None else TableAt(RunPlain(map[], trace), now, key))
  {
    RunRefines(c, EMPTY, map[], {}, start, now, trace);
    RunFits(c, EMPTY, trace);
    BoundReads(Run(c, EMPTY, trace), now, key);
  }

  // ---- when eviction happens ----

  /** A live key is given up only for a new key, only when the store is full of live rows,
      and only the one row the policy picks. */
  lemma EvictionIsLastResort(c: Config, s: Store, now: real, op: Op)
    requires c.Ok() && Fits(c, s) && Apply(c, s, now, op).evicted != s.evicted
    ensures op.OpSet? && !Has(s.rows, op.key)
    ensures |s.rows| == c.maxEntries && forall r :: r in s.rows ==> !Expired(r.val, now)
    ensures Victim(c, s.rows).Some? &&
            Apply(c, s, now, op).evicted == s.evicted + [s.rows[Victim(c, s.rows).value].key]
  {
    var d := Drop(s, op.key);
    FilterFull(d.rows, LiveAt(now));
    if Has(s.rows, op.key) {
      WithoutAt(s.rows, Find(s.rows, op.key));
      assert false;
    }
    WithoutAbsent(s.rows, op.key);
  }

  // ---- few keys ----

  ghost predicate KeysWithin(keys: set<string>, s: Store) {
    forall r :: r in s.rows ==> r.key in keys
  }

  ghost predicate WritesWithin(keys: set<string>, trace: seq<Event>) {
    forall i :: 0 <= i < |trace| && trace[i].op.OpSet? ==> trace[i].op.key in keys
  }

  lemma KeysKept(c: Config, s: Store, keys: set<string>, now: real, op: Op)
    requires KeysWithin(keys, s) && (op.OpSet? ==> op.key in keys)
    ensures KeysWithin(keys, Apply(c, s, now, op))
  {
    FilterIn(s.rows, LiveAt(now));
    match op
    case OpSet(key, _, _) =>
      FilterIn(s.rows, KeyIsNot(key));
      FilterIn(Drop(s, key).rows, LiveAt(now));
    case OpGet(key) => FilterIn(s.rows, KeyIsNot(key)); PeekKey(s, now, key);
    case OpGetWithTtl(key) => FilterIn(s.rows, KeyIsNot(key)); PeekKey(s, now, key);
    case OpDelete(key) => FilterIn(s.rows, KeyIsNot(key));
    case OpDeleteByPrefix(prefix) => FilterIn(s.rows, NotUnder(prefix));
    case OpHas(key) => FilterIn(s.rows, KeyIsNot(key));
    case OpTtl(key) => FilterIn(s.rows, KeyIsNot(key));
    case _ =>
  }

  lemma PeekKey(s: Store, now: real, key: string)
    ensures Peek(s, now, key).Some? ==> exists r :: r in s.rows && r.key == key
  {
    if Peek(s, now, key).Some? {
      assert s.rows[Find(s.rows, key)] in s.rows;
    }
  }

  lemma FewKeysStep(c: Config, s: Store, keys: set<string>, now: real, op: Op)
    requires c.Ok() && Fits(c, s) && KeysWithin(keys, s) && |keys| <= c.maxEntries
    requires op.OpSet? ==> op.key in keys
    ensures Apply(c, s, now, op).evicted == s.evicted
  {
    if Apply(c, s, now, op).evicted != s.evicted {
      EvictionIsLastResort(c, s, now, op);
      KeySetSize(s.rows);
      LookupNone(s.rows, op.key);
      assert KeySet(s.rows) <= keys - {op.key};
      SubsetSize(KeySet(s.rows), keys - {op.key});
      assert false;
    }
  }

  lemma {:induction false} FewKeysRun(c: Config, s: Store, keys: set<string>, trace: seq<Event>)
    requires c.Ok() && Fits(c, s) && KeysWithin(keys, s) && |keys| <= c.maxEntries
    requires WritesWithin(keys, trace)
    ensures Run(c, s, trace).evicted == s.evicted
    ensures RunLost(c, s, {}, trace) == {}
    decreases |trace|
  {
    if trace != [] {
      var e := trace[0];
      var s' := Apply(c, s, e.now, e.op);
      FewKeysStep(c, s, keys, e.now, e.op);
      KeysKept(c, s, keys, e.now, e.op);
      ApplyFits(c, s, e.now, e.op);
      assert Lost({}, e.op, Evicted(s, s')) == {};
      FewKeysRun(c, s', keys, trace[1..]);
    }
  }

  /** With at most maxEntries distinct keys written, reads agree with the plain map exactly. */
  lemma {:induction false} FewKeysReadsExact(c: Config, keys: set<string>, start: real, now: real, trace: seq<Event>, key: string)
    requires c.Ok() && |keys| <= c.maxEntries && WritesWithin(keys, trace)
    requires start <= now && Monotone(trace) && Between(start, now, trace)
    ensures ReadsAs(Run(c, EMPTY, trace), now, key, TableAt(RunPlain(map[], trace), now, key))
  {
    FewKeysRun(c, EMPTY, keys, trace);
    ReadsRefineTable(c, start, now, trace, key);
  }
}
