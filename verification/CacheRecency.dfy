/**
 * What order and hit counts mean: after any run the rows stand in the order in which their
 * keys were last used, each counting the reads that found it since it was set. So eviction
 * can be told from the history of operations and the plain table alone.
 */
module CacheRecency {
  import opened Prelude
  import opened Sequences
  import opened OrderedMap
  import opened CacheSpec
  import opened CacheRefinement

  // ---- the history of one key ----

  /** The plain table after a history. */
  function TableAfter(trace: seq<Event>): Table {
    RunPlain(map[], trace)
  }

  lemma {:induction false} PlainSnoc(table: Table, trace: seq<Event>, e: Event)
    ensures RunPlain(table, trace + [e]) == Plain(RunPlain(table, trace), e.now, e.op)
    decreases |trace|
  {
    if trace == [] {
      assert [] + [e] == [e];
    } else {
      assert (trace + [e])[1..] == trace[1..] + [e];
      PlainSnoc(Plain(table, trace[0].now, trace[0].op), trace[1..], e);
    }
  }

  predicate Reads(op: Op, key: string) {
    op == OpGet(key) || op == OpGetWithTtl(key)
  }

  predicate Sets(op: Op, key: string) {
    op.OpSet? && op.key == key
  }

  /** The event reads `key` and finds it live in the plain table. */
  predicate FindsLive(table: Table, e: Event, key: string) {
    Reads(e.op, key) && TableAt(table, e.now, key).Some?
  }

  /** How many reads have found `key` live since it was last set. */
  function ReadsSinceSet(trace: seq<Event>, key: string): nat {
    if trace == [] then 0
    else
      var n := |trace| - 1;
      if Sets(trace[n].op, key) then 0
      else ReadsSinceSet(trace[..n], key) + if FindsLive(TableAfter(trace[..n]), trace[n], key) then 1 else 0
  }

  /** The position of the last event that set `key` or found it live, or -1. */
  function LastUse(trace: seq<Event>, key: string): (i: int)
    ensures -1 <= i < |trace|
  {
    if trace == [] then -1
    else
      var n := |trace| - 1;
      if Sets(trace[n].op, key) || FindsLive(TableAfter(trace[..n]), trace[n], key) then n
      else LastUse(trace[..n], key)
  }

  lemma HistorySnoc(trace: seq<Event>, e: Event, key: string)
    ensures TableAfter(trace + [e]) == Plain(TableAfter(trace), e.now, e.op)
    ensures ReadsSinceSet(trace + [e], key) ==
            if Sets(e.op, key) then 0
            else ReadsSinceSet(trace, key) + if FindsLive(TableAfter(trace), e, key) then 1 else 0
    ensures LastUse(trace + [e], key) ==
            if Sets(e.op, key) || FindsLive(TableAfter(trace), e, key) then |trace| else LastUse(trace, key)
  {
    PlainSnoc(map[], trace, e);
    assert (trace + [e])[..|trace|] == trace;
  }

  // ---- rows and history ----

  ghost predicate RowTrue(trace: seq<Event>, r: Row) {
    && r.key in TableAfter(trace) && TableAfter(trace)[r.key] == Binding(r.val.value, r.val.expiresAt)
    && r.val.hits == ReadsSinceSet(trace, r.key)
  }

  ghost predicate ByLastUse(trace: seq<Event>, rows: seq<Row>) {
    forall i, j :: 0 <= i < j < |rows| ==> LastUse(trace, rows[i].key) < LastUse(trace, rows[j].key)
  }

  /** Every row tells the truth about its key, expired or not, and they stand by last use. */
  ghost predicate Truthful(trace: seq<Event>, rows: seq<Row>) {
    (forall i :: 0 <= i < |rows| ==> RowTrue(trace, rows[i])) && ByLastUse(trace, rows)
  }

  lemma TruthfulTail(trace: seq<Event>, rows: seq<Row>)
    requires rows != [] && Truthful(trace, rows)
    ensures RowTrue(trace, rows[0]) && Truthful(trace, rows[1..])
    ensures forall r :: r in rows[1..] ==> LastUse(trace, rows[0].key) < LastUse(trace, r.key)
  {
    var rest := rows[1..];
    forall i | 0 <= i < |rest| ensures RowTrue(trace, rest[i]) && LastUse(trace, rows[0].key) < LastUse(trace, rest[i].key) {
      assert rest[i] == rows[i + 1] && RowTrue(trace, rows[i + 1]);
    }
    forall i, j | 0 <= i < j < |rest| ensures LastUse(trace, rest[i].key) < LastUse(trace, rest[j].key) {
      assert rest[i] == rows[i + 1] && rest[j] == rows[j + 1];
    }
  }

  lemma TruthfulCons(trace: seq<Event>, r: Row, rows: seq<Row>)
    requires RowTrue(trace, r) && Truthful(trace, rows)
    requires forall x :: x in rows ==> LastUse(trace, r.key) < LastUse(trace, x.key)
    ensures Truthful(trace, [r] + rows)
  {
    var all := [r] + rows;
    forall i, j | 0 <= i < j < |all| ensures LastUse(trace, all[i].key) < LastUse(trace, all[j].key) {
      assert all[j] == rows[j - 1] && rows[j - 1] in rows;
      assert i > 0 ==> all[i] == rows[i - 1];
    }
  }

  lemma {:induction false} TruthfulFilter(trace: seq<Event>, rows: seq<Row>, p: Row -> bool)
    requires Truthful(trace, rows)
    ensures Truthful(trace, Filter(rows, p))
  {
    if rows != [] {
      TruthfulTail(trace, rows);
      TruthfulFilter(trace, rows[1..], p);
      FilterIn(rows[1..], p);
      if p(rows[0]) {
        TruthfulCons(trace, rows[0], Filter(rows[1..], p));
      }
    }
  }

  /** The event leaves the key's history as it is. */
  ghost predicate Untouched(trace: seq<Event>, e: Event, key: string) {
    && !Sets(e.op, key) && !FindsLive(TableAfter(trace), e, key)
    && key in Plain(TableAfter(trace), e.now, e.op)
    && key in TableAfter(trace) && Plain(TableAfter(trace), e.now, e.op)[key] == TableAfter(trace)[key]
  }

  lemma {:induction false} TruthfulNext(trace: seq<Event>, rows: seq<Row>, e: Event)
    requires Truthful(trace, rows)
    requires forall i :: 0 <= i < |rows| ==> Untouched(trace, e, rows[i].key)
    ensures Truthful(trace + [e], rows)
  {
    forall i | 0 <= i < |rows| ensures RowTrue(trace + [e], rows[i]) {
      assert RowTrue(trace, rows[i]) && Untouched(trace, e, rows[i].key);
      HistorySnoc(trace, e, rows[i].key);
    }
    forall i, j | 0 <= i < j < |rows|
      ensures LastUse(trace + [e], rows[i].key) < LastUse(trace + [e], rows[j].key)
    {
      assert Untouched(trace, e, rows[i].key) && Untouched(trace, e, rows[j].key);
      HistorySnoc(trace, e, rows[i].key);
      HistorySnoc(trace, e, rows[j].key);
    }
  }

  /** A row for the key used just now goes to the end. */
  lemma {:induction false} TruthfulAppend(trace: seq<Event>, rows: seq<Row>, e: Event, r: Row)
    requires Truthful(trace, rows)
    requires forall i :: 0 <= i < |rows| ==> Untouched(trace, e, rows[i].key)
    requires RowTrue(trace + [e], r) && LastUse(trace + [e], r.key) == |trace|
    ensures Truthful(trace + [e], rows + [r])
  {
    TruthfulNext(trace, rows, e);
    forall i | 0 <= i < |rows| ensures LastUse(trace + [e], rows[i].key) < |trace| {
      assert Untouched(trace, e, rows[i].key);
      HistorySnoc(trace, e, rows[i].key);
    }
  }

  // ---- one operation ----

  lemma {:induction false} RoomTruthful(c: Config, s: Store, now: real, trace: seq<Event>)
    requires Unique(s.rows) && Truthful(trace, s.rows)
    ensures Truthful(trace, MakeRoom(c, s, now).rows)
    ensures forall i :: 0 <= i < |MakeRoom(c, s, now).rows| ==> MakeRoom(c, s, now).rows[i] in s.rows
  {
    TruthfulFilter(trace, s.rows, LiveAt(now));
    FilterIn(s.rows, LiveAt(now));
    if Victim(c, s.rows).Some? {
      var i := Victim(c, s.rows).value;
      FirstsUnique(s.rows, i);
      TruthfulFilter(trace, s.rows, KeyIsNot(s.rows[i].key));
      FilterIn(s.rows, KeyIsNot(s.rows[i].key));
    }
    var room := MakeRoom(c, s, now).rows;
    assert forall i :: 0 <= i < |room| ==> room[i] in room;
  }

  lemma {:induction false} DropTruthful(s: Store, key: string, trace: seq<Event>)
    requires Truthful(trace, s.rows)
    ensures Truthful(trace, Drop(s, key).rows)
    ensures forall i :: 0 <= i < |Drop(s, key).rows| ==> Drop(s, key).rows[i].key != key
    ensures forall i :: 0 <= i < |Drop(s, key).rows| ==> RowTrue(trace, Drop(s, key).rows[i])
  {
    TruthfulFilter(trace, s.rows, KeyIsNot(key));
    FilterIn(s.rows, KeyIsNot(key));
    var rows := Drop(s, key).rows;
    assert forall i :: 0 <= i < |rows| ==> rows[i] in rows;
  }

  lemma {:induction false} SetTruthful(c: Config, s: Store, trace: seq<Event>, now: real, key: string, value: string, ttl: Option<real>)
    requires Unique(s.rows) && Truthful(trace, s.rows)
    ensures Truthful(trace + [Event(now, OpSet(key, value, ttl))], Set(c, s, now, key, value, ttl).rows)
  {
    var e, d := Event(now, OpSet(key, value, ttl)), Drop(s, key);
    DropTruthful(s, key, trace);
    FilterUnique(s.rows, KeyIsNot(key));
    RoomTruthful(c, d, now, trace);
    var room := MakeRoom(c, d, now).rows;
    forall i | 0 <= i < |room| ensures Untouched(trace, e, room[i].key) {
      assert room[i] in d.rows && RowTrue(trace, room[i]);
    }
    HistorySnoc(trace, e, key);
    TruthfulAppend(trace, room, e, Pair(key, Entry(value, Deadline(now, ttl), 0)));
  }

  lemma {:induction false} TouchTruthful(s: Store, trace: seq<Event>, e: Event, key: string)
    requires Unique(s.rows) && Truthful(trace, s.rows) && Reads(e.op, key)
    ensures Truthful(trace + [e], Touch(s, e.now, key).rows)
  {
    var rest := Drop(s, key).rows;
    DropTruthful(s, key, trace);
    forall i | 0 <= i < |rest| ensures Untouched(trace, e, rest[i].key) {
      assert RowTrue(trace, rest[i]);
    }
    match Peek(s, e.now, key)
    case None => TruthfulNext(trace, rest, e);
    case Some(x) =>
      assert RowTrue(trace, s.rows[Find(s.rows, key)]);
      HistorySnoc(trace, e, key);
      TruthfulAppend(trace, rest, e, Pair(key, x.(hits := x.hits + 1)));
  }

  /** An operation that only takes rows away, and no key it leaves from the table. */
  lemma {:induction false} KeptTruthful(rows: seq<Row>, trace: seq<Event>, e: Event, p: Row -> bool)
    requires Truthful(trace, rows)
    requires forall r :: r in rows && p(r) ==> RowTrue(trace, r) ==> Untouched(trace, e, r.key)
    ensures Truthful(trace + [e], Filter(rows, p))
  {
    TruthfulFilter(trace, rows, p);
    FilterIn(rows, p);
    var kept := Filter(rows, p);
    forall i | 0 <= i < |kept| ensures Untouched(trace, e, kept[i].key) {
      assert kept[i] in kept && RowTrue(trace, kept[i]);
    }
    TruthfulNext(trace, kept, e);
  }

  lemma {:induction false} AllKept(rows: seq<Row>, trace: seq<Event>, e: Event)
    requires Truthful(trace, rows)
    requires e.op.OpHas? || e.op.OpTtl? || e.op.OpAccessCount? || e.op.OpSize? || e.op.OpEvictions?
    ensures Truthful(trace + [e], rows)
  {
    forall i | 0 <= i < |rows| ensures Untouched(trace, e, rows[i].key) {
      assert RowTrue(trace, rows[i]);
    }
    TruthfulNext(trace, rows, e);
  }

  lemma {:induction false} ProbeTruthful(s: Store, trace: seq<Event>, e: Event, key: string)
    requires Truthful(trace, s.rows) && (e.op == OpHas(key) || e.op == OpTtl(key))
    ensures Truthful(trace + [e], Probe(s, e.now, key).rows)
  {
    AllKept(s.rows, trace, e);
    KeptTruthful(s.rows, trace, e, KeyIsNot(key));
  }

  lemma {:induction false} ApplyTruthful(c: Config, s: Store, trace: seq<Event>, e: Event)
    requires Unique(s.rows) && Truthful(trace, s.rows)
    ensures Truthful(trace + [e], Apply(c, s, e.now, e.op).rows)
  {
    match e.op
    case OpSet(key, value, ttl) => SetTruthful(c, s, trace, e.now, key, value, ttl);
    case OpGet(key) => TouchTruthful(s, trace, e, key);
    case OpGetWithTtl(key) => TouchTruthful(s, trace, e, key);
    case OpDelete(key) => KeptTruthful(s.rows, trace, e, KeyIsNot(key));
    case OpDeleteByPrefix(prefix) => KeptTruthful(s.rows, trace, e, NotUnder(prefix));
    case OpHas(key) => ProbeTruthful(s, trace, e, key);
    case OpTtl(key) => ProbeTruthful(s, trace, e, key);
    case OpAccessCount(_) => AllKept(s.rows, trace, e);
    case OpSize => AllKept(s.rows, trace, e);
    case OpEvictions => AllKept(s.rows, trace, e);
    case OpClear =>
    case _ => KeptTruthful(s.rows, trace, e, LiveAt(e.now));
  }

  // ---- whole runs ----

  lemma {:induction false} RunSnoc(c: Config, s: Store, trace: seq<Event>, e: Event)
    ensures Run(c, s, trace + [e]) == Apply(c, Run(c, s, trace), e.now, e.op)
    decreases |trace|
  {
    if trace == [] {
      assert [] + [e] == [e];
    } else {
      assert (trace + [e])[1..] == trace[1..] + [e];
      RunSnoc(c, Apply(c, s, trace[0].now, trace[0].op), trace[1..], e);
    }
  }

  /** After any run from empty, rows count the reads that found them since they were set, and
      stand in the order of last use. */
  lemma {:induction false} RunTruthful(c: Config, trace: seq<Event>)
    requires c.Ok()
    ensures Truthful(trace, Run(c, EMPTY, trace).rows)
  {
    if trace != [] {
      var n := |trace| - 1;
      SplitLast(trace);
      RunTruthful(c, trace[..n]);
      RunFits(c, EMPTY, trace[..n]);
      RunSnoc(c, EMPTY, trace[..n], trace[n]);
      ApplyTruthful(c, Run(c, EMPTY, trace[..n]), trace[..n], trace[n]);
    }
  }

  /** The access count of a live key is the number of get and getWithTtl events that found it
      live since it was last set. */
  lemma {:induction false} HitsCountReads(c: Config, trace: seq<Event>, now: real, key: string)
    requires c.Ok()
    ensures var s := Run(c, EMPTY, trace);
            var hits := Answer(s, now, OpAccessCount(key)).hits;
            && (hits.Some? <==> Answer(s, now, OpHas(key)).flag)
            && (hits.Some? ==> hits.value == ReadsSinceSet(trace, key))
  {
    var s := Run(c, EMPTY, trace);
    RunTruthful(c, trace);
    if Peek(s, now, key).Some? {
      assert RowTrue(trace, s.rows[Find(s.rows, key)]);
    }
  }

  /** Keys are listed in the order in which they were last used. */
  lemma {:induction false} KeysListedByLastUse(c: Config, trace: seq<Event>, now: real)
    requires c.Ok()
    ensures var keys := Answer(Run(c, EMPTY, trace), now, OpKeys).keys;
            forall i, j :: 0 <= i < j < |keys| ==> LastUse(trace, keys[i]) < LastUse(trace, keys[j])
  {
    RunTruthful(c, trace);
    TruthfulFilter(trace, Run(c, EMPTY, trace).rows, LiveAt(now));
  }

  // ---- who is evicted ----

  /** "access-aware" gives up the first of the least-read rows among exactly the
      min(sampleSize, n) at the cold end, "lfu" among all, "lru" the first. */
  lemma {:induction false} VictimOfPolicy(c: Config, rows: seq<Row>)
    requires c.Ok() && rows != []
    ensures Victim(c, rows).Some?
    ensures var v := Victim(c, rows).value;
            var w := match c.policy
              case Lru => 1
              case Lfu => |rows|
              case AccessAware => if c.sampleSize <= |rows| then c.sampleSize else |rows|;
            && v < w
            && (forall j :: 0 <= j < w ==> rows[v].val.hits <= rows[j].val.hits)
            && (forall j :: 0 <= j < v ==> rows[v].val.hits < rows[j].val.hits)
  {
  }

  /** The keys of `s` used longer ago than this one. */
  ghost function UsedBefore(trace: seq<Event>, s: Store, key: string): set<string> {
    set k | k in KeySet(s.rows) && LastUse(trace, k) < LastUse(trace, key)
  }

  lemma KeyPosition(rows: seq<Row>, key: string) returns (j: nat)
    requires key in KeySet(rows)
    ensures j < |rows| && rows[j].key == key
  {
    var r :| r in rows && r.key == key;
    j :| 0 <= j < |rows| && rows[j] == r;
  }

  lemma {:induction false} EarlierIsOlder(trace: seq<Event>, s: Store, j: nat, k: string)
    requires ByLastUse(trace, s.rows) && j < |s.rows|
    ensures k in KeySet(s.rows[..j]) <==> k in UsedBefore(trace, s, s.rows[j].key)
  {
    if k in KeySet(s.rows[..j]) {
      var i := KeyPosition(s.rows[..j], k);
      assert s.rows[i] in s.rows;
    }
    if k in UsedBefore(trace, s, s.rows[j].key) {
      var i := KeyPosition(s.rows, k);
      assert s.rows[..j][i] in s.rows[..j];
    }
  }

  lemma {:induction false} PositionIsAge(trace: seq<Event>, s: Store, j: nat)
    requires Unique(s.rows) && ByLastUse(trace, s.rows) && j < |s.rows|
    ensures |UsedBefore(trace, s, s.rows[j].key)| == j
  {
    forall k ensures k in KeySet(s.rows[..j]) <==> k in UsedBefore(trace, s, s.rows[j].key) {
      EarlierIsOlder(trace, s, j, k);
    }
    KeySetSize(s.rows[..j]);
    assert KeySet(s.rows[..j]) == UsedBefore(trace, s, s.rows[j].key);
  }

  /** How many of the keys used longest ago a policy chooses from. */
  function Reach(c: Config): nat {
    match c.policy
    case Lru => 1
    case Lfu => c.maxEntries
    case AccessAware => c.sampleSize
  }

  /** The key that an operation evicted, when it evicted one. */
  function NewlyEvicted(s: Store, s': Store): (key: Option<string>)
    ensures s'.evicted == s.evicted ==> key == None
  {
    if |s'.evicted| == |s.evicted| + 1 then Some(s'.evicted[|s.evicted|]) else None
  }

  /** `victim` is the choice of a policy with this reach, as against `key`. */
  ghost predicate Chosen(trace: seq<Event>, s: Store, reach: nat, victim: string, key: string) {
    && |UsedBefore(trace, s, victim)| < reach
    && (|UsedBefore(trace, s, key)| < reach ==>
          || ReadsSinceSet(trace, victim) < ReadsSinceSet(trace, key)
          || (ReadsSinceSet(trace, victim) == ReadsSinceSet(trace, key)
              && LastUse(trace, victim) <= LastUse(trace, key)))
  }

  lemma {:induction false} VictimChosen(c: Config, trace: seq<Event>, s: Store, j: nat)
    requires c.Ok() && Unique(s.rows) && Truthful(trace, s.rows) && j < |s.rows| == c.maxEntries
    ensures Victim(c, s.rows).Some?
    ensures Chosen(trace, s, Reach(c), s.rows[Victim(c, s.rows).value].key, s.rows[j].key)
  {
    VictimOfPolicy(c, s.rows);
    var v := Victim(c, s.rows).value;
    PositionIsAge(trace, s, j);
    PositionIsAge(trace, s, v);
    assert RowTrue(trace, s.rows[j]) && RowTrue(trace, s.rows[v]);
  }

  lemma {:induction false} EvictedFrom(c: Config, s: Store, now: real, op: Op)
    requires c.Ok() && Fits(c, s) && Apply(c, s, now, op).evicted != s.evicted
    ensures |s.rows| == c.maxEntries && Victim(c, s.rows).Some?
    ensures NewlyEvicted(s, Apply(c, s, now, op)) == Some(s.rows[Victim(c, s.rows).value].key)
  {
    EvictionIsLastResort(c, s, now, op);
  }

  /** Told from the history alone: of the keys used longest ago, one for "lru", as many as are
      sampled for "access-aware", all for "lfu", the key goes that was read least since it was
      set, and among equals the one used longest ago. */
  lemma {:induction false} EvictedByHistory(c: Config, trace: seq<Event>, now: real, op: Op, key: string)
    requires c.Ok()
    requires var s := Run(c, EMPTY, trace); Apply(c, s, now, op).evicted != s.evicted && key in KeySet(s.rows)
    ensures var s := Run(c, EMPTY, trace);
            var victim := NewlyEvicted(s, Apply(c, s, now, op));
            victim.Some? && victim.value in KeySet(s.rows) && Chosen(trace, s, Reach(c), victim.value, key)
  {
    var s := Run(c, EMPTY, trace);
    RunFits(c, EMPTY, trace);
    RunTruthful(c, trace);
    EvictedFrom(c, s, now, op);
    assert s.rows[Victim(c, s.rows).value] in s.rows;
    var j := KeyPosition(s.rows, key);
    VictimChosen(c, trace, s, j);
  }
}
