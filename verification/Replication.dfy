/**
 * Primary-to-replica replication: the primary applies a client's write and forwards it; the
 * replica loads one snapshot and then applies what it is sent, in order, each message once,
 * after any delay. One clock is read by both sides.
 */
module Replication {
  import opened Prelude
  import opened Sequences
  import opened OrderedMap
  import opened CacheSpec
  import opened CacheRefinement
  import opened Snapshots

  datatype Message = Snapshot(rows: seq<Export>) | Replicate(op: Op)

  datatype Net = Net(primary: Store, replica: Store, queue: seq<Message>)

  datatype Happening =
    | AtPrimary(op: Op)
    | AtReplica(op: Op)
    | Deliver

  datatype Moment = Moment(now: real, what: Happening)

  function Receive(d: Config, s: Store, now: real, m: Message): Store {
    match m
    case Snapshot(rows) => Load(d, s, now, rows)
    case Replicate(op) => Apply(d, s, now, op)
  }

  /** `c` configures the primary and `d` the replica, which refuses clients' writes. */
  function Step(c: Config, d: Config, n: Net, m: Moment): Net {
    match m.what
    case AtPrimary(op) =>
      Net(Apply(c, n.primary, m.now, op), n.replica,
          if IsWrite(op) then n.queue + [Replicate(op)] else n.queue)
    case AtReplica(op) =>
      if IsWrite(op) then n else n.(replica := Apply(d, n.replica, m.now, op))
    case Deliver =>
      if n.queue == [] then n
      else Net(n.primary, Receive(d, n.replica, m.now, n.queue[0]), n.queue[1..])
  }

  function RunNet(c: Config, d: Config, n: Net, moments: seq<Moment>): Net
    decreases |moments|
  {
    if moments == [] then n else RunNet(c, d, Step(c, d, n, moments[0]), moments[1..])
  }

  ghost predicate InOrder(start: real, finish: real, moments: seq<Moment>) {
    && start <= finish
    && (forall i :: 0 <= i < |moments| ==> start <= moments[i].now <= finish)
    && (forall i, j :: 0 <= i < j < |moments| ==> moments[i].now <= moments[j].now)
  }

  // ---- the binding a key will have once the queue is drained ----

  function LoadEffect(rows: seq<Export>, b: Option<Binding>, now: real, key: string): Option<Binding>
    decreases |rows|
  {
    if rows == [] then b
    else
      var x := rows[|rows| - 1];
      Effect(OpSet(x.key, x.value, x.ttl), LoadEffect(rows[..|rows| - 1], b, now, key), now, key)
  }

  function MessageEffect(m: Message, b: Option<Binding>, now: real, key: string): Option<Binding> {
    match m
    case Snapshot(rows) => LoadEffect(rows, b, now, key)
    case Replicate(op) => Effect(op, b, now, key)
  }

  function Promised(b: Option<Binding>, queue: seq<Message>, now: real, key: string): Option<Binding>
    decreases |queue|
  {
    if queue == [] then b
    else
      var n := |queue| - 1;
      MessageEffect(queue[n], Promised(b, queue[..n], now, key), now, key)
  }

  lemma PromisedAppend(b: Option<Binding>, queue: seq<Message>, m: Message, now: real, key: string)
    ensures Promised(b, queue + [m], now, key) == MessageEffect(m, Promised(b, queue, now, key), now, key)
  {
    assert (queue + [m])[..|queue|] == queue;
  }

  lemma {:induction false} PromisedFront(b: Option<Binding>, queue: seq<Message>, now: real, key: string)
    requires queue != []
    ensures Promised(MessageEffect(queue[0], b, now, key), queue[1..], now, key) == Promised(b, queue, now, key)
    decreases |queue|
  {
    var n := |queue| - 1;
    if n > 0 {
      PromisedFront(b, queue[..n], now, key);
      assert queue[1..][..n - 1] == queue[..n][1..];
      assert queue[1..][n - 1] == queue[n];
    } else {
      assert queue[..0] == [];
    }
  }

  // ---- delay only postpones expiry ----

  predicate Outlives(x: Binding, y: Binding) {
    x.expiresAt.Some? ==> y.expiresAt.Some? && y.expiresAt.value <= x.expiresAt.value
  }

  /** `later` at a later time stands for `earlier`: the same, or a longer-lived copy, or gone
      because it ran out. */
  predicate Ages(earlier: Option<Binding>, later: Option<Binding>, at: real) {
    || earlier == later
    || (earlier.Some? && later.Some? && earlier.value.value == later.value.value
        && Outlives(later.value, earlier.value))
    || (earlier.Some? && later.None? && !earlier.value.LiveAt(at))
  }

  lemma {:induction false} LoadAges(
    rows: seq<Export>, b: Option<Binding>, b': Option<Binding>, now: real, later: real, key: string)
    requires now <= later && Ages(b, b', later)
    ensures Ages(LoadEffect(rows, b, now, key), LoadEffect(rows, b', later, key), later)
    decreases |rows|
  {
    if rows != [] {
      LoadAges(rows[..|rows| - 1], b, b', now, later, key);
    }
  }

  lemma {:induction false} PromisedAges(
    b: Option<Binding>, b': Option<Binding>, queue: seq<Message>, now: real, later: real, key: string)
    requires now <= later && Ages(b, b', later)
    ensures Ages(Promised(b, queue, now, key), Promised(b', queue, later, key), later)
    decreases |queue|
  {
    if queue != [] {
      var n := |queue| - 1;
      var p, p' := Promised(b, queue[..n], now, key), Promised(b', queue[..n], later, key);
      PromisedAges(b, b', queue[..n], now, later, key);
      match queue[n]
      case Snapshot(rows) => LoadAges(rows, p, p', now, later, key);
      case Replicate(op) =>
    }
  }

  // ---- the invariant ----

  ghost predicate Covers(promised: Option<Binding>, held: Option<Binding>) {
    held.Some? ==> promised.Some? && promised.value.value == held.value.value
                   && Outlives(promised.value, held.value)
  }

  /** Every key live on the primary is live on the replica, or will be when it has caught up,
      with the same value and at least as long to live. */
  ghost predicate Covered(n: Net, now: real) {
    forall k :: Covers(Promised(Bound(n.replica, now, k), n.queue, now, k), Bound(n.primary, now, k))
  }

  ghost predicate Sound(c: Config, d: Config, n: Net) {
    && c.Ok() && Fits(c, n.primary) && d.Ok() && Fits(d, n.replica)
    && forall i :: 0 <= i < |n.queue| && n.queue[i].Replicate? ==> IsWrite(n.queue[i].op)
  }

  lemma CoveredLater(n: Net, now: real, later: real)
    requires Covered(n, now) && now <= later
    ensures Covered(n, later)
  {
    forall k ensures Covers(Promised(Bound(n.replica, later, k), n.queue, later, k), Bound(n.primary, later, k)) {
      BoundLater(n.primary, now, later, k);
      BoundLater(n.replica, now, later, k);
      PromisedAges(Bound(n.replica, now, k), Bound(n.replica, later, k), n.queue, now, later, k);
    }
  }

  lemma {:induction false} LoadFits(d: Config, s: Store, now: real, rows: seq<Export>)
    requires d.Ok() && Fits(d, s)
    ensures Fits(d, Load(d, s, now, rows)) && s.evicted <= Load(d, s, now, rows).evicted
    decreases |rows|
  {
    if rows != [] {
      var n := |rows| - 1;
      var x := rows[n];
      LoadFits(d, s, now, rows[..n]);
      ApplyFits(d, Load(d, s, now, rows[..n]), now, OpSet(x.key, x.value, x.ttl));
      StepBound(d, Load(d, s, now, rows[..n]), now, OpSet(x.key, x.value, x.ttl), x.key);
    }
  }

  lemma {:induction false} LoadBound(d: Config, s: Store, now: real, rows: seq<Export>, key: string)
    requires d.Ok() && Fits(d, s) && Load(d, s, now, rows).evicted == s.evicted
    ensures Bound(Load(d, s, now, rows), now, key) == LoadEffect(rows, Bound(s, now, key), now, key)
    decreases |rows|
  {
    if rows != [] {
      var n := |rows| - 1;
      var x := rows[n];
      var s' := Load(d, s, now, rows[..n]);
      LoadFits(d, s, now, rows[..n]);
      StepBound(d, s', now, OpSet(x.key, x.value, x.ttl), key);
      LoadBound(d, s, now, rows[..n], key);
    }
  }

  lemma ReceiveBound(d: Config, s: Store, now: real, m: Message, key: string)
    requires d.Ok() && Fits(d, s) && Receive(d, s, now, m).evicted == s.evicted
    ensures Bound(Receive(d, s, now, m), now, key) == MessageEffect(m, Bound(s, now, key), now, key)
  {
    match m
    case Snapshot(rows) => LoadBound(d, s, now, rows, key);
    case Replicate(op) => StepBound(d, s, now, op, key);
  }

  lemma StepSound(c: Config, d: Config, n: Net, m: Moment)
    requires Sound(c, d, n)
    ensures Sound(c, d, Step(c, d, n, m)) && n.replica.evicted <= Step(c, d, n, m).replica.evicted
  {
    match m.what
    case AtPrimary(op) => ApplyFits(c, n.primary, m.now, op);
    case AtReplica(op) =>
      ApplyFits(d, n.replica, m.now, op);
      StepBound(d, n.replica, m.now, op, "");
    case Deliver =>
      if n.queue != [] {
        match n.queue[0]
        case Snapshot(rows) => LoadFits(d, n.replica, m.now, rows);
        case Replicate(op) =>
          ApplyFits(d, n.replica, m.now, op);
          StepBound(d, n.replica, m.now, op, "");
      }
  }

  lemma PrimaryStepCovered(c: Config, n: Net, now: real, op: Op)
    requires Unique(n.primary.rows) && Covered(n, now)
    ensures Covered(Step(c, c, n, Moment(now, AtPrimary(op))), now)
  {
    var n' := Step(c, c, n, Moment(now, AtPrimary(op)));
    forall k ensures Covers(Promised(Bound(n'.replica, now, k), n'.queue, now, k), Bound(n'.primary, now, k)) {
      StepBound(c, n.primary, now, op, k);
      PromisedAppend(Bound(n.replica, now, k), n.queue, Replicate(op), now, k);
    }
  }

  lemma ReplicaStepCovered(c: Config, d: Config, n: Net, now: real, op: Op)
    requires Sound(c, d, n) && Covered(n, now) && !IsWrite(op)
    ensures Covered(n.(replica := Apply(d, n.replica, now, op)), now)
  {
    var n' := n.(replica := Apply(d, n.replica, now, op));
    forall k ensures Covers(Promised(Bound(n'.replica, now, k), n'.queue, now, k), Bound(n'.primary, now, k)) {
      StepBound(d, n.replica, now, op, k);
    }
  }

  lemma DeliverCovered(c: Config, d: Config, n: Net, now: real)
    requires Sound(c, d, n) && Covered(n, now)
    requires Step(c, d, n, Moment(now, Deliver)).replica.evicted == n.replica.evicted
    ensures Covered(Step(c, d, n, Moment(now, Deliver)), now)
  {
    var n' := Step(c, d, n, Moment(now, Deliver));
    if n.queue != [] {
      forall k ensures Covers(Promised(Bound(n'.replica, now, k), n'.queue, now, k), Bound(n'.primary, now, k)) {
        ReceiveBound(d, n.replica, now, n.queue[0], k);
        PromisedFront(Bound(n.replica, now, k), n.queue, now, k);
      }
    }
  }

  lemma StepCovered(c: Config, d: Config, n: Net, m: Moment)
    requires Sound(c, d, n) && Covered(n, m.now)
    requires Step(c, d, n, m).replica.evicted == n.replica.evicted
    ensures Covered(Step(c, d, n, m), m.now)
  {
    match m.what
    case AtPrimary(op) => PrimaryStepCovered(c, n, m.now, op);
    case AtReplica(op) => if !IsWrite(op) { ReplicaStepCovered(c, d, n, m.now, op); }
    case Deliver => DeliverCovered(c, d, n, m.now);
  }

  lemma {:induction false} ReplicaLogGrows(c: Config, d: Config, n: Net, moments: seq<Moment>)
    requires Sound(c, d, n)
    ensures n.replica.evicted <= RunNet(c, d, n, moments).replica.evicted
    decreases |moments|
  {
    if moments != [] {
      StepSound(c, d, n, moments[0]);
      ReplicaLogGrows(c, d, Step(c, d, n, moments[0]), moments[1..]);
    }
  }

  lemma {:induction false} RunCovered(
    c: Config, d: Config, n: Net, start: real, finish: real, moments: seq<Moment>)
    requires Sound(c, d, n) && Covered(n, start) && InOrder(start, finish, moments)
    requires RunNet(c, d, n, moments).replica.evicted == n.replica.evicted
    ensures Covered(RunNet(c, d, n, moments), finish)
    decreases |moments|
  {
    if moments == [] {
      CoveredLater(n, start, finish);
    } else {
      var m, rest := moments[0], moments[1..];
      CoveredLater(n, start, m.now);
      StepSound(c, d, n, m);
      ReplicaLogGrows(c, d, Step(c, d, n, m), rest);
      assert InOrder(m.now, finish, rest);
      StepCovered(c, d, n, m);
      RunCovered(c, d, Step(c, d, n, m), m.now, finish, rest);
    }
  }

  // ---- from a snapshot ----

  /** Loading distinct rows binds a key to its row. */
  lemma {:induction false} LoadEffectAt(rows: seq<Export>, i: nat, b: Option<Binding>, now: real)
    requires i < |rows| && DistinctKeys(rows)
    ensures LoadEffect(rows, b, now, rows[i].key) ==
            Some(Binding(rows[i].value, Deadline(now, rows[i].ttl)))
    decreases |rows|
  {
    var n := |rows| - 1;
    if i < n {
      LoadEffectAt(rows[..n], i, b, now);
    }
  }

  lemma SnapshotCovers(s: Store, now: real)
    requires Unique(s.rows)
    ensures Covered(Net(s, EMPTY, [Snapshot(Exports(s, now))]), now)
  {
    var xs, live := Exports(s, now), Live(s.rows, now);
    var n := Net(s, EMPTY, [Snapshot(xs)]);
    ExportsDistinct(s, now);
    forall k ensures Covers(Promised(Bound(EMPTY, now, k), n.queue, now, k), Bound(s, now, k)) {
      LookupLive(s, now, k);
      PromisedAppend(None, [], Snapshot(xs), now, k);
      assert [] + [Snapshot(xs)] == n.queue;
      if Bound(s, now, k).Some? {
        var i := Find(live, k);
        LoadEffectAt(xs, i, None, now);
      }
    }
  }

  /** Starting from a snapshot on its way to an empty replica, whenever the replica has been
      sent everything and has evicted nothing, every key live on the primary reads the same
      there, whatever was read, swept or delayed in between. */
  lemma {:induction false} CaughtUpReplicaAgrees(
    c: Config, d: Config, s: Store, start: real, finish: real, moments: seq<Moment>, key: string)
    requires c.Ok() && d.Ok() && Fits(c, s) && InOrder(start, finish, moments)
    requires var n := RunNet(c, d, Net(s, EMPTY, [Snapshot(Exports(s, start))]), moments);
             n.replica.evicted == [] && n.queue == []
    ensures var n := RunNet(c, d, Net(s, EMPTY, [Snapshot(Exports(s, start))]), moments);
            var e, e' := Peek(n.primary, finish, key), Peek(n.replica, finish, key);
            e.Some? ==>
              && e'.Some? && e'.value.value == e.value.value
              && Answer(n.replica, finish, OpGet(key)) == Answer(n.primary, finish, OpGet(key))
              && (e'.value.expiresAt.Some? ==>
                    e.value.expiresAt.Some? && e.value.expiresAt.value <= e'.value.expiresAt.value)
  {
    var n0 := Net(s, EMPTY, [Snapshot(Exports(s, start))]);
    SnapshotCovers(s, start);
    RunCovered(c, d, n0, start, finish, moments);
    var n := RunNet(c, d, n0, moments);
    assert Covers(Promised(Bound(n.replica, finish, key), n.queue, finish, key), Bound(n.primary, finish, key));
  }

  // ---- and nothing else ----

  /** What the primary's clients last wrote, without capacity or expiry. */
  function Written(table: Table, moments: seq<Moment>): Table
    decreases |moments|
  {
    if moments == [] then table
    else
      var m := moments[0];
      Written(if m.what.AtPrimary? then Plain(table, m.now, m.what.op) else table, moments[1..])
  }

  /** What is held is what was written, its deadline at most `lag` later, and none if none was
      written. */
  predicate Echo(held: Option<Binding>, table: Table, key: string, lag: real) {
    held.Some? ==>
      && key in table && table[key].value == held.value.value
      && (table[key].expiresAt.Some? <==> held.value.expiresAt.Some?)
      && (held.value.expiresAt.Some? ==> held.value.expiresAt.value <= table[key].expiresAt.value + lag)
  }

  /** The primary is the plain table; the replica holds, or is promised, only its rows, later
      by no more than the time since `start`. */
  ghost predicate Echoed(n: Net, table: Table, start: real, now: real) {
    && start <= now
    && forall k ::
         && Bound(n.primary, now, k) == TableAt(table, now, k)
         && Echo(Promised(Bound(n.replica, now, k), n.queue, now, k), table, k, now - start)
  }

  lemma EchoEffect(op: Op, b: Option<Binding>, table: Table, now: real, k: string, lag: real)
    requires Echo(b, table, k, lag) && lag >= 0.0
    ensures Echo(Effect(op, b, now, k), Plain(table, now, op), k, lag)
  {
  }

  /** `later` stands for `earlier` once `dt` has passed: it may be gone, and its deadline may have
      moved on by as much, but it is neither new nor freed of its deadline. */
  predicate Drifts(earlier: Option<Binding>, later: Option<Binding>, dt: real) {
    later.Some? ==>
      && earlier.Some? && earlier.value.value == later.value.value
      && (earlier.value.expiresAt.Some? <==> later.value.expiresAt.Some?)
      && (later.value.expiresAt.Some? ==> later.value.expiresAt.value <= earlier.value.expiresAt.value + dt)
  }

  lemma EffectDrifts(op: Op, b: Option<Binding>, b': Option<Binding>, now: real, later: real, key: string)
    requires now <= later && Drifts(b, b', later - now)
    ensures Drifts(Effect(op, b, now, key), Effect(op, b', later, key), later - now)
  {
  }

  lemma {:induction false} LoadDrifts(
    rows: seq<Export>, b: Option<Binding>, b': Option<Binding>, now: real, later: real, key: string)
    requires now <= later && Drifts(b, b', later - now)
    ensures Drifts(LoadEffect(rows, b, now, key), LoadEffect(rows, b', later, key), later - now)
    decreases |rows|
  {
    if rows != [] {
      var n := |rows| - 1;
      var init, x := rows[..n], rows[n];
      LoadDrifts(init, b, b', now, later, key);
      EffectDrifts(OpSet(x.key, x.value, x.ttl), LoadEffect(init, b, now, key), LoadEffect(init, b', later, key),
                   now, later, key);
    }
  }

  lemma {:induction false} PromisedDrifts(
    b: Option<Binding>, b': Option<Binding>, queue: seq<Message>, now: real, later: real, key: string)
    requires now <= later && Drifts(b, b', later - now)
    ensures Drifts(Promised(b, queue, now, key), Promised(b', queue, later, key), later - now)
    decreases |queue|
  {
    if queue != [] {
      var n := |queue| - 1;
      var init := queue[..n];
      var p, p' := Promised(b, init, now, key), Promised(b', init, later, key);
      PromisedDrifts(b, b', init, now, later, key);
      match queue[n]
      case Snapshot(rows) => LoadDrifts(rows, p, p', now, later, key);
      case Replicate(op) => EffectDrifts(op, p, p', now, later, key);
    }
  }

  lemma {:induction false} EchoedLater(n: Net, table: Table, start: real, now: real, later: real)
    requires Echoed(n, table, start, now) && now <= later
    ensures Echoed(n, table, start, later)
  {
    forall k ensures Bound(n.primary, later, k) == TableAt(table, later, k)
                     && Echo(Promised(Bound(n.replica, later, k), n.queue, later, k), table, k, later - start)
    {
      BoundLater(n.primary, now, later, k);
      BoundLater(n.replica, now, later, k);
      PromisedDrifts(Bound(n.replica, now, k), Bound(n.replica, later, k), n.queue, now, later, k);
    }
  }

  lemma {:induction false} PrimaryStepEchoed(c: Config, n: Net, table: Table, start: real, now: real, op: Op)
    requires Unique(n.primary.rows) && Echoed(n, table, start, now)
    requires Apply(c, n.primary, now, op).evicted == n.primary.evicted
    ensures Echoed(Step(c, c, n, Moment(now, AtPrimary(op))), Plain(table, now, op), start, now)
  {
    var n' := Step(c, c, n, Moment(now, AtPrimary(op)));
    forall k ensures Bound(n'.primary, now, k) == TableAt(Plain(table, now, op), now, k)
                     && Echo(Promised(Bound(n'.replica, now, k), n'.queue, now, k), Plain(table, now, op), k, now - start)
    {
      StepBound(c, n.primary, now, op, k);
      PlainEffect(table, now, op, k);
      PromisedAppend(Bound(n.replica, now, k), n.queue, Replicate(op), now, k);
      EchoEffect(op, Promised(Bound(n.replica, now, k), n.queue, now, k), table, now, k, now - start);
    }
  }

  lemma {:induction false} ReplicaStepEchoed(c: Config, d: Config, n: Net, table: Table, start: real, now: real, op: Op)
    requires Sound(c, d, n) && Echoed(n, table, start, now) && !IsWrite(op)
    ensures Echoed(n.(replica := Apply(d, n.replica, now, op)), table, start, now)
  {
    var n' := n.(replica := Apply(d, n.replica, now, op));
    forall k ensures Bound(n'.primary, now, k) == TableAt(table, now, k)
                     && Echo(Promised(Bound(n'.replica, now, k), n'.queue, now, k), table, k, now - start)
    {
      StepBound(d, n.replica, now, op, k);
    }
  }

  lemma {:induction false} DeliverEchoed(c: Config, d: Config, n: Net, table: Table, start: real, now: real)
    requires Sound(c, d, n) && Echoed(n, table, start, now)
    requires Step(c, d, n, Moment(now, Deliver)).replica.evicted == n.replica.evicted
    ensures Echoed(Step(c, d, n, Moment(now, Deliver)), table, start, now)
  {
    var n' := Step(c, d, n, Moment(now, Deliver));
    if n.queue != [] {
      forall k ensures Bound(n'.primary, now, k) == TableAt(table, now, k)
                       && Echo(Promised(Bound(n'.replica, now, k), n'.queue, now, k), table, k, now - start)
      {
        ReceiveBound(d, n.replica, now, n.queue[0], k);
        PromisedFront(Bound(n.replica, now, k), n.queue, now, k);
      }
    }
  }

  lemma {:induction false} StepEchoed(c: Config, d: Config, n: Net, table: Table, start: real, m: Moment)
    requires Sound(c, d, n) && Echoed(n, table, start, m.now)
    requires Step(c, d, n, m).replica.evicted == n.replica.evicted
    requires Step(c, d, n, m).primary.evicted == n.primary.evicted
    ensures Echoed(Step(c, d, n, m), if m.what.AtPrimary? then Plain(table, m.now, m.what.op) else table, start, m.now)
  {
    match m.what
    case AtPrimary(op) => PrimaryStepEchoed(c, n, table, start, m.now, op);
    case AtReplica(op) => if !IsWrite(op) { ReplicaStepEchoed(c, d, n, table, start, m.now, op); }
    case Deliver => DeliverEchoed(c, d, n, table, start, m.now);
  }

  lemma PrimaryLogStep(c: Config, d: Config, n: Net, m: Moment)
    requires Sound(c, d, n)
    ensures n.primary.evicted <= Step(c, d, n, m).primary.evicted
  {
    if m.what.AtPrimary? {
      StepBound(c, n.primary, m.now, m.what.op, "");
    }
  }

  lemma {:induction false} PrimaryLogGrows(c: Config, d: Config, n: Net, moments: seq<Moment>)
    requires Sound(c, d, n)
    ensures n.primary.evicted <= RunNet(c, d, n, moments).primary.evicted
    decreases |moments|
  {
    if moments != [] {
      var m := moments[0];
      StepSound(c, d, n, m);
      PrimaryLogStep(c, d, n, m);
      PrimaryLogGrows(c, d, Step(c, d, n, m), moments[1..]);
    }
  }

  lemma {:induction false} RunEchoed(
    c: Config, d: Config, n: Net, table: Table, start: real, from: real, finish: real, moments: seq<Moment>)
    requires Sound(c, d, n) && Echoed(n, table, start, from) && InOrder(from, finish, moments)
    requires RunNet(c, d, n, moments).replica.evicted == n.replica.evicted
    requires RunNet(c, d, n, moments).primary.evicted == n.primary.evicted
    ensures Echoed(RunNet(c, d, n, moments), Written(table, moments), start, finish)
    decreases |moments|
  {
    if moments == [] {
      EchoedLater(n, table, start, from, finish);
    } else {
      var m, rest := moments[0], moments[1..];
      var n', table' := Step(c, d, n, m), if m.what.AtPrimary? then Plain(table, m.now, m.what.op) else table;
      EchoedLater(n, table, start, from, m.now);
      StepSound(c, d, n, m);
      ReplicaLogGrows(c, d, n', rest);
      PrimaryLogStep(c, d, n, m);
      PrimaryLogGrows(c, d, n', rest);
      assert InOrder(m.now, finish, rest);
      StepEchoed(c, d, n, table, start, m);
      RunEchoed(c, d, n', table', start, m.now, finish, rest);
    }
  }

  /** The live rows of a store as a plain table. */
  ghost function TableOf(s: Store, now: real): Table {
    map k | k in KeySet(Live(s.rows, now)) && Bound(s, now, k).Some? :: Bound(s, now, k).value
  }

  lemma TableOfStore(s: Store, now: real, k: string)
    requires Unique(s.rows)
    ensures TableAt(TableOf(s, now), now, k) == Bound(s, now, k)
  {
    LookupLive(s, now, k);
    LookupNone(Live(s.rows, now), k);
  }

  /** Row i is what a load has bound `k` to. */
  predicate BoundBy(rows: seq<Export>, i: nat, b: Option<Binding>, now: real, k: string) {
    i < |rows| && rows[i].key == k && b == Some(Binding(rows[i].value, Deadline(now, rows[i].ttl)))
  }

  /** Loading rows binds only their keys, each to one of its rows. */
  lemma {:induction false} LoadEffectFrom(rows: seq<Export>, now: real, k: string) returns (i: nat)
    requires LoadEffect(rows, None, now, k).Some?
    ensures BoundBy(rows, i, LoadEffect(rows, None, now, k), now, k)
    decreases |rows|
  {
    var n := |rows| - 1;
    if rows[n].key == k {
      i := n;
    } else {
      i := LoadEffectFrom(rows[..n], now, k);
    }
  }

  /** What a snapshot taken now binds is what the store holds, deadline and all. */
  lemma {:induction false} SnapshotBinds(s: Store, now: real, k: string)
    requires Unique(s.rows)
    ensures var b := LoadEffect(Exports(s, now), None, now, k); b.Some? ==> b == Bound(s, now, k)
  {
    var xs, live := Exports(s, now), Live(s.rows, now);
    if LoadEffect(xs, None, now, k).Some? {
      var i := LoadEffectFrom(xs, now, k);
      FilterUnique(s.rows, LiveAt(now));
      FilterIn(s.rows, LiveAt(now));
      FindUnique(live, i);
      LookupLive(s, now, k);
      assert live[i] in live;
    }
  }

  lemma SnapshotEchoed(s: Store, now: real)
    requires Unique(s.rows)
    ensures Echoed(Net(s, EMPTY, [Snapshot(Exports(s, now))]), TableOf(s, now), now, now)
  {
    var xs := Exports(s, now);
    var n := Net(s, EMPTY, [Snapshot(xs)]);
    forall k ensures Bound(s, now, k) == TableAt(TableOf(s, now), now, k)
                     && Echo(Promised(Bound(EMPTY, now, k), n.queue, now, k), TableOf(s, now), k, 0.0)
    {
      TableOfStore(s, now, k);
      PromisedAppend(None, [], Snapshot(xs), now, k);
      assert [] + [Snapshot(xs)] == n.queue;
      SnapshotBinds(s, now, k);
    }
  }

  /** A primary and a replica that is about to load its snapshot, after these moments. */
  function FromSnapshot(c: Config, d: Config, s: Store, start: real, moments: seq<Moment>): Net {
    RunNet(c, d, Net(s, EMPTY, [Snapshot(Exports(s, start))]), moments)
  }

  ghost predicate CaughtUp(n: Net, s: Store) {
    n.replica.evicted == [] && n.primary.evicted == s.evicted && n.queue == []
  }

  lemma {:induction false} CaughtUpEcho(
    c: Config, d: Config, s: Store, start: real, finish: real, moments: seq<Moment>, key: string)
    requires c.Ok() && d.Ok() && Fits(c, s) && InOrder(start, finish, moments)
    requires CaughtUp(FromSnapshot(c, d, s, start, moments), s)
    ensures var n, table := FromSnapshot(c, d, s, start, moments), Written(TableOf(s, start), moments);
            && Bound(n.primary, finish, key) == TableAt(table, finish, key)
            && Echo(Bound(n.replica, finish, key), table, key, finish - start)
  {
    SnapshotEchoed(s, start);
    RunEchoed(c, d, Net(s, EMPTY, [Snapshot(Exports(s, start))]), TableOf(s, start), start, start, finish, moments);
    var n := FromSnapshot(c, d, s, start, moments);
    assert Promised(Bound(n.replica, finish, key), n.queue, finish, key) == Bound(n.replica, finish, key);
  }

  /** The other way round, with no evictions on either side: what a caught-up replica holds is
      what the primary's clients last wrote, with a deadline exactly if it was written with one
      and at most as much later as the run has lasted; and the primary lacks it only because it
      expired there. */
  lemma {:induction false} CaughtUpReplicaHoldsNoMore(
    c: Config, d: Config, s: Store, start: real, finish: real, moments: seq<Moment>, key: string)
    requires c.Ok() && d.Ok() && Fits(c, s) && InOrder(start, finish, moments)
    requires CaughtUp(FromSnapshot(c, d, s, start, moments), s)
    ensures var n, table := FromSnapshot(c, d, s, start, moments), Written(TableOf(s, start), moments);
            var e, e' := Peek(n.primary, finish, key), Peek(n.replica, finish, key);
            e'.Some? ==>
              && key in table && table[key].value == e'.value.value
              && (table[key].expiresAt.Some? <==> e'.value.expiresAt.Some?)
              && (e'.value.expiresAt.Some? ==>
                    e'.value.expiresAt.value <= table[key].expiresAt.value + (finish - start))
              && (e == None <==> !table[key].LiveAt(finish))
              && (e.Some? ==> e.value.value == e'.value.value && e.value.expiresAt == table[key].expiresAt)
  {
    CaughtUpEcho(c, d, s, start, finish, moments, key);
  }

  /** No more writes at the primary. */
  ghost predicate Quiet(moments: seq<Moment>) {
    forall i :: 0 <= i < |moments| && moments[i].what.AtPrimary? ==> !IsWrite(moments[i].what.op)
  }

  lemma {:induction false} QuietReplica(
    c: Config, d: Config, n: Net, start: real, finish: real, moments: seq<Moment>, key: string)
    requires Sound(c, d, n) && n.queue == [] && Quiet(moments) && InOrder(start, finish, moments)
    ensures RunNet(c, d, n, moments).queue == []
    ensures Bound(RunNet(c, d, n, moments).replica, finish, key) in {Bound(n.replica, start, key), None}
    decreases |moments|
  {
    if moments == [] {
      BoundLater(n.replica, start, finish, key);
    } else {
      var m, rest := moments[0], moments[1..];
      var n' := Step(c, d, n, m);
      BoundLater(n.replica, start, m.now, key);
      StepSound(c, d, n, m);
      if m.what.AtReplica? && !IsWrite(m.what.op) {
        StepBound(d, n.replica, m.now, m.what.op, key);
      }
      assert InOrder(m.now, finish, rest);
      assert Quiet(rest) by {
        assert forall i :: 0 <= i < |rest| ==> rest[i] == moments[i + 1];
      }
      QuietReplica(c, d, n', m.now, finish, rest, key);
    }
  }

  lemma {:induction false} NetSound(c: Config, d: Config, n: Net, moments: seq<Moment>)
    requires Sound(c, d, n)
    ensures Sound(c, d, RunNet(c, d, n, moments))
    decreases |moments|
  {
    if moments != [] {
      StepSound(c, d, n, moments[0]);
      NetSound(c, d, Step(c, d, n, moments[0]), moments[1..]);
    }
  }

  /** A key last written with a TTL does not outlive it on a replica for ever: once the replica
      has caught up, at `done`, and nothing more is written, the key is gone from it as soon as
      its deadline is passed by the time the catching up took. */
  lemma {:induction false} ExpiredKeysGo(
    c: Config, d: Config, s: Store, start: real, done: real, finish: real,
    moments: seq<Moment>, after: seq<Moment>, key: string)
    requires c.Ok() && d.Ok() && Fits(c, s) && InOrder(start, done, moments)
    requires CaughtUp(FromSnapshot(c, d, s, start, moments), s)
    requires Quiet(after) && InOrder(done, finish, after)
    requires var table := Written(TableOf(s, start), moments);
             && key in table && table[key].expiresAt.Some?
             && finish >= table[key].expiresAt.value + (done - start)
    ensures Peek(RunNet(c, d, FromSnapshot(c, d, s, start, moments), after).replica, finish, key) == None
  {
    var n := FromSnapshot(c, d, s, start, moments);
    CaughtUpEcho(c, d, s, start, done, moments, key);
    NetSound(c, d, Net(s, EMPTY, [Snapshot(Exports(s, start))]), moments);
    QuietReplica(c, d, n, done, finish, after, key);
  }
}
