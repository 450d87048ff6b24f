/**
 * The consistent-hashing ring. The hash is any function from strings to 32 bits; distinct
 * nodes may collide. Points at the same hash keep the order their nodes were added in.
 */
module ConsistentHashing {
  import opened Prelude
  import opened Sequences
  import opened StableSorting

  type HashFn = string -> u32

  function Digit(d: nat): char
    requires d < 10
  {
    "0123456789"[d]
  }

  function Decimal(i: nat): string {
    if i < 10 then [Digit(i)] else Decimal(i / 10) + [Digit(i % 10)]
  }

  /** What is hashed for a node's i-th virtual point. */
  function Label(node: string, i: nat): string {
    node + "#" + Decimal(i)
  }

  function VirtualPoint(h: HashFn, node: string, i: nat): Point {
    Point(h(Label(node, i)), node)
  }

  /** A node's first v points, in the order they are pushed. */
  function NodePoints(h: HashFn, node: string, v: nat): (r: seq<Point>)
    ensures |r| == v
  {
    seq(v, i requires 0 <= i < v => VirtualPoint(h, node, i))
  }

  datatype Ring = Ring(points: seq<Point>, nodes: seq<string>)

  const EMPTY_RING := Ring([], [])

  function NotOf(node: string): Point -> bool {
    (p: Point) => p.node != node
  }

  function IsNot(node: string): string -> bool {
    (n: string) => n != node
  }

  function AddNode(h: HashFn, v: nat, r: Ring, node: string): Ring {
    if node in r.nodes then r
    else Ring(StableSort(r.points + NodePoints(h, node, v)), r.nodes + [node])
  }

  function RemoveNode(r: Ring, node: string): Ring {
    if node !in r.nodes then r
    else Ring(Filter(r.points, NotOf(node)), Filter(r.nodes, IsNot(node)))
  }

  /** The first position at or past k, or the length. */
  function Successor(points: seq<Point>, k: u32): (i: nat)
    ensures i <= |points|
    ensures forall j :: 0 <= j < i ==> points[j].hash < k
    ensures i < |points| ==> points[i].hash >= k
  {
    if points == [] then 0 else if points[0].hash >= k then 0 else 1 + Successor(points[1..], k)
  }

  lemma SuccessorUnique(points: seq<Point>, k: u32, i: nat)
    requires i <= |points| && forall j :: 0 <= j < i ==> points[j].hash < k
    requires i < |points| ==> points[i].hash >= k
    ensures i == Successor(points, k)
  {
  }

  /** Clockwise from k, wrapping to the first point. */
  function Owner(points: seq<Point>, k: u32): Option<string> {
    if points == [] then None
    else
      var i := Successor(points, k);
      Some(points[if i == |points| then 0 else i].node)
  }

  // ---- histories ----

  datatype Change = Add(node: string) | Remove(node: string)

  function Change1(h: HashFn, v: nat, r: Ring, c: Change): Ring {
    match c
    case Add(node) => AddNode(h, v, r, node)
    case Remove(node) => RemoveNode(r, node)
  }

  function Replay(h: HashFn, v: nat, r: Ring, history: seq<Change>): Ring
    decreases |history|
  {
    if history == [] then r else Replay(h, v, Change1(h, v, r, history[0]), history[1..])
  }

  // ---- what the ring holds ----

  /** Every member's points, members in insertion order. */
  function AllPoints(h: HashFn, v: nat, nodes: seq<string>): seq<Point> {
    if nodes == [] then []
    else AllPoints(h, v, nodes[..|nodes| - 1]) + NodePoints(h, nodes[|nodes| - 1], v)
  }

  /** The ring is exactly its members' points, stably sorted. */
  ghost predicate Canonical(h: HashFn, v: nat, r: Ring) {
    Distinct(r.nodes) && r.points == StableSort(AllPoints(h, v, r.nodes))
  }

  lemma AllPointsSnoc(h: HashFn, v: nat, nodes: seq<string>, node: string)
    ensures AllPoints(h, v, nodes + [node]) == AllPoints(h, v, nodes) + NodePoints(h, node, v)
  {
    assert (nodes + [node])[..|nodes|] == nodes;
  }

  lemma {:induction false} PointsOfNodes(h: HashFn, v: nat, nodes: seq<string>)
    ensures forall p :: p in AllPoints(h, v, nodes) ==> p.node in nodes
  {
    if nodes != [] {
      var n := |nodes| - 1;
      PointsOfNodes(h, v, nodes[..n]);
      assert forall p :: p in NodePoints(h, nodes[n], v) ==> p.node == nodes[n];
    }
  }

  lemma FilterOwnPoints(h: HashFn, v: nat, node: string, gone: string)
    ensures Filter(NodePoints(h, node, v), NotOf(gone)) ==
            if node == gone then [] else NodePoints(h, node, v)
    ensures Filter(NodePoints(h, node, v), OfNode(gone)) ==
            if node == gone then NodePoints(h, node, v) else []
  {
    var ps := NodePoints(h, node, v);
    assert forall p :: p in ps ==> p.node == node;
    if node == gone {
      FilterNone(ps, NotOf(gone));
      FilterAll(ps, OfNode(gone));
    } else {
      FilterAll(ps, NotOf(gone));
      FilterNone(ps, OfNode(gone));
    }
  }

  lemma {:induction false} AllPointsFilter(h: HashFn, v: nat, nodes: seq<string>, gone: string)
    ensures Filter(AllPoints(h, v, nodes), NotOf(gone)) == AllPoints(h, v, Filter(nodes, IsNot(gone)))
  {
    if nodes != [] {
      var n := |nodes| - 1;
      SplitLast(nodes);
      var init, last := nodes[..n], nodes[n];
      AllPointsFilter(h, v, init, gone);
      FilterAppend(AllPoints(h, v, init), NodePoints(h, last, v), NotOf(gone));
      FilterOwnPoints(h, v, last, gone);
      FilterSnoc(init, last, IsNot(gone));
      if last == gone {
        assert Filter(init, IsNot(gone)) + [] == Filter(init, IsNot(gone));
      } else {
        AllPointsSnoc(h, v, Filter(init, IsNot(gone)), last);
      }
    }
  }

  lemma {:induction false} FilterDistinct(nodes: seq<string>, gone: string)
    requires Distinct(nodes)
    ensures Distinct(Filter(nodes, IsNot(gone)))
  {
    if nodes != [] {
      FilterDistinct(nodes[1..], gone);
      FilterIn(nodes[1..], IsNot(gone));
      var f := Filter(nodes[1..], IsNot(gone));
      forall i | 0 <= i < |f| ensures f[i] != nodes[0] {
        assert f[i] in f;
        assert f[i] in nodes[1..];
      }
    }
  }

  /** Every change keeps the ring canonical, ties included. */
  lemma ChangeCanonical(h: HashFn, v: nat, r: Ring, c: Change)
    requires Canonical(h, v, r)
    ensures Canonical(h, v, Change1(h, v, r, c))
  {
    match c
    case Add(node) =>
      SortPrefix(AllPoints(h, v, r.nodes), NodePoints(h, node, v));
      AllPointsSnoc(h, v, r.nodes, node);
    case Remove(node) =>
      SortFilter(AllPoints(h, v, r.nodes), NotOf(node));
      AllPointsFilter(h, v, r.nodes, node);
      FilterDistinct(r.nodes, node);
  }

  lemma {:induction false} ReplayCanonical(h: HashFn, v: nat, r: Ring, history: seq<Change>)
    requires Canonical(h, v, r)
    ensures Canonical(h, v, Replay(h, v, r, history))
    decreases |history|
  {
    if history != [] {
      ChangeCanonical(h, v, r, history[0]);
      ReplayCanonical(h, v, Change1(h, v, r, history[0]), history[1..]);
    }
  }

  function OfNode(node: string): Point -> bool {
    (p: Point) => p.node == node
  }

  lemma {:induction false} AllPointsOf(h: HashFn, v: nat, nodes: seq<string>, node: string)
    requires Distinct(nodes)
    ensures Filter(AllPoints(h, v, nodes), OfNode(node)) == if node in nodes then NodePoints(h, node, v) else []
  {
    if nodes != [] {
      var n := |nodes| - 1;
      SplitLast(nodes);
      AllPointsOf(h, v, nodes[..n], node);
      FilterAppend(AllPoints(h, v, nodes[..n]), NodePoints(h, nodes[n], v), OfNode(node));
      FilterOwnPoints(h, v, nodes[n], node);
    }
  }

  lemma {:induction false} CanonicalPoints(h: HashFn, v: nat, r: Ring, node: string)
    requires Canonical(h, v, r)
    ensures Filter(r.points, OfNode(node)) == if node in r.nodes then StableSort(NodePoints(h, node, v)) else []
    ensures |Filter(r.points, OfNode(node))| == if node in r.nodes then v else 0
  {
    SortFilter(AllPoints(h, v, r.nodes), OfNode(node));
    AllPointsOf(h, v, r.nodes, node);
    SortSorted(NodePoints(h, node, v));
  }

  /** Sorted, and exactly virtualNodes points for each member and none for anyone else. */
  lemma RingHoldsMembersPoints(h: HashFn, v: nat, history: seq<Change>, node: string)
    ensures var r := Replay(h, v, EMPTY_RING, history);
            && Sorted(r.points)
            && Filter(r.points, OfNode(node)) ==
               (if node in r.nodes then StableSort(NodePoints(h, node, v)) else [])
            && |Filter(r.points, OfNode(node))| == if node in r.nodes then v else 0
  {
    ReplayCanonical(h, v, EMPTY_RING, history);
    var r := Replay(h, v, EMPTY_RING, history);
    SortSorted(AllPoints(h, v, r.nodes));
    CanonicalPoints(h, v, r, node);
  }

  /** Whether a history leaves a node a member: its last change says. */
  function LastAdded(history: seq<Change>, node: string): bool {
    if history == [] then false
    else
      var n := |history| - 1;
      if history[n].node == node then history[n].Add? else LastAdded(history[..n], node)
  }

  lemma {:induction false} MembersFollowHistory(h: HashFn, v: nat, history: seq<Change>, node: string)
    ensures node in Replay(h, v, EMPTY_RING, history).nodes <==> LastAdded(history, node)
  {
    if history != [] {
      var n := |history| - 1;
      SplitLast(history);
      MembersFollowHistory(h, v, history[..n], node);
      ReplaySnoc(h, v, EMPTY_RING, history[..n], history[n]);
      FilterIn(Replay(h, v, EMPTY_RING, history[..n]).nodes, IsNot(history[n].node));
    }
  }

  // ---- labels ----

  lemma {:induction false} DecimalDigits(i: nat)
    ensures Decimal(i) != [] && forall k :: 0 <= k < |Decimal(i)| ==> Decimal(i)[k] in "0123456789"
    decreases i
  {
    if i >= 10 {
      DecimalDigits(i / 10);
    }
  }

  lemma DigitsDiffer(a: nat, b: nat)
    requires a < 10 && b < 10 && Digit(a) == Digit(b)
    ensures a == b
  {
  }

  lemma {:induction false} DecimalInjective(i: nat, j: nat)
    requires Decimal(i) == Decimal(j)
    ensures i == j
    decreases i
  {
    DecimalDigits(i / 10);
    DecimalDigits(j / 10);
    if i >= 10 && j >= 10 {
      var a, b := Decimal(i / 10), Decimal(j / 10);
      assert Decimal(i)[..|a|] == a && Decimal(i)[|a|] == Digit(i % 10);
      assert Decimal(j)[..|b|] == b && Decimal(j)[|b|] == Digit(j % 10);
      assert |a| + 1 == |b| + 1;
      DecimalInjective(i / 10, j / 10);
      DigitsDiffer(i % 10, j % 10);
    } else if i < 10 && j < 10 {
      assert Decimal(i)[0] == Digit(i) && Decimal(j)[0] == Digit(j);
      DigitsDiffer(i, j);
    }
  }

  /** No two virtual points carry the same label, neither of one node nor of two. */
  lemma {:induction false} LabelsDiffer(a: string, i: nat, b: string, j: nat)
    requires Label(a, i) == Label(b, j)
    ensures a == b && i == j
  {
    var x, y := Decimal(i), Decimal(j);
    DecimalDigits(i);
    DecimalDigits(j);
    var s := Label(a, i);
    assert s[|a|] == '#' && s[|b|] == '#';
    assert forall k :: 0 <= k < |x| ==> s[|a| + 1 + k] == x[k];
    assert forall k :: 0 <= k < |y| ==> s[|b| + 1 + k] == y[k];
    assert |a| == |b|;
    assert s[..|a|] == a && s[..|b|] == b;
    assert s[|a| + 1..] == x && s[|b| + 1..] == y;
    DecimalInjective(i, j);
  }

  /** A hash that keeps the members' labels apart makes them collision-free and gives each of
      them v different positions. */
  lemma {:induction false} InjectiveHashSpreads(h: HashFn, v: nat, nodes: set<string>)
    requires forall a, b, i, j :: a in nodes && b in nodes && 0 <= i < v && 0 <= j < v ==>
               h(Label(a, i)) == h(Label(b, j)) ==> Label(a, i) == Label(b, j)
    ensures CollisionFree(h, v, nodes)
    ensures forall n, i, j :: n in nodes && 0 <= i < j < v ==>
              VirtualPoint(h, n, i).hash != VirtualPoint(h, n, j).hash
  {
    forall a, b, i, j | a in nodes && b in nodes && 0 <= i < v && 0 <= j < v && (a != b || i != j)
      ensures VirtualPoint(h, a, i).hash != VirtualPoint(h, b, j).hash
    {
      if h(Label(a, i)) == h(Label(b, j)) {
        LabelsDiffer(a, i, b, j);
      }
    }
  }

  // ---- clockwise ----

  /** How far clockwise from k a position lies on the 32-bit circle. */
  function Clockwise(k: u32, position: u32): int {
    (position as int - k as int) % 0x1_0000_0000
  }

  lemma ClockwiseAt(k: u32, position: u32)
    ensures Clockwise(k, position) ==
            if position >= k then position as int - k as int else position as int - k as int + 0x1_0000_0000
  {
  }

  lemma {:induction false} ClockwiseOrder(points: seq<Point>, k: u32, s: nat)
    requires Sorted(points) && points != [] && s == Successor(points, k)
    ensures var i := if s == |points| then 0 else s;
            && (forall j :: 0 <= j < |points| ==> Clockwise(k, points[i].hash) <= Clockwise(k, points[j].hash))
            && (forall j :: 0 <= j < i ==> Clockwise(k, points[i].hash) < Clockwise(k, points[j].hash))
  {
    var i := if s == |points| then 0 else s;
    ClockwiseAt(k, points[i].hash);
    forall j | 0 <= j < |points|
      ensures Clockwise(k, points[i].hash) <= Clockwise(k, points[j].hash)
      ensures j < i ==> Clockwise(k, points[i].hash) < Clockwise(k, points[j].hash)
    {
      ClockwiseAt(k, points[j].hash);
    }
  }

  /** A key belongs to the point that is nearest clockwise, the first of those in case of ties. */
  lemma {:induction false} OwnerIsNearest(points: seq<Point>, k: u32) returns (i: nat)
    requires Sorted(points) && points != []
    ensures i < |points| && Owner(points, k) == Some(points[i].node)
    ensures forall j :: 0 <= j < |points| ==> Clockwise(k, points[i].hash) <= Clockwise(k, points[j].hash)
    ensures forall j :: 0 <= j < i ==> Clockwise(k, points[i].hash) < Clockwise(k, points[j].hash)
  {
    var s := Successor(points, k);
    i := if s == |points| then 0 else s;
    ClockwiseOrder(points, k, s);
  }

  // ---- minimal disruption ----

  lemma SuccessorCons(p: Point, s: seq<Point>, k: u32)
    ensures Successor([p] + s, k) == if p.hash >= k then 0 else 1 + Successor(s, k)
  {
    assert ([p] + s)[1..] == s;
  }

  lemma {:induction false} SuccessorFilter(points: seq<Point>, k: u32, gone: string)
    requires Successor(points, k) < |points| && points[Successor(points, k)].node != gone
    ensures var f := Filter(points, NotOf(gone));
            Successor(f, k) < |f| && f[Successor(f, k)] == points[Successor(points, k)]
  {
    var p, rest := points[0], points[1..];
    FilterCons(p, rest, NotOf(gone));
    assert points == [p] + rest;
    SuccessorCons(p, rest, k);
    var f := Filter(rest, NotOf(gone));
    if p.hash < k {
      SuccessorFilter(rest, k, gone);
      assert Filter(points, NotOf(gone)) == if p.node == gone then f else [p] + f;
    }
    SuccessorCons(p, f, k);
  }

  lemma {:induction false} SuccessorNone(points: seq<Point>, k: u32)
    requires forall p :: p in points ==> p.hash < k
    ensures Successor(points, k) == |points|
  {
    if points != [] {
      assert points[0] in points;
      SuccessorNone(points[1..], k);
    }
  }

  /** Taking a node's points out moves no key that another node owned. */
  lemma OwnerWithout(points: seq<Point>, k: u32, gone: string)
    requires points != [] && Owner(points, k) != Some(gone)
    ensures Owner(Filter(points, NotOf(gone)), k) == Owner(points, k)
  {
    var i, f := Successor(points, k), Filter(points, NotOf(gone));
    if i < |points| {
      SuccessorFilter(points, k, gone);
    } else {
      FilterIn(points, NotOf(gone));
      forall p | p in f ensures p.hash < k {
        assert p in points;
      }
      SuccessorNone(f, k);
      assert f[0] == points[0];
    }
  }

  /** Removing a node leaves every key it did not own where it was, on any ring, ties and all. */
  lemma RemovalIsMinimal(r: Ring, node: string, k: u32)
    requires Owner(r.points, k) != Some(node)
    ensures Owner(RemoveNode(r, node).points, k) == Owner(r.points, k)
  {
    if r.points != [] && node in r.nodes {
      OwnerWithout(r.points, k, node);
    }
  }

  lemma FilterFresh(h: HashFn, v: nat, r: Ring, node: string)
    requires Canonical(h, v, r) && node !in r.nodes
    ensures Filter(AddNode(h, v, r, node).points, NotOf(node)) == r.points
  {
    var all, ps := AllPoints(h, v, r.nodes), NodePoints(h, node, v);
    SortSorted(all);
    PointsOfNodes(h, v, r.nodes);
    SortFilter(r.points + ps, NotOf(node));
    FilterAppend(r.points, ps, NotOf(node));
    FilterAll(r.points, NotOf(node));
    FilterOwnPoints(h, v, node, node);
    assert r.points + [] == r.points;
    SortOfSorted(r.points);
  }

  /** Adding an absent node and removing it again restores the exact ring. */
  lemma AddThenRemove(h: HashFn, v: nat, r: Ring, node: string)
    requires Canonical(h, v, r) && node !in r.nodes
    ensures RemoveNode(AddNode(h, v, r, node), node) == r
  {
    FilterFresh(h, v, r, node);
    FilterAll(r.nodes, IsNot(node));
    FilterSnoc(r.nodes, node, IsNot(node));
  }

  /** Adding a node leaves a key's owner alone or makes the new node its owner. */
  lemma AdditionIsMinimal(h: HashFn, v: nat, r: Ring, node: string, k: u32)
    requires Canonical(h, v, r)
    ensures var after := Owner(AddNode(h, v, r, node).points, k);
            after == Owner(r.points, k) || after == Some(node)
  {
    if node !in r.nodes {
      FilterFresh(h, v, r, node);
      var points := AddNode(h, v, r, node).points;
      if points != [] && Owner(points, k) != Some(node) {
        OwnerWithout(points, k, node);
      }
    }
  }

  /** With at least one virtual point each, a ring with members sends every key to a member. */
  lemma OwnerIsMember(h: HashFn, v: nat, r: Ring, k: u32)
    requires Canonical(h, v, r) && v >= 1
    ensures r.nodes == [] ==> Owner(r.points, k) == None
    ensures r.nodes != [] ==> Owner(r.points, k).Some? && Owner(r.points, k).value in r.nodes
  {
    SortSorted(AllPoints(h, v, r.nodes));
    PointsOfNodes(h, v, r.nodes);
    if r.nodes != [] {
      var i := Successor(r.points, k);
      assert r.points[if i == |r.points| then 0 else i] in r.points;
    }
  }

  // ---- history independence ----

  ghost predicate CollisionFree(h: HashFn, v: nat, nodes: set<string>) {
    forall a, b, i, j :: a in nodes && b in nodes && a != b && 0 <= i < v && 0 <= j < v ==>
      VirtualPoint(h, a, i).hash != VirtualPoint(h, b, j).hash
  }

  lemma {:induction false} OthersMissHash(h: HashFn, v: nat, nodes: seq<string>, x: u32)
    requires forall n, i :: n in nodes && 0 <= i < v ==> VirtualPoint(h, n, i).hash != x
    ensures Filter(AllPoints(h, v, nodes), AtHash(x)) == []
  {
    if nodes != [] {
      var n := |nodes| - 1;
      OthersMissHash(h, v, nodes[..n], x);
      NodeMissesHash(h, v, nodes[n], x);
      FilterAppend(AllPoints(h, v, nodes[..n]), NodePoints(h, nodes[n], v), AtHash(x));
    }
  }

  lemma NodeMissesHash(h: HashFn, v: nat, node: string, x: u32)
    requires forall i :: 0 <= i < v ==> VirtualPoint(h, node, i).hash != x
    ensures Filter(NodePoints(h, node, v), AtHash(x)) == []
  {
    var ps := NodePoints(h, node, v);
    forall p | p in ps ensures p.hash != x {
      var i :| 0 <= i < |ps| && ps[i] == p;
      assert ps[i] == VirtualPoint(h, node, i);
    }
    FilterNone(ps, AtHash(x));
  }

  /** Without collisions the points at one hash are the points of the one member there. */
  lemma {:induction false} ClassOfOneNode(h: HashFn, v: nat, nodes: seq<string>, m: string, i: nat)
    requires Distinct(nodes) && CollisionFree(h, v, SetOf(nodes)) && m in nodes && i < v
    ensures var x := VirtualPoint(h, m, i).hash;
            Filter(AllPoints(h, v, nodes), AtHash(x)) == Filter(NodePoints(h, m, v), AtHash(x))
  {
    var x := VirtualPoint(h, m, i).hash;
    var n := |nodes| - 1;
    SplitLast(nodes);
    var init, last := nodes[..n], nodes[n];
    FilterAppend(AllPoints(h, v, init), NodePoints(h, last, v), AtHash(x));
    if m == last {
      forall q, j | q in init && 0 <= j < v ensures VirtualPoint(h, q, j).hash != x {
        assert q in SetOf(nodes) && q != m;
      }
      OthersMissHash(h, v, init, x);
    } else {
      assert m in init && SetOf(init) <= SetOf(nodes);
      ClassOfOneNode(h, v, init, m, i);
      forall j | 0 <= j < v ensures VirtualPoint(h, last, j).hash != x {
        assert last in SetOf(nodes) && m in SetOf(nodes);
      }
      NodeMissesHash(h, v, last, x);
    }
  }

  lemma SameClass(h: HashFn, v: nat, ns: seq<string>, ms: seq<string>, x: u32)
    requires Distinct(ns) && Distinct(ms) && SetOf(ns) == SetOf(ms) && CollisionFree(h, v, SetOf(ns))
    ensures Filter(AllPoints(h, v, ns), AtHash(x)) == Filter(AllPoints(h, v, ms), AtHash(x))
  {
    if m, i: nat :| m in SetOf(ns) && i < v && VirtualPoint(h, m, i).hash == x {
      ClassOfOneNode(h, v, ns, m, i);
      assert m in SetOf(ms);
      ClassOfOneNode(h, v, ms, m, i);
    } else {
      forall n, i | n in ns && 0 <= i < v ensures VirtualPoint(h, n, i).hash != x {
        assert n in SetOf(ns);
      }
      forall n, i | n in ms && 0 <= i < v ensures VirtualPoint(h, n, i).hash != x {
        assert n in SetOf(ms);
      }
      OthersMissHash(h, v, ns, x);
      OthersMissHash(h, v, ms, x);
    }
  }

  lemma CanonicalSamePoints(h: HashFn, v: nat, r: Ring, q: Ring)
    requires Canonical(h, v, r) && Canonical(h, v, q)
    requires SetOf(r.nodes) == SetOf(q.nodes) && CollisionFree(h, v, SetOf(r.nodes))
    ensures r.points == q.points
  {
    SortSorted(AllPoints(h, v, r.nodes));
    forall x: u32 ensures Filter(r.points, AtHash(x)) == Filter(AllPoints(h, v, q.nodes), AtHash(x)) {
      SameClass(h, v, r.nodes, q.nodes, x);
      SortStable(AllPoints(h, v, r.nodes), x);
    }
    StableSortUnique(AllPoints(h, v, q.nodes), r.points);
  }

  /** Without collisions, any two histories ending in the same members give the same ring. */
  lemma SameMembersSameRing(h: HashFn, v: nat, a: seq<Change>, b: seq<Change>)
    requires var ra, rb := Replay(h, v, EMPTY_RING, a), Replay(h, v, EMPTY_RING, b);
             SetOf(ra.nodes) == SetOf(rb.nodes) && CollisionFree(h, v, SetOf(ra.nodes))
    ensures Replay(h, v, EMPTY_RING, a).points == Replay(h, v, EMPTY_RING, b).points
  {
    ReplayCanonical(h, v, EMPTY_RING, a);
    ReplayCanonical(h, v, EMPTY_RING, b);
    CanonicalSamePoints(h, v, Replay(h, v, EMPTY_RING, a), Replay(h, v, EMPTY_RING, b));
  }

  // ---- and only without collisions ----

  function Additions(nodes: seq<string>): seq<Change> {
    Map(nodes, (n: string) => Add(n))
  }

  lemma {:induction false} ReplaySnoc(h: HashFn, v: nat, r: Ring, history: seq<Change>, c: Change)
    ensures Replay(h, v, r, history + [c]) == Change1(h, v, Replay(h, v, r, history), c)
    decreases |history|
  {
    if history == [] {
      assert [] + [c] == [c];
    } else {
      assert (history + [c])[1..] == history[1..] + [c];
      ReplaySnoc(h, v, Change1(h, v, r, history[0]), history[1..], c);
    }
  }

  lemma {:induction false} AdditionsReplay(h: HashFn, v: nat, nodes: seq<string>)
    requires Distinct(nodes)
    ensures Replay(h, v, EMPTY_RING, Additions(nodes)).nodes == nodes
    decreases |nodes|
  {
    if nodes != [] {
      var n := |nodes| - 1;
      SplitLast(nodes);
      AdditionsReplay(h, v, nodes[..n]);
      assert Additions(nodes) == Additions(nodes[..n]) + [Add(nodes[n])];
      ReplaySnoc(h, v, EMPTY_RING, Additions(nodes[..n]), Add(nodes[n]));
    }
  }

  lemma {:induction false} AllPointsCons(h: HashFn, v: nat, node: string, nodes: seq<string>)
    ensures AllPoints(h, v, [node] + nodes) == NodePoints(h, node, v) + AllPoints(h, v, nodes)
  {
    if nodes == [] {
      AllPointsSnoc(h, v, [], node);
      assert [node] + [] == [] + [node];
    } else {
      var n := |nodes| - 1;
      var init, last := nodes[..n], nodes[n];
      AllPointsCons(h, v, node, init);
      AllPointsSnoc(h, v, [node] + init, last);
      assert [node] + nodes == ([node] + init) + [last];
      var a, b, c := NodePoints(h, node, v), AllPoints(h, v, init), NodePoints(h, last, v);
      assert (a + b) + c == a + (b + c);
    }
  }

  lemma {:induction false} FirstAtHash(points: seq<Point>, x: u32)
    requires Sorted(points) && Filter(points, AtHash(x)) != []
    ensures Owner(points, x) == Some(Filter(points, AtHash(x))[0].node)
    ensures Successor(points, x) < |points|
  {
    var p, rest := points[0], points[1..];
    assert points == [p] + rest;
    SuccessorCons(p, rest, x);
    FilterCons(p, rest, AtHash(x));
    if p.hash < x {
      FirstAtHash(rest, x);
    } else if p.hash > x {
      FilterNone(rest, AtHash(x));
      assert false;
    }
  }

  /** At the hash of one of its points, the node added first comes first. */
  lemma FirstPointAt(h: HashFn, v: nat, a: string, rest: seq<string>, i: nat)
    requires i < v
    ensures var at := Filter(AllPoints(h, v, [a] + rest), AtHash(VirtualPoint(h, a, i).hash));
            at != [] && at[0].node == a
  {
    var x, ps := VirtualPoint(h, a, i).hash, NodePoints(h, a, v);
    AllPointsCons(h, v, a, rest);
    FilterAppend(ps, AllPoints(h, v, rest), AtHash(x));
    FilterIn(ps, AtHash(x));
    assert ps[i] in Filter(ps, AtHash(x));
    assert Filter(ps, AtHash(x))[0] in Filter(ps, AtHash(x));
  }

  /** A point both nodes claim belongs to whichever was added first. */
  lemma FirstAddedOwns(h: HashFn, v: nat, a: string, rest: seq<string>, i: nat)
    requires Distinct([a] + rest) && i < v
    ensures Owner(Replay(h, v, EMPTY_RING, Additions([a] + rest)).points, VirtualPoint(h, a, i).hash) == Some(a)
  {
    var x, all := VirtualPoint(h, a, i).hash, AllPoints(h, v, [a] + rest);
    var r := Replay(h, v, EMPTY_RING, Additions([a] + rest));
    ReplayCanonical(h, v, EMPTY_RING, Additions([a] + rest));
    AdditionsReplay(h, v, [a] + rest);
    FirstPointAt(h, v, a, rest, i);
    SortSorted(all);
    SortStable(all, x);
    FirstAtHash(r.points, x);
  }

  /** Every way of reaching these members routes every position alike. */
  ghost predicate RoutesAlike(h: HashFn, v: nat, members: set<string>) {
    forall a, b, k: u32 ::
      SetOf(Replay(h, v, EMPTY_RING, a).nodes) == members &&
      SetOf(Replay(h, v, EMPTY_RING, b).nodes) == members ==>
        Owner(Replay(h, v, EMPTY_RING, a).points, k) == Owner(Replay(h, v, EMPTY_RING, b).points, k)
  }

  lemma Reordered(a: string, b: string, rest: seq<string>)
    requires a != b && Distinct(rest) && a !in rest && b !in rest
    ensures Distinct([a] + ([b] + rest))
    ensures SetOf([a] + ([b] + rest)) == SetOf([b] + ([a] + rest))
  {
    assert forall n :: n in [a] + ([b] + rest) <==> n == a || n == b || n in rest;
    assert forall n :: n in [b] + ([a] + rest) <==> n == a || n == b || n in rest;
  }

  /** Routing depends on the member set alone exactly when no two members collide. */
  lemma RoutingHistoryIndependence(h: HashFn, v: nat, members: set<string>)
    ensures RoutesAlike(h, v, members) <==> CollisionFree(h, v, members)
  {
    if CollisionFree(h, v, members) {
      forall a, b, k: u32 |
        SetOf(Replay(h, v, EMPTY_RING, a).nodes) == members && SetOf(Replay(h, v, EMPTY_RING, b).nodes) == members
        ensures Owner(Replay(h, v, EMPTY_RING, a).points, k) == Owner(Replay(h, v, EMPTY_RING, b).points, k)
      {
        SameMembersSameRing(h, v, a, b);
      }
    } else {
      var a, b, i, j :| a in members && b in members && a != b && 0 <= i < v && 0 <= j < v
                        && VirtualPoint(h, a, i).hash == VirtualPoint(h, b, j).hash;
      var rest := Enumerate(members - {a, b});
      assert forall n :: n in rest <==> n in SetOf(rest);
      Reordered(a, b, rest);
      Reordered(b, a, rest);
      var ab, ba := [a] + ([b] + rest), [b] + ([a] + rest);
      assert forall n :: n in ab <==> n in members;
      assert SetOf(ab) == members == SetOf(ba);
      AdditionsReplay(h, v, ab);
      AdditionsReplay(h, v, ba);
      FirstAddedOwns(h, v, a, [b] + rest, i);
      FirstAddedOwns(h, v, b, [a] + rest, j);
      var x := VirtualPoint(h, a, i).hash;
      assert Owner(Replay(h, v, EMPTY_RING, Additions(ab)).points, x) !=
             Owner(Replay(h, v, EMPTY_RING, Additions(ba)).points, x);
    }
  }

  // ---- the ring itself ----

  class HashRing {
    var ring: seq<Point>
    var nodeSet: seq<string>
    const virtualNodes: nat
    const hashToUint32: HashFn

    ghost predicate Valid()
      reads this
    {
      Canonical(hashToUint32, virtualNodes, Contents())
    }

    ghost function Contents(): Ring
      reads this
    {
      Ring(ring, nodeSet)
    }

    constructor (hashToUint32: HashFn, nodes: seq<string>, virtualNodes: nat)
      ensures Valid() && this.hashToUint32 == hashToUint32 && this.virtualNodes == virtualNodes
      ensures Contents() == Replay(hashToUint32, virtualNodes, EMPTY_RING, Additions(nodes))
    {
      this.hashToUint32 := hashToUint32;
      this.virtualNodes := virtualNodes;
      ring, nodeSet := [], [];
      new;
      for i := 0 to |nodes|
        invariant Valid()
        invariant Contents() == Replay(hashToUint32, virtualNodes, EMPTY_RING, Additions(nodes[..i]))
      {
        assert Additions(nodes[..i + 1]) == Additions(nodes[..i]) + [Change.Add(nodes[i])];
        ReplaySnoc(hashToUint32, virtualNodes, EMPTY_RING, Additions(nodes[..i]), Change.Add(nodes[i]));
        Add(nodes[i]);
      }
      assert nodes[..|nodes|] == nodes;
    }

    /** The points of a new node, pushed one by one. */
    method PushPoints(node: string)
      modifies this`ring
      ensures ring == old(ring) + NodePoints(hashToUint32, node, virtualNodes)
    {
      for i := 0 to virtualNodes
        invariant ring == old(ring) + NodePoints(hashToUint32, node, i)
      {
        ring := ring + [Point(hashToUint32(node + "#" + Decimal(i)), node)];
      }
    }

    method Add(node: string)
      requires Valid()
      modifies this
      ensures Valid() && Contents() == AddNode(hashToUint32, virtualNodes, old(Contents()), node)
    {
      ChangeCanonical(hashToUint32, virtualNodes, Contents(), Change.Add(node));
      if node in nodeSet {
        return;
      }
      nodeSet := nodeSet + [node];
      PushPoints(node);
      ring := StableSort(ring);
    }

    method Remove(node: string)
      requires Valid()
      modifies this
      ensures Valid() && Contents() == RemoveNode(old(Contents()), node)
    {
      ChangeCanonical(hashToUint32, virtualNodes, Contents(), Change.Remove(node));
      if node !in nodeSet {
        return;
      }
      nodeSet := Filter(nodeSet, IsNot(node));
      ring := Filter(ring, NotOf(node));
    }

    /** Binary search for the first point at or past h. */
    method Search(h: u32) returns (lo: nat)
      requires Sorted(ring)
      ensures lo == Successor(ring, h)
    {
      var hi := |ring|;
      lo := 0;
      while lo < hi
        invariant 0 <= lo <= hi <= |ring|
        invariant forall i :: 0 <= i < lo ==> ring[i].hash < h
        invariant forall i :: hi <= i < |ring| ==> ring[i].hash >= h
      {
        var mid := (lo + hi) / 2;
        if ring[mid].hash < h {
          lo := mid + 1;
        } else {
          hi := mid;
        }
      }
      SuccessorUnique(ring, h, lo);
    }

    method GetNode(key: string) returns (owner: Option<string>)
      requires Valid()
      ensures owner == Owner(ring, hashToUint32(key))
    {
      if |ring| == 0 {
        return None;
      }
      var h := hashToUint32(key);
      SortSorted(AllPoints(hashToUint32, virtualNodes, nodeSet));
      var lo := Search(h);
      return Some(ring[if lo == |ring| then 0 else lo].node);
    }
  }
}
