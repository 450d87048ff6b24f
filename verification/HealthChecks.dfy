/**
 * The gateway's router under registration, deregistration and health checks whose answers
 * arrive late. A check is started for every known node at once and answers whenever it
 * likes, so an answer may be about a node that has since been removed or registered again.
 */
module HealthChecks {
  import opened Prelude
  import opened Sequences
  import opened StableSorting
  import opened ConsistentHashing

  datatype Cluster = Cluster(health: map<string, bool>, ring: Ring)

  datatype Event =
    | Register(url: string)
    | Deregister(url: string)
    | Ping(url: string, healthy: bool)

  /** `h` and `v` are the ring's hash and virtual-node count. */
  function Step(h: HashFn, v: nat, c: Cluster, e: Event): Cluster {
    match e
    case Register(url) =>
      if url in c.health then c
      else Cluster(c.health[url := true], ConsistentHashing.AddNode(h, v, c.ring, url))
    case Deregister(url) =>
      if url !in c.health then c
      else Cluster(c.health - {url}, ConsistentHashing.RemoveNode(c.ring, url))
    case Ping(url, healthy) =>
      if url !in c.health || c.health[url] == healthy then c
      else Cluster(c.health[url := healthy],
                   if healthy then ConsistentHashing.AddNode(h, v, c.ring, url) else ConsistentHashing.RemoveNode(c.ring, url))
  }

  function Run(h: HashFn, v: nat, c: Cluster, events: seq<Event>): Cluster
    decreases |events|
  {
    if events == [] then c else Run(h, v, Step(h, v, c, events[0]), events[1..])
  }

  function Start(h: HashFn, v: nat, nodes: seq<string>): Cluster {
    Cluster(map url | url in nodes :: true, Replay(h, v, EMPTY_RING, Additions(nodes)))
  }

  function Healthy(c: Cluster): set<string> {
    set url | url in c.health && c.health[url]
  }

  /** The ring's members are exactly the known nodes marked healthy. */
  ghost predicate Agrees(h: HashFn, v: nat, c: Cluster) {
    Canonical(h, v, c.ring) && SetOf(c.ring.nodes) == Healthy(c)
  }

  lemma AddMembers(h: HashFn, v: nat, r: Ring, url: string)
    ensures SetOf(ConsistentHashing.AddNode(h, v, r, url).nodes) == SetOf(r.nodes) + {url}
  {
    assert forall n :: n in r.nodes + [url] <==> n in r.nodes || n == url;
  }

  lemma RemoveMembers(r: Ring, url: string)
    ensures SetOf(ConsistentHashing.RemoveNode(r, url).nodes) == SetOf(r.nodes) - {url}
  {
    FilterIn(r.nodes, IsNot(url));
  }

  lemma HealthyMarked(health: map<string, bool>, ring: Ring, ring': Ring, url: string)
    ensures Healthy(Cluster(health[url := true], ring')) == Healthy(Cluster(health, ring)) + {url}
    ensures Healthy(Cluster(health[url := false], ring')) == Healthy(Cluster(health, ring)) - {url}
    ensures Healthy(Cluster(health - {url}, ring')) == Healthy(Cluster(health, ring)) - {url}
  {
  }

  lemma {:induction false} MarkedHealthy(h: HashFn, v: nat, c: Cluster, url: string)
    requires Agrees(h, v, c)
    ensures Agrees(h, v, Cluster(c.health[url := true], ConsistentHashing.AddNode(h, v, c.ring, url)))
  {
    ChangeCanonical(h, v, c.ring, Add(url));
    AddMembers(h, v, c.ring, url);
    HealthyMarked(c.health, c.ring, ConsistentHashing.AddNode(h, v, c.ring, url), url);
  }

  lemma {:induction false} MarkedGone(h: HashFn, v: nat, c: Cluster, url: string, health: map<string, bool>)
    requires Agrees(h, v, c) && (health == c.health - {url} || health == c.health[url := false])
    ensures Agrees(h, v, Cluster(health, ConsistentHashing.RemoveNode(c.ring, url)))
  {
    ChangeCanonical(h, v, c.ring, Remove(url));
    RemoveMembers(c.ring, url);
    HealthyMarked(c.health, c.ring, ConsistentHashing.RemoveNode(c.ring, url), url);
  }

  lemma {:induction false} StepAgrees(h: HashFn, v: nat, c: Cluster, e: Event)
    requires Agrees(h, v, c)
    ensures Agrees(h, v, Step(h, v, c, e))
  {
    match e
    case Register(url) => MarkedHealthy(h, v, c, url);
    case Deregister(url) => MarkedGone(h, v, c, url, c.health - {url});
    case Ping(url, healthy) =>
      if healthy {
        MarkedHealthy(h, v, c, url);
      } else {
        MarkedGone(h, v, c, url, c.health[url := false]);
      }
  }

  lemma {:induction false} AdditionMembers(h: HashFn, v: nat, nodes: seq<string>)
    ensures SetOf(Replay(h, v, EMPTY_RING, Additions(nodes)).nodes) == SetOf(nodes)
    decreases |nodes|
  {
    if nodes != [] {
      var n := |nodes| - 1;
      SplitLast(nodes);
      var init := nodes[..n];
      AdditionMembers(h, v, init);
      assert Additions(nodes) == Additions(init) + [Add(nodes[n])];
      ReplaySnoc(h, v, EMPTY_RING, Additions(init), Add(nodes[n]));
      AddMembers(h, v, Replay(h, v, EMPTY_RING, Additions(init)), nodes[n]);
      assert forall x :: x in nodes <==> x in init || x == nodes[n];
    }
  }

  lemma StartAgrees(h: HashFn, v: nat, nodes: seq<string>)
    ensures Agrees(h, v, Start(h, v, nodes))
  {
    ReplayCanonical(h, v, EMPTY_RING, Additions(nodes));
    AdditionMembers(h, v, nodes);
  }

  lemma {:induction false} RunAgrees(h: HashFn, v: nat, c: Cluster, events: seq<Event>)
    requires Agrees(h, v, c)
    ensures Agrees(h, v, Run(h, v, c, events))
    decreases |events|
  {
    if events != [] {
      StepAgrees(h, v, c, events[0]);
      RunAgrees(h, v, Step(h, v, c, events[0]), events[1..]);
    }
  }

  /** After any interleaving, every key goes to a known healthy node, or nowhere when there
      is none. */
  lemma {:induction false} KeysGoToHealthyNodes(h: HashFn, v: nat, nodes: seq<string>, events: seq<Event>, key: string)
    requires v >= 1
    ensures var c := Run(h, v, Start(h, v, nodes), events);
            var owner := Owner(c.ring.points, h(key));
            && (owner == None <==> Healthy(c) == {})
            && (owner.Some? ==> owner.value in c.health && c.health[owner.value])
  {
    StartAgrees(h, v, nodes);
    RunAgrees(h, v, Start(h, v, nodes), events);
    var c := Run(h, v, Start(h, v, nodes), events);
    OwnerIsMember(h, v, c.ring, h(key));
    if c.ring.nodes != [] {
      assert c.ring.nodes[0] in SetOf(c.ring.nodes);
      assert Owner(c.ring.points, h(key)).value in SetOf(c.ring.nodes);
    }
  }

  /** Two gateways that end up with the same healthy nodes route every key alike, whatever
      each of them went through, unless two of those nodes collide. */
  lemma {:induction false} SameHealthSameRoutes(
    h: HashFn, v: nat, ns: seq<string>, es: seq<Event>, ms: seq<string>, fs: seq<Event>, key: string)
    requires var c, d := Run(h, v, Start(h, v, ns), es), Run(h, v, Start(h, v, ms), fs);
             Healthy(c) == Healthy(d) && CollisionFree(h, v, Healthy(c))
    ensures var c, d := Run(h, v, Start(h, v, ns), es), Run(h, v, Start(h, v, ms), fs);
            Owner(c.ring.points, h(key)) == Owner(d.ring.points, h(key))
  {
    StartAgrees(h, v, ns);
    StartAgrees(h, v, ms);
    RunAgrees(h, v, Start(h, v, ns), es);
    RunAgrees(h, v, Start(h, v, ms), fs);
    var c, d := Run(h, v, Start(h, v, ns), es), Run(h, v, Start(h, v, ms), fs);
    CanonicalSamePoints(h, v, c.ring, d.ring);
  }

  /** Late answers never bring back a node: once unknown, only a registration makes it known
      or routed to again. */
  lemma {:induction false} GoneStaysGone(h: HashFn, v: nat, c: Cluster, events: seq<Event>, url: string)
    requires Agrees(h, v, c) && url !in c.health
    requires forall i :: 0 <= i < |events| ==> events[i] != Register(url)
    ensures var c' := Run(h, v, c, events);
            url !in c'.health && url !in c'.ring.nodes && forall p :: p in c'.ring.points ==> p.node != url
    decreases |events|
  {
    if events != [] {
      StepAgrees(h, v, c, events[0]);
      GoneStaysGone(h, v, Step(h, v, c, events[0]), events[1..], url);
    } else {
      assert url !in SetOf(c.ring.nodes);
      PointsOfNodes(h, v, c.ring.nodes);
      SortSorted(AllPoints(h, v, c.ring.nodes));
    }
  }

  // ---- the last answer counts ----

  lemma {:induction false} RunSnoc(h: HashFn, v: nat, c: Cluster, events: seq<Event>, e: Event)
    ensures Run(h, v, c, events + [e]) == Step(h, v, Run(h, v, c, events), e)
    decreases |events|
  {
    if events == [] {
      assert [] + [e] == [e];
    } else {
      assert (events + [e])[1..] == events[1..] + [e];
      RunSnoc(h, v, Step(h, v, c, events[0]), events[1..], e);
    }
  }

  /** What the events say of one node: nothing while it is unknown; else the answer of the last
      ping since it became known, or true if there was none. */
  function LastAnswer(nodes: seq<string>, events: seq<Event>, url: string): Option<bool> {
    if events == [] then (if url in nodes then Some(true) else None)
    else
      var n := |events| - 1;
      var before := LastAnswer(nodes, events[..n], url);
      match events[n]
      case Register(u) => if u == url && before == None then Some(true) else before
      case Deregister(u) => if u == url then None else before
      case Ping(u, healthy) => if u == url && before.Some? then Some(healthy) else before
  }

  /** After any run a node is known, and marked, exactly as the events say. */
  lemma {:induction false} MarkIsLastAnswer(h: HashFn, v: nat, nodes: seq<string>, events: seq<Event>, url: string)
    ensures var health := Run(h, v, Start(h, v, nodes), events).health;
            LastAnswer(nodes, events, url) == if url in health then Some(health[url]) else None
  {
    if events != [] {
      var n := |events| - 1;
      SplitLast(events);
      MarkIsLastAnswer(h, v, nodes, events[..n], url);
      RunSnoc(h, v, Start(h, v, nodes), events[..n], events[n]);
    }
  }

  /** A node is on the ring exactly when its last answer, or its registration if it has not
      answered since, speaks for it; one whose last answer was a failure owns no key. */
  lemma {:induction false} RoutedIffLastAnswered(
    h: HashFn, v: nat, nodes: seq<string>, events: seq<Event>, url: string, key: string)
    ensures var ring := Run(h, v, Start(h, v, nodes), events).ring;
            && (url in ring.nodes <==> LastAnswer(nodes, events, url) == Some(true))
            && (LastAnswer(nodes, events, url) != Some(true) ==> Owner(ring.points, h(key)) != Some(url))
            && |Filter(ring.points, OfNode(url))| == (if LastAnswer(nodes, events, url) == Some(true) then v else 0)
  {
    var c := Run(h, v, Start(h, v, nodes), events);
    StartAgrees(h, v, nodes);
    RunAgrees(h, v, Start(h, v, nodes), events);
    MarkIsLastAnswer(h, v, nodes, events, url);
    assert url in c.ring.nodes <==> url in SetOf(c.ring.nodes);
    CanonicalPoints(h, v, c.ring, url);
    if c.ring.points != [] {
      var k := Successor(c.ring.points, h(key));
      var p := c.ring.points[if k == |c.ring.points| then 0 else k];
      FilterIn(c.ring.points, OfNode(url));
      assert p in c.ring.points;
      assert p.node == url ==> p in Filter(c.ring.points, OfNode(url));
    }
  }

  // ---- the objects ----

  class ClusterRouter {
    const ring: HashRing

    constructor (hash: HashFn, nodeUrls: seq<string>, virtualNodes: nat)
      ensures ring.Valid() && fresh(ring)
      ensures ring.hashToUint32 == hash && ring.virtualNodes == virtualNodes
      ensures ring.Contents() == Replay(hash, virtualNodes, EMPTY_RING, Additions(nodeUrls))
    {
      ring := new HashRing(hash, nodeUrls, virtualNodes);
    }

    method NodeFor(key: string) returns (url: Option<string>)
      requires ring.Valid()
      ensures url == Owner(ring.ring, ring.hashToUint32(key))
    {
      url := ring.GetNode(key);
    }

    method AddNode(url: string)
      requires ring.Valid()
      modifies ring
      ensures ring.Valid()
      ensures ring.Contents() == ConsistentHashing.AddNode(ring.hashToUint32, ring.virtualNodes, old(ring.Contents()), url)
    {
      ring.Add(url);
    }

    method RemoveNode(url: string)
      requires ring.Valid()
      modifies ring
      ensures ring.Valid() && ring.Contents() == ConsistentHashing.RemoveNode(old(ring.Contents()), url)
    {
      ring.Remove(url);
    }
  }

  class HealthChecker {
    var health: map<string, bool>
    const router: ClusterRouter

    ghost predicate Valid()
      reads this, router.ring
    {
      router.ring.Valid() && Agrees(router.ring.hashToUint32, router.ring.virtualNodes, Contents())
    }

    ghost function Contents(): Cluster
      reads this, router.ring
    {
      Cluster(health, router.ring.Contents())
    }

    ghost function After(c: Cluster, e: Event): Cluster {
      Step(router.ring.hashToUint32, router.ring.virtualNodes, c, e)
    }

    /** The router was built from the same initial list. */
    constructor (router: ClusterRouter, initialNodes: seq<string>)
      requires router.ring.Valid()
      requires router.ring.Contents() ==
               Replay(router.ring.hashToUint32, router.ring.virtualNodes, EMPTY_RING, Additions(initialNodes))
      ensures Valid() && this.router == router
      ensures Contents() == Start(router.ring.hashToUint32, router.ring.virtualNodes, initialNodes)
    {
      this.router := router;
      health := map url | url in initialNodes :: true;
      new;
      StartAgrees(router.ring.hashToUint32, router.ring.virtualNodes, initialNodes);
    }

    method AddNode(url: string)
      requires Valid()
      modifies this, router.ring
      ensures Valid() && Contents() == After(old(Contents()), Register(url))
    {
      StepAgrees(router.ring.hashToUint32, router.ring.virtualNodes, Contents(), Register(url));
      if url in health {
        return;
      }
      health := health[url := true];
      router.AddNode(url);
    }

    method RemoveNode(url: string)
      requires Valid()
      modifies this, router.ring
      ensures Valid() && Contents() == After(old(Contents()), Deregister(url))
    {
      StepAgrees(router.ring.hashToUint32, router.ring.virtualNodes, Contents(), Deregister(url));
      if url !in health {
        return;
      }
      health := health - {url};
      router.RemoveNode(url);
    }

    /** A check that was started earlier answers. */
    method OnPing(url: string, healthy: bool)
      requires Valid()
      modifies this, router.ring
      ensures Valid() && Contents() == After(old(Contents()), Ping(url, healthy))
    {
      StepAgrees(router.ring.hashToUint32, router.ring.virtualNodes, Contents(), Ping(url, healthy));
      if url !in health || health[url] == healthy {
        return;
      }
      health := health[url := healthy];
      if healthy {
        router.AddNode(url);
      } else {
        router.RemoveNode(url);
      }
    }
  }
}
