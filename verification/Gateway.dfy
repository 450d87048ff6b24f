/**
 * The gateway's node registry: registration, deregistration and the two ends of gossip. The
 * known nodes are the health checker's, or the router's own when no checker is attached.
 */
module Gateway {
  import opened Prelude
  import opened Sequences
  import opened HealthChecks
  import Gossip

  /** New nodes are assumed healthy; what is already known keeps its mark. */
  function Merged(health: map<string, bool>, urls: set<string>): map<string, bool> {
    map u | u in health.Keys + urls :: if u in health then health[u] else true
  }

  predicate AllText(items: seq<Json>) {
    forall i :: 0 <= i < |items| ==> items[i].Text?
  }

  function Texts(items: seq<Json>): (urls: seq<string>)
    requires AllText(items)
    ensures |urls| == |items|
    ensures forall i :: 0 <= i < |items| ==> urls[i] == items[i].text
  {
    seq(|items|, i requires 0 <= i < |items| => items[i].text)
  }

  /** A change of the registry: which URL, and how many nodes are routed to now. */
  datatype Listing = Listing(url: string, count: nat)

  lemma MergedMore(health: map<string, bool>, urls: set<string>, url: string)
    ensures Merged(Merged(health, urls), {url}) == Merged(health, urls + {url})
  {
  }

  lemma MergedNone(health: map<string, bool>)
    ensures Merged(health, {}) == health
  {
  }

  lemma NormalizedSnoc(urls: seq<string>, i: nat)
    requires i < |urls|
    ensures SetOf(urls[..i + 1]) == SetOf(urls[..i]) + {urls[i]}
    ensures Gossip.Normalized(SetOf(urls[..i + 1])) == Gossip.Normalized(SetOf(urls[..i])) + {Gossip.Normalize(urls[i])}
  {
    assert urls[..i + 1] == urls[..i] + [urls[i]];
    assert forall u :: u in SetOf(urls[..i + 1]) <==> u in SetOf(urls[..i]) || u == urls[i];
  }

  lemma MergedSnoc(health: map<string, bool>, urls: seq<string>, i: nat)
    requires i < |urls|
    ensures Merged(Merged(health, SetOf(urls[..i])), {urls[i]}) == Merged(health, SetOf(urls[..i + 1]))
  {
    NormalizedSnoc(urls, i);
    MergedMore(health, SetOf(urls[..i]), urls[i]);
  }

  lemma MergedSync(health: map<string, bool>, urls: seq<string>, i: nat)
    requires i < |urls|
    ensures var done, next := Gossip.Normalized(SetOf(urls[..i])), Gossip.Normalized(SetOf(urls[..i + 1]));
            && next == done + {Gossip.Normalize(urls[i])}
            && Merged(Merged(health, done), {Gossip.Normalize(urls[i])}) == Merged(health, next)
  {
    NormalizedSnoc(urls, i);
    MergedMore(health, Gossip.Normalized(SetOf(urls[..i])), Gossip.Normalize(urls[i]));
  }

  class GatewayNode {
    const router: ClusterRouter
    var healthHandle: HealthChecker?

    ghost predicate Valid()
      reads this, healthHandle, router.ring
    {
      && router.ring.Valid()
      && (healthHandle != null ==> healthHandle.router == router && healthHandle.Valid())
    }

    /** What this gateway knows, as it reports and gossips it. */
    function Known(): set<string>
      reads this, healthHandle, router.ring
    {
      if healthHandle != null then healthHandle.health.Keys else SetOf(router.ring.nodeSet)
    }

    constructor (router: ClusterRouter)
      requires router.ring.Valid()
      ensures Valid() && this.router == router && healthHandle == null
    {
      this.router, healthHandle := router, null;
    }

    method SetHealthHandle(handle: HealthChecker)
      requires Valid() && handle.Valid() && handle.router == router
      modifies this
      ensures Valid() && healthHandle == handle && Known() == handle.health.Keys
    {
      healthHandle := handle;
    }

    /** Adds a node to the checker and its router, or to the router alone. */
    method Add(url: string)
      requires Valid()
      modifies healthHandle, router.ring
      ensures Valid() && Known() == old(Known()) + {url}
      ensures healthHandle != null ==> healthHandle.health == Merged(old(healthHandle.health), {url})
    {
      if healthHandle != null {
        healthHandle.AddNode(url);
      } else {
        AddMembers(router.ring.hashToUint32, router.ring.virtualNodes, router.ring.Contents(), url);
        router.AddNode(url);
      }
    }

    /** One turn of the sync loop, with the set of known nodes it carries along. */
    method AddUnknown(url: string, known: set<string>) returns (known': set<string>)
      requires Valid() && known == Known()
      modifies healthHandle, router.ring
      ensures Valid() && known' == Known() == old(Known()) + {url}
      ensures healthHandle != null ==> healthHandle.health == Merged(old(healthHandle.health), {url})
    {
      known' := known;
      if url !in known {
        Add(url);
        known' := known + {url};
      }
    }

    /** POST /cluster/nodes */
    method Register(url: Json) returns (reply: Reply<Listing, string>)
      requires Valid()
      modifies healthHandle, router.ring
      ensures Valid()
      ensures reply == if !IsName(url) then BadRequest400
                       else if Gossip.Normalize(url.text) in old(Known()) then Conflict409(Gossip.Normalize(url.text))
                       else Ok200(Listing(Gossip.Normalize(url.text), |router.ring.nodeSet|))
      ensures Known() == old(Known()) + if reply.Ok200? then {reply.body.url} else {}
      ensures healthHandle != null ==>
                healthHandle.health == Merged(old(healthHandle.health), if reply.Ok200? then {reply.body.url} else {})
    {
      if !IsName(url) {
        return BadRequest400;
      }
      var normalized := Gossip.Normalize(url.text);
      if normalized in Known() {
        return Conflict409(normalized);
      }
      Add(normalized);
      return Ok200(Listing(normalized, |router.ring.nodeSet|));
    }

    /** DELETE /cluster/nodes */
    method Deregister(url: Json) returns (reply: Reply<Listing, string>)
      requires Valid()
      modifies healthHandle, router.ring
      ensures Valid()
      ensures reply == if IsName(url) then Ok200(Listing(Gossip.Normalize(url.text), |router.ring.nodeSet|))
                       else BadRequest400
      ensures Known() == old(Known()) - if reply.Ok200? then {reply.body.url} else {}
      ensures healthHandle != null ==>
                healthHandle.health == old(healthHandle.health) - if reply.Ok200? then {reply.body.url} else {}
    {
      if !IsName(url) {
        return BadRequest400;
      }
      var normalized := Gossip.Normalize(url.text);
      if healthHandle != null {
        healthHandle.RemoveNode(normalized);
      } else {
        RemoveMembers(router.ring.Contents(), normalized);
        router.RemoveNode(normalized);
      }
      return Ok200(Listing(normalized, |router.ring.nodeSet|));
    }

    /** The sync loop: learns every one of these URLs under its normalised name. */
    method LearnAll(urls: seq<string>) returns (known: set<string>)
      requires Valid()
      modifies healthHandle, router.ring
      ensures Valid() && known == Known() == old(Known()) + Gossip.Normalized(SetOf(urls))
      ensures healthHandle != null ==>
                healthHandle.health == Merged(old(healthHandle.health), Gossip.Normalized(SetOf(urls)))
    {
      ghost var before, marks := Known(), if healthHandle != null then healthHandle.health else map[];
      MergedNone(marks);
      known := Known();
      for i := 0 to |urls|
        invariant Valid() && known == Known() == before + Gossip.Normalized(SetOf(urls[..i]))
        invariant healthHandle != null ==> healthHandle.health == Merged(marks, Gossip.Normalized(SetOf(urls[..i])))
      {
        MergedSync(marks, urls, i);
        known := AddUnknown(Gossip.Normalize(urls[i]), known);
      }
      TakeAll(urls);
    }

    /** POST /cluster/sync: learns every node a peer names, under its normalised name, and
        answers with everything known. */
    method Sync(nodes: Json) returns (reply: Reply<set<string>, string>)
      requires Valid()
      modifies healthHandle, router.ring
      ensures Valid()
      ensures var ok := nodes.List? && AllText(nodes.items);
              var learnt := if ok then Gossip.Normalized(SetOf(Texts(nodes.items))) else {};
              && Known() == old(Known()) + learnt
              && (healthHandle != null ==> healthHandle.health == Merged(old(healthHandle.health), learnt))
              && reply == if ok then Ok200(Known()) else BadRequest400
    {
      if !nodes.List? || !AllText(nodes.items) {
        if healthHandle != null {
          MergedNone(healthHandle.health);
        }
        return BadRequest400;
      }
      var known := LearnAll(Texts(nodes.items));
      return Ok200(known);
    }

    /** The other end of a sync: a peer's answer is merged as it stands. */
    method OnReceiveNodes(urls: seq<string>)
      requires Valid() && healthHandle != null
      modifies healthHandle, router.ring
      ensures Valid() && healthHandle.health == Merged(old(healthHandle.health), SetOf(urls))
      ensures Known() == old(Known()) + SetOf(urls)
    {
      ghost var before := healthHandle.health;
      MergedNone(before);
      for i := 0 to |urls|
        invariant Valid() && healthHandle.health == Merged(before, SetOf(urls[..i]))
      {
        MergedSnoc(before, urls, i);
        Add(urls[i]);
      }
      TakeAll(urls);
    }
  }
}
