/**
 * The part of a cache node that elections change: its role, the primary it follows and the
 * replicas it forwards to, with the two election routes and the node's own campaign.
 */
module Leadership {
  import opened Prelude
  import opened Sequences
  import opened Election

  datatype Role = Primary | Replica

  datatype Node = Node(ballot: Ballot, role: Role, primaryUrl: Option<string>, replicaUrls: seq<string>)

  predicate IsTerm(j: Json) {
    j.Number? && j.value.Floor as real == j.value && j.value >= 0.0
  }

  // ---- what each step does to a node ----

  function Promoted(n: Node, replicaUrls: seq<string>): Node {
    if n.role == Primary then n else Node(n.ballot, Primary, None, replicaUrls)
  }

  predicate StepsDown(n: Node, term: nat, candidate: string) {
    Grants(n.ballot, term, candidate) && term > n.ballot.term
  }

  function AfterVoteRequest(n: Node, term: nat, candidate: string): Node {
    n.(ballot := Asked(n.ballot, term, candidate),
       role := if StepsDown(n, term, candidate) then Replica else n.role)
  }

  predicate Stale(n: Node, term: nat) {
    term < n.ballot.term
  }

  function AfterLeader(n: Node, term: nat, primaryUrl: string): Node {
    if Stale(n, term) then n
    else Node(Observed(n.ballot, term, Some(primaryUrl)), Replica, Some(primaryUrl), [])
  }

  function AfterStart(n: Node, self: string): Node {
    n.(ballot := Standing(n.ballot, self))
  }

  /** Whatever a node is told about elections, a term's vote stays given. */
  lemma NodeKeeps(n: Node, term: nat, name: string, self: string)
    ensures Keeps(n.ballot, AfterVoteRequest(n, term, name).ballot)
    ensures Keeps(n.ballot, AfterLeader(n, term, name).ballot)
    ensures Keeps(n.ballot, AfterStart(n, self).ballot)
  {
  }

  /** A node that votes in a newer term is no primary afterwards, whatever it was before. */
  lemma NewVoteDemotes(n: Node, term: nat, candidate: string)
    requires Grants(n.ballot, term, candidate) && term > n.ballot.term
    ensures AfterVoteRequest(n, term, candidate).role == Replica
  {
  }

  // ---- counting votes ----

  predicate IsTrue(b: bool) {
    b
  }

  /** The candidate's own vote and every peer that said yes. */
  function VotesFor(grants: seq<bool>): nat {
    1 + |Filter(grants, IsTrue)|
  }

  predicate WinsElection(grants: seq<bool>) {
    HasMajority(VotesFor(grants), |grants| + 1)
  }

  datatype Announcement = Announcement(to: string, term: nat, primaryUrl: string)

  function Announcing(term: nat, self: string): string -> Announcement {
    (peer: string) => Announcement(peer, term, self)
  }

  // ---- the objects ----

  class CacheNode {
    var role: Role
    var primaryUrl: Option<string>
    var replicaUrls: seq<string>
    const electionState: ElectionState

    ghost function Contents(): Node
      reads this, electionState
    {
      Node(electionState.Contents(), role, primaryUrl, replicaUrls)
    }

    constructor (selfId: string, role: Role, primaryUrl: Option<string>, replicaUrls: seq<string>)
      ensures fresh(electionState) && electionState.selfId == selfId
      ensures Contents() == Node(FRESH, role, primaryUrl, replicaUrls)
    {
      this.role, this.primaryUrl, this.replicaUrls := role, primaryUrl, replicaUrls;
      electionState := new ElectionState(selfId);
    }

    method PromoteToPrimary(replicaUrls: seq<string>) returns (promoted: bool)
      modifies this
      ensures Contents() == Promoted(old(Contents()), replicaUrls)
      ensures promoted <==> old(role) == Replica
    {
      if role == Primary {
        return false;
      }
      role, primaryUrl, this.replicaUrls := Primary, None, replicaUrls;
      return true;
    }

    /** POST /election/request-vote */
    method OnRequestVote(term: Json, candidateId: Json) returns (reply: Reply<VoteResult, nat>)
      modifies this`role, electionState
      ensures IsTerm(term) && IsName(candidateId) ==>
                && Contents() == AfterVoteRequest(old(Contents()), term.value.Floor, candidateId.text)
                && reply == Ok200(VoteResult(Grants(old(Contents()).ballot, term.value.Floor, candidateId.text),
                                             Contents().ballot.term))
      ensures !(IsTerm(term) && IsName(candidateId)) ==> Contents() == old(Contents()) && reply == BadRequest400
    {
      if !IsTerm(term) || !IsName(candidateId) {
        return BadRequest400;
      }
      var previousTerm := electionState.currentTerm;
      var result := electionState.RequestVote(term.value.Floor, candidateId.text);
      if result.voteGranted && term.value.Floor > previousTerm && role == Primary {
        role := Replica;
      }
      return Ok200(result);
    }

    /** POST /election/leader */
    method OnLeader(term: Json, primaryUrl: Json) returns (reply: Reply<nat, nat>)
      modifies this, electionState
      ensures IsTerm(term) && IsName(primaryUrl) ==>
                && Contents() == AfterLeader(old(Contents()), term.value.Floor, primaryUrl.text)
                && reply == if Stale(old(Contents()), term.value.Floor) then Conflict409(old(Contents()).ballot.term)
                            else Ok200(Contents().ballot.term)
      ensures !(IsTerm(term) && IsName(primaryUrl)) ==> Contents() == old(Contents()) && reply == BadRequest400
    {
      if !IsTerm(term) || !IsName(primaryUrl) {
        return BadRequest400;
      }
      if term.value.Floor < electionState.currentTerm {
        return Conflict409(electionState.currentTerm);
      }
      electionState.ObserveTerm(term.value.Floor, Some(primaryUrl.text));
      role, this.primaryUrl, replicaUrls := Replica, Some(primaryUrl.text), [];
      return Ok200(electionState.currentTerm);
    }
  }

  /** The candidate side. A campaign is suspended while its vote requests are answered; what
      it holds on to meanwhile is the term it campaigns in. */
  class Candidate {
    const node: CacheNode
    const peerUrls: seq<string>
    var electionInFlight: bool
    var campaignTerm: nat

    constructor (node: CacheNode, peerUrls: seq<string>)
      ensures this.node == node && this.peerUrls == peerUrls && !electionInFlight
    {
      this.node, this.peerUrls, electionInFlight, campaignTerm := node, peerUrls, false, 0;
    }

    /** Up to the first suspension: nothing if a campaign is already in flight. */
    method BeginCampaign() returns (began: bool)
      modifies this, node.electionState
      ensures began <==> !old(electionInFlight)
      ensures electionInFlight
      ensures began ==>
                && node.Contents() == AfterStart(old(node.Contents()), node.electionState.selfId)
                && campaignTerm == node.Contents().ballot.term
      ensures !began ==> node.Contents() == old(node.Contents()) && campaignTerm == old(campaignTerm)
    {
      if electionInFlight {
        return false;
      }
      electionInFlight := true;
      campaignTerm := node.electionState.StartElection();
      return true;
    }

    /** Once every peer has answered or failed to: `grants` says which of them said yes. The
        node's own term is not looked at again. */
    method FinishCampaign(grants: seq<bool>) returns (announced: seq<Announcement>)
      requires electionInFlight && |grants| == |peerUrls|
      modifies this`electionInFlight, node
      ensures !electionInFlight
      ensures node.Contents() ==
              if WinsElection(grants) then Promoted(old(node.Contents()), peerUrls) else old(node.Contents())
      ensures announced ==
              if WinsElection(grants) && old(node.role) == Replica
              then Map(peerUrls, Announcing(campaignTerm, node.electionState.selfId)) else []
    {
      announced := [];
      var votes := 1 + |Filter(grants, IsTrue)|;
      if HasMajority(votes, |peerUrls| + 1) {
        var promoted := node.PromoteToPrimary(peerUrls);
        if promoted {
          for i := 0 to |peerUrls|
            invariant announced == Map(peerUrls[..i], Announcing(campaignTerm, node.electionState.selfId))
          {
            announced := announced + [Announcement(peerUrls[i], campaignTerm, node.electionState.selfId)];
          }
          assert peerUrls[..|peerUrls|] == peerUrls;
        }
      }
      electionInFlight := false;
    }
  }
}
