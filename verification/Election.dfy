/**
 * Term and vote bookkeeping of one voter: the RequestVote subset of Raft (section 5.2 of the
 * extended Raft paper), with the rule that a higher term always wins.
 */
module Election {
  import opened Prelude

  datatype Ballot = Ballot(term: nat, votedFor: Option<string>)
  datatype VoteResult = VoteResult(voteGranted: bool, term: nat)

  const FRESH := Ballot(0, None)

  function Standing(b: Ballot, self: string): Ballot {
    Ballot(b.term + 1, Some(self))
  }

  function Observed(b: Ballot, term: nat, candidate: Option<string>): Ballot {
    if term > b.term then Ballot(term, candidate) else b
  }

  function Opened(b: Ballot, term: nat): Ballot {
    Observed(b, term, None)
  }

  predicate Grants(b: Ballot, term: nat, candidate: string) {
    term >= b.term && Opened(b, term).votedFor in {None, Some(candidate)}
  }

  function Asked(b: Ballot, term: nat, candidate: string): Ballot {
    if Grants(b, term, candidate) then Ballot(term, Some(candidate)) else Opened(b, term)
  }

  /** More than half of all nodes, as the source divides: without rounding. */
  predicate HasMajority(votes: nat, totalNodes: nat) {
    votes as real > totalNodes as real / 2.0
  }

  /** A tie is not a majority, for odd and even numbers of nodes alike. */
  lemma MajorityIsMoreThanHalf(votes: nat, totalNodes: nat)
    ensures HasMajority(votes, totalNodes) <==> 2 * votes > totalNodes
  {
    var half := totalNodes as real / 2.0;
    assert half + half == totalNodes as real;
  }

  // ---- any sequence of calls ----

  datatype Call =
    | Start
    | Observe(term: nat, leader: Option<string>)
    | Request(term: nat, candidate: string)

  function Step(b: Ballot, self: string, c: Call): Ballot {
    match c
    case Start => Standing(b, self)
    case Observe(term, leader) => Observed(b, term, leader)
    case Request(term, candidate) => Asked(b, term, candidate)
  }

  function Called(b: Ballot, self: string, calls: seq<Call>): Ballot {
    if calls == [] then b
    else Step(Called(b, self, calls[..|calls| - 1]), self, calls[|calls| - 1])
  }

  /** The call gives the vote of term `term` to `candidate`: a grant, or the node's own. */
  predicate Votes(b: Ballot, self: string, c: Call, term: nat, candidate: string) {
    || (c == Start && term == b.term + 1 && candidate == self)
    || (c == Request(term, candidate) && Grants(b, term, candidate))
  }

  /** Once the vote of a term is given, it stays given for as long as the term lasts. */
  ghost predicate Keeps(b: Ballot, b': Ballot) {
    b.term <= b'.term && (b.term == b'.term && b.votedFor.Some? ==> b'.votedFor == b.votedFor)
  }

  lemma StepKeeps(b: Ballot, self: string, c: Call)
    ensures Keeps(b, Step(b, self, c))
  {
  }

  lemma {:induction false} CalledKeeps(b: Ballot, self: string, calls: seq<Call>, i: nat, j: nat)
    requires i <= j <= |calls|
    ensures Keeps(Called(b, self, calls[..i]), Called(b, self, calls[..j]))
    decreases j
  {
    if i < j {
      var prefix := calls[..j];
      assert prefix[..j - 1] == calls[..j - 1];
      CalledKeeps(b, self, calls, i, j - 1);
      StepKeeps(Called(b, self, calls[..j - 1]), self, calls[j - 1]);
    }
  }

  lemma VoteIsLocked(b: Ballot, self: string, calls: seq<Call>, i: nat, term: nat, candidate: string)
    requires i < |calls| && Votes(Called(b, self, calls[..i]), self, calls[i], term, candidate)
    ensures Called(b, self, calls[..i + 1]) == Ballot(term, Some(candidate))
  {
    assert calls[..i + 1][..i] == calls[..i];
  }

  /** Within one term the vote goes to at most one candidate, whatever is called in between. */
  lemma OneVotePerTerm(b: Ballot, self: string, calls: seq<Call>, i: nat, j: nat, term: nat, c: string, d: string)
    requires i < |calls| && j < |calls|
    requires Votes(Called(b, self, calls[..i]), self, calls[i], term, c)
    requires Votes(Called(b, self, calls[..j]), self, calls[j], term, d)
    ensures c == d
  {
    VoteIsLocked(b, self, calls, i, term, c);
    VoteIsLocked(b, self, calls, j, term, d);
    if i < j {
      CalledKeeps(b, self, calls, i + 1, j + 1);
    } else if j < i {
      CalledKeeps(b, self, calls, j + 1, i + 1);
    }
  }

  /** The candidate that holds a term's vote is granted it again, so a lost answer can be
      retried; any other is refused for the rest of the term. */
  lemma VoteCanBeRetried(b: Ballot, self: string, calls: seq<Call>, i: nat, j: nat, term: nat, c: string, d: string)
    requires i < j <= |calls| && Called(b, self, calls[..j]).term == term
    requires Votes(Called(b, self, calls[..i]), self, calls[i], term, c)
    ensures Grants(Called(b, self, calls[..j]), term, d) <==> d == c
  {
    VoteIsLocked(b, self, calls, i, term, c);
    CalledKeeps(b, self, calls, i + 1, j);
  }

  class ElectionState {
    var currentTerm: nat
    var votedFor: Option<string>
    const selfId: string

    ghost function Contents(): Ballot
      reads this
    {
      Ballot(currentTerm, votedFor)
    }

    constructor (selfId: string)
      ensures Contents() == FRESH && this.selfId == selfId
    {
      this.selfId, currentTerm, votedFor := selfId, 0, None;
    }

    method ObserveTerm(term: nat, candidateId: Option<string>)
      modifies this
      ensures Contents() == Observed(old(Contents()), term, candidateId)
    {
      if term > currentTerm {
        currentTerm, votedFor := term, candidateId;
      }
    }

    method StartElection() returns (term: nat)
      modifies this
      ensures Contents() == Standing(old(Contents()), selfId) && term == old(currentTerm) + 1
    {
      currentTerm := currentTerm + 1;
      votedFor := Some(selfId);
      return currentTerm;
    }

    method RequestVote(term: nat, candidateId: string) returns (result: VoteResult)
      modifies this
      ensures Contents() == Asked(old(Contents()), term, candidateId)
      ensures result == VoteResult(Grants(old(Contents()), term, candidateId), Contents().term)
    {
      if term < currentTerm {
        return VoteResult(false, currentTerm);
      }
      if term > currentTerm {
        currentTerm, votedFor := term, None;
      }
      if votedFor == None || votedFor == Some(candidateId) {
        votedFor := Some(candidateId);
        return VoteResult(true, currentTerm);
      }
      return VoteResult(false, currentTerm);
    }
  }
}
