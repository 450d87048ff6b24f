/**
 * What follows for the nodes themselves: whom they follow, how long an elected primary
 * serves, and when a voter of a newer term can still be serving an older win.
 */
module ElectionSafety {
  import opened Prelude
  import opened Sequences
  import opened Election
  import opened Leadership
  import opened ElectionProtocol

  // ---- announcements ----

  /** The node accepts the announcement: it does not answer 409. */
  predicate Adopts(w: World, a: Action, m: Message) {
    && a == Deliver(m) && Enabled(w, a)
    && m.LeaderIs? && m.primaryUrl != "" && !Stale(w.procs[m.to].node, m.term)
  }

  lemma {:induction false} WinHappened(ids: seq<string>, w: World, actions: seq<Action>, win: Win) returns (i: nat)
    requires win in History(ids, w, actions).wins
    ensures i < |actions| && WinsAt(ids, Run(ids, w, actions[..i]), actions[i], win)
  {
    var n := |actions| - 1;
    if win in History(ids, w, actions[..n]).wins {
      i := WinHappened(ids, w, actions[..n], win);
      TakeTake(actions, n, i);
    } else {
      i := n;
    }
  }

  lemma {:induction false} AdoptStep(ids: seq<string>, w: World, past: Past, a: Action, m: Message)
    requires Inv(ids, w, past) && Adopts(w, a, m)
    ensures Win(m.primaryUrl, m.term) in past.wins && m.primaryUrl != m.to
    ensures var node := Act(ids, w, a).procs[m.to].node;
            node.role == Replica && node.primaryUrl == Some(m.primaryUrl) && node.ballot.term == m.term
  {
    assert MessageOk(past, m);
  }

  lemma {:induction false} AdoptNow(ids: seq<string>, w: World, before: seq<Action>, a: Action, m: Message)
    requires Initial(ids, w) && Adopts(Run(ids, w, before), a, m)
    ensures Win(m.primaryUrl, m.term) in History(ids, w, before).wins && m.primaryUrl != m.to
    ensures var node := Act(ids, Run(ids, w, before), a).procs[m.to].node;
            node.role == Replica && node.primaryUrl == Some(m.primaryUrl) && node.ballot.term == m.term
  {
    RunInv(ids, w, before);
    AdoptStep(ids, Run(ids, w, before), History(ids, w, before), a, m);
  }

  /** An accepted announcement names a node that won that very term earlier in the run, and
      the receiver follows it from then on. */
  lemma {:induction false} AdoptedLeaderWon(ids: seq<string>, w: World, actions: seq<Action>, k: nat, m: Message) returns (i: nat)
    requires Initial(ids, w) && k < |actions| && Adopts(Run(ids, w, actions[..k]), actions[k], m)
    ensures i < k && WinsAt(ids, Run(ids, w, actions[..i]), actions[i], Win(m.primaryUrl, m.term))
    ensures m.primaryUrl != m.to
    ensures var node := Act(ids, Run(ids, w, actions[..k]), actions[k]).procs[m.to].node;
            node.role == Replica && node.primaryUrl == Some(m.primaryUrl) && node.ballot.term == m.term
  {
    AdoptNow(ids, w, actions[..k], actions[k], m);
    i := WinHappened(ids, w, actions[..k], Win(m.primaryUrl, m.term));
    TakeTake(actions, k, i);
  }

  /** Announcements of one term accepted anywhere name one node. */
  lemma {:induction false} AdoptedLeadersAgree(ids: seq<string>, w: World, actions: seq<Action>, j: nat, k: nat, m: Message, o: Message)
    requires Initial(ids, w) && j < |actions| && k < |actions|
    requires Adopts(Run(ids, w, actions[..j]), actions[j], m) && Adopts(Run(ids, w, actions[..k]), actions[k], o)
    requires m.term == o.term
    ensures m.primaryUrl == o.primaryUrl
  {
    var a := AdoptedLeaderWon(ids, w, actions, j, m);
    var b := AdoptedLeaderWon(ids, w, actions, k, o);
    OneWinnerPerTerm(ids, w, actions, a, b, Win(m.primaryUrl, m.term), Win(o.primaryUrl, o.term));
  }

  lemma {:induction false} TermGrows(ids: seq<string>, w: World, actions: seq<Action>, i: nat, id: string)
    requires i <= |actions| && id in w.procs
    ensures Run(ids, w, actions[..i]).procs[id].node.ballot.term <= Run(ids, w, actions).procs[id].node.ballot.term
  {
    if i == |actions| {
      TakeAll(actions);
    } else {
      var n := |actions| - 1;
      TakeTake(actions, n, i);
      TermGrows(ids, w, actions[..n], i, id);
      ActKeeps(ids, Run(ids, w, actions[..n]), actions[n]);
    }
  }

  lemma AdoptedTerm(ids: seq<string>, w: World, actions: seq<Action>, m: Message)
    requires actions != []
    requires Adopts(Run(ids, w, actions[..|actions| - 1]), actions[|actions| - 1], m)
    ensures Run(ids, w, actions).procs[m.to].node.ballot.term == m.term
  {
  }

  /** The terms a node accepts announcements for never decrease. */
  lemma {:induction false} AdoptedTermsGrow(ids: seq<string>, w: World, actions: seq<Action>, j: nat, k: nat, m: Message, o: Message)
    requires j < k < |actions| && m.to == o.to
    requires Adopts(Run(ids, w, actions[..j]), actions[j], m) && Adopts(Run(ids, w, actions[..k]), actions[k], o)
    ensures m.term <= o.term
  {
    TakeTake(actions, j + 1, j);
    AdoptedTerm(ids, w, actions[..j + 1], m);
    TakeTake(actions, k, j + 1);
    TermGrows(ids, w, actions[..k], j + 1, m.to);
  }

  predicate AdoptsAt(w: World, a: Action, id: string) {
    a.Deliver? && a.m.to == id && Adopts(w, a, a.m)
  }

  /** The last announcement a node accepted. */
  function Adopted(ids: seq<string>, w: World, actions: seq<Action>, id: string): Option<Win> {
    if actions == [] then None
    else
      var n := |actions| - 1;
      var a := actions[n];
      if AdoptsAt(Run(ids, w, actions[..n]), a, id)
      then Some(Win(a.m.primaryUrl, a.m.term))
      else Adopted(ids, w, actions[..n], id)
  }

  /** Only an accepted announcement points a node at a primary. */
  lemma {:induction false} FollowStep(ids: seq<string>, w: World, a: Action, id: string)
    requires id in w.procs && !AdoptsAt(w, a, id)
    ensures Act(ids, w, a).procs[id].node.primaryUrl in {None, w.procs[id].node.primaryUrl}
  {
  }

  /** What can raise a node's term: its own campaign, a vote request, an accepted announcement. */
  predicate RaisesTerm(w: World, a: Action, id: string) {
    a == Begin(id) || (a.Deliver? && a.m.to == id && a.m.VoteRequest?) || AdoptsAt(w, a, id)
  }

  lemma {:induction false} TermStep(ids: seq<string>, w: World, a: Action, id: string)
    requires id in w.procs && !RaisesTerm(w, a, id)
    ensures Act(ids, w, a).procs[id].node.ballot == w.procs[id].node.ballot
  {
  }

  /** A node's ballot changes only by its own campaign, a vote request or an accepted
      announcement: whatever is between two moments that differ, one of these is. In
      particular the term that a refusal carries is learned by nobody. */
  lemma {:induction false} BallotNeedsCause(ids: seq<string>, w: World, actions: seq<Action>, i: nat, id: string)
    returns (k: nat)
    requires i <= |actions| && id in w.procs
    requires Run(ids, w, actions[..i]).procs[id].node.ballot != Run(ids, w, actions).procs[id].node.ballot
    ensures i <= k < |actions| && RaisesTerm(Run(ids, w, actions[..k]), actions[k], id)
  {
    if i == |actions| {
      TakeAll(actions);
      assert false;
    }
    var n := |actions| - 1;
    if RaisesTerm(Run(ids, w, actions[..n]), actions[n], id) {
      k := n;
    } else {
      TermStep(ids, Run(ids, w, actions[..n]), actions[n], id);
      TakeTake(actions, n, i);
      k := BallotNeedsCause(ids, w, actions[..n], i, id);
      TakeTake(actions, n, k);
    }
  }

  /** A node that follows another primary than before has accepted an announcement since. */
  lemma {:induction false} PrimaryNeedsAnnouncement(
    ids: seq<string>, w: World, actions: seq<Action>, i: nat, id: string) returns (k: nat)
    requires i <= |actions| && id in w.procs
    requires Run(ids, w, actions).procs[id].node.primaryUrl
             !in {None, Run(ids, w, actions[..i]).procs[id].node.primaryUrl}
    ensures i <= k < |actions| && AdoptsAt(Run(ids, w, actions[..k]), actions[k], id)
  {
    if i == |actions| {
      TakeAll(actions);
      assert false;
    }
    var n := |actions| - 1;
    if AdoptsAt(Run(ids, w, actions[..n]), actions[n], id) {
      k := n;
    } else {
      FollowStep(ids, Run(ids, w, actions[..n]), actions[n], id);
      TakeTake(actions, n, i);
      k := PrimaryNeedsAnnouncement(ids, w, actions[..n], i, id);
      TakeTake(actions, n, k);
    }
  }

  lemma {:induction false} FollowsAdopted(ids: seq<string>, w: World, actions: seq<Action>, id: string)
    requires Initial(ids, w) && id in w.procs && Adopted(ids, w, actions, id).Some?
    ensures Adopted(ids, w, actions, id).value in History(ids, w, actions).wins
    ensures Run(ids, w, actions).procs[id].node.primaryUrl in {None, Some(Adopted(ids, w, actions, id).value.node)}
  {
    var n := |actions| - 1;
    var before, a := Run(ids, w, actions[..n]), actions[n];
    if AdoptsAt(before, a, id) {
      RunInv(ids, w, actions[..n]);
      AdoptStep(ids, before, History(ids, w, actions[..n]), a, a.m);
    } else {
      FollowsAdopted(ids, w, actions[..n], id);
      FollowStep(ids, before, a, id);
    }
  }

  /** At any moment, two nodes whose current primaries were announced in the same term follow
      the same primary. */
  lemma {:induction false} SameTermSamePrimary(ids: seq<string>, w: World, actions: seq<Action>, x: string, y: string)
    requires Initial(ids, w) && x in w.procs && y in w.procs
    requires var a, b := Adopted(ids, w, actions, x), Adopted(ids, w, actions, y);
             a.Some? && b.Some? && a.value.term == b.value.term
    requires var v := Run(ids, w, actions);
             v.procs[x].node.primaryUrl.Some? && v.procs[y].node.primaryUrl.Some?
    ensures var v := Run(ids, w, actions); v.procs[x].node.primaryUrl == v.procs[y].node.primaryUrl
  {
    FollowsAdopted(ids, w, actions, x);
    FollowsAdopted(ids, w, actions, y);
    RunInv(ids, w, actions);
    WinnersAgree(ids, Run(ids, w, actions), History(ids, w, actions),
                 Adopted(ids, w, actions, x).value, Adopted(ids, w, actions, y).value);
  }

  // ---- what each message does, in plain terms ----

  ghost predicate InFlight(ids: seq<string>, w: World, actions: seq<Action>, m: Message) {
    m in Run(ids, w, actions).sent && m.to in w.procs
  }

  /** In every run, an announcement that reaches a node whose term is no newer, the voters of
      the winner among them, is followed: the node is then a replica of the announced primary
      in that term, with no replicas. A node in a newer term is left as it is. */
  lemma {:induction false} AnnouncementIsFollowed(ids: seq<string>, w: World, actions: seq<Action>, to: string, term: nat, url: string)
    requires InFlight(ids, w, actions, LeaderIs(to, term, url)) && url != ""
    ensures var before := Run(ids, w, actions).procs[to];
            var after := Run(ids, w, actions + [Deliver(LeaderIs(to, term, url))]).procs[to];
            if before.node.ballot.term > term then after == before
            else
              && after.node.role == Replica && after.node.primaryUrl == Some(url) && after.node.replicaUrls == []
              && after.node.ballot.term == term
              && after.node.ballot.votedFor ==
                 (if before.node.ballot.term == term then before.node.ballot.votedFor else Some(url))
              && after.campaign == before.campaign
  {
    RunSnoc(ids, w, actions, Deliver(LeaderIs(to, term, url)), to);
  }

  /** In every run, a vote request is refused in an older term, and in the node's own term if
      the vote is another's; else the vote is given and said to be. Only a newer term makes a
      primary step down. */
  lemma {:induction false} VoteRequestIsAnswered(ids: seq<string>, w: World, actions: seq<Action>, from: string, to: string, term: nat)
    requires InFlight(ids, w, actions, VoteRequest(from, to, term)) && from != ""
    ensures var v, v' := Run(ids, w, actions), Run(ids, w, actions + [Deliver(VoteRequest(from, to, term))]);
            var before, after := v.procs[to], v'.procs[to];
            var b := before.node.ballot;
            if term < b.term || (term == b.term && b.votedFor.Some? && b.votedFor.value != from) then
              after == before && v'.sent == v.sent + {VoteRefusal(to, from, term, b.term)}
            else
              && v'.sent == v.sent + {VoteGrant(to, from, term)}
              && after.node.ballot == Ballot(term, Some(from))
              && after.node.role == (if term > b.term then Replica else before.node.role)
              && after.node.primaryUrl == before.node.primaryUrl
              && after.node.replicaUrls == before.node.replicaUrls && after.campaign == before.campaign
  {
    RunSnoc(ids, w, actions, Deliver(VoteRequest(from, to, term)), to);
  }

  lemma RequestsAre(ids: seq<string>, self: string, term: nat, m: Message)
    ensures m in Requests(ids, self, term) <==>
            m.VoteRequest? && m == VoteRequest(self, m.to, term) && m.to in ids && m.to != self
  {
  }

  /** In every run, a campaign takes the node into its next term with its own vote and asks
      every other node, keeping its role and primary meanwhile. */
  lemma {:induction false} CampaignAsksEveryone(ids: seq<string>, w: World, actions: seq<Action>, id: string)
    requires id in w.procs && Run(ids, w, actions).procs[id].campaign == None
    ensures var v, v' := Run(ids, w, actions), Run(ids, w, actions + [Begin(id)]);
            var term := v.procs[id].node.ballot.term + 1;
            && v'.procs[id] == Process(v.procs[id].node.(ballot := Ballot(term, Some(id))), Some(Campaign(term, {})))
            && forall m :: m in v'.sent <==>
                 m in v.sent || (m.VoteRequest? && m == VoteRequest(id, m.to, term) && m.to in ids && m.to != id)
  {
    var v := Run(ids, w, actions);
    var term := v.procs[id].node.ballot.term + 1;
    RunSnoc(ids, w, actions, Begin(id), id);
    forall m ensures m in Act(ids, v, Begin(id)).sent <==>
                     m in v.sent || (m.VoteRequest? && m == VoteRequest(id, m.to, term) && m.to in ids && m.to != id)
    {
      RequestsAre(ids, id, term, m);
    }
  }

  /** In every run, a campaign that ends makes a replica with more than half of all nodes
      behind it primary, with every other node as its replica, and announces it to each in the
      campaign's term. Anything else changes nothing and announces nothing. */
  lemma {:induction false} CampaignEnds(ids: seq<string>, w: World, actions: seq<Action>, id: string)
    requires Initial(ids, w) && id in w.procs && Run(ids, w, actions).procs[id].campaign.Some?
    ensures var v, v' := Run(ids, w, actions), Run(ids, w, actions + [Finish(id)]);
            var p, p' := v.procs[id], v'.procs[id];
            var backers := set x | x in ids && (x == id || x in p.campaign.value.granted);
            && p'.campaign == None && p'.node.ballot == p.node.ballot
            && if 2 * |backers| > |ids| && p.node.role == Replica then
                 && p'.node.role == Primary && p'.node.primaryUrl == None
                 && (forall x :: x in p'.node.replicaUrls <==> x in ids && x != id)
                 && (forall m :: m in v'.sent <==>
                       || m in v.sent
                       || (m.LeaderIs? && m == LeaderIs(m.to, p.campaign.value.term, id) && m.to in ids && m.to != id))
               else p'.node == p.node && v'.sent == v.sent
  {
    RunSnoc(ids, w, actions, Finish(id), id);
    WinsWithMajority(ids, id, Run(ids, w, actions).procs[id]);
    assert Supporters(ids, id, Run(ids, w, actions).procs[id].campaign.value.granted) ==
           set x | x in ids && (x == id || x in Run(ids, w, actions).procs[id].campaign.value.granted);
    PeersAre(ids, id);
  }

  lemma PeersAre(ids: seq<string>, self: string)
    ensures forall x :: x in Peers(ids, self) <==> x in ids && x != self
  {
    FilterIn(ids, OtherThan(self));
  }

  /** A grant counts for the campaign it was asked for, and for no other. */
  lemma {:induction false} GrantIsCounted(ids: seq<string>, w: World, actions: seq<Action>, from: string, to: string, term: nat)
    requires InFlight(ids, w, actions, VoteGrant(from, to, term))
    ensures var before := Run(ids, w, actions).procs[to];
            var after := Run(ids, w, actions + [Deliver(VoteGrant(from, to, term))]).procs[to];
            && after.node == before.node
            && after.campaign ==
               if before.campaign.Some? && before.campaign.value.term == term
               then Some(Campaign(term, before.campaign.value.granted + {from})) else before.campaign
  {
    RunSnoc(ids, w, actions, Deliver(VoteGrant(from, to, term)), to);
  }

  // ---- serving as an elected primary ----

  /** The term a primary won, and the term its node had reached when it was promoted. */
  datatype Office = Office(won: nat, reached: nat)

  predicate Promotes(ids: seq<string>, w: World, a: Action, id: string) {
    a == Finish(id) && Enabled(w, a) && Wins(ids, id, w.procs[id]) && w.procs[id].node.role == Replica
  }

  /** The promotion comes after the node has moved on to a newer term; the source does not
      look at the term again before it promotes. */
  predicate Late(o: Office) {
    o.reached > o.won
  }

  function NextOffice(ids: seq<string>, w: World, a: Action, id: string, o: Option<Office>): Option<Office>
    requires id in w.procs
  {
    if Promotes(ids, w, a, id) then
      Some(Office(w.procs[id].campaign.value.term, w.procs[id].node.ballot.term))
    else if Act(ids, w, a).procs[id].node.role == Replica then None
    else o
  }

  /** The win on which a node is primary; None for a replica, and for a primary that was one
      from the start. */
  function Serving(ids: seq<string>, w: World, actions: seq<Action>, id: string): Option<Office>
    requires id in w.procs
  {
    if actions == [] then None
    else
      var n := |actions| - 1;
      NextOffice(ids, Run(ids, w, actions[..n]), actions[n], id, Serving(ids, w, actions[..n], id))
  }

  ghost predicate Overtaken(past: Past, id: string, won: nat) {
    exists l :: l in past.locks && l.voter == id && l.term > won && l.candidate != id
  }

  /** A serving node is a primary, won its term, and its vote of a newer term is held by
      another node exactly when it was promoted late. */
  ghost predicate OfficeOk(past: Past, id: string, p: Process, o: Option<Office>) {
    o.Some? ==>
      && p.node.role == Primary
      && Win(id, o.value.won) in past.wins
      && o.value.won <= o.value.reached <= p.node.ballot.term
      && (Overtaken(past, id, o.value.won) <==> Late(o.value))
  }

  /** The votes a node's step adds to the record. */
  lemma {:induction false} NewLocks(ids: seq<string>, w: World, past: Past, a: Action, id: string, l: Lock)
    requires Inv(ids, w, past) && id in w.procs && l.voter == id
    requires l in Noted(ids, w, past, a).locks && l !in past.locks
    ensures Holds(Act(ids, w, a), l) && !Holds(w, l)
  {
    assert Holds(w, l) ==> l in LocksOf(w);
  }

  /** A node that stays primary votes in newer terms for nobody but itself. */
  lemma {:induction false} PrimaryVotesForItself(ids: seq<string>, w: World, a: Action, l: Lock)
    requires l.voter in w.procs && NodeOk(w.procs[l.voter])
    requires Holds(Act(ids, w, a), l) && !Holds(w, l) && l.term > 0
    requires Act(ids, w, a).procs[l.voter].node.role == Primary && w.procs[l.voter].node.role == Primary
    ensures l.candidate == l.voter
  {
  }

  lemma {:induction false} OvertakenStep(ids: seq<string>, w: World, past: Past, a: Action, id: string, o: Office)
    requires Inv(ids, w, past) && id in w.procs && OfficeOk(past, id, w.procs[id], Some(o))
    requires Act(ids, w, a).procs[id].node.role == Primary
    ensures Overtaken(past, id, o.won) <==> Overtaken(Noted(ids, w, past, a), id, o.won)
  {
    var past' := Noted(ids, w, past, a);
    forall l | l in past'.locks && l.voter == id && l.term > o.won && l.candidate != id
      ensures l in past.locks
    {
      if l !in past.locks {
        NewLocks(ids, w, past, a, id, l);
        PrimaryVotesForItself(ids, w, a, l);
      }
    }
  }

  lemma PromotionOffice(ids: seq<string>, w: World, past: Past, a: Action, id: string)
    requires Inv(ids, w, past) && id in w.procs && Promotes(ids, w, a, id)
    ensures OfficeOk(Noted(ids, w, past, a), id, Act(ids, w, a).procs[id], NextOffice(ids, w, a, id, None))
  {
    var p, past' := w.procs[id], Noted(ids, w, past, a);
    var c := p.campaign.value;
    InvStep(ids, w, past, a);
    assert CampaignOk(past, id, p) && NodeOk(p);
    assert Lock(id, c.term, id) in past.locks;
    if p.node.ballot.term > c.term {
      var l := Lock(id, p.node.ballot.term, p.node.ballot.votedFor.value);
      assert l in LocksOf(w);
      assert l in past'.locks && l.candidate != id;
    } else {
      forall l | l in past'.locks && l.voter == id ensures l.term <= c.term {
        assert Keeps(Ballot(l.term, Some(l.candidate)), Act(ids, w, a).procs[id].node.ballot);
      }
    }
  }

  lemma {:induction false} OfficeStep(ids: seq<string>, w: World, past: Past, a: Action, id: string, o: Option<Office>)
    requires Inv(ids, w, past) && id in w.procs && OfficeOk(past, id, w.procs[id], o)
    ensures OfficeOk(Noted(ids, w, past, a), id, Act(ids, w, a).procs[id], NextOffice(ids, w, a, id, o))
  {
    if Promotes(ids, w, a, id) {
      PromotionOffice(ids, w, past, a, id);
    } else if o.Some? && Act(ids, w, a).procs[id].node.role == Primary {
      ActKeeps(ids, w, a);
      OvertakenStep(ids, w, past, a, id, o.value);
    }
  }

  lemma {:induction false} RunOffice(ids: seq<string>, w: World, actions: seq<Action>, id: string)
    requires Initial(ids, w) && id in w.procs
    ensures OfficeOk(History(ids, w, actions), id, Run(ids, w, actions).procs[id], Serving(ids, w, actions, id))
  {
    if actions != [] {
      var n := |actions| - 1;
      RunInv(ids, w, actions[..n]);
      RunOffice(ids, w, actions[..n], id);
      OfficeStep(ids, Run(ids, w, actions[..n]), History(ids, w, actions[..n]), actions[n], id,
                 Serving(ids, w, actions[..n], id));
    }
  }

  ghost predicate Serves(ids: seq<string>, w: World, actions: seq<Action>, id: string, term: nat)
    requires id in w.procs
  {
    Serving(ids, w, actions, id).Some? && Serving(ids, w, actions, id).value.won == term
  }

  /** Two nodes serving wins of one term are one node. */
  lemma {:induction false} OneServerPerTerm(ids: seq<string>, w: World, actions: seq<Action>, x: string, y: string, term: nat)
    requires Initial(ids, w) && x in w.procs && y in w.procs
    requires Serves(ids, w, actions, x, term) && Serves(ids, w, actions, y, term)
    ensures x == y
  {
    RunOffice(ids, w, actions, x);
    RunOffice(ids, w, actions, y);
    RunInv(ids, w, actions);
    WinnersAgree(ids, Run(ids, w, actions), History(ids, w, actions), Win(x, term), Win(y, term));
  }

  // ---- leaving office ----

  /** An elected primary leaves the role only on a message of a term strictly above the one it
      won: a vote it gives away, or an announcement it accepts. */
  lemma {:induction false} LeaveStep(ids: seq<string>, w: World, past: Past, a: Action, id: string, o: Office)
    requires Inv(ids, w, past) && id in w.procs && OfficeOk(past, id, w.procs[id], Some(o))
    requires NextOffice(ids, w, a, id, Some(o)) != Some(o)
    ensures a.Deliver? && Enabled(w, a) && a.m.to == id && a.m.term > o.won
    ensures a.m.LeaderIs? || (a.m.VoteRequest? && Grants(w.procs[id].node.ballot, a.m.term, a.m.from))
    ensures NextOffice(ids, w, a, id, Some(o)) == None
  {
    if a.Deliver? && Enabled(w, a) {
      assert MessageOk(past, a.m);
      if a.m.LeaderIs? && a.m.term == o.won {
        WinnersAgree(ids, w, past, Win(id, o.won), Win(a.m.primaryUrl, a.m.term));
      }
    }
  }

  /** The same in every run: `o` is the office held before the step, and not after it. */
  lemma {:induction false} LeavesOnNewerTerm(
    ids: seq<string>, w: World, actions: seq<Action>, a: Action, id: string, o: Office)
    requires Initial(ids, w) && id in w.procs
    requires Serving(ids, w, actions, id) == Some(o)
    requires NextOffice(ids, Run(ids, w, actions), a, id, Some(o)) != Some(o)
    ensures a.Deliver? && a.m.to == id && a.m.term > o.won
    ensures a.m.LeaderIs? || a.m.VoteRequest?
    ensures Act(ids, Run(ids, w, actions), a).procs[id].node.role == Replica
  {
    RunInv(ids, w, actions);
    RunOffice(ids, w, actions, id);
    LeaveStep(ids, Run(ids, w, actions), History(ids, w, actions), a, id, o);
  }

  /** Gone from an office once won: it was won, and is not being served. */
  ghost predicate Left(past: Past, id: string, o: Option<Office>, term: nat) {
    Win(id, term) in past.wins && (o.Some? ==> o.value.won != term)
  }

  lemma LeftStep(ids: seq<string>, w: World, past: Past, a: Action, id: string, o: Option<Office>, term: nat)
    requires Inv(ids, w, past) && id in w.procs && Left(past, id, o, term)
    ensures Left(Noted(ids, w, past, a), id, NextOffice(ids, w, a, id, o), term)
  {
    if Promotes(ids, w, a, id) {
      assert CampaignOk(past, id, w.procs[id]);
      assert Win(id, term) in past.wins;
    }
  }

  ghost predicate LeftBy(ids: seq<string>, w: World, actions: seq<Action>, id: string, term: nat)
    requires id in w.procs
  {
    Left(History(ids, w, actions), id, Serving(ids, w, actions, id), term)
  }

  lemma LeftNext(ids: seq<string>, w: World, actions: seq<Action>, id: string, term: nat)
    requires Initial(ids, w) && id in w.procs && actions != []
    requires LeftBy(ids, w, actions[..|actions| - 1], id, term)
    ensures LeftBy(ids, w, actions, id, term)
  {
    var before := actions[..|actions| - 1];
    RunInv(ids, w, before);
    LeftStep(ids, Run(ids, w, before), History(ids, w, before), actions[|actions| - 1], id,
             Serving(ids, w, before, id), term);
  }

  lemma LeftSame(ids: seq<string>, w: World, a: seq<Action>, b: seq<Action>, id: string, term: nat)
    requires id in w.procs && a == b && LeftBy(ids, w, a, id, term)
    ensures LeftBy(ids, w, b, id, term)
  {
  }

  lemma {:induction false} LeftStays(ids: seq<string>, w: World, actions: seq<Action>, j: nat, id: string, term: nat)
    requires Initial(ids, w) && id in w.procs && j <= |actions| && LeftBy(ids, w, actions[..j], id, term)
    ensures LeftBy(ids, w, actions, id, term)
  {
    if j == |actions| {
      TakeAll(actions);
    } else {
      var before := actions[..|actions| - 1];
      LeftSame(ids, w, actions[..j], before[..j], id, term);
      LeftStays(ids, w, before, j, id, term);
      LeftNext(ids, w, actions, id, term);
    }
  }

  /** A win once left is never served again, whatever arrives later. */
  lemma {:induction false} NeverServesAgain(
    ids: seq<string>, w: World, actions: seq<Action>, i: nat, j: nat, k: nat, id: string, term: nat)
    requires Initial(ids, w) && id in w.procs && i <= j <= k <= |actions|
    requires Serves(ids, w, actions[..i], id, term) && !Serves(ids, w, actions[..j], id, term)
    ensures !Serves(ids, w, actions[..k], id, term)
  {
    RunOffice(ids, w, actions[..i], id);
    TakeTake(actions, j, i);
    PastGrows(ids, w, actions[..j], i);
    TakeTake(actions, k, j);
    LeftStays(ids, w, actions[..k], j, id, term);
  }

  /** A primary that gives its vote away in a newer term never serves its win again. */
  lemma {:induction false} VoterSteppedDown(
    ids: seq<string>, w: World, actions: seq<Action>, i: nat, k: nat, m: Message, term: nat)
    requires Initial(ids, w) && i < k <= |actions| && m.VoteRequest? && m.from != "" && m.to in w.procs
    requires actions[i] == Deliver(m) && Serves(ids, w, actions[..i], m.to, term)
    requires var v := Run(ids, w, actions[..i]);
             Enabled(v, actions[i]) && m.term > v.procs[m.to].node.ballot.term
    ensures !Serves(ids, w, actions[..k], m.to, term)
  {
    TakeTake(actions, i + 1, i);
    NewVoteDemotes(Run(ids, w, actions[..i]).procs[m.to].node, m.term, m.from);
    assert Serving(ids, w, actions[..i + 1], m.to) == None;
    NeverServesAgain(ids, w, actions, i, i + 1, k, m.to, term);
  }

  // ---- late promotions ----

  lemma LocksNoted(ids: seq<string>, w: World, actions: seq<Action>)
    ensures LocksOf(Run(ids, w, actions)) <= History(ids, w, actions).locks
  {
  }

  lemma {:induction false} LocksRecorded(ids: seq<string>, w: World, actions: seq<Action>, k: nat, l: Lock)
    requires k <= |actions| && Holds(Run(ids, w, actions[..k]), l)
    ensures l in History(ids, w, actions).locks
  {
    LocksNoted(ids, w, actions[..k]);
    assert l in LocksOf(Run(ids, w, actions[..k]));
    PastGrows(ids, w, actions, k);
  }

  lemma {:induction false} LockHappened(ids: seq<string>, w: World, actions: seq<Action>, l: Lock) returns (k: nat)
    requires l in History(ids, w, actions).locks
    ensures k <= |actions| && Holds(Run(ids, w, actions[..k]), l)
  {
    var n := |actions| - 1;
    if l in LocksOf(Run(ids, w, actions)) {
      k := |actions|;
      TakeAll(actions);
    } else {
      k := LockHappened(ids, w, actions[..n], l);
      TakeTake(actions, n, k);
    }
  }

  /** At some moment of the run the node's vote of a term above `won` was somebody else's. */
  ghost predicate VotedForAnother(ids: seq<string>, w: World, actions: seq<Action>, id: string, won: nat) {
    exists k, l: Lock :: 0 <= k <= |actions| && Holds(Run(ids, w, actions[..k]), l)
                         && l.voter == id && l.term > won && l.candidate != id
  }

  /** A node still serving an old win has given a newer term's vote to another node exactly
      when it was promoted after its own term had moved past the win. */
  lemma {:induction false} StillServingIffLate(ids: seq<string>, w: World, actions: seq<Action>, id: string)
    requires Initial(ids, w) && id in w.procs && Serving(ids, w, actions, id).Some?
    ensures var o := Serving(ids, w, actions, id).value;
            VotedForAnother(ids, w, actions, id, o.won) <==> Late(o)
  {
    var o, past := Serving(ids, w, actions, id).value, History(ids, w, actions);
    RunOffice(ids, w, actions, id);
    if Overtaken(past, id, o.won) {
      var l :| l in past.locks && l.voter == id && l.term > o.won && l.candidate != id;
      var k := LockHappened(ids, w, actions, l);
    }
    if VotedForAnother(ids, w, actions, id, o.won) {
      var k, l: Lock :| 0 <= k <= |actions| && Holds(Run(ids, w, actions[..k]), l)
                        && l.voter == id && l.term > o.won && l.candidate != id;
      LocksRecorded(ids, w, actions, k, l);
    }
  }

  /** When a node wins a term, none of the peers it counts is serving an older win, unless that
      peer was promoted late. */
  lemma {:induction false} CountedPeersStepDown(ids: seq<string>, w: World, actions: seq<Action>, win: Win, peer: string)
    requires Initial(ids, w) && peer in w.procs && peer != win.node
    requires var v := Run(ids, w, actions);
             WinsAt(ids, v, Finish(win.node), win) && peer in v.procs[win.node].campaign.value.granted
    requires Serving(ids, w, actions, peer).Some? && Serving(ids, w, actions, peer).value.won < win.term
    ensures Late(Serving(ids, w, actions, peer).value)
  {
    RunInv(ids, w, actions);
    RunOffice(ids, w, actions, peer);
    assert CampaignOk(History(ids, w, actions), win.node, Run(ids, w, actions).procs[win.node]);
    assert Lock(peer, win.term, win.node) in History(ids, w, actions).locks;
  }

  // ---- a late promotion ----

  const PAIR := ["a", "b"]
  const FOLLOWER := Process(Node(FRESH, Replica, None, []), None)
  const PAIR_START := World(map["a" := FOLLOWER, "b" := FOLLOWER], {})

  lemma RunSnoc(ids: seq<string>, w: World, actions: seq<Action>, a: Action, id: string)
    requires id in w.procs
    ensures Run(ids, w, actions + [a]) == Act(ids, Run(ids, w, actions), a)
    ensures Serving(ids, w, actions + [a], id) ==
            NextOffice(ids, Run(ids, w, actions), a, id, Serving(ids, w, actions, id))
  {
    assert (actions + [a])[..|actions|] == actions;
  }

  lemma BothVotesWin(self: string, other: string, p: Process)
    requires (self == "a" && other == "b") || (self == "b" && other == "a")
    requires p.campaign.Some? && p.campaign.value.granted == {other}
    ensures Wins(PAIR, self, p)
  {
    assert Distinct(PAIR) && PAIR[0] == "a" && PAIR[1] == "b";
    WinsWithMajority(PAIR, self, p);
    assert Supporters(PAIR, self, {other}) == {self, other};
  }

  /** A point of the run below: the two nodes, what can be delivered, and who serves what. */
  ghost predicate Point(
    actions: seq<Action>, a: Process, b: Process, sent: set<Message>, x: Option<Office>, y: Option<Office>)
  {
    var v := Run(PAIR, PAIR_START, actions);
    && v.procs["a"] == a && v.procs["b"] == b && sent <= v.sent
    && Serving(PAIR, PAIR_START, actions, "a") == x && Serving(PAIR, PAIR_START, actions, "b") == y
  }

  function Voter(term: nat, vote: string, campaign: Option<Campaign>): Process {
    Process(Node(Ballot(term, Some(vote)), Replica, None, []), campaign)
  }

  lemma Next(actions: seq<Action>, a: Action) returns (longer: seq<Action>)
    ensures longer == actions + [a]
    ensures Run(PAIR, PAIR_START, longer) == Act(PAIR, Run(PAIR, PAIR_START, actions), a)
    ensures Serving(PAIR, PAIR_START, longer, "a") ==
            NextOffice(PAIR, Run(PAIR, PAIR_START, actions), a, "a", Serving(PAIR, PAIR_START, actions, "a"))
    ensures Serving(PAIR, PAIR_START, longer, "b") ==
            NextOffice(PAIR, Run(PAIR, PAIR_START, actions), a, "b", Serving(PAIR, PAIR_START, actions, "b"))
  {
    longer := actions + [a];
    RunSnoc(PAIR, PAIR_START, actions, a, "a");
    RunSnoc(PAIR, PAIR_START, actions, a, "b");
  }

  /** "a" campaigns in term 1 and gets the vote of "b". */
  lemma {:induction false} FirstCampaign() returns (actions: seq<Action>)
    ensures Point(actions, Voter(1, "a", Some(Campaign(1, {}))), Voter(1, "a", None),
                  {VoteGrant("b", "a", 1)}, None, None)
  {
    assert PAIR[0] == "a" && PAIR[1] == "b";
    actions := Next([], Begin("a"));
    assert Point(actions, Voter(1, "a", Some(Campaign(1, {}))), FOLLOWER, {VoteRequest("a", "b", 1)}, None, None);
    actions := Next(actions, Deliver(VoteRequest("a", "b", 1)));
  }

  /** Before the answer arrives "b" campaigns in term 2 and gets the vote of "a". */
  lemma {:induction false} TwoCampaigns() returns (actions: seq<Action>)
    ensures Point(actions, Voter(2, "b", Some(Campaign(1, {}))), Voter(2, "b", Some(Campaign(2, {}))),
                  {VoteGrant("b", "a", 1), VoteGrant("a", "b", 2)}, None, None)
  {
    assert PAIR[0] == "a" && PAIR[1] == "b";
    actions := FirstCampaign();
    actions := Next(actions, Begin("b"));
    assert Point(actions, Voter(1, "a", Some(Campaign(1, {}))), Voter(2, "b", Some(Campaign(2, {}))),
                 {VoteGrant("b", "a", 1), VoteRequest("b", "a", 2)}, None, None);
    actions := Next(actions, Deliver(VoteRequest("b", "a", 2)));
  }

  function Leader(term: nat, vote: string, peer: string): Process {
    Process(Node(Ballot(term, Some(vote)), Primary, None, [peer]), None)
  }

  lemma FirstGrant(p: Process, from: string, to: string, term: nat)
    requires p.campaign == Some(Campaign(term, {}))
    ensures Received(p, VoteGrant(from, to, term)) == p.(campaign := Some(Campaign(term, {from})))
  {
    var none: set<string> := {};
    assert none + {from} == {from};
  }

  /** Then "b" wins and is promoted. */
  lemma SecondWins() returns (actions: seq<Action>)
    ensures Point(actions, Voter(2, "b", Some(Campaign(1, {}))), Leader(2, "b", "a"),
                  {VoteGrant("b", "a", 1)}, None, Some(Office(2, 2)))
  {
    assert Peers(PAIR, "b") == ["a"];
    actions := TwoCampaigns();
    FirstGrant(Voter(2, "b", Some(Campaign(2, {}))), "a", "b", 2);
    actions := Next(actions, Deliver(VoteGrant("a", "b", 2)));
    assert Run(PAIR, PAIR_START, actions).procs["b"] == Voter(2, "b", Some(Campaign(2, {"a"})));
    BothVotesWin("b", "a", Voter(2, "b", Some(Campaign(2, {"a"}))));
    actions := Next(actions, Finish("b"));
  }

  /** The old answer reaches "a", which has meanwhile voted for "b". */
  lemma OldAnswerArrives() returns (actions: seq<Action>)
    ensures Point(actions, Voter(2, "b", Some(Campaign(1, {"b"}))), Leader(2, "b", "a"), {}, None, Some(Office(2, 2)))
  {
    actions := SecondWins();
    FirstGrant(Voter(2, "b", Some(Campaign(1, {}))), "b", "a", 1);
    actions := Next(actions, Deliver(VoteGrant("b", "a", 1)));
  }

  lemma PairInitial()
    ensures Initial(PAIR, PAIR_START)
  {
    assert PAIR[0] == "a" && PAIR[1] == "b";
  }

  /** Now "a" counts it and is promoted too, on the win of a term older than the one in which
      it has just voted for "b": two primaries, although each term has one winner. */
  lemma {:induction false} LatePromotionHappens() returns (actions: seq<Action>)
    ensures Initial(PAIR, PAIR_START)
    ensures Serving(PAIR, PAIR_START, actions, "a") == Some(Office(1, 2))
    ensures Serving(PAIR, PAIR_START, actions, "b") == Some(Office(2, 2))
    ensures Holds(Run(PAIR, PAIR_START, actions), Lock("a", 2, "b"))
  {
    PairInitial();
    actions := OldAnswerArrives();
    BothVotesWin("a", "b", Voter(2, "b", Some(Campaign(1, {"b"}))));
    actions := Next(actions, Finish("a"));
  }

  // ---- a refusal that teaches nothing ----

  lemma {:induction false} LoneVoteLoses(self: string, p: Process)
    requires (self == "a" || self == "b") && p.campaign.Some? && p.campaign.value.granted == {}
    ensures !Wins(PAIR, self, p)
  {
    assert Distinct(PAIR) && PAIR[0] == "a" && PAIR[1] == "b";
    WinsWithMajority(PAIR, self, p);
    assert Supporters(PAIR, self, {}) == {self};
  }

  /** "b" campaigns and loses for want of answers. */
  lemma {:induction false} LostCampaign() returns (actions: seq<Action>)
    ensures Point(actions, FOLLOWER, Voter(1, "b", None), {}, None, None)
  {
    actions := Next([], Begin("b"));
    assert Point(actions, FOLLOWER, Voter(1, "b", Some(Campaign(1, {}))), {}, None, None);
    LoneVoteLoses("b", Voter(1, "b", Some(Campaign(1, {}))));
    actions := Next(actions, Finish("b"));
  }

  /** Then it campaigns again. */
  lemma {:induction false} CampaignsTwice() returns (actions: seq<Action>)
    ensures Point(actions, FOLLOWER, Voter(2, "b", Some(Campaign(2, {}))), {}, None, None)
  {
    actions := LostCampaign();
    actions := Next(actions, Begin("b"));
  }

  /** Then "a" asks for a vote in term 1, and "b" refuses it, naming its own term 2. */
  lemma {:induction false} LateAsker() returns (actions: seq<Action>)
    ensures Point(actions, Voter(1, "a", Some(Campaign(1, {}))), Voter(2, "b", Some(Campaign(2, {}))),
                  {VoteRefusal("b", "a", 1, 2)}, None, None)
  {
    assert PAIR[0] == "a" && PAIR[1] == "b";
    actions := CampaignsTwice();
    actions := Next(actions, Begin("a"));
    assert Point(actions, Voter(1, "a", Some(Campaign(1, {}))), Voter(2, "b", Some(Campaign(2, {}))),
                 {VoteRequest("a", "b", 1)}, None, None);
    actions := Next(actions, Deliver(VoteRequest("a", "b", 1)));
  }

  /** "a" takes the answer, ends its campaign and is still in term 1. */
  lemma {:induction false} RefusedStaysBehind() returns (actions: seq<Action>)
    ensures Initial(PAIR, PAIR_START)
    ensures Deliver(VoteRefusal("b", "a", 1, 2)) in actions
    ensures var v := Run(PAIR, PAIR_START, actions);
            && v.procs["a"].campaign == None && v.procs["a"].node.ballot.term == 1
            && v.procs["b"].node.ballot.term == 2
  {
    PairInitial();
    var refused := LateAsker();
    var answered := Next(refused, Deliver(VoteRefusal("b", "a", 1, 2)));
    assert Point(answered, Voter(1, "a", Some(Campaign(1, {}))), Voter(2, "b", Some(Campaign(2, {}))), {}, None, None);
    LoneVoteLoses("a", Voter(1, "a", Some(Campaign(1, {}))));
    actions := Next(answered, Finish("a"));
    assert actions[|refused|] == Deliver(VoteRefusal("b", "a", 1, 2));
  }
}
