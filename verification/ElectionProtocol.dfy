/**
 * Leader election between a fixed set of nodes over a network that may lose, delay, repeat
 * and reorder every message. Each node lists every other node as a peer; a campaign may
 * start at any moment and is counted with whatever answers have arrived.
 */
module ElectionProtocol {
  import opened Prelude
  import opened Sequences
  import opened Election
  import opened Leadership

  datatype Campaign = Campaign(term: nat, granted: set<string>)
  datatype Process = Process(node: Node, campaign: Option<Campaign>)

  datatype Message =
    | VoteRequest(from: string, to: string, term: nat)
    | VoteGrant(from: string, to: string, term: nat)
    | VoteRefusal(from: string, to: string, term: nat, current: nat)
    | LeaderIs(to: string, term: nat, primaryUrl: string)

  /** Messages once sent stay deliverable, so each may arrive never, late, or repeatedly. */
  datatype World = World(procs: map<string, Process>, sent: set<Message>)

  datatype Action =
    | Begin(id: string)
    | Deliver(m: Message)
    | Finish(id: string)

  // ---- one step ----

  function OtherThan(self: string): string -> bool {
    (id: string) => id != self
  }

  function InSet(ids: set<string>): string -> bool {
    (id: string) => id in ids
  }

  function Peers(ids: seq<string>, self: string): seq<string> {
    Filter(ids, OtherThan(self))
  }

  /** The answers counted for a campaign, peer by peer. */
  function Answers(ids: seq<string>, self: string, granted: set<string>): seq<bool> {
    Map(Peers(ids, self), InSet(granted))
  }

  function Requests(ids: seq<string>, self: string, term: nat): set<Message> {
    set p | p in ids && p != self :: VoteRequest(self, p, term)
  }

  function Announcements(ids: seq<string>, self: string, term: nat): set<Message> {
    set p | p in ids && p != self :: LeaderIs(p, term, self)
  }

  function Begun(p: Process, self: string): Process {
    var node := AfterStart(p.node, self);
    Process(node, Some(Campaign(node.ballot.term, {})))
  }

  predicate Wins(ids: seq<string>, self: string, p: Process) {
    p.campaign.Some? && WinsElection(Answers(ids, self, p.campaign.value.granted))
  }

  function Finished(ids: seq<string>, self: string, p: Process): Process {
    Process(if Wins(ids, self, p) then Promoted(p.node, Peers(ids, self)) else p.node, None)
  }

  /** What receiving a message makes of a node. A request without a sender is malformed, and of
      a refusal the candidate reads only that it is one, not the term it carries. */
  function Received(p: Process, m: Message): Process {
    match m
    case VoteRequest(from, _, term) => if from == "" then p else p.(node := AfterVoteRequest(p.node, term, from))
    case VoteGrant(from, _, term) =>
      if p.campaign.Some? && p.campaign.value.term == term
      then p.(campaign := Some(Campaign(term, p.campaign.value.granted + {from})))
      else p
    case VoteRefusal(_, _, _, _) => p
    case LeaderIs(_, term, url) => if url == "" then p else p.(node := AfterLeader(p.node, term, url))
  }

  function Answer(p: Process, m: Message): set<Message> {
    if !m.VoteRequest? || m.from == "" then {}
    else if Grants(p.node.ballot, m.term, m.from) then {VoteGrant(m.to, m.from, m.term)}
    else {VoteRefusal(m.to, m.from, m.term, Asked(p.node.ballot, m.term, m.from).term)}
  }

  function AsMessages(announced: seq<Announcement>): set<Message> {
    set a | a in announced :: LeaderIs(a.to, a.term, a.primaryUrl)
  }

  /** What a node announces after a campaign is, as messages, what the protocol sends: one to
      each of the others, naming the node itself. */
  lemma AnnouncedIsSent(ids: seq<string>, self: string, term: nat)
    ensures AsMessages(Map(Peers(ids, self), Announcing(term, self))) ==
            set p | p in ids && p != self :: LeaderIs(p, term, self)
    ensures Announcements(ids, self, term) == AsMessages(Map(Peers(ids, self), Announcing(term, self)))
  {
    var peers, announced := Peers(ids, self), Map(Peers(ids, self), Announcing(term, self));
    FilterIn(ids, OtherThan(self));
    forall m ensures m in AsMessages(announced) <==> m in Announcements(ids, self, term) {
      if m in AsMessages(announced) {
        var a :| a in announced && m == LeaderIs(a.to, a.term, a.primaryUrl);
        var i :| 0 <= i < |peers| && announced[i] == a;
        assert peers[i] in peers;
      }
      if m in Announcements(ids, self, term) {
        assert m.to in peers;
        var i :| 0 <= i < |peers| && peers[i] == m.to;
        assert announced[i] in announced;
      }
    }
  }

  predicate Enabled(w: World, a: Action) {
    match a
    case Begin(id) => id in w.procs && w.procs[id].campaign == None
    case Deliver(m) => m in w.sent && m.to in w.procs
    case Finish(id) => id in w.procs && w.procs[id].campaign.Some?
  }

  /** The node an action happens at. */
  function At(a: Action): string {
    if a.Deliver? then a.m.to else a.id
  }

  function After(ids: seq<string>, p: Process, a: Action): Process {
    match a
    case Begin(id) => Begun(p, id)
    case Deliver(m) => Received(p, m)
    case Finish(id) => Finished(ids, id, p)
  }

  function Sends(ids: seq<string>, p: Process, a: Action): set<Message> {
    match a
    case Begin(id) => Requests(ids, id, Begun(p, id).node.ballot.term)
    case Deliver(m) => Answer(p, m)
    case Finish(id) =>
      if Wins(ids, id, p) && p.node.role == Replica
      then Announcements(ids, id, p.campaign.value.term) else {}
  }

  /** A step that cannot happen leaves everything as it is. */
  function Act(ids: seq<string>, w: World, a: Action): (w': World)
    ensures w'.procs.Keys == w.procs.Keys
  {
    if !Enabled(w, a) then w
    else
      var p := w.procs[At(a)];
      World(w.procs[At(a) := After(ids, p, a)], w.sent + Sends(ids, p, a))
  }

  function Run(ids: seq<string>, w: World, actions: seq<Action>): (w': World)
    ensures w'.procs.Keys == w.procs.Keys
  {
    if actions == [] then w
    else Act(ids, Run(ids, w, actions[..|actions| - 1]), actions[|actions| - 1])
  }

  /** Distinct ids, nobody has voted, and roles and primaries as the operator set them. */
  ghost predicate Initial(ids: seq<string>, w: World) {
    && Distinct(ids)
    && w.procs.Keys == SetOf(ids)
    && (forall id :: id in w.procs ==> w.procs[id].node.ballot == FRESH && w.procs[id].campaign == None)
    && w.sent == {}
  }

  // ---- what happened in a run ----

  /** `id`'s vote of `term` is held by `candidate`. */
  datatype Lock = Lock(voter: string, term: nat, candidate: string)
  datatype Win = Win(node: string, term: nat)

  predicate Holds(w: World, l: Lock) {
    l.voter in w.procs && w.procs[l.voter].node.ballot == Ballot(l.term, Some(l.candidate))
  }

  function LocksOf(w: World): set<Lock> {
    set id | id in w.procs && w.procs[id].node.ballot.votedFor.Some?
      :: Lock(id, w.procs[id].node.ballot.term, w.procs[id].node.ballot.votedFor.value)
  }

  /** The step decides an election for a node: it has a majority of its campaign's term. */
  predicate WinsAt(ids: seq<string>, w: World, a: Action, win: Win) {
    a == Finish(win.node) && Enabled(w, a)
    && Wins(ids, win.node, w.procs[win.node]) && w.procs[win.node].campaign.value.term == win.term
  }

  function WinsOf(ids: seq<string>, w: World, a: Action): set<Win> {
    if a.Finish? && Enabled(w, a) && Wins(ids, a.id, w.procs[a.id])
    then {Win(a.id, w.procs[a.id].campaign.value.term)} else {}
  }

  /** Every vote that was ever held, and every win. */
  datatype Past = Past(locks: set<Lock>, wins: set<Win>)

  function Noted(ids: seq<string>, w: World, past: Past, a: Action): Past {
    Past(past.locks + LocksOf(Act(ids, w, a)), past.wins + WinsOf(ids, w, a))
  }

  function History(ids: seq<string>, w: World, actions: seq<Action>): Past {
    if actions == [] then Past(LocksOf(w), {})
    else
      var before := actions[..|actions| - 1];
      Noted(ids, Run(ids, w, before), History(ids, w, before), actions[|actions| - 1])
  }

  // ---- votes ----

  ghost predicate LocksOk(w: World, locks: set<Lock>) {
    && LocksOf(w) <= locks
    && (forall l :: l in locks ==>
          && l.voter in w.procs && Keeps(Ballot(l.term, Some(l.candidate)), w.procs[l.voter].node.ballot))
    && (forall l, k :: l in locks && k in locks && l.voter == k.voter && l.term == k.term ==>
          l.candidate == k.candidate)
  }

  ghost predicate AllKeep(w: World, w': World) {
    w'.procs.Keys == w.procs.Keys
    && forall id :: id in w.procs ==> Keeps(w.procs[id].node.ballot, w'.procs[id].node.ballot)
  }

  lemma AfterKeeps(ids: seq<string>, p: Process, a: Action)
    ensures Keeps(p.node.ballot, After(ids, p, a).node.ballot)
  {
    if a.Deliver? && (a.m.VoteRequest? || a.m.LeaderIs?) {
      NodeKeeps(p.node, a.m.term, if a.m.VoteRequest? then a.m.from else a.m.primaryUrl, "");
    }
  }

  lemma ActKeeps(ids: seq<string>, w: World, a: Action)
    ensures AllKeep(w, Act(ids, w, a))
  {
    if Enabled(w, a) {
      AfterKeeps(ids, w.procs[At(a)], a);
    }
  }

  lemma LocksStep(w: World, w': World, locks: set<Lock>)
    requires LocksOk(w, locks) && AllKeep(w, w')
    ensures LocksOk(w', locks + LocksOf(w'))
  {
    forall l | l in locks + LocksOf(w')
      ensures l.voter in w'.procs && Keeps(Ballot(l.term, Some(l.candidate)), w'.procs[l.voter].node.ballot)
    {
    }
  }

  // ---- majorities ----

  ghost predicate Majority(ids: seq<string>, voters: set<string>) {
    2 * |voters| > |ids|
  }

  function Chosen(ids: seq<string>, p: string -> bool): set<string> {
    set id | id in ids && p(id)
  }

  lemma ChosenCons(id: string, rest: seq<string>, p: string -> bool)
    ensures Chosen([id] + rest, p) == Chosen(rest, p) + if p(id) then {id} else {}
  {
  }

  lemma {:induction false} CountDistinct(ids: seq<string>, p: string -> bool)
    requires Distinct(ids)
    ensures |Filter(ids, p)| == |Chosen(ids, p)|
  {
    if ids != [] {
      SplitFirst(ids);
      ChosenCons(ids[0], ids[1..], p);
      CountDistinct(ids[1..], p);
      assert ids[0] !in Chosen(ids[1..], p);
    }
  }

  lemma IdCount(ids: seq<string>)
    requires Distinct(ids)
    ensures |SetOf(ids)| == |ids|
  {
    var any := (id: string) => true;
    CountDistinct(ids, any);
    FilterAll(ids, any);
    assert Chosen(ids, any) == SetOf(ids);
  }

  lemma {:induction false} YesCount(peers: seq<string>, granted: set<string>)
    ensures |Filter(Map(peers, InSet(granted)), IsTrue)| == |Filter(peers, InSet(granted))|
  {
    if peers != [] {
      YesCount(peers[1..], granted);
      assert Map(peers, InSet(granted))[1..] == Map(peers[1..], InSet(granted));
    }
  }

  function Supporters(ids: seq<string>, self: string, granted: set<string>): set<string> {
    set id | id in ids && (id == self || id in granted)
  }

  lemma PeerCount(ids: seq<string>, self: string)
    requires Distinct(ids) && self in ids
    ensures |Peers(ids, self)| + 1 == |ids|
  {
    CountDistinct(ids, OtherThan(self));
    IdCount(ids);
    assert SetOf(ids) == Chosen(ids, OtherThan(self)) + {self};
  }

  function Backs(self: string, granted: set<string>): string -> bool {
    (id: string) => id != self && id in granted
  }

  lemma SupporterCount(ids: seq<string>, self: string, granted: set<string>)
    requires Distinct(ids) && self in ids
    ensures |Supporters(ids, self, granted)| == 1 + |Filter(ids, Backs(self, granted))|
  {
    CountDistinct(ids, Backs(self, granted));
    assert Supporters(ids, self, granted) == Chosen(ids, Backs(self, granted)) + {self};
  }

  lemma VotesAreSupporters(ids: seq<string>, self: string, granted: set<string>)
    requires Distinct(ids) && self in ids
    ensures VotesFor(Answers(ids, self, granted)) == |Supporters(ids, self, granted)|
  {
    YesCount(Peers(ids, self), granted);
    FilterFilter(ids, OtherThan(self), InSet(granted), Backs(self, granted));
    SupporterCount(ids, self, granted);
  }

  /** A campaign is won exactly with the support of more than half of all nodes. */
  lemma WinsWithMajority(ids: seq<string>, self: string, p: Process)
    requires Distinct(ids) && self in ids && p.campaign.Some?
    ensures Wins(ids, self, p) <==> Majority(ids, Supporters(ids, self, p.campaign.value.granted))
  {
    VotesAreSupporters(ids, self, p.campaign.value.granted);
    PeerCount(ids, self);
    MajorityIsMoreThanHalf(VotesFor(Answers(ids, self, p.campaign.value.granted)), |ids|);
  }

  /** Two majorities of the same nodes share a node. */
  lemma MajoritiesMeet(ids: seq<string>, a: set<string>, b: set<string>) returns (common: string)
    requires Distinct(ids)
    requires a <= SetOf(ids) && b <= SetOf(ids) && Majority(ids, a) && Majority(ids, b)
    ensures common in a && common in b
  {
    IdCount(ids);
    SubsetSize(a + b, SetOf(ids));
    assert |a + b| == |a| + |b| - |a * b|;
    common :| common in a * b;
  }

  // ---- messages, campaigns and wins ----

  function Voters(ids: seq<string>, locks: set<Lock>, win: Win): set<string> {
    set id | id in ids && Lock(id, win.term, win.node) in locks
  }

  /** A grant in flight is a vote held, a refusal comes from a term no older than the one asked
      for, and an announcement in flight is a win. */
  ghost predicate MessageOk(past: Past, m: Message) {
    match m
    case VoteRequest(from, to, _) => from != to
    case VoteGrant(from, to, term) => Lock(from, term, to) in past.locks
    case VoteRefusal(from, to, term, current) => from != to && term <= current
    case LeaderIs(to, term, url) => Win(url, term) in past.wins && url != to
  }

  /** A campaign in flight holds the votes it counts, is newer than every win of the node, and
      once overtaken by a newer term the node's vote of that term is somebody else's. */
  ghost predicate CampaignOk(past: Past, id: string, p: Process) {
    p.campaign.Some? ==>
      var c := p.campaign.value;
      && Lock(id, c.term, id) in past.locks
      && (forall g :: g in c.granted ==> Lock(g, c.term, id) in past.locks)
      && (forall win :: win in past.wins && win.node == id ==> win.term < c.term)
      && (p.node.ballot.term > c.term ==> p.node.ballot.votedFor != Some(id))
  }

  ghost predicate NodeOk(p: Process) {
    p.node.ballot.votedFor == None ==> p.node.ballot.term == 0
  }

  ghost predicate WinOk(ids: seq<string>, w: World, past: Past, win: Win) {
    && win.node in w.procs && win.term <= w.procs[win.node].node.ballot.term
    && Majority(ids, Voters(ids, past.locks, win))
  }

  ghost predicate MessagesOk(w: World, past: Past) {
    forall m :: m in w.sent ==> MessageOk(past, m)
  }

  ghost predicate ProcsOk(w: World, past: Past) {
    forall id :: id in w.procs ==> CampaignOk(past, id, w.procs[id]) && NodeOk(w.procs[id])
  }

  ghost predicate WinsOk(ids: seq<string>, w: World, past: Past) {
    forall win :: win in past.wins ==> WinOk(ids, w, past, win)
  }

  ghost predicate Inv(ids: seq<string>, w: World, past: Past) {
    && Distinct(ids) && w.procs.Keys == SetOf(ids)
    && LocksOk(w, past.locks) && MessagesOk(w, past) && ProcsOk(w, past) && WinsOk(ids, w, past)
  }

  lemma MessagesStep(ids: seq<string>, w: World, past: Past, a: Action)
    requires Inv(ids, w, past)
    ensures MessagesOk(Act(ids, w, a), Noted(ids, w, past, a))
  {
    var w' := Act(ids, w, a);
    forall m | m in w'.sent ensures MessageOk(Noted(ids, w, past, a), m) {
      if m !in w.sent && a.Deliver? && m.VoteGrant? {
        assert Holds(w', Lock(m.from, m.term, m.to));
        assert Lock(m.from, m.term, m.to) in LocksOf(w');
      }
    }
  }

  lemma {:induction false} WinsStep(ids: seq<string>, w: World, past: Past, a: Action)
    requires Inv(ids, w, past)
    ensures WinsOk(ids, Act(ids, w, a), Noted(ids, w, past, a))
  {
    var w', past' := Act(ids, w, a), Noted(ids, w, past, a);
    ActKeeps(ids, w, a);
    forall win | win in past'.wins ensures WinOk(ids, w', past', win) {
      if win in past.wins {
        SubsetSize(Voters(ids, past.locks, win), Voters(ids, past'.locks, win));
      } else {
        var p := w.procs[a.id];
        WinsWithMajority(ids, a.id, p);
        SubsetSize(Supporters(ids, a.id, p.campaign.value.granted), Voters(ids, past'.locks, win));
      }
    }
  }

  /** Locks and wins may be added, but no win of a node with a campaign in flight. */
  ghost predicate Extends(past: Past, past': Past, id: string, p: Process) {
    && past.locks <= past'.locks
    && (p.campaign.Some? ==> forall win :: win in past'.wins && win.node == id ==> win in past.wins)
  }

  lemma {:induction false} CampaignStays(past: Past, past': Past, id: string, p: Process)
    requires CampaignOk(past, id, p) && Extends(past, past', id, p)
    ensures CampaignOk(past', id, p)
  {
  }

  lemma {:induction false} BeginOk(past: Past, id: string, p: Process)
    requires Lock(id, p.node.ballot.term + 1, id) in past.locks
    requires forall win :: win in past.wins && win.node == id ==> win.term <= p.node.ballot.term
    ensures CampaignOk(past, id, Begun(p, id)) && NodeOk(Begun(p, id))
  {
  }

  lemma {:induction false} ReceivedOk(past: Past, p: Process, m: Message)
    requires MessageOk(past, m) && CampaignOk(past, m.to, p) && NodeOk(p)
    ensures CampaignOk(past, m.to, Received(p, m)) && NodeOk(Received(p, m))
  {
  }

  lemma {:induction false} ProcStep(ids: seq<string>, w: World, past: Past, a: Action)
    requires Inv(ids, w, past) && Enabled(w, a)
    ensures var p := After(ids, w.procs[At(a)], a); CampaignOk(Noted(ids, w, past, a), At(a), p) && NodeOk(p)
  {
    var p, w', past' := w.procs[At(a)], Act(ids, w, a), Noted(ids, w, past, a);
    match a
    case Begin(id) =>
      assert Holds(w', Lock(id, p.node.ballot.term + 1, id));
      assert Lock(id, p.node.ballot.term + 1, id) in LocksOf(w');
      assert forall win :: win in past.wins && win.node == id ==> WinOk(ids, w, past, win);
      BeginOk(past', id, p);
    case Deliver(m) =>
      ReceivedOk(past, p, m);
      CampaignStays(past, past', m.to, Received(p, m));
    case Finish(id) =>
  }

  lemma {:induction false} ProcsStep(ids: seq<string>, w: World, past: Past, a: Action)
    requires Inv(ids, w, past)
    ensures ProcsOk(Act(ids, w, a), Noted(ids, w, past, a))
  {
    var w', past' := Act(ids, w, a), Noted(ids, w, past, a);
    forall id | id in w.procs ensures CampaignOk(past', id, w'.procs[id]) && NodeOk(w'.procs[id]) {
      if Enabled(w, a) && At(a) == id {
        ProcStep(ids, w, past, a);
      } else {
        CampaignStays(past, past', id, w.procs[id]);
      }
    }
  }

  lemma {:induction false} InvStep(ids: seq<string>, w: World, past: Past, a: Action)
    requires Inv(ids, w, past)
    ensures Inv(ids, Act(ids, w, a), Noted(ids, w, past, a))
  {
    ActKeeps(ids, w, a);
    LocksStep(w, Act(ids, w, a), past.locks);
    MessagesStep(ids, w, past, a);
    WinsStep(ids, w, past, a);
    ProcsStep(ids, w, past, a);
  }

  lemma {:induction false} RunInv(ids: seq<string>, w: World, actions: seq<Action>)
    requires Initial(ids, w)
    ensures Inv(ids, Run(ids, w, actions), History(ids, w, actions))
  {
    if actions != [] {
      var before := actions[..|actions| - 1];
      RunInv(ids, w, before);
      InvStep(ids, Run(ids, w, before), History(ids, w, before), actions[|actions| - 1]);
    }
  }

  // ---- one winner per term ----

  lemma WinnersAgree(ids: seq<string>, w: World, past: Past, a: Win, b: Win)
    requires Inv(ids, w, past) && a in past.wins && b in past.wins && a.term == b.term
    ensures a == b
  {
    var common := MajoritiesMeet(ids, Voters(ids, past.locks, a), Voters(ids, past.locks, b));
    assert Lock(common, a.term, a.node) in past.locks && Lock(common, b.term, b.node) in past.locks;
  }

  lemma {:induction false} PastGrows(ids: seq<string>, w: World, actions: seq<Action>, i: nat)
    requires i <= |actions|
    ensures History(ids, w, actions[..i]).locks <= History(ids, w, actions).locks
    ensures History(ids, w, actions[..i]).wins <= History(ids, w, actions).wins
  {
    if i == |actions| {
      TakeAll(actions);
    } else {
      TakeTake(actions, |actions| - 1, i);
      PastGrows(ids, w, actions[..|actions| - 1], i);
    }
  }

  lemma WinsRecorded(ids: seq<string>, w: World, actions: seq<Action>, i: nat, win: Win)
    requires i < |actions| && WinsAt(ids, Run(ids, w, actions[..i]), actions[i], win)
    ensures win in History(ids, w, actions).wins
  {
    PastGrows(ids, w, actions, i + 1);
    TakeTake(actions, i + 1, i);
    WinNoted(ids, w, actions[..i + 1], win);
  }

  lemma WinNoted(ids: seq<string>, w: World, actions: seq<Action>, win: Win)
    requires actions != []
    requires WinsAt(ids, Run(ids, w, actions[..|actions| - 1]), actions[|actions| - 1], win)
    ensures win in History(ids, w, actions).wins
  {
  }

  /** In every run, no two different nodes ever win the same term. */
  lemma {:induction false} OneWinnerPerTerm(ids: seq<string>, w: World, actions: seq<Action>, i: nat, j: nat, a: Win, b: Win)
    requires Initial(ids, w) && i < |actions| && j < |actions|
    requires WinsAt(ids, Run(ids, w, actions[..i]), actions[i], a)
    requires WinsAt(ids, Run(ids, w, actions[..j]), actions[j], b)
    requires a.term == b.term
    ensures a.node == b.node
  {
    WinsRecorded(ids, w, actions, i, a);
    WinsRecorded(ids, w, actions, j, b);
    RunInv(ids, w, actions);
    WinnersAgree(ids, Run(ids, w, actions), History(ids, w, actions), a, b);
  }
}
