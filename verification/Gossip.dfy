/**
 * Gateways telling each other which nodes exist. Each gateway keeps a set of known URLs;
 * a gateway posts its set to a peer, which merges it (normalising each URL) and answers
 * with its own set, which the sender merges as it stands.
 */
module Gossip {
  import opened Sequences

  // ---- URLs ----

  predicate IsSpace(c: char) {
    || c in "\t\n\U{0b}\U{0c}\r \U{a0}\U{1680}\U{2028}\U{2029}\U{202f}\U{205f}\U{3000}\U{feff}"
    || '\U{2000}' <= c <= '\U{200a}'
  }

  function TrimStart(s: string): (t: string)
    ensures |t| <= |s| && (|t| == |s| ==> t == s)
  {
    if s != [] && IsSpace(s[0]) then TrimStart(s[1..]) else s
  }

  function TrimEnd(s: string): (t: string)
    ensures |t| <= |s| && (|t| == |s| ==> t == s)
  {
    if s != [] && IsSpace(s[|s| - 1]) then TrimEnd(s[..|s| - 1]) else s
  }

  /** trim(), then one trailing slash off: what changes gets shorter. */
  function Normalize(url: string): (r: string)
    ensures |r| <= |url| && (|r| == |url| ==> r == url)
  {
    var t := TrimEnd(TrimStart(url));
    if t != [] && t[|t| - 1] == '/' then t[..|t| - 1] else t
  }

  predicate AllSpace(s: string) {
    forall i :: 0 <= i < |s| ==> IsSpace(s[i])
  }

  /** Neither starting nor ending in white space. */
  predicate Clean(s: string) {
    s != [] ==> !IsSpace(s[0]) && !IsSpace(s[|s| - 1])
  }

  lemma {:induction false} TrimStartSpace(a: string, u: string)
    requires AllSpace(a)
    ensures TrimStart(a + u) == TrimStart(u)
  {
    if a == [] {
      assert a + u == u;
    } else {
      assert (a + u)[1..] == a[1..] + u;
      TrimStartSpace(a[1..], u);
    }
  }

  lemma {:induction false} TrimEndSpace(u: string, z: string)
    requires AllSpace(z)
    ensures TrimEnd(u + z) == TrimEnd(u)
  {
    if z == [] {
      assert u + z == u;
    } else {
      var n := |z| - 1;
      assert (u + z)[..|u + z| - 1] == u + z[..n];
      TrimEndSpace(u, z[..n]);
    }
  }

  lemma StartsClean(u: string, z: string)
    requires u != [] && !IsSpace(u[0])
    ensures TrimStart(u + z) == u + z
  {
    assert (u + z)[0] == u[0];
  }

  lemma {:induction false} Trimmed(url: string, a: string, u: string, z: string)
    requires url == a + u + z && AllSpace(a) && Clean(u) && AllSpace(z)
    ensures TrimEnd(TrimStart(url)) == u
  {
    assert url == a + (u + z);
    TrimStartSpace(a, u + z);
    if u == [] {
      assert u + z == z + [];
      TrimStartSpace(z, []);
    } else {
      StartsClean(u, z);
      TrimEndSpace(u, z);
    }
  }

  lemma SlashGoes(url: string, u: string)
    requires TrimEnd(TrimStart(url)) == u
    ensures Normalize(url) == if u != [] && u[|u| - 1] == '/' then u[..|u| - 1] else u
  {
  }

  /** Surrounding white space goes, and then one trailing slash and no more. */
  lemma {:induction false} NormalizeMeans(a: string, u: string, z: string)
    requires AllSpace(a) && Clean(u) && AllSpace(z)
    ensures Normalize(a + u + z) == if u != [] && u[|u| - 1] == '/' then u[..|u| - 1] else u
  {
    var url := a + u + z;
    Trimmed(url, a, u, z);
    SlashGoes(url, u);
  }

  /** So spellings that differ in surrounding white space or in one trailing slash are one. */
  lemma {:induction false} SpellingsMeet(a: string, u: string, z: string, b: string, y: string)
    requires AllSpace(a) && Clean(u) && AllSpace(z) && AllSpace(b) && AllSpace(y)
    ensures Normalize(a + u + z) == Normalize(b + u + y)
    ensures (u == [] || u[|u| - 1] != '/') ==> Normalize(a + (u + "/") + z) == Normalize(b + u + y) == u
  {
    NormalizeMeans(a, u, z);
    NormalizeMeans(b, u, y);
    if u == [] || u[|u| - 1] != '/' {
      NormalizeMeans(a, u + "/", z);
    }
  }

  ghost predicate Normal(urls: set<string>) {
    forall u :: u in urls ==> Normalize(u) == u
  }

  function Normalized(urls: set<string>): set<string> {
    set u | u in urls :: Normalize(u)
  }

  lemma NormalizedNormal(urls: set<string>)
    requires Normal(urls)
    ensures Normalized(urls) == urls
  {
    forall u | u in urls ensures u in Normalized(urls) {
      assert Normalize(u) == u;
    }
  }

  // ---- messages in flight: lost, delayed, repeated, reordered ----

  datatype Message =
    | Request(from: nat, to: nat, urls: set<string>)
    | Response(to: nat, urls: set<string>)

  datatype Net = Net(known: seq<set<string>>, sent: set<Message>)

  datatype Action =
    | Post(from: nat, to: nat)
    | HandleRequest(m: Message)
    | HandleResponse(m: Message)
    | Registered(gateway: nat, url: string)

  predicate Enabled(n: Net, a: Action) {
    match a
    case Post(from, to) => from < |n.known| && to < |n.known|
    case HandleRequest(m) => m in n.sent && m.Request? && m.to < |n.known|
    case HandleResponse(m) => m in n.sent && m.Response? && m.to < |n.known|
    case Registered(gateway, _) => gateway < |n.known|
  }

  function Learn(known: seq<set<string>>, g: nat, urls: set<string>): seq<set<string>>
    requires g < |known|
  {
    known[g := known[g] + urls]
  }

  /** A step that cannot happen leaves everything as it is. */
  function Act(n: Net, a: Action): Net {
    if !Enabled(n, a) then n
    else match a
      case Post(from, to) => n.(sent := n.sent + {Request(from, to, n.known[from])})
      case HandleRequest(m) =>
        var known := Learn(n.known, m.to, Normalized(m.urls));
        Net(known, n.sent + {Response(m.from, known[m.to])})
      case HandleResponse(m) => n.(known := Learn(n.known, m.to, m.urls))
      case Registered(gateway, url) => n.(known := Learn(n.known, gateway, {Normalize(url)}))
  }

  function Acts(n: Net, actions: seq<Action>): Net
    decreases |actions|
  {
    if actions == [] then n else Acts(Act(n, actions[0]), actions[1..])
  }

  /** The URLs registered during a run. */
  function Registrations(actions: seq<Action>): set<string> {
    if actions == [] then {}
    else (if actions[0].Registered? then {Normalize(actions[0].url)} else {}) + Registrations(actions[1..])
  }

  ghost predicate Within(n: Net, urls: set<string>) {
    && (forall g :: 0 <= g < |n.known| ==> n.known[g] <= urls)
    && (forall m :: m in n.sent ==> m.urls <= urls)
  }

  ghost predicate Grows(before: seq<set<string>>, after: seq<set<string>>) {
    |before| == |after| && forall g :: 0 <= g < |before| ==> before[g] <= after[g]
  }

  lemma NormalizedWithin(a: set<string>, b: set<string>)
    requires a <= b
    ensures Normalized(a) <= Normalized(b)
  {
  }

  lemma ActWithin(n: Net, a: Action, urls: set<string>)
    requires Within(n, urls) && Normalized(urls) <= urls && (a.Registered? ==> Normalize(a.url) in urls)
    ensures Within(Act(n, a), urls) && Grows(n.known, Act(n, a).known)
  {
    if Enabled(n, a) && a.HandleRequest? {
      NormalizedWithin(a.m.urls, urls);
    }
  }

  /** Known sets only grow, and hold only what was seeded or registered somewhere, or the
      normalised spelling of that. */
  lemma {:induction false} KnownIsSeededOrRegistered(n: Net, actions: seq<Action>, urls: set<string>)
    requires Within(n, urls) && Registrations(actions) <= urls && Normalized(urls) <= urls
    ensures Within(Acts(n, actions), urls)
    ensures Grows(n.known, Acts(n, actions).known)
    decreases |actions|
  {
    if actions != [] {
      var a, rest := actions[0], actions[1..];
      assert a.Registered? ==> Normalize(a.url) in Registrations(actions);
      ActWithin(n, a, urls);
      KnownIsSeededOrRegistered(Act(n, a), rest, urls);
      GrowsTrans(n.known, Act(n, a).known, Acts(Act(n, a), rest).known);
    }
  }

  lemma GrowsTrans(a: seq<set<string>>, b: seq<set<string>>, c: seq<set<string>>)
    requires Grows(a, b) && Grows(b, c)
    ensures Grows(a, c)
  {
  }

  // ---- how much is left to learn ----

  function Deficit(known: seq<set<string>>, all: set<string>): nat {
    if known == [] then 0 else |all - known[0]| + Deficit(known[1..], all)
  }

  lemma {:induction false} DeficitDrops(before: seq<set<string>>, after: seq<set<string>>, all: set<string>)
    requires Grows(before, after) && forall g :: 0 <= g < |after| ==> after[g] <= all
    ensures Deficit(after, all) <= Deficit(before, all)
    ensures before != after ==> Deficit(after, all) < Deficit(before, all)
  {
    if before != [] {
      SubsetSize(all - after[0], all - before[0]);
      DeficitDrops(before[1..], after[1..], all);
      if before[0] == after[0] {
        assert before == [before[0]] + before[1..] && after == [after[0]] + after[1..];
      } else {
        var u :| u in after[0] && u !in before[0];
        assert u in all - before[0] && u !in all - after[0];
      }
    }
  }

  /** Every step that teaches some gateway something strictly lowers the deficit. */
  lemma {:induction false} LearningLowersDeficit(n: Net, a: Action, urls: set<string>)
    requires Within(n, urls) && Normalized(urls) <= urls && (a.Registered? ==> Normalize(a.url) in urls)
    ensures Deficit(Act(n, a).known, urls) <= Deficit(n.known, urls)
    ensures Act(n, a).known != n.known ==> Deficit(Act(n, a).known, urls) < Deficit(n.known, urls)
  {
    ActWithin(n, a, urls);
    DeficitDrops(n.known, Act(n, a).known, urls);
  }

  // ---- whole exchanges and convergence ----

  datatype Link = Link(from: nat, to: nat)

  /** Request and response of one round trip. */
  function Exchange(known: seq<set<string>>, l: Link): seq<set<string>>
    requires l.from < |known| && l.to < |known|
  {
    var pushed := Learn(known, l.to, Normalized(known[l.from]));
    Learn(pushed, l.from, pushed[l.to])
  }

  /** A request delivered, answered and the answer delivered is one exchange. */
  lemma {:induction false} ExchangeIsRoundTrip(n: Net, l: Link)
    requires l.from < |n.known| && l.to < |n.known|
    ensures var asked := Act(n, Post(l.from, l.to));
            var answered := Act(asked, HandleRequest(Request(l.from, l.to, n.known[l.from])));
            Act(answered, HandleResponse(Response(l.from, answered.known[l.to]))).known == Exchange(n.known, l)
  {
  }

  /** Whenever a message of a run is handled its receiver knows what it carries, a request's
      URLs normalised, and answers with all it knows then; a registration is known normalised. */
  lemma {:induction false} MessagesTeach(n: Net, a: Action)
    requires Enabled(n, a)
    ensures match a
      case Post(from, to) => Act(n, a).known == n.known && Request(from, to, n.known[from]) in Act(n, a).sent
      case HandleRequest(m) =>
        && (forall u :: u in m.urls ==> Normalize(u) in Act(n, a).known[m.to])
        && Response(m.from, Act(n, a).known[m.to]) in Act(n, a).sent
      case HandleResponse(m) => m.urls <= Act(n, a).known[m.to]
      case Registered(gateway, url) => Normalize(url) in Act(n, a).known[gateway]
  {
  }

  predicate LinksOk(links: seq<Link>, n: nat) {
    forall l :: l in links ==> l.from < n && l.to < n
  }

  function Round(known: seq<set<string>>, links: seq<Link>): (r: seq<set<string>>)
    requires LinksOk(links, |known|)
    ensures |r| == |known|
    decreases |links|
  {
    if links == [] then known else Round(Exchange(known, links[0]), links[1..])
  }

  function Rounds(known: seq<set<string>>, links: seq<Link>, k: nat): (r: seq<set<string>>)
    requires LinksOk(links, |known|)
    ensures |r| == |known|
    decreases k
  {
    if k == 0 then known else Round(Rounds(known, links, k - 1), links)
  }

  /** A quiet link: the responder knows nothing new to the sender, and the other way round
      up to normalisation. */
  lemma QuietLink(known: seq<set<string>>, l: Link)
    requires l.from < |known| && l.to < |known| && Exchange(known, l) == known
    ensures known[l.to] <= known[l.from] && Normalized(known[l.from]) <= known[l.to]
    ensures Normal(known[l.from]) ==> known[l.from] == known[l.to]
  {
    var pushed := Learn(known, l.to, Normalized(known[l.from]));
    assert Exchange(known, l)[l.from] == pushed[l.from] + pushed[l.to];
    assert known[l.to] <= pushed[l.to] <= known[l.from];
    assert Exchange(known, l)[l.to] == known[l.to];
    assert Normalized(known[l.from]) <= pushed[l.to];
    if Normal(known[l.from]) {
      NormalizedNormal(known[l.from]);
    }
  }

  /** Everything any gateway knows. */
  function Union(known: seq<set<string>>): set<string> {
    set g, u | 0 <= g < |known| && u in known[g] :: u
  }

  /** A set that exchanges cannot lead out of. */
  ghost predicate Closed(known: seq<set<string>>, all: set<string>) {
    (forall g :: 0 <= g < |known| ==> known[g] <= all) && Normalized(all) <= all
  }

  lemma ExchangeKeeps(known: seq<set<string>>, l: Link, all: set<string>)
    requires l.from < |known| && l.to < |known| && Closed(known, all)
    ensures Grows(known, Exchange(known, l)) && Closed(Exchange(known, l), all)
  {
    assert Normalized(known[l.from]) <= Normalized(all);
  }

  lemma {:induction false} RoundKeeps(known: seq<set<string>>, links: seq<Link>, all: set<string>)
    requires LinksOk(links, |known|) && Closed(known, all)
    ensures Grows(known, Round(known, links)) && Closed(Round(known, links), all)
    ensures Round(known, links) == known ==> Quiet(known, links)
    decreases |links|
  {
    if links != [] {
      var next := Exchange(known, links[0]);
      assert links == [links[0]] + links[1..];
      ExchangeKeeps(known, links[0], all);
      RoundKeeps(next, links[1..], all);
      GrowsTrans(known, next, Round(next, links[1..]));
      if Round(known, links) == known {
        GrowsBack(known, next);
      }
    }
  }

  lemma GrowsBack(a: seq<set<string>>, b: seq<set<string>>)
    requires Grows(a, b) && Grows(b, a)
    ensures a == b
  {
    assert forall g :: 0 <= g < |a| ==> a[g] == b[g];
  }

  /** A path along links, each used in either direction. */
  ghost predicate Path(links: seq<Link>, path: seq<nat>) {
    && path != []
    && forall i :: 0 <= i < |path| - 1 ==>
         Link(path[i], path[i + 1]) in links || Link(path[i + 1], path[i]) in links
  }

  ghost predicate Joined(links: seq<Link>, a: nat, b: nat) {
    exists path :: Path(links, path) && path[0] == a && path[|path| - 1] == b
  }

  ghost predicate Connected(links: seq<Link>, n: nat) {
    forall a, b :: 0 <= a < n && 0 <= b < n ==> Joined(links, a, b)
  }

  /** A full exchange on any link would change nothing. */
  ghost predicate Quiet(known: seq<set<string>>, links: seq<Link>)
    requires LinksOk(links, |known|)
  {
    forall l :: l in links ==> Exchange(known, l) == known
  }

  /** A walk along links in the direction they are used. */
  ghost predicate Walk(links: seq<Link>, path: seq<nat>) {
    path != [] && forall i :: 0 <= i < |path| - 1 ==> Link(path[i], path[i + 1]) in links
  }

  ghost predicate Leads(links: seq<Link>, a: nat, b: nat) {
    exists path :: Walk(links, path) && path[0] == a && path[|path| - 1] == b
  }

  /** From every link there is a way back along links. */
  ghost predicate Returning(links: seq<Link>) {
    forall l :: l in links ==> Leads(links, l.to, l.from)
  }

  /** Either every URL is spelled one way, or every link lies on a cycle. */
  ghost predicate Settles(links: seq<Link>, all: set<string>) {
    Normal(all) || Returning(links)
  }

  /** Along a quiet walk known sets only shrink. */
  lemma {:induction false} QuietWalk(known: seq<set<string>>, links: seq<Link>, path: seq<nat>)
    requires LinksOk(links, |known|) && Quiet(known, links) && Walk(links, path) && path[0] < |known|
    ensures path[|path| - 1] < |known| && known[path[|path| - 1]] <= known[path[0]]
    decreases |path|
  {
    if |path| > 1 {
      var l := Link(path[0], path[1]);
      assert l in links && Exchange(known, l) == known;
      QuietLink(known, l);
      assert Walk(links, path[1..]);
      QuietWalk(known, links, path[1..]);
    }
  }

  lemma QuietLinkEqual(known: seq<set<string>>, links: seq<Link>, all: set<string>, l: Link)
    requires LinksOk(links, |known|) && Closed(known, all) && Quiet(known, links) && Settles(links, all)
    requires l in links
    ensures known[l.from] == known[l.to]
  {
    assert Exchange(known, l) == known;
    QuietLink(known, l);
    if !Normal(all) {
      assert Leads(links, l.to, l.from);
      var path :| Walk(links, path) && path[0] == l.to && path[|path| - 1] == l.from;
      QuietWalk(known, links, path);
    }
  }

  lemma {:induction false} QuietPath(known: seq<set<string>>, links: seq<Link>, all: set<string>, path: seq<nat>)
    requires LinksOk(links, |known|) && Closed(known, all) && Quiet(known, links) && Settles(links, all)
    requires Path(links, path) && path[0] < |known|
    ensures path[|path| - 1] < |known| && known[path[|path| - 1]] == known[path[0]]
    decreases |path|
  {
    if |path| > 1 {
      var l := if Link(path[0], path[1]) in links then Link(path[0], path[1]) else Link(path[1], path[0]);
      assert l in links;
      QuietLinkEqual(known, links, all, l);
      assert Path(links, path[1..]);
      QuietPath(known, links, all, path[1..]);
    }
  }

  ghost predicate Agreed(known: seq<set<string>>) {
    forall g :: 0 <= g < |known| ==> known[g] == Union(known)
  }

  /** When a full exchange on every link changes nothing, all gateways of a connected graph
      know the same set: everything anyone knows. */
  lemma {:induction false} QuietMeansEqual(known: seq<set<string>>, links: seq<Link>, all: set<string>)
    requires LinksOk(links, |known|) && Connected(links, |known|)
    requires Closed(known, all) && Quiet(known, links) && Settles(links, all)
    ensures Agreed(known)
  {
    forall g | 0 <= g < |known| ensures known[g] == Union(known) {
      forall u | u in Union(known) ensures u in known[g] {
        var a :| 0 <= a < |known| && u in known[a];
        assert Joined(links, a, g);
        var path :| Path(links, path) && path[0] == a && path[|path| - 1] == g;
        QuietPath(known, links, all, path);
      }
    }
  }

  /** One round either changes nothing or leaves less to learn. */
  lemma {:induction false} RoundProgress(known: seq<set<string>>, links: seq<Link>, all: set<string>)
    requires LinksOk(links, |known|) && Closed(known, all)
    ensures Grows(known, Round(known, links)) && Closed(Round(known, links), all)
    ensures Round(known, links) != known ==> Deficit(Round(known, links), all) < Deficit(known, all)
  {
    RoundKeeps(known, links, all);
    DeficitDrops(known, Round(known, links), all);
  }

  /** A round that no longer changes anything, or k lessons learned. */
  ghost predicate Progressed(known: seq<set<string>>, cur: seq<set<string>>, links: seq<Link>, all: set<string>, k: nat)
    requires LinksOk(links, |cur|)
  {
    Round(cur, links) == cur || Deficit(cur, all) + k <= Deficit(known, all)
  }

  lemma {:induction false} RoundsProgress(known: seq<set<string>>, links: seq<Link>, all: set<string>, k: nat)
    requires LinksOk(links, |known|) && Closed(known, all)
    ensures var cur := Rounds(known, links, k);
            Grows(known, cur) && Closed(cur, all) && Progressed(known, cur, links, all, k)
    decreases k
  {
    if k > 0 {
      var before := Rounds(known, links, k - 1);
      RoundsProgress(known, links, all, k - 1);
      RoundProgress(before, links, all);
      GrowsTrans(known, before, Round(before, links));
    }
  }

  /** However the gateways start, after as many rounds as there are URLs still to be learned
      all gateways of a connected graph know the same set, nothing having been forgotten. */
  lemma {:induction false} GossipConverges(known: seq<set<string>>, links: seq<Link>, all: set<string>, k: nat)
    requires LinksOk(links, |known|) && Connected(links, |known|)
    requires Closed(known, all) && Settles(links, all)
    requires k >= Deficit(known, all)
    ensures var r := Rounds(known, links, k);
            Grows(known, r) && Agreed(r) && Closed(r, all)
  {
    var r := Rounds(known, links, k);
    RoundsProgress(known, links, all, k);
    RoundProgress(r, links, all);
    assert Round(r, links) == r;
    RoundKeeps(r, links, all);
    QuietMeansEqual(r, links, all);
  }

  /** With URLs spelled one way, what they all end up knowing is exactly what someone knew. */
  lemma {:induction false} GossipReachesUnion(known: seq<set<string>>, links: seq<Link>, k: nat)
    requires LinksOk(links, |known|) && Connected(links, |known|) && Normal(Union(known))
    requires k >= Deficit(known, Union(known))
    ensures forall g :: 0 <= g < |known| ==> Rounds(known, links, k)[g] == Union(known)
  {
    var all, r := Union(known), Rounds(known, links, k);
    NormalizedNormal(all);
    GossipConverges(known, links, all, k);
    forall g | 0 <= g < |known| ensures r[g] == all {
      forall u | u in all ensures u in r[g] {
        var a :| 0 <= a < |known| && u in known[a];
        assert u in r[a] && r[a] == Union(r);
      }
    }
  }

  // ---- and only then ----

  /** What becomes of a URL by normalising it again and again. */
  function Spellings(u: string): set<string>
    decreases |u|
  {
    {u} + if Normalize(u) == u then {} else Spellings(Normalize(u))
  }

  lemma {:induction false} SpellingsClosed(u: string)
    ensures Normalized(Spellings(u)) <= Spellings(u) && u in Spellings(u)
    ensures forall s :: s in Spellings(u) ==> |s| <= |u|
    decreases |u|
  {
    if Normalize(u) != u {
      SpellingsClosed(Normalize(u));
    }
  }

  lemma {:induction false} SpellingsWithin(u: string, all: set<string>)
    requires u in all && Normalized(all) <= all
    ensures Spellings(u) <= all
    decreases |u|
  {
    assert Normalize(u) in Normalized(all);
    if Normalize(u) != u {
      SpellingsWithin(Normalize(u), all);
    }
  }

  lemma LeadsOn(links: seq<Link>, a: nat, l: Link)
    requires Leads(links, a, l.from) && l in links
    ensures Leads(links, a, l.to)
  {
    var path :| Walk(links, path) && path[0] == a && path[|path| - 1] == l.from;
    assert Walk(links, path + [l.to]);
  }

  lemma LeadsHere(links: seq<Link>, a: nat)
    ensures Leads(links, a, a)
  {
    assert Walk(links, [a]);
  }

  /** Gateways that `root` leads to know only the further spellings of u, the others u too. */
  ghost function Divided(links: seq<Link>, n: nat, root: nat, u: string): (known: seq<set<string>>)
    ensures |known| == n
    ensures forall g: nat :: g < n ==>
              known[g] == Spellings(Normalize(u)) + if Leads(links, root, g) then {} else {u}
  {
    seq(n, g requires 0 <= g < n => Spellings(Normalize(u)) + if Leads(links, root, g) then {} else {u})
  }

  lemma LearnNothing(known: seq<set<string>>, g: nat, urls: set<string>)
    requires g < |known| && urls <= known[g]
    ensures Learn(known, g, urls) == known
  {
    assert known[g] + urls == known[g];
  }

  lemma {:induction false} DividedQuiet(links: seq<Link>, n: nat, root: nat, u: string, l: Link)
    requires LinksOk(links, n) && l in links
    ensures var known := Divided(links, n, root, u); Exchange(known, l) == known
  {
    var known, rest := Divided(links, n, root, u), Spellings(Normalize(u));
    SpellingsClosed(Normalize(u));
    forall s | s in Normalized(known[l.from]) ensures s in rest {
      var t :| t in known[l.from] && Normalize(t) == s;
    }
    LearnNothing(known, l.to, Normalized(known[l.from]));
    if Leads(links, root, l.from) {
      LeadsOn(links, root, l);
    }
    LearnNothing(known, l.from, known[l.to]);
  }

  lemma {:induction false} DividedClosed(links: seq<Link>, n: nat, root: nat, u: string, all: set<string>)
    requires u in all && Normalized(all) <= all
    ensures Closed(Divided(links, n, root, u), all)
  {
    assert Normalize(u) in Normalized(all);
    SpellingsWithin(Normalize(u), all);
  }

  lemma DividedDisagrees(links: seq<Link>, n: nat, l: Link, u: string)
    requires l.from < n && l.to < n && Normalize(u) != u && !Leads(links, l.to, l.from)
    ensures !Agreed(Divided(links, n, l.to, u))
  {
    var known := Divided(links, n, l.to, u);
    SpellingsClosed(Normalize(u));
    LeadsHere(links, l.to);
    assert u in known[l.from] && u !in known[l.to];
    assert u in Union(known);
  }

  /** A URL with two spellings and a link with no way back: a state that no exchange changes
      and in which the gateways disagree. */
  lemma {:induction false} DividedForever(links: seq<Link>, n: nat, all: set<string>) returns (known: seq<set<string>>)
    requires LinksOk(links, n) && Normalized(all) <= all && !Settles(links, all)
    ensures |known| == n && Closed(known, all) && Quiet(known, links) && !Agreed(known)
  {
    var u :| u in all && Normalize(u) != u;
    var l :| l in links && !Leads(links, l.to, l.from);
    known := Divided(links, n, l.to, u);
    DividedClosed(links, n, l.to, u, all);
    DividedDisagrees(links, n, l, u);
    forall k | k in links ensures Exchange(known, k) == known {
      DividedQuiet(links, n, l.to, u, k);
    }
  }

  ghost predicate QuietAgrees(links: seq<Link>, n: nat, all: set<string>)
    requires LinksOk(links, n)
  {
    forall known :: |known| == n && Closed(known, all) && Quiet(known, links) ==> Agreed(known)
  }

  /** Gateways of a connected graph that have nothing more to tell each other always agree
      exactly when URLs are spelled one way or every link lies on a cycle. */
  lemma {:induction false} QuietAgreesExactly(links: seq<Link>, n: nat, all: set<string>)
    requires LinksOk(links, n) && Connected(links, n) && Normalized(all) <= all
    ensures QuietAgrees(links, n, all) <==> Settles(links, all)
  {
    if Settles(links, all) {
      forall known | |known| == n && Closed(known, all) && Quiet(known, links) ensures Agreed(known) {
        QuietMeansEqual(known, links, all);
      }
    } else {
      var known := DividedForever(links, n, all);
    }
  }

  lemma {:induction false} QuietRound(known: seq<set<string>>, links: seq<Link>)
    requires LinksOk(links, |known|) && Quiet(known, links)
    ensures Round(known, links) == known
    decreases |links|
  {
    if links != [] {
      assert links[0] in links;
      QuietRound(known, links[1..]);
    }
  }

  lemma {:induction false} QuietRounds(known: seq<set<string>>, links: seq<Link>, k: nat)
    requires LinksOk(links, |known|) && Quiet(known, links)
    ensures Rounds(known, links, k) == known
  {
    if k > 0 {
      QuietRounds(known, links, k - 1);
      QuietRound(known, links);
    }
  }

  ghost predicate EventuallyAgrees(known: seq<set<string>>, links: seq<Link>)
    requires LinksOk(links, |known|)
  {
    exists k: nat :: Agreed(Rounds(known, links, k))
  }

  ghost predicate AlwaysConverges(links: seq<Link>, n: nat, all: set<string>)
    requires LinksOk(links, n)
  {
    forall known :: |known| == n && Closed(known, all) ==> EventuallyAgrees(known, links)
  }

  /** Gossip converges from every start under the very same condition. */
  lemma {:induction false} ConvergesExactly(links: seq<Link>, n: nat, all: set<string>)
    requires LinksOk(links, n) && Connected(links, n) && Normalized(all) <= all
    ensures AlwaysConverges(links, n, all) <==> Settles(links, all)
  {
    if Settles(links, all) {
      forall known | |known| == n && Closed(known, all) ensures EventuallyAgrees(known, links) {
        GossipConverges(known, links, all, Deficit(known, all));
      }
    } else {
      var known := DividedForever(links, n, all);
      forall k: nat ensures !Agreed(Rounds(known, links, k)) {
        QuietRounds(known, links, k);
      }
      assert !EventuallyAgrees(known, links);
    }
  }

  /** The smallest such case: a gateway that was told a URL with a slash keeps both spellings,
      its peer, which lists nobody, keeps one. */
  lemma UnnormalisedStaysApart()
    ensures Normalize("a//") == "a/" && Normalize("a/") == "a"
    ensures Exchange([{"a/"}, {}], Link(0, 1)) == [{"a/", "a"}, {"a"}]
    ensures Exchange([{"a/", "a"}, {"a"}], Link(0, 1)) == [{"a/", "a"}, {"a"}]
  {
    assert TrimStart("a/") == "a/" && TrimStart("a//") == "a//" && TrimStart("a") == "a";
    assert TrimEnd("a/") == "a/" && TrimEnd("a//") == "a//" && TrimEnd("a") == "a";
    assert "a//"[..2] == "a/" && "a/"[..1] == "a";
    assert Normalize("a") == "a";
    var one, two := {"a/"}, {"a/", "a"};
    assert Normalized(one) == {"a"} && Normalized(two) == {"a"};
    assert one + {"a"} == two && two + {"a"} == two;
    assert {} + {"a"} == {"a"} && {"a"} + {"a"} == {"a"};
  }
}
