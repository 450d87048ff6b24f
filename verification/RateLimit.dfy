/**
 * The fixed-window rate limiter. Times are whole milliseconds and never go back; clients are
 * tracked in an insertion-ordered map that drops its oldest client when full.
 */
module RateLimit {
  import opened Prelude
  import opened Sequences
  import opened OrderedMap

  datatype Limits = Limits(limit: nat, windowMs: nat, maxTrackedClients: nat)
  datatype Bucket = Bucket(count: nat, resetAt: int)
  type Buckets = seq<Pair<string, Bucket>>

  datatype Request = Request(now: int, client: string)
  datatype Verdict = Accepted | Refused(retryAfter: int)

  /** Rounds up, as for a non-negative number of milliseconds. */
  function CeilSeconds(ms: int): int {
    (ms + 999) / 1000
  }

  // ---- one request ----

  /** A client's bucket as it is when the request is counted. */
  function OpenBucket(l: Limits, b: Option<Bucket>, now: int): Bucket {
    if b.None? || now >= b.value.resetAt then Bucket(0, now + l.windowMs) else b.value
  }

  function Counted(l: Limits, b: Option<Bucket>, now: int): Bucket {
    var open := OpenBucket(l, b, now);
    open.(count := open.count + 1)
  }

  function Judge(l: Limits, counted: Bucket, now: int): Verdict {
    if counted.count > l.limit then Refused(CeilSeconds(counted.resetAt - now)) else Accepted
  }

  /** An unknown client arriving at a full map pushes out the oldest one. */
  function MakeRoom(l: Limits, m: Buckets, client: string): Buckets {
    if !Has(m, client) && |m| >= l.maxTrackedClients && m != [] then m[1..] else m
  }

  function Step(l: Limits, m: Buckets, r: Request): Buckets {
    Put(MakeRoom(l, m, r.client), r.client, Counted(l, Lookup(m, r.client), r.now))
  }

  function Answer(l: Limits, m: Buckets, r: Request): Verdict {
    Judge(l, Counted(l, Lookup(m, r.client), r.now), r.now)
  }

  // ---- histories ----

  function After(l: Limits, h: seq<Request>): Buckets {
    if h == [] then [] else Step(l, After(l, h[..|h| - 1]), h[|h| - 1])
  }

  function VerdictAt(l: Limits, h: seq<Request>, i: nat): Verdict
    requires i < |h|
  {
    Answer(l, After(l, h[..i]), h[i])
  }

  predicate FromIn(r: Request, client: string, t: int, span: nat) {
    r.client == client && t <= r.now < t + span
  }

  /** Requests of `client` accepted in [t, t + windowMs). */
  function AcceptedIn(l: Limits, h: seq<Request>, client: string, t: int): nat {
    if h == [] then 0
    else
      var n := |h| - 1;
      AcceptedIn(l, h[..n], client, t) +
      if FromIn(h[n], client, t, l.windowMs) && VerdictAt(l, h, n) == Accepted then 1 else 0
  }

  /** Requests of `client` made in [t, t + windowMs). */
  function MadeIn(l: Limits, h: seq<Request>, client: string, t: int): nat {
    if h == [] then 0
    else
      var n := |h| - 1;
      MadeIn(l, h[..n], client, t) + if FromIn(h[n], client, t, l.windowMs) then 1 else 0
  }

  function BucketOf(l: Limits, h: seq<Request>, client: string): Option<Bucket> {
    Lookup(After(l, h), client)
  }

  ghost predicate Monotone(h: seq<Request>) {
    forall i, j :: 0 <= i < j < |h| ==> h[i].now <= h[j].now
  }

  ghost predicate Among(h: seq<Request>, clients: set<string>) {
    forall i :: 0 <= i < |h| ==> h[i].client in clients
  }

  /** The map always holds at least the client it has just counted. */
  predicate Roomy(l: Limits, clients: set<string>) {
    |clients| <= Max(1, l.maxTrackedClients)
  }

  /** All clients come from a set the map has room for. */
  ghost predicate FewClients(l: Limits, h: seq<Request>, clients: set<string>) {
    Roomy(l, clients) && Among(h, clients)
  }

  // ---- one client among few ----

  /** A request counts for its client; another client's bucket is kept as it is or dropped. */
  lemma StepBuckets(l: Limits, m: Buckets, r: Request, client: string)
    requires Unique(m)
    ensures Unique(Step(l, m, r))
    ensures Lookup(Step(l, m, r), r.client) == Some(Counted(l, Lookup(m, r.client), r.now))
    ensures client != r.client ==> Lookup(Step(l, m, r), client) in {Lookup(m, client), None}
  {
    var room := MakeRoom(l, m, r.client);
    RoomUnique(l, m, r.client);
    RoomLookup(l, m, r.client, client);
    LookupPut(room, r.client, Counted(l, Lookup(m, r.client), r.now), client);
    LookupPut(room, r.client, Counted(l, Lookup(m, r.client), r.now), r.client);
  }

  lemma RoomUnique(l: Limits, m: Buckets, client: string)
    requires Unique(m)
    ensures Unique(MakeRoom(l, m, client))
  {
  }

  lemma RoomLookup(l: Limits, m: Buckets, r: string, client: string)
    requires Unique(m)
    ensures Lookup(MakeRoom(l, m, r), client) in {Lookup(m, client), None}
  {
    var room := MakeRoom(l, m, r);
    if Lookup(room, client).Some? {
      LookupIn(room, client, Lookup(room, client).value);
      LookupIn(m, client, Lookup(room, client).value);
    }
  }

  lemma {:induction false} AfterUnique(l: Limits, h: seq<Request>)
    ensures Unique(After(l, h))
  {
    if h != [] {
      var n := |h| - 1;
      AfterUnique(l, h[..n]);
      StepBuckets(l, After(l, h[..n]), h[n], h[n].client);
    }
  }

  lemma StepKeepsOthers(l: Limits, m: Buckets, r: Request, clients: set<string>, client: string)
    requires Unique(m) && KeySet(m) <= clients && r.client in clients && Roomy(l, clients)
    ensures Unique(Step(l, m, r)) && KeySet(Step(l, m, r)) <= clients
    ensures Lookup(Step(l, m, r), client) ==
            if client == r.client then Some(Counted(l, Lookup(m, client), r.now)) else Lookup(m, client)
  {
    if !Has(m, r.client) {
      LookupNone(m, r.client);
      KeySetSize(m);
      SubsetSize(KeySet(m), clients - {r.client});
    }
    assert MakeRoom(l, m, r.client) == m;
    LookupPut(m, r.client, Counted(l, Lookup(m, r.client), r.now), client);
  }

  lemma {:induction false} FewClientsTracked(l: Limits, h: seq<Request>, clients: set<string>)
    requires FewClients(l, h, clients)
    ensures Unique(After(l, h)) && KeySet(After(l, h)) <= clients
  {
    if h != [] {
      var n := |h| - 1;
      FewClientsTracked(l, h[..n], clients);
      StepKeepsOthers(l, After(l, h[..n]), h[n], clients, h[n].client);
    }
  }

  /** The bucket a client would have if it were alone: its own requests decide it. */
  function Own(l: Limits, h: seq<Request>, client: string): Option<Bucket> {
    if h == [] then None
    else
      var n := |h| - 1;
      if h[n].client == client then Some(Counted(l, Own(l, h[..n], client), h[n].now)) else Own(l, h[..n], client)
  }

  function OwnVerdict(l: Limits, h: seq<Request>, i: nat): Verdict
    requires i < |h|
  {
    Judge(l, Counted(l, Own(l, h[..i], h[i].client), h[i].now), h[i].now)
  }

  /** With few clients nobody else matters. */
  lemma {:induction false} BucketIsOwn(l: Limits, h: seq<Request>, clients: set<string>, client: string)
    requires FewClients(l, h, clients)
    ensures BucketOf(l, h, client) == Own(l, h, client)
  {
    if h != [] {
      var n := |h| - 1;
      BucketIsOwn(l, h[..n], clients, client);
      FewClientsTracked(l, h[..n], clients);
      StepKeepsOthers(l, After(l, h[..n]), h[n], clients, client);
    }
  }

  lemma VerdictIsOwn(l: Limits, h: seq<Request>, clients: set<string>, i: nat)
    requires FewClients(l, h, clients) && i < |h|
    ensures VerdictAt(l, h, i) == OwnVerdict(l, h, i)
  {
    BucketIsOwn(l, h[..i], clients, h[i].client);
  }

  function OwnAcceptedIn(l: Limits, h: seq<Request>, client: string, t: int): nat {
    if h == [] then 0
    else
      var n := |h| - 1;
      OwnAcceptedIn(l, h[..n], client, t) +
      if FromIn(h[n], client, t, l.windowMs) && OwnVerdict(l, h, n) == Accepted then 1 else 0
  }

  lemma {:induction false} AcceptedIsOwn(l: Limits, h: seq<Request>, clients: set<string>, client: string, t: int)
    requires FewClients(l, h, clients)
    ensures AcceptedIn(l, h, client, t) == OwnAcceptedIn(l, h, client, t)
  {
    if h != [] {
      var n := |h| - 1;
      AcceptedIsOwn(l, h[..n], clients, client, t);
      VerdictIsOwn(l, h, clients, n);
    }
  }

  // ---- at most twice the limit, less one, in any window's length ----

  function Min(a: nat, b: nat): nat {
    if a < b then a else b
  }

  /** What a client's bucket says about the requests accepted in [t, t + windowMs), when no
      request was made after `last`. */
  ghost predicate Bounded(l: Limits, b: Option<Bucket>, accepted: nat, t: int, last: int) {
    && (last < t ==> accepted == 0)
    && match b
       case None => accepted == 0
       case Some(Bucket(count, resetAt)) =>
         var start := resetAt - l.windowMs;
         && count >= 1 && start <= last
         && if start < t then accepted <= Min(count, l.limit) - 1
            else if start < t + l.windowMs then accepted <= l.limit - 1 + Min(count, l.limit)
            else accepted <= 2 * l.limit - 1
  }

  lemma BoundedStep(l: Limits, b: Option<Bucket>, accepted: nat, t: int, last: int, now: int)
    requires l.limit >= 1 && Bounded(l, b, accepted, t, last) && last <= now
    ensures var c := Counted(l, b, now);
            Bounded(l, Some(c), accepted +
              if t <= now < t + l.windowMs && Judge(l, c, now) == Accepted then 1 else 0, t, now)
  {
  }

  lemma BoundedLater(l: Limits, b: Option<Bucket>, accepted: nat, t: int, last: int, now: int)
    requires Bounded(l, b, accepted, t, last) && last <= now
    ensures last < t ==> Bounded(l, b, 0, t, now)
    ensures t <= last ==> Bounded(l, b, accepted, t, now)
  {
  }

  lemma {:induction false} BoundedRun(l: Limits, h: seq<Request>, client: string, t: int)
    requires l.limit >= 1 && Monotone(h) && h != []
    ensures Bounded(l, Own(l, h, client), OwnAcceptedIn(l, h, client, t), t, h[|h| - 1].now)
  {
    var n := |h| - 1;
    if n == 0 {
      BoundedStep(l, None, 0, t, h[0].now, h[0].now);
    } else {
      var last := h[..n][n - 1].now;
      BoundedRun(l, h[..n], client, t);
      if h[n].client == client {
        BoundedStep(l, Own(l, h[..n], client), OwnAcceptedIn(l, h[..n], client, t), t, last, h[n].now);
      } else {
        BoundedLater(l, Own(l, h[..n], client), OwnAcceptedIn(l, h[..n], client, t), t, last, h[n].now);
      }
    }
  }

  lemma {:induction false} NothingAccepted(l: Limits, h: seq<Request>, client: string, t: int)
    requires l.limit == 0 || l.windowMs == 0
    ensures AcceptedIn(l, h, client, t) == 0
  {
    if h != [] {
      NothingAccepted(l, h[..|h| - 1], client, t);
    }
  }

  function MostAccepted(l: Limits): nat {
    if l.limit == 0 then 0 else 2 * l.limit - 1
  }

  /** In any stretch of one window's length a client has at most 2 * limit - 1 requests
      accepted, and none when the limit is zero. */
  lemma {:induction false} AtMostTwiceLimit(l: Limits, h: seq<Request>, clients: set<string>, client: string, t: int)
    requires Among(h, clients) && Monotone(h)
    requires l.limit == 0 || l.windowMs == 0 || Roomy(l, clients)
    ensures AcceptedIn(l, h, client, t) <= MostAccepted(l)
  {
    if l.limit == 0 || l.windowMs == 0 {
      NothingAccepted(l, h, client, t);
    } else {
      AcceptedIsOwn(l, h, clients, client, t);
      if h != [] {
        BoundedRun(l, h, client, t);
      }
    }
  }

  // ---- and that many can happen ----

  /** When the k-th request comes: one opens a window, the rest of the allowance comes at its
      last millisecond, and a full allowance one millisecond later. */
  function BurstTime(l: Limits, k: nat): int {
    if k <= 1 then 0 else if k <= l.limit then l.windowMs - 1 else l.windowMs
  }

  /** The bucket after k of them. */
  function BurstBucket(l: Limits, k: nat): Option<Bucket> {
    if k == 0 then None
    else Some(if k <= l.limit then Bucket(k, l.windowMs) else Bucket(k - l.limit, 2 * l.windowMs))
  }

  lemma BurstCounted(l: Limits, k: nat)
    requires l.limit >= 1 && l.windowMs >= 2 && k < 2 * l.limit
    ensures var c := Counted(l, BurstBucket(l, k), BurstTime(l, k + 1));
            Some(c) == BurstBucket(l, k + 1) && Judge(l, c, BurstTime(l, k + 1)) == Accepted
  {
  }

  function OwnTally(l: Limits, h: seq<Request>, client: string): (Option<Bucket>, nat) {
    (Own(l, h, client), OwnAcceptedIn(l, h, client, l.windowMs - 1))
  }

  lemma OwnSnoc(l: Limits, h: seq<Request>, r: Request)
    ensures var c := Counted(l, OwnTally(l, h, r.client).0, r.now);
            OwnTally(l, h + [r], r.client) ==
            (Some(c), OwnTally(l, h, r.client).1 +
                      if FromIn(r, r.client, l.windowMs - 1, l.windowMs) && Judge(l, c, r.now) == Accepted then 1 else 0)
  {
    assert (h + [r])[..|h|] == h;
  }

  /** The first k of them: all but one fall into the window's length from the first window's
      last millisecond on. */
  lemma {:induction false} Burst(l: Limits, client: string, k: nat) returns (h: seq<Request>)
    requires l.limit >= 1 && l.windowMs >= 2 && k <= 2 * l.limit
    ensures OwnTally(l, h, client) == (BurstBucket(l, k), if k == 0 then 0 else k - 1)
    ensures Monotone(h) && forall i :: 0 <= i < |h| ==> h[i].client == client && h[i].now <= BurstTime(l, k)
  {
    h := [];
    if k > 0 {
      var j := k - 1;
      h := Burst(l, client, j);
      var r := Request(BurstTime(l, k), client);
      BurstCounted(l, j);
      OwnSnoc(l, h, r);
      h := h + [r];
    }
  }

  /** The bound is reached: 2 * limit - 1 requests accepted within one window's length. */
  lemma {:induction false} TwiceLimitIsReached(l: Limits, client: string) returns (h: seq<Request>)
    requires l.limit >= 1 && l.windowMs >= 2
    ensures Monotone(h) && Among(h, {client})
    ensures AcceptedIn(l, h, client, l.windowMs - 1) == 2 * l.limit - 1
  {
    var k := 2 * l.limit;
    h := Burst(l, client, k);
    var t := l.windowMs - 1;
    AcceptedIsOwn(l, h, {client}, client, t);
  }

  // ---- a polite client is never refused ----

  lemma {:induction false} MadeInNone(l: Limits, h: seq<Request>, client: string, t: int)
    requires forall i :: 0 <= i < |h| && h[i].client == client ==> h[i].now < t
    ensures MadeIn(l, h, client, t) == 0
  {
    if h != [] {
      MadeInNone(l, h[..|h| - 1], client, t);
    }
  }

  lemma {:induction false} MadeInPrefix(l: Limits, h: seq<Request>, k: nat, client: string, t: int)
    requires k <= |h|
    ensures MadeIn(l, h[..k], client, t) <= MadeIn(l, h, client, t)
    decreases |h|
  {
    if k < |h| {
      MadeInPrefix(l, h[..|h| - 1], k, client, t);
      assert h[..|h| - 1][..k] == h[..k];
    } else {
      assert h[..k] == h;
    }
  }

  /** A bucket counts exactly its client's requests since its window opened. */
  ghost predicate CountsWindow(l: Limits, b: Option<Bucket>, h: seq<Request>, client: string) {
    match b
    case None => forall i :: 0 <= i < |h| ==> h[i].client != client
    case Some(b) =>
      && b.count == MadeIn(l, h, client, b.resetAt - l.windowMs)
      && (forall i :: 0 <= i < |h| && h[i].client == client ==> h[i].now < b.resetAt)
      && h != [] && b.resetAt - l.windowMs <= h[|h| - 1].now
  }

  lemma CountsNext(l: Limits, b: Option<Bucket>, h: seq<Request>, r: Request)
    requires l.windowMs >= 1 && CountsWindow(l, b, h, r.client)
    requires forall i :: 0 <= i < |h| ==> h[i].now <= r.now
    ensures CountsWindow(l, Some(Counted(l, b, r.now)), h + [r], r.client)
  {
    assert (h + [r])[..|h|] == h;
    if b.None? || r.now >= b.value.resetAt {
      MadeInNone(l, h, r.client, r.now);
    }
  }

  lemma CountsOther(l: Limits, b: Option<Bucket>, h: seq<Request>, r: Request, client: string)
    requires CountsWindow(l, b, h, client) && r.client != client
    requires forall i :: 0 <= i < |h| ==> h[i].now <= r.now
    ensures CountsWindow(l, b, h + [r], client)
  {
    assert (h + [r])[..|h|] == h;
  }

  lemma {:induction false} OwnCountsWindow(l: Limits, h: seq<Request>, client: string)
    requires l.windowMs >= 1 && Monotone(h)
    ensures CountsWindow(l, Own(l, h, client), h, client)
  {
    if h != [] {
      var n := |h| - 1;
      SplitLast(h);
      OwnCountsWindow(l, h[..n], client);
      if h[n].client == client {
        CountsNext(l, Own(l, h[..n], client), h[..n], h[n]);
      } else {
        CountsOther(l, Own(l, h[..n], client), h[..n], h[n], client);
      }
    }
  }

  /** The window a request falls into opens here. */
  function WindowStart(l: Limits, h: seq<Request>, i: nat): int
    requires i < |h|
  {
    OpenBucket(l, BucketOf(l, h[..i], h[i].client), h[i].now).resetAt - l.windowMs
  }

  /** A request is refused exactly when it is more than the `limit`th of its client in its
      window. */
  lemma {:induction false} RefusedIffWindowFull(l: Limits, h: seq<Request>, clients: set<string>, i: nat)
    requires l.windowMs >= 1 && FewClients(l, h, clients) && Monotone(h) && i < |h|
    ensures WindowStart(l, h, i) <= h[i].now < WindowStart(l, h, i) + l.windowMs
    ensures VerdictAt(l, h, i) != Accepted <==>
            MadeIn(l, h[..i + 1], h[i].client, WindowStart(l, h, i)) > l.limit
  {
    var c, past := h[i].client, h[..i];
    BucketIsOwn(l, past, clients, c);
    OwnCountsWindow(l, past, c);
    CountsNext(l, Own(l, past, c), past, h[i]);
    assert h[..i + 1] == past + [h[i]];
  }

  /** Even in a full map a bucket counts no more than its client's requests since its window
      opened: being forgotten only loses some. */
  ghost predicate CountsAtMost(l: Limits, b: Option<Bucket>, h: seq<Request>, client: string) {
    b.Some? ==>
      && b.value.count <= MadeIn(l, h, client, b.value.resetAt - l.windowMs)
      && h != [] && b.value.resetAt - l.windowMs <= h[|h| - 1].now
  }

  lemma CountsAtMostNext(l: Limits, b: Option<Bucket>, h: seq<Request>, r: Request)
    requires l.windowMs >= 1 && CountsAtMost(l, b, h, r.client)
    requires forall i :: 0 <= i < |h| ==> h[i].now <= r.now
    ensures CountsAtMost(l, Some(Counted(l, b, r.now)), h + [r], r.client)
  {
    assert (h + [r])[..|h|] == h;
  }

  lemma CountsAtMostOther(l: Limits, b: Option<Bucket>, h: seq<Request>, r: Request, client: string)
    requires CountsAtMost(l, b, h, client) && forall i :: 0 <= i < |h| ==> h[i].now <= r.now
    ensures CountsAtMost(l, b, h + [r], client)
  {
    assert (h + [r])[..|h|] == h;
  }

  lemma {:induction false} BucketCountsAtMost(l: Limits, h: seq<Request>, client: string)
    requires l.windowMs >= 1 && Monotone(h)
    ensures CountsAtMost(l, BucketOf(l, h, client), h, client)
  {
    if h != [] {
      var n := |h| - 1;
      SplitLast(h);
      BucketCountsAtMost(l, h[..n], client);
      AfterUnique(l, h[..n]);
      StepBuckets(l, After(l, h[..n]), h[n], client);
      if h[n].client == client {
        CountsAtMostNext(l, BucketOf(l, h[..n], client), h[..n], h[n]);
      } else {
        CountsAtMostOther(l, BucketOf(l, h[..n], client), h[..n], h[n], client);
      }
    }
  }

  /** A client that never makes more than `limit` requests within a window's length is never
      refused, however many other clients there are. */
  lemma {:induction false} PoliteClientNeverRefused(l: Limits, h: seq<Request>, i: nat)
    requires l.windowMs >= 1 && Monotone(h) && i < |h|
    requires forall t :: MadeIn(l, h, h[i].client, t) <= l.limit
    ensures VerdictAt(l, h, i) == Accepted
  {
    var c, past := h[i].client, h[..i];
    BucketCountsAtMost(l, past, c);
    CountsAtMostNext(l, BucketOf(l, past, c), past, h[i]);
    assert h[..i + 1] == past + [h[i]];
    MadeInPrefix(l, h, i + 1, c, WindowStart(l, h, i));
  }

  // ---- Retry-After ----

  lemma AfterSnoc(l: Limits, h: seq<Request>, r: Request, client: string)
    ensures After(l, h + [r]) == Step(l, After(l, h), r)
    ensures AcceptedIn(l, h + [r], client, 0) == AcceptedIn(l, h, client, 0) +
            if FromIn(r, client, 0, l.windowMs) && Answer(l, After(l, h), r) == Accepted then 1 else 0
  {
    assert (h + [r])[..|h|] == h;
  }

  lemma {:induction false} BucketOther(l: Limits, h: seq<Request>, r: Request, client: string)
    requires r.client != client
    ensures BucketOf(l, h + [r], client) == None || BucketOf(l, h + [r], client) == BucketOf(l, h, client)
  {
    AfterSnoc(l, h, r, client);
    AfterUnique(l, h);
    StepBuckets(l, After(l, h), r, client);
  }

  /** Requests of others keep a client's bucket or drop it. */
  lemma {:induction false} BucketUntouched(l: Limits, h: seq<Request>, more: seq<Request>, client: string)
    requires forall j :: 0 <= j < |more| ==> more[j].client != client
    ensures BucketOf(l, h + more, client) == None || BucketOf(l, h + more, client) == BucketOf(l, h, client)
  {
    if more == [] {
      assert h + more == h;
    } else {
      var n := |more| - 1;
      assert h + more == (h + more[..n]) + [more[n]];
      BucketUntouched(l, h, more[..n], client);
      BucketOther(l, h + more[..n], more[n], client);
    }
  }

  lemma {:induction false} BucketCounted(l: Limits, h: seq<Request>, i: nat)
    requires i < |h|
    ensures BucketOf(l, h[..i + 1], h[i].client) == Some(Counted(l, BucketOf(l, h[..i], h[i].client), h[i].now))
  {
    TakeTake(h, i + 1, i);
    AfterUnique(l, h[..i]);
    StepBuckets(l, After(l, h[..i]), h[i], h[i].client);
  }

  /** A refused client's first request after waiting as long as it was told is accepted,
      however many other clients there are. */
  lemma {:induction false} RetryAfterIsEnough(l: Limits, h: seq<Request>, i: nat, j: nat)
    requires l.limit >= 1 && i < j < |h|
    requires h[j].client == h[i].client && VerdictAt(l, h, i).Refused?
    requires forall k :: i < k < j ==> h[k].client != h[i].client
    requires h[j].now >= h[i].now + 1000 * VerdictAt(l, h, i).retryAfter
    ensures VerdictAt(l, h, j) == Accepted
  {
    BucketCounted(l, h, i);
    assert h[..j] == h[..i + 1] + h[i + 1..j];
    BucketUntouched(l, h[..i + 1], h[i + 1..j], h[i].client);
  }

  /** Retry-After is the time to the end of the window, rounded up: never a whole second more. */
  lemma {:induction false} RetryAfterIsTight(l: Limits, h: seq<Request>, i: nat)
    requires i < |h| && VerdictAt(l, h, i).Refused?
    ensures var left := WindowStart(l, h, i) + l.windowMs - h[i].now;
            left <= 1000 * VerdictAt(l, h, i).retryAfter < left + 1000
  {
  }

  /** After `h`, of which nothing is known but the client's bucket, further requests. */
  lemma {:induction false} FullUntilReset(l: Limits, h: seq<Request>, more: seq<Request>, client: string, reset: int)
    requires Own(l, h, client).Some? && Own(l, h, client).value.resetAt == reset
    requires Own(l, h, client).value.count > l.limit
    requires forall j :: 0 <= j < |more| ==> more[j].now < reset
    ensures var b := Own(l, h + more, client);
            b.Some? && b.value.resetAt == reset && b.value.count > l.limit
  {
    if more == [] {
      assert h + more == h;
    } else {
      var n := |more| - 1;
      assert h + more == (h + more[..n]) + [more[n]];
      FullUntilReset(l, h, more[..n], client, reset);
      assert ((h + more[..n]) + [more[n]])[..|h| + n] == h + more[..n];
    }
  }

  lemma {:induction false} FullFrom(l: Limits, h: seq<Request>, clients: set<string>, i: nat)
    requires FewClients(l, h, clients) && i < |h| && VerdictAt(l, h, i).Refused?
    ensures var b := Own(l, h[..i + 1], h[i].client);
            b.Some? && b.value.resetAt == WindowStart(l, h, i) + l.windowMs && b.value.count > l.limit
  {
    BucketIsOwn(l, h[..i], clients, h[i].client);
    TakeTake(h, i + 1, i);
  }

  lemma {:induction false} FullAt(l: Limits, h: seq<Request>, clients: set<string>, j: nat, reset: int)
    requires FewClients(l, h, clients) && j < |h| && h[j].now < reset
    requires var b := Own(l, h[..j], h[j].client); b.Some? && b.value.resetAt == reset && b.value.count > l.limit
    ensures VerdictAt(l, h, j).Refused?
  {
    BucketIsOwn(l, h[..j], clients, h[j].client);
  }

  /** And no shorter wait will do: with clients the map has room for, a refused client is refused
      until its window ends. */
  lemma {:induction false} RefusedUntilWindowEnds(l: Limits, h: seq<Request>, clients: set<string>, i: nat, j: nat)
    requires FewClients(l, h, clients) && Monotone(h) && i < j < |h| && h[j].client == h[i].client
    requires VerdictAt(l, h, i).Refused? && h[j].now < WindowStart(l, h, i) + l.windowMs
    ensures VerdictAt(l, h, j).Refused?
  {
    var reset := WindowStart(l, h, i) + l.windowMs;
    var more := h[i + 1..j];
    assert h[..j] == h[..i + 1] + more;
    FullFrom(l, h, clients, i);
    FullUntilReset(l, h[..i + 1], more, h[i].client, reset);
    FullAt(l, h, clients, j, reset);
  }

  // ---- what the map remembers ----

  /** The map never holds more clients than it may, or the one just counted. */
  lemma {:induction false} MapIsBounded(l: Limits, h: seq<Request>)
    ensures |After(l, h)| <= Max(1, l.maxTrackedClients)
  {
    if h != [] {
      var n := |h| - 1;
      MapIsBounded(l, h[..n]);
      StepSize(l, After(l, h[..n]), h[n]);
    }
  }

  lemma StepSize(l: Limits, m: Buckets, r: Request)
    requires |m| <= Max(1, l.maxTrackedClients)
    ensures |Step(l, m, r)| <= Max(1, l.maxTrackedClients)
  {
    var room := MakeRoom(l, m, r.client);
    if !Has(m, r.client) {
      assert |room| < Max(1, l.maxTrackedClients);
    }
  }

  /** A request makes the map forget another client only if it comes from an unknown one, the
      map is full, and the client is the one tracked longest. */
  lemma {:induction false} OnlyOldestForgotten(l: Limits, h: seq<Request>, r: Request, client: string)
    requires BucketOf(l, h, client).Some? && client != r.client
    ensures BucketOf(l, h + [r], client) == BucketOf(l, h, client) <==>
            !(BucketOf(l, h, r.client) == None && |After(l, h)| >= l.maxTrackedClients && After(l, h)[0].key == client)
    ensures BucketOf(l, h + [r], client) != BucketOf(l, h, client) ==> BucketOf(l, h + [r], client) == None
  {
    var m := After(l, h);
    AfterSnoc(l, h, r, client);
    AfterUnique(l, h);
    ForgetOne(l, m, r, client);
  }

  lemma ForgetOne(l: Limits, m: Buckets, r: Request, client: string)
    requires Unique(m) && Lookup(m, client).Some? && client != r.client
    ensures Lookup(Step(l, m, r), client) ==
            if Lookup(m, r.client) == None && |m| >= l.maxTrackedClients && m[0].key == client then None
            else Lookup(m, client)
  {
    var room := MakeRoom(l, m, r.client);
    RoomUnique(l, m, r.client);
    LookupPut(room, r.client, Counted(l, Lookup(m, r.client), r.now), client);
    if room == m[1..] && m != [] {
      TailLookup(m, client);
    }
  }

  lemma TailLookup(m: Buckets, client: string)
    requires Unique(m) && m != []
    ensures Lookup(m[1..], client) == if m[0].key == client then None else Lookup(m, client)
  {
  }

  // ---- too many clients ----

  ghost predicate AtZero(h: seq<Request>, clients: set<string>) {
    forall i :: 0 <= i < |h| ==> h[i].now == 0 && h[i].client in clients
  }

  /** The bucket of a client that has asked k times since it was unknown, all at time 0. */
  function Asked(l: Limits, k: nat): Option<Bucket> {
    if k == 0 then None else Some(Bucket(k, l.windowMs))
  }

  lemma AskedCounted(l: Limits, k: nat)
    requires l.windowMs >= 1 && k < l.limit
    ensures Some(Counted(l, Asked(l, k), 0)) == Asked(l, k + 1)
    ensures Judge(l, Counted(l, Asked(l, k), 0), 0) == Accepted
  {
  }

  lemma {:induction false} AskSnoc(l: Limits, h: seq<Request>, a: string)
    requires l.windowMs >= 1
    ensures var c := Counted(l, BucketOf(l, h, a), 0);
            && BucketOf(l, h + [Request(0, a)], a) == Some(c)
            && AcceptedIn(l, h + [Request(0, a)], a, 0) == AcceptedIn(l, h, a, 0) +
               if Judge(l, c, 0) == Accepted then 1 else 0
  {
    AfterSnoc(l, h, Request(0, a), a);
    AfterUnique(l, h);
    StepBuckets(l, After(l, h), Request(0, a), a);
  }

  /** A client's bucket and how many of its requests from time 0 on were accepted. */
  function Tally(l: Limits, h: seq<Request>, a: string): (Option<Bucket>, nat) {
    (BucketOf(l, h, a), AcceptedIn(l, h, a, 0))
  }

  /** A client without a bucket is accepted up to its limit. */
  ghost predicate Allowed(l: Limits, h: seq<Request>, a: string, k: nat, before: nat) {
    Tally(l, h, a) == (Asked(l, k), before + k)
  }

  /** One client is all the map knows. */
  ghost predicate Alone(m: Buckets, a: string, k: nat) {
    if k == 0 then m == [] else |m| == 1 && m[0].key == a
  }

  lemma {:induction false} AllowedNext(l: Limits, h: seq<Request>, a: string, k: nat, before: nat)
    requires l.windowMs >= 1 && k < l.limit && Allowed(l, h, a, k, before)
    ensures Allowed(l, h + [Request(0, a)], a, k + 1, before)
    ensures Alone(After(l, h), a, k) ==> Alone(After(l, h + [Request(0, a)]), a, k + 1)
  {
    AskSnoc(l, h, a);
    AskedCounted(l, k);
    AfterSnoc(l, h, Request(0, a), a);
  }

  /** The history in which `a`, not known so far, asks k more times at time 0. */
  lemma {:induction false} Allowance(l: Limits, h: seq<Request>, a: string, k: nat, before: nat, clients: set<string>)
    returns (longer: seq<Request>)
    requires l.windowMs >= 1 && k <= l.limit && AtZero(h, clients) && a in clients
    requires Allowed(l, h, a, 0, before)
    ensures Allowed(l, longer, a, k, before) && AtZero(longer, clients)
    ensures After(l, h) == [] ==> Alone(After(l, longer), a, k)
    decreases k
  {
    longer := h;
    if k > 0 {
      var j := k - 1;
      longer := Allowance(l, h, a, j, before, clients);
      AllowedNext(l, longer, a, j, before);
      longer := longer + [Request(0, a)];
    }
  }

  /** Still at the front of a map of j + 1 clients, or already pushed out. */
  ghost predicate NextOut(l: Limits, m: Buckets, a: string, j: nat) {
    Lookup(m, a) == None || (j < Max(1, l.maxTrackedClients) && |m| == j + 1 && m[0].key == a)
  }

  lemma {:induction false} NewcomerStep(l: Limits, m: Buckets, r: Request, a: string, j: nat)
    requires Unique(m) && Lookup(m, r.client) == None && r.client != a && NextOut(l, m, a, j)
    ensures NextOut(l, Step(l, m, r), a, j + 1)
  {
    var room := MakeRoom(l, m, r.client);
    StepBuckets(l, m, r, a);
    RoomUnique(l, m, r.client);
    RoomLookup(l, m, r.client, r.client);
    LookupPut(room, r.client, Counted(l, None, r.now), a);
    if Lookup(m, a).Some? && room == m[1..] {
      assert forall i :: 0 <= i < |room| ==> room[i].key != a;
      assert Lookup(room, a) == None;
    }
  }

  lemma StepKeySet(l: Limits, m: Buckets, r: Request)
    requires Unique(m)
    ensures KeySet(Step(l, m, r)) <= KeySet(m) + {r.client}
  {
    forall k | k in KeySet(Step(l, m, r)) ensures k in KeySet(m) + {r.client} {
      StepBuckets(l, m, r, k);
      LookupNone(m, k);
      LookupNone(Step(l, m, r), k);
    }
  }

  /** `a` has used its allowance and these others have asked once. */
  ghost predicate Crowding(l: Limits, h: seq<Request>, a: string, others: seq<string>) {
    && KeySet(After(l, h)) <= SetOf(others) + {a}
    && NextOut(l, After(l, h), a, |others|)
    && AcceptedIn(l, h, a, 0) == l.limit
  }

  lemma AloneKeys(m: Buckets)
    requires |m| == 1
    ensures KeySet(m) == {m[0].key}
  {
    assert forall p :: p in m <==> p == m[0];
  }

  lemma {:induction false} CrowdingStart(l: Limits, h: seq<Request>, a: string)
    requires l.limit >= 1 && Allowed(l, h, a, l.limit, 0) && Alone(After(l, h), a, l.limit)
    ensures Crowding(l, h, a, [])
  {
    AloneKeys(After(l, h));
  }

  lemma {:induction false} CrowdingStep(l: Limits, h: seq<Request>, a: string, others: seq<string>, c: string)
    requires Crowding(l, h, a, others) && c != a && c !in others
    ensures Crowding(l, h + [Request(0, c)], a, others + [c])
  {
    var m, r := After(l, h), Request(0, c);
    AfterSnoc(l, h, r, a);
    AfterUnique(l, h);
    LookupNone(m, c);
    NewcomerStep(l, m, r, a, |others|);
    StepKeySet(l, m, r);
    assert SetOf(others + [c]) == SetOf(others) + {c};
  }

  /** The history in which the others then ask once each. */
  lemma {:induction false} OthersPushOut(l: Limits, h: seq<Request>, a: string, others: seq<string>, clients: set<string>)
    returns (longer: seq<Request>)
    requires Crowding(l, h, a, []) && Distinct(others) && a !in others
    requires AtZero(h, clients) && SetOf(others) <= clients
    ensures Crowding(l, longer, a, others) && AtZero(longer, clients)
    decreases |others|
  {
    longer := h;
    if others != [] {
      var n := |others| - 1;
      SplitLast(others);
      assert others[n] in SetOf(others) && SetOf(others[..n]) <= SetOf(others);
      longer := OthersPushOut(l, h, a, others[..n], clients);
      CrowdingStep(l, longer, a, others[..n], others[n]);
      longer := longer + [Request(0, others[n])];
    }
  }

  /** With more clients than the map holds, one of them uses its limit, the others push it
      out, and it uses its limit again: 2 * limit requests accepted in one instant. */
  lemma {:induction false} ForgottenClientExceedsLimit(l: Limits, clients: set<string>)
    returns (h: seq<Request>, client: string)
    requires l.limit >= 1 && l.windowMs >= 1 && !Roomy(l, clients)
    ensures Among(h, clients) && Monotone(h) && AcceptedIn(l, h, client, 0) == 2 * l.limit
  {
    client :| client in clients;
    var others := Enumerate(clients - {client});
    assert client !in SetOf(others);
    h := Allowance(l, [], client, l.limit, 0, clients);
    CrowdingStart(l, h, client);
    h := OthersPushOut(l, h, client, others, clients);
    h := Allowance(l, h, client, l.limit, l.limit, clients);
  }

  /** Every history of these clients keeps the bound. */
  ghost predicate BoundHolds(l: Limits, clients: set<string>) {
    forall h, client, t :: Among(h, clients) && Monotone(h) ==> AcceptedIn(l, h, client, t) <= MostAccepted(l)
  }

  /** The bound holds for all histories of these clients exactly when the map has room for
      them, or there is nothing to bound. */
  lemma {:induction false} BoundHoldsExactly(l: Limits, clients: set<string>)
    ensures BoundHolds(l, clients) <==> l.limit == 0 || l.windowMs == 0 || Roomy(l, clients)
  {
    if l.limit == 0 || l.windowMs == 0 || Roomy(l, clients) {
      forall h, client, t | Among(h, clients) && Monotone(h)
        ensures AcceptedIn(l, h, client, t) <= MostAccepted(l)
      {
        AtMostTwiceLimit(l, h, clients, client, t);
      }
    } else {
      var h, client := ForgottenClientExceedsLimit(l, clients);
      assert AcceptedIn(l, h, client, 0) > MostAccepted(l);
    }
  }

  // ---- the middleware ----

  class RateLimiter {
    var buckets: Buckets
    const limit: nat
    const windowMs: nat
    const maxTrackedClients: nat

    ghost function Conf(): Limits {
      Limits(limit, windowMs, maxTrackedClients)
    }

    constructor (limit: nat, windowMs: nat, maxTrackedClients: nat)
      ensures buckets == [] && Conf() == Limits(limit, windowMs, maxTrackedClients)
    {
      this.limit, this.windowMs, this.maxTrackedClients := limit, windowMs, maxTrackedClients;
      buckets := [];
    }

    /** The client's open bucket, put into the map if it is new. */
    method Open(client: string, now: int) returns (bucket: Bucket)
      requires Unique(buckets)
      modifies this
      ensures bucket == OpenBucket(Conf(), Lookup(old(buckets), client), now)
      ensures buckets == if Lookup(old(buckets), client) == Some(bucket) then old(buckets)
                         else Put(MakeRoom(Conf(), old(buckets), client), client, bucket)
    {
      var found := Lookup(buckets, client);
      if found.Some? && now < found.value.resetAt {
        return found.value;
      }
      if found.None? && |buckets| >= maxTrackedClients {
        if buckets != [] {
          buckets := buckets[1..];
        }
      }
      bucket := Bucket(0, now + windowMs);
      buckets := Put(buckets, client, bucket);
    }

    /** /health is never limited and never counted. */
    method Handle(path: string, client: string, now: int) returns (verdict: Verdict)
      requires Unique(buckets)
      modifies this
      ensures Unique(buckets)
      ensures path == "/health" ==> verdict == Accepted && buckets == old(buckets)
      ensures path != "/health" ==>
                && verdict == Answer(Conf(), old(buckets), Request(now, client))
                && buckets == Step(Conf(), old(buckets), Request(now, client))
    {
      if path == "/health" {
        return Accepted;
      }
      var bucket := Open(client, now);
      StepBuckets(Conf(), old(buckets), Request(now, client), client);
      PutTwice(MakeRoom(Conf(), old(buckets), client), client, bucket, bucket.(count := bucket.count + 1));
      bucket := bucket.(count := bucket.count + 1);
      buckets := Put(buckets, client, bucket);
      if bucket.count > limit {
        return Refused(CeilSeconds(bucket.resetAt - now));
      }
      return Accepted;
    }
  }

  lemma PutTwice(m: Buckets, k: string, v: Bucket, w: Bucket)
    ensures Put(Put(m, k, v), k, w) == Put(m, k, w)
  {
    var i := Find(m, k);
    var m' := Put(m, k, v);
    assert m'[i].key == k;
    assert forall j :: 0 <= j < i ==> m'[j].key == m[j].key;
    assert Find(m', k) == i;
  }
}
