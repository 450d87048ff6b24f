/**
 * The access predictor: for each key, how often each other key was requested right after it,
 * with a bound on the number of keys tracked and of candidates per key.
 */
module Predictor {
  import opened Prelude
  import opened Sequences
  import opened OrderedMap

  type Candidates = seq<Pair<string, nat>>
  type Transitions = seq<Pair<string, Candidates>>

  datatype Bounds = Bounds(maxTrackedKeys: nat, maxCandidatesPerKey: nat)
  datatype State = State(transitions: Transitions, lastKey: Option<string>)

  const START := State([], None)

  // ---- one request ----

  /** The first of the least-observed candidates. */
  function Rarest(cs: Candidates): (i: nat)
    requires cs != []
    ensures i < |cs|
    ensures forall j :: 0 <= j < |cs| ==> cs[i].val <= cs[j].val
    ensures forall j :: 0 <= j < i ==> cs[i].val < cs[j].val
  {
    var n := |cs| - 1;
    if n == 0 then 0
    else
      var i := Rarest(cs[..n]);
      if cs[n].val < cs[i].val then n else i
  }

  lemma RarestUnique(cs: Candidates, i: nat)
    requires i < |cs|
    requires forall j :: 0 <= j < |cs| ==> cs[i].val <= cs[j].val
    requires forall j :: 0 <= j < i ==> cs[i].val < cs[j].val
    ensures i == Rarest(cs)
  {
  }

  function CountOf(cs: Candidates, key: string): nat {
    var c := Lookup(cs, key);
    if c.Some? then c.value else 0
  }

  function Bump(cs: Candidates, key: string): Candidates {
    Put(cs, key, CountOf(cs, key) + 1)
  }

  predicate OverCap(b: Bounds, cs: Candidates) {
    |cs| > b.maxCandidatesPerKey
  }

  function RemoveAt(cs: Candidates, i: nat): Candidates
    requires i < |cs|
  {
    cs[..i] + cs[i + 1..]
  }

  function Cap(b: Bounds, cs: Candidates): Candidates {
    if OverCap(b, cs) then RemoveAt(cs, Rarest(cs)) else cs
  }

  /** The map with `from` in it: an unknown key pushes out the oldest one when there is no room. */
  function Track(b: Bounds, m: Transitions, from: string): Transitions {
    if Has(m, from) then m else Room(b, m) + [Pair(from, [])]
  }

  function CandidatesOf(m: Transitions, from: string): Candidates {
    var cs := Lookup(m, from);
    if cs.Some? then cs.value else []
  }

  /** The key this request follows, if the transition counts. */
  function Follows(s: State, key: string): Option<string> {
    if s.lastKey == Some(key) then None else s.lastKey
  }

  function Observe(b: Bounds, m: Transitions, from: string, key: string): Transitions {
    var t := Track(b, m, from);
    Put(t, from, Seen(b, CandidatesOf(t, from), key))
  }

  function Step(b: Bounds, s: State, key: string): State {
    match Follows(s, key)
    case None => s.(lastKey := Some(key))
    case Some(from) => State(Observe(b, s.transitions, from, key), Some(key))
  }

  function Run(b: Bounds, stream: seq<string>): State {
    if stream == [] then START else Step(b, Run(b, stream[..|stream| - 1]), stream[|stream| - 1])
  }

  // ---- what a stream really contains ----

  /** How often `key` came right after the different key `from`. */
  function Bigrams(stream: seq<string>, from: string, key: string): nat {
    if |stream| < 2 then 0
    else
      var n := |stream| - 1;
      Bigrams(stream[..n], from, key) + if stream[n - 1] == from && stream[n] == key && from != key then 1 else 0
  }

  /** The stream goes from `x` to another key at position i. */
  predicate LeavesAt(stream: seq<string>, i: nat, x: string) {
    0 < i < |stream| && stream[i - 1] == x && stream[i] != x
  }

  /** How often the stream goes from `x` to another key at position p or later. */
  function Leaves(stream: seq<string>, p: nat, x: string): nat {
    if stream == [] then 0
    else
      var n := |stream| - 1;
      Leaves(stream[..n], p, x) + if p <= n && LeavesAt(stream, n, x) then 1 else 0
  }

  predicate Tracked(b: Bounds, stream: seq<string>, x: string) {
    Has(Run(b, stream).transitions, x)
  }

  /** The position at which a tracked key was last put into the map. */
  function TrackedSince(b: Bounds, stream: seq<string>, x: string): (p: nat)
    ensures p <= |stream|
  {
    if stream == [] then 0
    else
      var n := |stream| - 1;
      if Tracked(b, stream[..n], x) then TrackedSince(b, stream[..n], x) else n
  }

  /** From one state to the next some count of `x` falls short, where `due` was to count one more. */
  ghost predicate FallsShort(s: State, s': State, x: string, due: Option<string>) {
    exists k :: Stored(s', x, k) < Stored(s, x, k) + if due == Some(k) then 1 else 0
  }

  /** What the request at position i should count for `x`. */
  function Due(stream: seq<string>, i: nat, x: string): Option<string> {
    if LeavesAt(stream, i, x) then Some(stream[i]) else None
  }

  /** The request at position i makes `x` lose a candidate. */
  ghost predicate LosesAt(b: Bounds, stream: seq<string>, i: nat, x: string)
    requires i < |stream|
  {
    FallsShort(Run(b, stream[..i]), Run(b, stream[..i + 1]), x, Due(stream, i, x))
  }

  /** How often `x` lost a candidate at position p or later. */
  ghost function Losses(b: Bounds, stream: seq<string>, p: nat, x: string): nat {
    if stream == [] then 0
    else
      var n := |stream| - 1;
      Losses(b, stream[..n], p, x) + if p <= n && LosesAt(b, stream, n, x) then 1 else 0
  }

  function Total(cs: Candidates): nat {
    if cs == [] then 0 else Total(cs[..|cs| - 1]) + cs[|cs| - 1].val
  }

  // ---- candidates of one key ----

  ghost predicate Counted(cs: Candidates) {
    Unique(cs) && forall i :: 0 <= i < |cs| ==> cs[i].val >= 1
  }

  lemma {:induction false} TotalAppend(a: Candidates, c: Candidates)
    ensures Total(a + c) == Total(a) + Total(c)
    decreases |c|
  {
    if c == [] {
      assert a + c == a;
    } else {
      TotalAppend(a, c[..|c| - 1]);
      assert (a + c)[..|a + c| - 1] == a + c[..|c| - 1];
    }
  }

  lemma TotalSnoc(cs: Candidates, c: Pair<string, nat>)
    ensures Total(cs + [c]) == Total(cs) + c.val
  {
    assert (cs + [c])[..|cs|] == cs;
  }

  lemma TotalSplit(a: Candidates, c: Pair<string, nat>, z: Candidates)
    ensures Total((a + [c]) + z) == Total(a) + c.val + Total(z)
  {
    TotalSnoc(a, c);
    TotalAppend(a + [c], z);
  }

  lemma SplitAround(cs: Candidates, i: nat, c: Pair<string, nat>)
    requires i < |cs|
    ensures cs[i := c] == (cs[..i] + [c]) + cs[i + 1..]
  {
  }

  lemma TotalUpdate(cs: Candidates, i: nat, c: Pair<string, nat>)
    requires i < |cs|
    ensures Total(cs[i := c]) == Total(cs[..i]) + c.val + Total(cs[i + 1..])
  {
    TotalSplit(cs[..i], c, cs[i + 1..]);
    SplitAround(cs, i, c);
  }

  lemma {:induction false} TotalAt(cs: Candidates, i: nat)
    requires i < |cs|
    ensures Total(cs) == Total(cs[..i]) + cs[i].val + Total(cs[i + 1..])
  {
    TotalUpdate(cs, i, cs[i]);
    assert cs[i := cs[i]] == cs;
  }

  lemma {:induction false} TotalRemove(cs: Candidates, i: nat)
    requires i < |cs|
    ensures Total(RemoveAt(cs, i)) + cs[i].val == Total(cs)
  {
    TotalAt(cs, i);
    TotalAppend(cs[..i], cs[i + 1..]);
  }

  lemma BumpTotal(cs: Candidates, key: string)
    ensures Total(Bump(cs, key)) == Total(cs) + 1
  {
    var i := Find(cs, key);
    if i < |cs| {
      TotalAt(cs, i);
      TotalUpdate(cs, i, Pair(key, cs[i].val + 1));
    } else {
      TotalSnoc(cs, Pair(key, 1));
    }
  }

  lemma BumpCounted(cs: Candidates, key: string)
    requires Counted(cs)
    ensures Counted(Bump(cs, key))
  {
    LookupPut(cs, key, CountOf(cs, key) + 1, key);
  }

  lemma BumpCountOf(cs: Candidates, key: string, k: string)
    requires Counted(cs)
    ensures CountOf(Bump(cs, key), k) == CountOf(cs, k) + if k == key then 1 else 0
  {
    LookupPut(cs, key, CountOf(cs, key) + 1, k);
  }

  /** A list grows only by a candidate seen once. */
  lemma BumpShape(cs: Candidates, key: string)
    ensures |cs| <= |Bump(cs, key)| <= |cs| + 1
    ensures |Bump(cs, key)| > |cs| ==> Bump(cs, key) == cs + [Pair(key, 1)]
  {
  }

  /** The cap only ever drops a candidate seen once. */
  lemma CapDropsSingles(b: Bounds, cs: Candidates, key: string)
    requires Counted(cs) && |cs| <= b.maxCandidatesPerKey && OverCap(b, Bump(cs, key))
    ensures Bump(cs, key)[Rarest(Bump(cs, key))].val == 1
  {
    BumpShape(cs, key);
    BumpCounted(cs, key);
    assert Bump(cs, key)[|cs|].val == 1;
  }

  lemma RemoveCountOf(cs: Candidates, i: nat, k: string)
    requires Counted(cs) && i < |cs|
    ensures CountOf(RemoveAt(cs, i), k) == if k == cs[i].key then 0 else CountOf(cs, k)
    ensures CountOf(cs, cs[i].key) == cs[i].val
  {
    WithoutAt(cs, i);
    LookupFilter(cs, KeyIsNot(cs[i].key), k);
    FindUnique(cs, i);
  }

  lemma RemoveCounted(cs: Candidates, i: nat)
    requires Counted(cs) && i < |cs|
    ensures Counted(RemoveAt(cs, i))
  {
  }

  /** The candidates after one more observation of `key`. */
  function Seen(b: Bounds, cs: Candidates, key: string): Candidates {
    Cap(b, Bump(cs, key))
  }

  lemma SeenCounted(b: Bounds, cs: Candidates, key: string)
    requires Counted(cs) && |cs| <= b.maxCandidatesPerKey
    ensures Counted(Seen(b, cs, key)) && |Seen(b, cs, key)| <= b.maxCandidatesPerKey
  {
    BumpShape(cs, key);
    BumpCounted(cs, key);
    if OverCap(b, Bump(cs, key)) {
      RemoveCounted(Bump(cs, key), Rarest(Bump(cs, key)));
    }
  }

  /** The total grows by one, less what the cap drops. */
  lemma {:induction false} SeenTotal(b: Bounds, cs: Candidates, key: string)
    requires Counted(cs) && |cs| <= b.maxCandidatesPerKey
    ensures Total(Seen(b, cs, key)) + (if OverCap(b, Bump(cs, key)) then 1 else 0) == Total(cs) + 1
  {
    BumpTotal(cs, key);
    if OverCap(b, Bump(cs, key)) {
      CapDropsSingles(b, cs, key);
      TotalRemove(Bump(cs, key), Rarest(Bump(cs, key)));
    }
  }

  /** `key` counts one more or, being new, is dropped; a count of two or more is never lowered. */
  lemma SeenCountOf(b: Bounds, cs: Candidates, key: string, k: string)
    requires Counted(cs) && |cs| <= b.maxCandidatesPerKey
    ensures CountOf(Seen(b, cs, key), k) <= CountOf(cs, k) + (if k == key then 1 else 0)
    ensures CountOf(cs, k) >= 2 ==>
              CountOf(Seen(b, cs, key), k) == CountOf(cs, k) + if k == key then 1 else 0
  {
    var bumped := Bump(cs, key);
    BumpCounted(cs, key);
    BumpCountOf(cs, key, k);
    if OverCap(b, bumped) {
      CapDropsSingles(b, cs, key);
      RemoveCountOf(bumped, Rarest(bumped), k);
    }
  }

  // ---- all keys ----

  ghost predicate Good(b: Bounds, s: State) {
    && Unique(s.transitions)
    && |s.transitions| <= (if b.maxTrackedKeys == 0 then 1 else b.maxTrackedKeys)
    && forall i :: 0 <= i < |s.transitions| ==>
         Counted(s.transitions[i].val) && |s.transitions[i].val| <= b.maxCandidatesPerKey
  }

  lemma CandidatesGood(b: Bounds, s: State, from: string)
    requires Good(b, s)
    ensures Counted(CandidatesOf(s.transitions, from))
    ensures |CandidatesOf(s.transitions, from)| <= b.maxCandidatesPerKey
  {
  }

  /** Room for a new key: everything, or everything but the oldest. */
  function Room(b: Bounds, m: Transitions): Transitions {
    if |m| >= b.maxTrackedKeys && m != [] then m[1..] else m
  }

  lemma RoomLookup(b: Bounds, m: Transitions, a: string)
    requires Unique(m)
    ensures Unique(Room(b, m)) && (forall p :: p in Room(b, m) ==> p in m)
    ensures Lookup(Room(b, m), a) == Lookup(m, a) || Lookup(Room(b, m), a) == None
  {
    if Lookup(Room(b, m), a).Some? {
      LookupIn(Room(b, m), a, Lookup(Room(b, m), a).value);
      LookupIn(m, a, Lookup(Room(b, m), a).value);
    }
  }

  lemma TrackLookup(b: Bounds, m: Transitions, from: string, a: string)
    requires Unique(m)
    ensures Has(Track(b, m, from), from)
    ensures CandidatesOf(Track(b, m, from), from) == CandidatesOf(m, from)
    ensures a != from && Has(Track(b, m, from), a) ==> Lookup(Track(b, m, from), a) == Lookup(m, a)
  {
    if !Has(m, from) {
      RoomLookup(b, m, from);
      RoomLookup(b, m, a);
      LookupAppend(Room(b, m), Pair(from, []), from);
      LookupAppend(Room(b, m), Pair(from, []), a);
      assert Track(b, m, from) == Room(b, m) + [Pair(from, [])];
    }
  }

  lemma TrackGood(b: Bounds, s: State, from: string)
    requires Good(b, s)
    ensures Good(b, s.(transitions := Track(b, s.transitions, from)))
  {
    var m := s.transitions;
    if !Has(m, from) {
      var room := Room(b, m);
      RoomLookup(b, m, from);
      forall i | 0 <= i < |room| ensures room[i].key != from {
        assert room[i] in m;
      }
      assert Track(b, m, from) == room + [Pair(from, [])];
    }
  }

  lemma PutGood(b: Bounds, s: State, from: string, cs: Candidates)
    requires Good(b, s) && Has(s.transitions, from)
    requires Counted(cs) && |cs| <= b.maxCandidatesPerKey
    ensures Good(b, s.(transitions := Put(s.transitions, from, cs)))
  {
  }

  lemma ObserveGood(b: Bounds, s: State, from: string, key: string)
    requires Good(b, s)
    ensures Good(b, s.(transitions := Observe(b, s.transitions, from, key)))
  {
    var t := s.(transitions := Track(b, s.transitions, from));
    TrackGood(b, s, from);
    TrackLookup(b, s.transitions, from, from);
    CandidatesGood(b, t, from);
    SeenCounted(b, CandidatesOf(t.transitions, from), key);
    PutGood(b, t, from, Seen(b, CandidatesOf(t.transitions, from), key));
  }

  /** What one counted transition does to the candidates of every key still tracked. */
  lemma {:induction false} ObserveKeeps(b: Bounds, s: State, from: string, key: string, a: string)
    requires Good(b, s)
    ensures var m := Observe(b, s.transitions, from, key);
            && Has(m, from)
            && (Has(m, a) && a != from ==> Has(s.transitions, a))
            && (Has(m, a) ==>
                  CandidatesOf(m, a) == if a == from then Seen(b, CandidatesOf(s.transitions, from), key)
                                        else CandidatesOf(s.transitions, a))
  {
    var t := Track(b, s.transitions, from);
    TrackGood(b, s, from);
    TrackLookup(b, s.transitions, from, a);
    LookupPut(t, from, Seen(b, CandidatesOf(t, from), key), a);
    LookupPut(t, from, Seen(b, CandidatesOf(t, from), key), from);
  }

  /** Both size bounds hold after any stream. */
  lemma {:induction false} RunGood(b: Bounds, stream: seq<string>)
    ensures Good(b, Run(b, stream))
    ensures Run(b, stream).lastKey == if stream == [] then None else Some(stream[|stream| - 1])
  {
    if stream != [] {
      var n := |stream| - 1;
      var s := Run(b, stream[..n]);
      RunGood(b, stream[..n]);
      if Follows(s, stream[n]).Some? {
        ObserveGood(b, s, s.lastKey.value, stream[n]);
      }
    }
  }

  function Stored(s: State, from: string, key: string): nat {
    CountOf(CandidatesOf(s.transitions, from), key)
  }

  lemma {:induction false} StoredStep(b: Bounds, s: State, key: string, a: string, k: string)
    requires Good(b, s)
    ensures Stored(Step(b, s, key), a, k) <=
            Stored(s, a, k) + if Follows(s, key) == Some(a) && k == key then 1 else 0
  {
    if Follows(s, key).Some? {
      var from := Follows(s, key).value;
      ObserveKeeps(b, s, from, key, a);
      CandidatesGood(b, s, from);
      SeenCountOf(b, CandidatesOf(s.transitions, from), key, k);
    }
  }

  /** A stored count never exceeds how often the pair really occurred. */
  lemma {:induction false} NeverOvercounts(b: Bounds, stream: seq<string>, a: string, k: string)
    ensures Stored(Run(b, stream), a, k) <= Bigrams(stream, a, k)
  {
    if stream != [] {
      var n := |stream| - 1;
      NeverOvercounts(b, stream[..n], a, k);
      RunGood(b, stream[..n]);
      StoredStep(b, Run(b, stream[..n]), stream[n], a, k);
      if n > 0 {
        assert stream[..n][n - 1] == stream[n - 1];
      }
    }
  }

  /** Some count falls exactly when the cap dropped a candidate. */
  lemma SeenLoses(b: Bounds, cs: Candidates, key: string)
    requires Counted(cs) && |cs| <= b.maxCandidatesPerKey
    ensures OverCap(b, Bump(cs, key)) <==>
            exists k :: CountOf(Seen(b, cs, key), k) < CountOf(cs, k) + if k == key then 1 else 0
  {
    var bumped := Bump(cs, key);
    BumpCounted(cs, key);
    if OverCap(b, bumped) {
      var i := Rarest(bumped);
      var k := bumped[i].key;
      RemoveCountOf(bumped, i, k);
      BumpCountOf(cs, key, k);
      assert CountOf(Seen(b, cs, key), k) < CountOf(cs, k) + if k == key then 1 else 0;
    } else {
      forall k ensures CountOf(Seen(b, cs, key), k) == CountOf(cs, k) + if k == key then 1 else 0 {
        BumpCountOf(cs, key, k);
      }
    }
  }

  /** What a request counts for `x` is told by the stream. */
  lemma FollowsMeans(b: Bounds, stream: seq<string>, key: string, x: string)
    ensures Due(stream + [key], |stream|, x) == if Follows(Run(b, stream), key) == Some(x) then Some(key) else None
  {
    RunGood(b, stream);
  }

  lemma {:induction false} LosesMeans(b: Bounds, stream: seq<string>, key: string, x: string)
    ensures LosesAt(b, stream + [key], |stream|, x) <==>
            FallsShort(Run(b, stream), Step(b, Run(b, stream), key), x, Due(stream + [key], |stream|, x))
  {
    assert (stream + [key])[..|stream|] == stream;
    assert (stream + [key])[..|stream| + 1] == stream + [key];
  }

  lemma SameFallsNotShort(s: State, s': State, x: string)
    requires CandidatesOf(s'.transitions, x) == CandidatesOf(s.transitions, x)
    ensures !FallsShort(s, s', x, None)
  {
  }

  lemma SeenFallsShort(b: Bounds, s: State, s': State, x: string, key: string)
    requires var cs := CandidatesOf(s.transitions, x);
             && Counted(cs) && |cs| <= b.maxCandidatesPerKey && CandidatesOf(s'.transitions, x) == Seen(b, cs, key)
    ensures FallsShort(s, s', x, Some(key)) <==> OverCap(b, Bump(CandidatesOf(s.transitions, x), key))
  {
    var cs := CandidatesOf(s.transitions, x);
    SeenLoses(b, cs, key);
    if k :| CountOf(Seen(b, cs, key), k) < CountOf(cs, k) + if k == key then 1 else 0 {
      assert Stored(s', x, k) < Stored(s, x, k) + if Some(key) == Some(k) then 1 else 0;
    }
    if k :| Stored(s', x, k) < Stored(s, x, k) + if Some(key) == Some(k) then 1 else 0 {
      assert CountOf(Seen(b, cs, key), k) < CountOf(cs, k) + if k == key then 1 else 0;
    }
  }

  /** What one request does to the sum of a key that is tracked afterwards. */
  lemma {:induction false} TotalStep(b: Bounds, s: State, key: string, x: string)
    requires Good(b, s) && Has(Step(b, s, key).transitions, x)
    ensures var s', due := Step(b, s, key), if Follows(s, key) == Some(x) then Some(key) else None;
            Total(CandidatesOf(s'.transitions, x)) + (if FallsShort(s, s', x, due) then 1 else 0) ==
            Total(CandidatesOf(s.transitions, x)) + if due.Some? then 1 else 0
  {
    var s' := Step(b, s, key);
    if Follows(s, key).Some? {
      ObserveKeeps(b, s, Follows(s, key).value, key, x);
    }
    if Follows(s, key) == Some(x) {
      CandidatesGood(b, s, x);
      SeenTotal(b, CandidatesOf(s.transitions, x), key);
      SeenFallsShort(b, s, s', x, key);
    } else {
      SameFallsNotShort(s, s', x);
    }
  }

  lemma NotTrackedEmpty(s: State, x: string)
    requires !Has(s.transitions, x)
    ensures Total(CandidatesOf(s.transitions, x)) == 0
  {
  }

  lemma {:induction false} LeavesNone(stream: seq<string>, p: nat, x: string)
    requires p >= |stream|
    ensures Leaves(stream, p, x) == 0
  {
    if stream != [] {
      LeavesNone(stream[..|stream| - 1], p, x);
    }
  }

  lemma {:induction false} LossesNone(b: Bounds, stream: seq<string>, p: nat, x: string)
    requires p >= |stream|
    ensures Losses(b, stream, p, x) == 0
  {
    if stream != [] {
      LossesNone(b, stream[..|stream| - 1], p, x);
    }
  }

  /** The counts of a tracked key add up to how often the stream has left it since it was last
      tracked, less one for each candidate lost. */
  lemma {:induction false} CountsAddUp(b: Bounds, stream: seq<string>, x: string)
    requires Tracked(b, stream, x)
    ensures var p := TrackedSince(b, stream, x);
            Total(CandidatesOf(Run(b, stream).transitions, x)) + Losses(b, stream, p, x) == Leaves(stream, p, x)
  {
    var n := |stream| - 1;
    var init, key := stream[..n], stream[n];
    SplitLast(stream);
    RunGood(b, init);
    FollowsMeans(b, init, key, x);
    LosesMeans(b, init, key, x);
    TotalStep(b, Run(b, init), key, x);
    if Tracked(b, init, x) {
      CountsAddUp(b, init, x);
    } else {
      NotTrackedEmpty(Run(b, init), x);
      LeavesNone(init, n, x);
      LossesNone(b, init, n, x);
    }
  }

  lemma {:induction false} TwiceSeenStep(b: Bounds, s: State, key: string, a: string, k: string)
    requires Good(b, s) && Stored(s, a, k) >= 2 && Has(Step(b, s, key).transitions, a)
    ensures Stored(Step(b, s, key), a, k) >= Stored(s, a, k)
  {
    if Follows(s, key).Some? {
      var from := Follows(s, key).value;
      ObserveKeeps(b, s, from, key, a);
      CandidatesGood(b, s, from);
      SeenCountOf(b, CandidatesOf(s.transitions, from), key, k);
    }
  }

  /** `a` is tracked after every prefix of `stream` of length `from` or more. */
  ghost predicate StaysTracked(b: Bounds, stream: seq<string>, from: nat, a: string) {
    forall n :: from <= n <= |stream| ==> Has(Run(b, stream[..n]).transitions, a)
  }

  /** A pair seen twice or more is never forgotten, nor its count lowered, as long as its
      first key stays tracked. */
  lemma {:induction false} TwiceSeenSurvives(b: Bounds, stream: seq<string>, from: nat, a: string, k: string)
    requires from <= |stream| && StaysTracked(b, stream, from, a)
    requires Stored(Run(b, stream[..from]), a, k) >= 2
    ensures Stored(Run(b, stream), a, k) >= Stored(Run(b, stream[..from]), a, k)
    decreases |stream|
  {
    assert stream[..|stream|] == stream;
    if from < |stream| {
      var before := stream[..|stream| - 1];
      assert forall n :: 0 <= n <= |before| ==> before[..n] == stream[..n];
      TwiceSeenSurvives(b, before, from, a, k);
      RunGood(b, before);
      TwiceSeenStep(b, Run(b, before), stream[|stream| - 1], a, k);
    }
  }

  // ---- exact while there is room ----

  /** The keys the stream has gone to right after `x`. */
  function Followers(stream: seq<string>, x: string): set<string> {
    set k | k in stream && Bigrams(stream, x, k) > 0
  }

  /** The keys the stream has gone on from. */
  function Sources(stream: seq<string>): set<string> {
    set x | x in stream && Followers(stream, x) != {}
  }

  ghost predicate WithinBounds(b: Bounds, stream: seq<string>) {
    |Sources(stream)| <= b.maxTrackedKeys && forall x :: |Followers(stream, x)| <= b.maxCandidatesPerKey
  }

  ghost predicate Exact(b: Bounds, stream: seq<string>) {
    && (forall x, k :: Stored(Run(b, stream), x, k) == Bigrams(stream, x, k))
    && KeySet(Run(b, stream).transitions) <= Sources(stream)
  }

  lemma BigramsSnoc(stream: seq<string>, key: string, x: string, k: string)
    ensures Bigrams(stream + [key], x, k) ==
            Bigrams(stream, x, k) + if LeavesAt(stream + [key], |stream|, x) && k == key then 1 else 0
  {
    assert (stream + [key])[..|stream|] == stream;
  }

  lemma {:induction false} BigramsIn(stream: seq<string>, x: string, k: string)
    requires Bigrams(stream, x, k) > 0
    ensures x in stream && k in stream
  {
    var n := |stream| - 1;
    if Bigrams(stream[..n], x, k) > 0 {
      BigramsIn(stream[..n], x, k);
    }
  }

  lemma {:induction false} FollowersSnoc(stream: seq<string>, key: string, x: string)
    ensures Followers(stream + [key], x) ==
            Followers(stream, x) + if LeavesAt(stream + [key], |stream|, x) then {key} else {}
  {
    forall k ensures k in Followers(stream + [key], x) <==>
                     k in Followers(stream, x) || (LeavesAt(stream + [key], |stream|, x) && k == key)
    {
      BigramsSnoc(stream, key, x, k);
      if Bigrams(stream, x, k) > 0 {
        BigramsIn(stream, x, k);
      }
    }
  }

  lemma {:induction false} SourcesSnoc(stream: seq<string>, key: string)
    ensures Sources(stream) <= Sources(stream + [key])
    ensures forall x :: LeavesAt(stream + [key], |stream|, x) ==> x in Sources(stream + [key])
  {
    forall x ensures x in Sources(stream) || LeavesAt(stream + [key], |stream|, x) ==> x in Sources(stream + [key]) {
      FollowersSnoc(stream, key, x);
      if LeavesAt(stream + [key], |stream|, x) {
        assert (stream + [key])[|stream| - 1] == x;
        assert key in Followers(stream + [key], x);
      }
    }
  }

  lemma {:induction false} WithinPrefix(b: Bounds, stream: seq<string>, key: string)
    requires WithinBounds(b, stream + [key])
    ensures WithinBounds(b, stream)
  {
    SourcesSnoc(stream, key);
    SubsetSize(Sources(stream), Sources(stream + [key]));
    forall x ensures |Followers(stream, x)| <= b.maxCandidatesPerKey {
      FollowersSnoc(stream, key, x);
      SubsetSize(Followers(stream, x), Followers(stream + [key], x));
    }
  }

  /** An observation for which there is room counts one and changes nothing else. */
  lemma {:induction false} RoomyObserve(b: Bounds, s: State, from: string, key: string, x: string, k: string)
    requires Good(b, s) && !OverCap(b, Bump(CandidatesOf(s.transitions, from), key))
    requires Has(s.transitions, from) || |s.transitions| < b.maxTrackedKeys
    ensures var s' := s.(transitions := Observe(b, s.transitions, from, key));
            Stored(s', x, k) == Stored(s, x, k) + if x == from && k == key then 1 else 0
  {
    ObserveKeeps(b, s, from, key, x);
    CandidatesGood(b, s, from);
    BumpCountOf(CandidatesOf(s.transitions, from), key, k);
    if x != from {
      RoomyKeeps(b, s, from, key, x);
    }
  }

  lemma {:induction false} RoomyKeeps(b: Bounds, s: State, from: string, key: string, x: string)
    requires Good(b, s) && x != from
    requires Has(s.transitions, from) || |s.transitions| < b.maxTrackedKeys
    ensures CandidatesOf(Observe(b, s.transitions, from, key), x) == CandidatesOf(s.transitions, x)
  {
    var m := s.transitions;
    var t := Track(b, m, from);
    TrackGood(b, s, from);
    LookupPut(t, from, Seen(b, CandidatesOf(t, from), key), x);
    if !Has(m, from) {
      LookupAppend(m, Pair(from, []), x);
    }
  }

  lemma {:induction false} ObserveKeySet(b: Bounds, s: State, from: string, key: string)
    requires Good(b, s)
    ensures KeySet(Observe(b, s.transitions, from, key)) <= KeySet(s.transitions) + {from}
  {
    var m := Observe(b, s.transitions, from, key);
    forall x | x in KeySet(m) ensures x in KeySet(s.transitions) + {from} {
      ObserveKeeps(b, s, from, key, x);
      LookupNone(m, x);
      LookupNone(s.transitions, x);
      ObserveGood(b, s, from, key);
    }
  }

  /** With the followers within the cap no candidate is dropped. */
  lemma {:induction false} CandidatesFit(b: Bounds, cs: Candidates, key: string, before: set<string>)
    requires Counted(cs) && (forall k :: CountOf(cs, k) > 0 <==> k in before)
    requires |before + {key}| <= b.maxCandidatesPerKey
    ensures !OverCap(b, Bump(cs, key))
  {
    forall k | k in KeySet(cs) ensures k in before {
      LookupNone(cs, k);
      var c :| c in cs && c.key == k;
      LookupIn(cs, k, c.val);
    }
    KeySetSize(cs);
    BumpShape(cs, key);
    if Has(cs, key) {
      SubsetSize(KeySet(cs), before + {key});
    } else {
      LookupNone(cs, key);
      SubsetSize(KeySet(cs) + {key}, before + {key});
    }
  }

  /** With the sources within the bound no source is pushed out. */
  lemma SourcesFit(b: Bounds, m: Transitions, from: string, sources: set<string>)
    requires Unique(m) && KeySet(m) + {from} <= sources && |sources| <= b.maxTrackedKeys
    ensures Has(m, from) || |m| < b.maxTrackedKeys
  {
    KeySetSize(m);
    LookupNone(m, from);
    if !Has(m, from) {
      SubsetSize(KeySet(m) + {from}, sources);
    }
  }

  lemma {:induction false} ExactStep(b: Bounds, stream: seq<string>, key: string)
    requires Exact(b, stream) && WithinBounds(b, stream + [key])
    ensures Exact(b, stream + [key])
  {
    var s, longer := Run(b, stream), stream + [key];
    assert longer[..|stream|] == stream;
    assert Run(b, longer) == Step(b, s, key);
    RunGood(b, stream);
    SourcesSnoc(stream, key);
    if Follows(s, key).Some? {
      var from := Follows(s, key).value;
      FollowsMeans(b, stream, key, from);
      FollowersSnoc(stream, key, from);
      CandidatesGood(b, s, from);
      forall k ensures CountOf(CandidatesOf(s.transitions, from), k) > 0 <==> k in Followers(stream, from) {
        assert Stored(s, from, k) == Bigrams(stream, from, k);
        if Bigrams(stream, from, k) > 0 {
          BigramsIn(stream, from, k);
        }
      }
      CandidatesFit(b, CandidatesOf(s.transitions, from), key, Followers(stream, from));
      SourcesFit(b, s.transitions, from, Sources(longer));
      ObserveKeySet(b, s, from, key);
    }
    forall x, k ensures Stored(Run(b, longer), x, k) == Bigrams(longer, x, k) {
      BigramsSnoc(stream, key, x, k);
      FollowsMeans(b, stream, key, x);
      if Follows(s, key).Some? {
        RoomyObserve(b, s, Follows(s, key).value, key, x, k);
      }
    }
  }

  /** As long as the stream stays within both bounds every count is the true one. */
  lemma {:induction false} CountsAreExact(b: Bounds, stream: seq<string>)
    requires WithinBounds(b, stream)
    ensures Exact(b, stream)
  {
    if stream != [] {
      SplitLast(stream);
      var init, key := stream[..|stream| - 1], stream[|stream| - 1];
      WithinPrefix(b, init, key);
      CountsAreExact(b, init);
      ExactStep(b, init, key);
    }
  }

  // ---- what goes when there is no room ----

  /** An observation makes the predictor forget another key only if it is a new source, the map
      is full, and the key is the source tracked longest. */
  lemma {:induction false} OnlyOldestForgotten(b: Bounds, s: State, from: string, key: string, x: string)
    requires Good(b, s) && Has(s.transitions, x) && x != from
    ensures Has(Observe(b, s.transitions, from, key), x) <==>
            !(!Has(s.transitions, from) && |s.transitions| >= b.maxTrackedKeys && s.transitions[0].key == x)
  {
    var m := s.transitions;
    var t := Track(b, m, from);
    TrackGood(b, s, from);
    LookupPut(t, from, Seen(b, CandidatesOf(t, from), key), x);
    if !Has(m, from) {
      LookupAppend(Room(b, m), Pair(from, []), x);
      RoomForgets(b, m, x);
    }
  }

  lemma RoomForgets(b: Bounds, m: Transitions, x: string)
    requires Unique(m) && Has(m, x)
    ensures Has(Room(b, m), x) <==> !(|m| >= b.maxTrackedKeys && m[0].key == x)
  {
  }

  /** What the cap drops is the first candidate seen only once, in the order they were first
      seen, and nothing but that one. */
  lemma {:induction false} CapDropsFirstSingle(b: Bounds, cs: Candidates, key: string) returns (i: nat)
    requires Counted(cs) && |cs| <= b.maxCandidatesPerKey && OverCap(b, Bump(cs, key))
    ensures var bumped := cs + [Pair(key, 1)];
            && Bump(cs, key) == bumped && i < |bumped| && bumped[i].val == 1
            && (forall j :: 0 <= j < i ==> bumped[j].val >= 2)
            && Seen(b, cs, key) == bumped[..i] + bumped[i + 1..]
  {
    BumpShape(cs, key);
    CapDropsSingles(b, cs, key);
    i := Rarest(Bump(cs, key));
  }

  // ---- prediction ----

  datatype Prediction = Prediction(key: string, count: nat, probability: real)

  /** Most observed first; equal counts keep their order. */
  function InsertByCount(cs: Candidates, c: Pair<string, nat>): Candidates {
    if cs == [] then [c]
    else
      var n := |cs| - 1;
      if cs[n].val >= c.val then cs + [c] else InsertByCount(cs[..n], c) + [cs[n]]
  }

  function ByCount(cs: Candidates): Candidates {
    if cs == [] then [] else InsertByCount(ByCount(cs[..|cs| - 1]), cs[|cs| - 1])
  }

  ghost predicate Descending(cs: Candidates) {
    forall i, j :: 0 <= i < j < |cs| ==> cs[i].val >= cs[j].val
  }

  function ToPrediction(total: nat): Pair<string, nat> -> Prediction {
    (c: Pair<string, nat>) =>
      Prediction(c.key, c.val, if total == 0 then 0.0 else c.val as real / total as real)
  }

  function PredictFrom(s: State, key: string, topN: nat): seq<Prediction> {
    var cs := CandidatesOf(s.transitions, key);
    Map(Listed(cs, topN), ToPrediction(Total(cs)))
  }

  lemma {:induction false} InsertMembers(cs: Candidates, c: Pair<string, nat>)
    ensures multiset(InsertByCount(cs, c)) == multiset(cs) + multiset{c}
    ensures Total(InsertByCount(cs, c)) == Total(cs) + c.val
  {
    if cs == [] || cs[|cs| - 1].val >= c.val {
      TotalSnoc(cs, c);
      assert cs == [] ==> cs + [c] == [c];
    } else {
      var n := |cs| - 1;
      SplitLast(cs);
      InsertMembers(cs[..n], c);
      TotalSnoc(InsertByCount(cs[..n], c), cs[n]);
    }
  }

  lemma {:induction false} InsertAtLeast(cs: Candidates, c: Pair<string, nat>, low: nat)
    requires c.val >= low && forall i :: 0 <= i < |cs| ==> cs[i].val >= low
    ensures forall i :: 0 <= i < |InsertByCount(cs, c)| ==> InsertByCount(cs, c)[i].val >= low
  {
    if cs != [] && cs[|cs| - 1].val < c.val {
      InsertAtLeast(cs[..|cs| - 1], c, low);
    }
  }

  lemma {:induction false} InsertDescending(cs: Candidates, c: Pair<string, nat>)
    requires Descending(cs)
    ensures Descending(InsertByCount(cs, c))
  {
    if cs != [] && cs[|cs| - 1].val < c.val {
      var n := |cs| - 1;
      InsertDescending(cs[..n], c);
      InsertAtLeast(cs[..n], c, cs[n].val);
    }
  }

  lemma {:induction false} ByCountRanks(cs: Candidates)
    ensures Descending(ByCount(cs)) && multiset(ByCount(cs)) == multiset(cs)
    ensures Total(ByCount(cs)) == Total(cs) && |ByCount(cs)| == |cs|
  {
    if cs != [] {
      var n := |cs| - 1;
      SplitLast(cs);
      ByCountRanks(cs[..n]);
      InsertDescending(ByCount(cs[..n]), cs[n]);
      InsertMembers(ByCount(cs[..n]), cs[n]);
      assert |multiset(ByCount(cs))| == |multiset(cs)|;
    }
  }

  function AtCount(v: nat): Pair<string, nat> -> bool {
    (c: Pair<string, nat>) => c.val == v
  }

  lemma {:induction false} InsertStable(cs: Candidates, c: Pair<string, nat>, v: nat)
    requires Descending(cs)
    ensures Filter(InsertByCount(cs, c), AtCount(v)) == Filter(cs, AtCount(v)) + if c.val == v then [c] else []
  {
    if cs == [] || cs[|cs| - 1].val >= c.val {
      FilterSnoc(cs, c, AtCount(v));
    } else {
      var n := |cs| - 1;
      SplitLast(cs);
      InsertStable(cs[..n], c, v);
      FilterSnoc(InsertByCount(cs[..n], c), cs[n], AtCount(v));
      FilterSnoc(cs[..n], cs[n], AtCount(v));
    }
  }

  /** Ties keep the order in which the candidates were first seen. */
  lemma {:induction false} ByCountStable(cs: Candidates, v: nat)
    ensures Filter(ByCount(cs), AtCount(v)) == Filter(cs, AtCount(v))
  {
    if cs != [] {
      var n := |cs| - 1;
      SplitLast(cs);
      ByCountStable(cs[..n], v);
      ByCountRanks(cs[..n]);
      InsertStable(ByCount(cs[..n]), cs[n], v);
      FilterSnoc(cs[..n], cs[n], AtCount(v));
    }
  }

  function Probabilities(ps: seq<Prediction>): real {
    if ps == [] then 0.0 else Probabilities(ps[..|ps| - 1]) + ps[|ps| - 1].probability
  }

  lemma {:induction false} ProbabilitiesSum(cs: Candidates, total: nat)
    requires total > 0
    ensures Probabilities(Map(cs, ToPrediction(total))) == Total(cs) as real / total as real
  {
    if cs != [] {
      var n := |cs| - 1;
      MapDrop(cs, ToPrediction(total), n);
      ProbabilitiesSum(cs[..n], total);
    }
  }

  /** The candidates a prediction reports. */
  function Listed(cs: Candidates, topN: nat): Candidates {
    if topN < |ByCount(cs)| then ByCount(cs)[..topN] else ByCount(cs)
  }

  lemma SameMembers(a: Candidates, c: Candidates, x: Pair<string, nat>)
    requires multiset(a) == multiset(c)
    ensures x in a <==> x in c
  {
    assert x in multiset(a) <==> x in multiset(c);
  }

  lemma ListedRanks(cs: Candidates, topN: nat)
    ensures var l := Listed(cs, topN);
            && |l| == (if topN < |cs| then topN else |cs|)
            && Descending(l) && (forall i :: 0 <= i < |l| ==> l[i] in cs)
  {
    var ranked, l := ByCount(cs), Listed(cs, topN);
    ByCountRanks(cs);
    forall i | 0 <= i < |l| ensures l[i] in cs {
      SameMembers(ranked, cs, ranked[i]);
    }
  }

  lemma HigherIsEarlier(ranked: Candidates, i: nat, c: Pair<string, nat>) returns (j: nat)
    requires Descending(ranked) && i < |ranked| && c in ranked && c.val > ranked[i].val
    ensures j < i && ranked[j] == c
  {
    j :| 0 <= j < |ranked| && ranked[j] == c;
  }

  lemma ListedFirst(cs: Candidates, topN: nat, i: nat, c: Pair<string, nat>) returns (j: nat)
    requires i < |Listed(cs, topN)| && c in cs && c.val > Listed(cs, topN)[i].val
    ensures j < i && Listed(cs, topN)[j] == c
  {
    ByCountRanks(cs);
    SameMembers(ByCount(cs), cs, c);
    j := HigherIsEarlier(ByCount(cs), i, c);
  }

  lemma {:induction false} ListedTotal(cs: Candidates, topN: nat)
    ensures Total(Listed(cs, topN)) <= Total(cs)
    ensures |cs| <= topN ==> Total(Listed(cs, topN)) == Total(cs)
  {
    var ranked, l := ByCount(cs), Listed(cs, topN);
    ByCountRanks(cs);
    SplitAt(ranked, |l|);
    TotalAppend(l, ranked[|l|..]);
  }

  lemma TotalPositive(cs: Candidates)
    requires Counted(cs) && cs != []
    ensures Total(cs) > 0
  {
    TotalRemove(cs, 0);
  }

  /** The prediction lists real candidates, most frequent first, and nothing left out was seen
      more often than anything listed. */
  lemma {:induction false} PredictRanks(s: State, key: string, topN: nat)
    ensures var cs := CandidatesOf(s.transitions, key);
            var ps := PredictFrom(s, key, topN);
            && |ps| == (if topN < |cs| then topN else |cs|)
            && (forall i, j :: 0 <= i < j < |ps| ==> ps[i].count >= ps[j].count)
            && (forall i :: 0 <= i < |ps| ==> Pair(ps[i].key, ps[i].count) in cs)
            && (forall i, c :: 0 <= i < |ps| && c in cs && c.val > ps[i].count ==>
                  exists j :: 0 <= j < i && ps[j].key == c.key)
  {
    var cs := CandidatesOf(s.transitions, key);
    var ps, l := PredictFrom(s, key, topN), Listed(cs, topN);
    ListedRanks(cs, topN);
    assert forall i :: 0 <= i < |ps| ==> ps[i].key == l[i].key && ps[i].count == l[i].val;
    forall i | 0 <= i < |ps| ensures Pair(ps[i].key, ps[i].count) in cs {
      assert l[i] == Pair(ps[i].key, ps[i].count);
    }
    forall i, c | 0 <= i < |ps| && c in cs && c.val > ps[i].count
      ensures exists j :: 0 <= j < i && ps[j].key == c.key
    {
      var j := ListedFirst(cs, topN, i, c);
      assert ps[j].key == c.key;
    }
  }

  /** Each probability is the candidate's share of the counts of all candidates, listed or not. */
  lemma {:induction false} PredictShares(b: Bounds, stream: seq<string>, key: string, topN: nat, i: nat)
    requires i < |PredictFrom(Run(b, stream), key, topN)|
    ensures var p, cs := PredictFrom(Run(b, stream), key, topN)[i], CandidatesOf(Run(b, stream).transitions, key);
            && Total(cs) > 0 && p.count == CountOf(cs, p.key)
            && p.probability == p.count as real / Total(cs) as real
  {
    var s := Run(b, stream);
    var cs := CandidatesOf(s.transitions, key);
    RunGood(b, stream);
    CandidatesGood(b, s, key);
    PredictRanks(s, key, topN);
    TotalPositive(cs);
    var p := PredictFrom(s, key, topN)[i];
    LookupIn(cs, p.key, p.count);
  }

  /** The probabilities add up to at most 1, and to 1 when every candidate is listed. */
  lemma PredictProbabilities(b: Bounds, stream: seq<string>, key: string, topN: nat)
    ensures var ps := PredictFrom(Run(b, stream), key, topN);
            && 0.0 <= Probabilities(ps) <= 1.0
            && (0 < |CandidatesOf(Run(b, stream).transitions, key)| <= topN ==> Probabilities(ps) == 1.0)
  {
    var cs := CandidatesOf(Run(b, stream).transitions, key);
    RunGood(b, stream);
    CandidatesGood(b, Run(b, stream), key);
    if cs != [] {
      TotalPositive(cs);
      ListedTotal(cs, topN);
      ProbabilitiesSum(Listed(cs, topN), Total(cs));
      DivideAtMostOne(Total(Listed(cs, topN)), Total(cs));
    }
  }

  lemma DivideAtMostOne(a: nat, b: nat)
    requires a <= b && 0 < b
    ensures 0.0 <= a as real / b as real <= 1.0
    ensures a == b ==> a as real / b as real == 1.0
  {
  }

  // ---- the predictor ----

  class AccessPredictor {
    var transitions: Transitions
    var lastKey: Option<string>
    const maxTrackedKeys: nat
    const maxCandidatesPerKey: nat

    ghost function Conf(): Bounds {
      Bounds(maxTrackedKeys, maxCandidatesPerKey)
    }

    ghost function Contents(): State
      reads this
    {
      State(transitions, lastKey)
    }

    constructor (maxTrackedKeys: nat, maxCandidatesPerKey: nat)
      ensures Contents() == START && Conf() == Bounds(maxTrackedKeys, maxCandidatesPerKey)
    {
      this.maxTrackedKeys, this.maxCandidatesPerKey := maxTrackedKeys, maxCandidatesPerKey;
      transitions, lastKey := [], None;
    }

    method Predict(key: string, topN: nat) returns (predictions: seq<Prediction>)
      ensures predictions == PredictFrom(Contents(), key, topN)
    {
      var candidates := CandidatesOf(transitions, key);
      if |candidates| == 0 {
        predictions := [];
        return;
      }
      var total := 0;
      for i := 0 to |candidates|
        invariant total == Total(candidates[..i])
      {
        TotalSnoc(candidates[..i], candidates[i]);
        assert candidates[..i + 1] == candidates[..i] + [candidates[i]];
        total := total + candidates[i].val;
      }
      TakeAll(candidates);
      var sorted := ByCount(candidates);
      var listed := if topN < |sorted| then sorted[..topN] else sorted;
      predictions := Map(listed, ToPrediction(total));
    }

    /** Drops the first candidate with the lowest count. */
    method DropRarest(candidates: Candidates) returns (kept: Candidates)
      requires candidates != []
      ensures kept == RemoveAt(candidates, Rarest(candidates))
    {
      var worst := 0;
      for i := 1 to |candidates|
        invariant worst < i
        invariant forall j :: 0 <= j < i ==> candidates[worst].val <= candidates[j].val
        invariant forall j :: 0 <= j < worst ==> candidates[worst].val < candidates[j].val
      {
        if candidates[i].val < candidates[worst].val {
          worst := i;
        }
      }
      RarestUnique(candidates, worst);
      kept := candidates[..worst] + candidates[worst + 1..];
    }

    /** Makes sure `from` is tracked, pushing out the oldest key when there is no room. */
    method EnsureTracked(from: string)
      modifies this`transitions
      ensures transitions == Track(Conf(), old(transitions), from)
    {
      if !Has(transitions, from) {
        if |transitions| >= maxTrackedKeys && transitions != [] {
          transitions := transitions[1..];
        }
        transitions := transitions + [Pair(from, [])];
      }
    }

    /** One more observation of `key` among the candidates of the key before it. */
    method Observed(candidates: Candidates, key: string) returns (updated: Candidates)
      ensures updated == Seen(Conf(), candidates, key)
    {
      updated := Put(candidates, key, CountOf(candidates, key) + 1);
      if |updated| > maxCandidatesPerKey {
        updated := DropRarest(updated);
      }
    }

    method Record(key: string)
      modifies this
      ensures Contents() == Step(Conf(), old(Contents()), key)
    {
      var from := lastKey;
      lastKey := Some(key);
      if from.None? || from.value == key {
        return;
      }
      EnsureTracked(from.value);
      var candidates := Observed(CandidatesOf(transitions, from.value), key);
      transitions := Put(transitions, from.value, candidates);
    }
  }
}
