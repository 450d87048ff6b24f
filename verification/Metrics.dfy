/**
 * The metrics collector: a queue of operation times pruned from the front with occasional
 * compaction, a ring buffer of the latest latencies with a running sum, and counters.
 */
module Metrics {
  import opened Prelude
  import opened Sequences

  const LATENCY_SAMPLE_CAP := 512
  const THROUGHPUT_WINDOW_MS := 10_000

  // ---- the timestamp queue ----

  /** The backing array and how much of its front is already discarded. */
  datatype Queue = Queue(stamps: seq<int>, head: nat)

  function Live(q: Queue): seq<int>
    requires q.head <= |q.stamps|
  {
    q.stamps[q.head..]
  }

  /** The first position from `head` on that is not older than the cutoff. */
  function Advance(stamps: seq<int>, head: nat, cutoff: int): (h: nat)
    requires head <= |stamps|
    ensures head <= h <= |stamps|
    decreases |stamps| - head
  {
    if head < |stamps| && stamps[head] < cutoff then Advance(stamps, head + 1, cutoff) else head
  }

  lemma {:induction false} AdvanceStops(stamps: seq<int>, head: nat, cutoff: int)
    requires head <= |stamps|
    ensures var h := Advance(stamps, head, cutoff);
            && (forall i :: head <= i < h ==> stamps[i] < cutoff)
            && (h < |stamps| ==> stamps[h] >= cutoff)
    decreases |stamps| - head
  {
    if head < |stamps| && stamps[head] < cutoff {
      AdvanceStops(stamps, head + 1, cutoff);
    }
  }

  predicate Compacts(stamps: seq<int>, head: nat) {
    head > 256 && head * 2 > |stamps|
  }

  function Pruned(q: Queue, now: int): (p: Queue)
    requires q.head <= |q.stamps|
    ensures q.head <= p.head <= |p.stamps| == |q.stamps| + 1
  {
    var stamps := q.stamps + [now];
    Queue(stamps, Advance(stamps, q.head, now - THROUGHPUT_WINDOW_MS))
  }

  function Push(q: Queue, now: int): (r: Queue)
    requires q.head <= |q.stamps|
    ensures r.head <= |r.stamps|
  {
    var p := Pruned(q, now);
    if Compacts(p.stamps, p.head) then Queue(Live(p), 0) else p
  }

  /** How far one push moves the head, and how many elements its compaction copies. */
  function Moves(q: Queue, now: int): nat
    requires q.head <= |q.stamps|
  {
    Pruned(q, now).head - q.head
  }

  function Copies(q: Queue, now: int): nat
    requires q.head <= |q.stamps|
  {
    var p := Pruned(q, now);
    if Compacts(p.stamps, p.head) then |Live(p)| else 0
  }

  function RunQueue(times: seq<int>): (q: Queue)
    ensures q.head <= |q.stamps|
  {
    if times == [] then Queue([], 0) else Push(RunQueue(times[..|times| - 1]), times[|times| - 1])
  }

  lemma RunQueueSnoc(times: seq<int>, now: int)
    ensures RunQueue(times + [now]) == Push(RunQueue(times), now)
  {
    assert (times + [now])[..|times|] == times;
  }

  function TotalMoves(times: seq<int>): nat {
    if times == [] then 0
    else
      var n := |times| - 1;
      TotalMoves(times[..n]) + Moves(RunQueue(times[..n]), times[n])
  }

  function TotalCopies(times: seq<int>): nat {
    if times == [] then 0
    else
      var n := |times| - 1;
      TotalCopies(times[..n]) + Copies(RunQueue(times[..n]), times[n])
  }

  /** One push: the head's moves are the elements leaving the live part, and a compaction
      copies fewer elements than it discards. */
  lemma PushAccounts(q: Queue, now: int)
    requires q.head <= |q.stamps|
    ensures Moves(q, now) + |Live(Push(q, now))| == |Live(q)| + 1
    ensures Copies(q, now) + Push(q, now).head <= q.head + Moves(q, now)
    ensures var r := Push(q, now);
            |r.stamps| <= |Live(r)| + Max(256, |Live(r)|)
  {
  }

  /** Over any n calls, whatever the clock does: the head moves as often as elements have been
      discarded, so at most n times; compactions copy at most n elements altogether; and the
      backing array is at most twice its live part, or 256 over it. */
  lemma {:induction false} AmortisedCost(times: seq<int>)
    ensures var q := RunQueue(times);
            && TotalMoves(times) + |Live(q)| == |times|
            && TotalCopies(times) + q.head <= TotalMoves(times)
            && |q.stamps| <= |Live(q)| + Max(256, |Live(q)|)
  {
    if times != [] {
      var n := |times| - 1;
      AmortisedCost(times[..n]);
      PushAccounts(RunQueue(times[..n]), times[n]);
    }
  }

  // ---- throughput ----

  ghost predicate Nondecreasing(times: seq<int>) {
    forall i, j :: 0 <= i < j < |times| ==> times[i] <= times[j]
  }

  /** How many of all the recorded times are at or after the cutoff. */
  function CountSince(times: seq<int>, cutoff: int): nat {
    if times == [] then 0
    else CountSince(times[..|times| - 1], cutoff) + if times[|times| - 1] >= cutoff then 1 else 0
  }

  lemma {:induction false} CountSinceSplit(a: seq<int>, b: seq<int>, cutoff: int)
    requires forall i :: 0 <= i < |a| ==> a[i] < cutoff
    requires forall i :: 0 <= i < |b| ==> b[i] >= cutoff
    ensures CountSince(a + b, cutoff) == |b|
    decreases |a| + |b|
  {
    if b != [] {
      var n := |b| - 1;
      CountSinceSplit(a, b[..n], cutoff);
      assert (a + b)[..|a| + n] == a + b[..n];
    } else if a != [] {
      CountSinceSplit(a[..|a| - 1], b, cutoff);
      assert (a + b)[..|a| - 1] == a[..|a| - 1] + b;
    }
  }

  /** `live` is the tail of `times` and what came before it is older than the window. */
  ghost predicate Keeps(live: seq<int>, times: seq<int>) {
    && |live| <= |times| && live == times[|times| - |live|..]
    && forall i :: 0 <= i < |times| - |live| ==> times[i] < times[|times| - 1] - THROUGHPUT_WINDOW_MS
  }

  /** A push appends to the live part and drops a prefix of it that is too old. */
  lemma PushLive(q: Queue, now: int)
    requires q.head <= |q.stamps|
    ensures var all := Live(q) + [now];
            && Moves(q, now) <= |all| && Live(Push(q, now)) == all[Moves(q, now)..]
            && forall i :: 0 <= i < Moves(q, now) ==> all[i] < now - THROUGHPUT_WINDOW_MS
  {
    var all, stamps := Live(q) + [now], q.stamps + [now];
    AdvanceStops(stamps, q.head, now - THROUGHPUT_WINDOW_MS);
    assert forall i :: 0 <= i < |all| ==> all[i] == stamps[q.head + i];
  }

  lemma KeepsNext(live: seq<int>, times: seq<int>, now: int, moves: nat)
    requires Keeps(live, times) && Nondecreasing(times + [now]) && moves <= |live| + 1
    requires forall i :: 0 <= i < moves ==> (live + [now])[i] < now - THROUGHPUT_WINDOW_MS
    ensures Keeps((live + [now])[moves..], times + [now])
  {
    var gone, all := |times| - |live|, times + [now];
    assert live + [now] == all[gone..];
    assert (live + [now])[moves..] == all[gone + moves..];
    forall i | 0 <= i < gone + moves ensures all[i] < now - THROUGHPUT_WINDOW_MS {
      if i >= gone {
        assert all[i] == (live + [now])[i - gone];
      } else {
        assert all[i] == times[i] && all[|times| - 1] == times[|times| - 1] && all[|times|] == now;
      }
    }
  }

  lemma PushKeeps(q: Queue, times: seq<int>, now: int)
    requires q.head <= |q.stamps| && (Nondecreasing(times) ==> Keeps(Live(q), times))
    ensures Nondecreasing(times + [now]) ==> Keeps(Live(Push(q, now)), times + [now])
  {
    if Nondecreasing(times + [now]) {
      assert forall i :: 0 <= i < |times| ==> (times + [now])[i] == times[i];
      PushLive(q, now);
      KeepsNext(Live(q), times, now, Moves(q, now));
    }
  }

  /** What pruning and compaction have thrown away is older than the window. */
  lemma {:induction false} QueueKeepsRecent(times: seq<int>)
    requires Nondecreasing(times)
    ensures Keeps(Live(RunQueue(times)), times)
  {
    if times != [] {
      var n := |times| - 1;
      SplitLast(times);
      QueueKeepsRecent(times[..n]);
      PushKeeps(RunQueue(times[..n]), times[..n], times[n]);
    }
  }

  lemma {:induction false} TailStaysRecent(live: seq<int>, times: seq<int>, cutoff: int)
    requires Nondecreasing(times) && Keeps(live, times) && (live != [] ==> live[0] >= cutoff)
    ensures forall i :: 0 <= i < |live| ==> live[i] >= cutoff
  {
    var gone := |times| - |live|;
    forall i | 0 <= i < |live| ensures live[i] >= cutoff {
      assert live[0] == times[gone] && live[i] == times[gone + i];
    }
  }

  lemma {:induction false} PushFirst(q: Queue, now: int)
    requires q.head <= |q.stamps|
    ensures var live := Live(Push(q, now)); live != [] ==> live[0] >= now - THROUGHPUT_WINDOW_MS
  {
    AdvanceStops(q.stamps + [now], q.head, now - THROUGHPUT_WINDOW_MS);
    PrunedLive(q, now);
  }

  /** A pruned queue holds nothing too old any more. */
  lemma {:induction false} QueueHoldsNothingOld(times: seq<int>)
    requires Nondecreasing(times) && times != []
    ensures forall i :: 0 <= i < |Live(RunQueue(times))| ==>
              Live(RunQueue(times))[i] >= times[|times| - 1] - THROUGHPUT_WINDOW_MS
  {
    var n := |times| - 1;
    QueueKeepsRecent(times);
    PushFirst(RunQueue(times[..n]), times[n]);
    TailStaysRecent(Live(RunQueue(times)), times, times[n] - THROUGHPUT_WINDOW_MS);
  }

  lemma {:induction false} PrunedLive(q: Queue, now: int)
    requires q.head <= |q.stamps|
    ensures Live(Push(q, now)) == Live(Pruned(q, now))
  {
  }

  /** So what the queue holds is exactly the operations of the last window. */
  lemma {:induction false} QueueIsWindow(times: seq<int>)
    requires Nondecreasing(times) && times != []
    ensures |Live(RunQueue(times))| == CountSince(times, times[|times| - 1] - THROUGHPUT_WINDOW_MS)
  {
    QueueKeepsRecent(times);
    QueueHoldsNothingOld(times);
    KeptCount(Live(RunQueue(times)), times, times[|times| - 1], 0);
  }

  lemma {:induction false} KeptCount(live: seq<int>, times: seq<int>, now: int, k: nat)
    requires Keeps(live, times) && k <= |live| && (times != [] ==> times[|times| - 1] <= now)
    requires forall i :: 0 <= i < k ==> live[i] < now - THROUGHPUT_WINDOW_MS
    requires forall i :: k <= i < |live| ==> live[i] >= now - THROUGHPUT_WINDOW_MS
    ensures |live| - k == CountSince(times, now - THROUGHPUT_WINDOW_MS)
  {
    var gone := |times| - |live|;
    var a, b := times[..gone + k], times[gone + k..];
    assert times == a + b;
    forall i | 0 <= i < |a| ensures a[i] < now - THROUGHPUT_WINDOW_MS {
      if i >= gone {
        assert a[i] == live[i - gone];
      }
    }
    forall i | 0 <= i < |b| ensures b[i] >= now - THROUGHPUT_WINDOW_MS {
      assert b[i] == live[k + i];
    }
    CountSinceSplit(a, b, now - THROUGHPUT_WINDOW_MS);
  }

  /** The position binary search ends at in the pruned array counts the whole history. */
  lemma WindowCountExact(times: seq<int>, q: Queue, now: int, lo: nat)
    requires times != [] ==> times[|times| - 1] <= now
    requires q.head <= lo <= |q.stamps| && Keeps(Live(q), times)
    requires forall i :: q.head <= i < lo ==> q.stamps[i] < now - THROUGHPUT_WINDOW_MS
    requires forall i :: lo <= i < |q.stamps| ==> q.stamps[i] >= now - THROUGHPUT_WINDOW_MS
    ensures |q.stamps| - lo == CountSince(times, now - THROUGHPUT_WINDOW_MS)
  {
    KeptCount(Live(q), times, now, lo - q.head);
  }

  ghost predicate LiveSorted(q: Queue) {
    forall i, j :: q.head <= i < j < |q.stamps| ==> q.stamps[i] <= q.stamps[j]
  }

  lemma KeepsSorted(q: Queue, times: seq<int>)
    requires q.head <= |q.stamps| && Keeps(Live(q), times) && Nondecreasing(times)
    ensures LiveSorted(q)
  {
    var live, gone := Live(q), |times| - |Live(q)|;
    forall i, j | q.head <= i < j < |q.stamps| ensures q.stamps[i] <= q.stamps[j] {
      assert q.stamps[i] == live[i - q.head] == times[gone + i - q.head];
      assert q.stamps[j] == live[j - q.head] == times[gone + j - q.head];
    }
  }

  /** The live timestamps are the recent end of the history, and the work done so far is
      paid for: one move for each discarded element, copies covered by moves. */
  ghost predicate QueueOk(q: Queue, times: seq<int>, moves: nat, copies: nat) {
    && q.head <= |q.stamps|
    && (Nondecreasing(times) ==> Keeps(Live(q), times))
    && moves + |Live(q)| == |times| && copies + q.head <= moves
    && |q.stamps| <= |Live(q)| + Max(256, |Live(q)|)
  }

  lemma PushOk(q: Queue, times: seq<int>, moves: nat, copies: nat, now: int)
    requires QueueOk(q, times, moves, copies)
    ensures QueueOk(Push(q, now), times + [now], moves + Moves(q, now), copies + Copies(q, now))
  {
    PushAccounts(q, now);
    PushKeeps(q, times, now);
  }

  /** The queue is the one that recording these times leaves, its cost accounted for. */
  ghost predicate Recorded(q: Queue, times: seq<int>, moves: nat, copies: nat) {
    q == RunQueue(times) && QueueOk(q, times, moves, copies)
  }

  lemma {:induction false} PushRecorded(q: Queue, times: seq<int>, moves: nat, copies: nat, now: int)
    requires Recorded(q, times, moves, copies)
    ensures Recorded(Push(q, now), times + [now], moves + Moves(q, now), copies + Copies(q, now))
  {
    PushOk(q, times, moves, copies, now);
    RunQueueSnoc(times, now);
  }

  // ---- latencies ----

  datatype Latencies = Latencies(buffer: seq<real>, next: nat, sum: real)

  function Sample(b: Latencies, us: real): Latencies
    requires |b.buffer| >= LATENCY_SAMPLE_CAP ==> b.next < |b.buffer|
  {
    if |b.buffer| < LATENCY_SAMPLE_CAP then
      Latencies(b.buffer + [us], b.next, b.sum + us)
    else
      Latencies(b.buffer[b.next := us], (b.next + 1) % LATENCY_SAMPLE_CAP, b.sum + (us - b.buffer[b.next]))
  }

  function Sum(s: seq<real>): real {
    if s == [] then 0.0 else Sum(s[..|s| - 1]) + s[|s| - 1]
  }

  /** The last samples a buffer of this capacity can hold. */
  function Latest(samples: seq<real>): seq<real> {
    if |samples| <= LATENCY_SAMPLE_CAP then samples else samples[|samples| - LATENCY_SAMPLE_CAP..]
  }

  /** The buffer, read from its oldest entry, is exactly the latest samples, and the running
      sum is theirs. */
  ghost predicate Tracks(b: Latencies, samples: seq<real>) {
    && |b.buffer| <= LATENCY_SAMPLE_CAP
    && (if |b.buffer| < LATENCY_SAMPLE_CAP then b.next == 0 else b.next < LATENCY_SAMPLE_CAP)
    && Rotated(b.buffer, b.next) == Latest(samples)
    && b.sum == Sum(b.buffer)
  }

  lemma {:induction false} SumSnoc(s: seq<real>, x: real)
    ensures Sum(s + [x]) == Sum(s) + x
  {
    assert (s + [x])[..|s|] == s;
  }

  lemma {:induction false} SumAppend(s: seq<real>, t: seq<real>)
    ensures Sum(s + t) == Sum(s) + Sum(t)
    decreases |t|
  {
    if t == [] {
      assert s + t == s;
    } else {
      var n := |t| - 1;
      SumAppend(s, t[..n]);
      assert s + t == (s + t[..n]) + [t[n]];
      SumSnoc(s + t[..n], t[n]);
    }
  }

  lemma SumUpdate(s: seq<real>, i: nat, x: real)
    requires i < |s|
    ensures Sum(s[i := x]) == Sum(s) - s[i] + x
  {
    var a, b := s[..i], s[i + 1..];
    assert s == (a + [s[i]]) + b && s[i := x] == (a + [x]) + b;
    SumAppend(a + [s[i]], b);
    SumAppend(a + [x], b);
    SumSnoc(a, s[i]);
    SumSnoc(a, x);
  }

  function Rotated(s: seq<real>, i: nat): seq<real>
    requires i <= |s|
  {
    s[i..] + s[..i]
  }

  lemma RotateInside(s: seq<real>, i: nat, x: real)
    requires i + 1 < |s|
    ensures Rotated(s[i := x], i + 1) == Rotated(s, i)[1..] + [x]
  {
  }

  lemma RotateBack(s: seq<real>, x: real)
    requires s != []
    ensures Rotated(s[|s| - 1 := x], 0) == Rotated(s, |s| - 1)[1..] + [x]
  {
  }

  /** Overwriting the oldest entry of a full ring drops it and appends the new one. */
  lemma RotateStep(s: seq<real>, i: nat, x: real)
    requires i < |s|
    ensures var j := (i + 1) % |s|;
            j <= |s| && Rotated(s[i := x], j) == Rotated(s, i)[1..] + [x]
  {
    if i + 1 < |s| {
      assert (i + 1) % |s| == i + 1;
      RotateInside(s, i, x);
    } else {
      assert (i + 1) % |s| == 0;
      RotateBack(s, x);
    }
  }

  /** The latest samples are the end of the history, as much of it as the capacity allows. */
  lemma LatestAre(samples: seq<real>)
    ensures |Latest(samples)| == if |samples| < LATENCY_SAMPLE_CAP then |samples| else LATENCY_SAMPLE_CAP
    ensures |Latest(samples)| <= |samples|
    ensures samples == samples[..|samples| - |Latest(samples)|] + Latest(samples)
  {
  }

  lemma LatestNext(samples: seq<real>, us: real)
    ensures Latest(samples + [us]) ==
            if |samples| < LATENCY_SAMPLE_CAP then Latest(samples) + [us] else Latest(samples)[1..] + [us]
  {
  }

  lemma SampleTracks(b: Latencies, samples: seq<real>, us: real)
    requires Tracks(b, samples)
    ensures Tracks(Sample(b, us), samples + [us])
  {
    LatestNext(samples, us);
    if |b.buffer| < LATENCY_SAMPLE_CAP {
      SumSnoc(b.buffer, us);
      assert |Latest(samples)| == |b.buffer|;
      assert Rotated(b.buffer, 0) == b.buffer && Rotated(b.buffer + [us], 0) == b.buffer + [us];
    } else {
      assert |Latest(samples)| == |b.buffer|;
      SumUpdate(b.buffer, b.next, us);
      RotateStep(b.buffer, b.next, us);
    }
  }

  /** The running average is the exact mean of the latest samples. */
  lemma AverageIsMean(b: Latencies, samples: seq<real>)
    requires Tracks(b, samples)
    ensures |b.buffer| == |Latest(samples)| && b.sum == Sum(Latest(samples))
  {
    var a, c := b.buffer[..b.next], b.buffer[b.next..];
    assert b.buffer == a + c;
    SumAppend(a, c);
    SumAppend(c, a);
  }

  // ---- percentile ----

  ghost predicate Ascending(s: seq<real>) {
    forall i, j :: 0 <= i < j < |s| ==> s[i] <= s[j]
  }

  function InsertReal(s: seq<real>, x: real): seq<real> {
    if s == [] then [x]
    else if s[|s| - 1] <= x then s + [x]
    else InsertReal(s[..|s| - 1], x) + [s[|s| - 1]]
  }

  function SortReals(s: seq<real>): seq<real> {
    if s == [] then [] else InsertReal(SortReals(s[..|s| - 1]), s[|s| - 1])
  }

  function CountIf(s: seq<real>, p: real -> bool): nat {
    if s == [] then 0 else CountIf(s[..|s| - 1], p) + if p(s[|s| - 1]) then 1 else 0
  }

  lemma CountSnoc(s: seq<real>, x: real, p: real -> bool)
    ensures CountIf(s + [x], p) == CountIf(s, p) + if p(x) then 1 else 0
  {
    assert (s + [x])[..|s|] == s;
  }

  lemma {:induction false} CountAppend(s: seq<real>, t: seq<real>, p: real -> bool)
    ensures CountIf(s + t, p) == CountIf(s, p) + CountIf(t, p)
    decreases |t|
  {
    if t == [] {
      assert s + t == s;
    } else {
      var n := |t| - 1;
      assert s + t == (s + t[..n]) + [t[n]];
      CountAppend(s, t[..n], p);
      CountSnoc(s + t[..n], t[n], p);
    }
  }

  lemma {:induction false} CountRotated(s: seq<real>, i: nat, p: real -> bool)
    requires i <= |s|
    ensures CountIf(Rotated(s, i), p) == CountIf(s, p) && |Rotated(s, i)| == |s|
  {
    SplitAt(s, i);
    CountAppend(s[..i], s[i..], p);
    CountAppend(s[i..], s[..i], p);
  }

  lemma {:induction false} InsertCounts(s: seq<real>, x: real, p: real -> bool)
    ensures CountIf(InsertReal(s, x), p) == CountIf(s, p) + if p(x) then 1 else 0
    ensures |InsertReal(s, x)| == |s| + 1
  {
    if s == [] || s[|s| - 1] <= x {
      CountSnoc(s, x, p);
      assert s == [] ==> s + [x] == [x];
    } else {
      var n := |s| - 1;
      InsertCounts(s[..n], x, p);
      CountSnoc(InsertReal(s[..n], x), s[n], p);
    }
  }

  lemma {:induction false} SortCounts(s: seq<real>, p: real -> bool)
    ensures CountIf(SortReals(s), p) == CountIf(s, p) && |SortReals(s)| == |s|
  {
    if s != [] {
      SortCounts(s[..|s| - 1], p);
      InsertCounts(SortReals(s[..|s| - 1]), s[|s| - 1], p);
    }
  }

  lemma {:induction false} InsertAscending(s: seq<real>, x: real)
    requires Ascending(s)
    ensures Ascending(InsertReal(s, x)) && |InsertReal(s, x)| == |s| + 1
    ensures forall i :: 0 <= i < |InsertReal(s, x)| ==> InsertReal(s, x)[i] in s || InsertReal(s, x)[i] == x
  {
    if s != [] && s[|s| - 1] > x {
      var n := |s| - 1;
      InsertAscending(s[..n], x);
      var t := InsertReal(s[..n], x);
      forall i | 0 <= i < |t| ensures t[i] <= s[n] && (t[i] in s || t[i] == x) {
        if t[i] != x {
          assert t[i] in s[..n];
        }
      }
    }
  }

  lemma {:induction false} SortAscending(s: seq<real>)
    ensures Ascending(SortReals(s)) && |SortReals(s)| == |s|
  {
    if s != [] {
      SortAscending(s[..|s| - 1]);
      InsertAscending(SortReals(s[..|s| - 1]), s[|s| - 1]);
    }
  }

  /** Position of the nearest-rank 95th percentile among n sorted samples: ceil(0.95 n) - 1. */
  function Rank95(n: nat): nat
    requires n > 0
  {
    var rank := (n * 95 + 99) / 100;
    if rank - 1 < n - 1 then Max(0, rank - 1) else n - 1
  }

  lemma Rank95Bounds(n: nat)
    requires n > 0
    ensures Rank95(n) < n && 100 * Rank95(n) < 95 * n <= 100 * (Rank95(n) + 1)
  {
  }

  function AtMost(x: real): real -> bool {
    (y: real) => y <= x
  }

  function Below(x: real): real -> bool {
    (y: real) => y < x
  }

  lemma {:induction false} CountAtMost(s: seq<real>, x: real, k: nat)
    requires k <= |s| && forall i :: 0 <= i < k ==> s[i] <= x
    ensures CountIf(s, AtMost(x)) >= k
  {
    if s != [] {
      var n := |s| - 1;
      CountAtMost(s[..n], x, if k <= n then k else n);
    }
  }

  lemma {:induction false} CountBelow(s: seq<real>, x: real, k: nat)
    requires k <= |s| && forall i :: k <= i < |s| ==> s[i] >= x
    ensures CountIf(s, Below(x)) <= k
  {
    if s != [] {
      var n := |s| - 1;
      CountBelow(s[..n], x, if k <= n then k else n);
    }
  }

  lemma RankCounts(t: seq<real>, k: nat)
    requires Ascending(t) && k < |t|
    ensures CountIf(t, AtMost(t[k])) >= k + 1 && CountIf(t, Below(t[k])) <= k
  {
    CountAtMost(t, t[k], k + 1);
    CountBelow(t, t[k], k);
  }

  /** The nearest-rank 95th percentile: at least 95% of the samples are at or below it, fewer
      than 95% strictly below. */
  ghost predicate NearestRank95(p: real, samples: seq<real>) {
    && 100 * CountIf(samples, AtMost(p)) >= 95 * |samples|
    && 100 * CountIf(samples, Below(p)) < 95 * |samples|
  }

  lemma {:induction false} PercentileIsNearestRank(s: seq<real>)
    requires s != []
    ensures |SortReals(s)| == |s|
    ensures NearestRank95(SortReals(s)[Rank95(|s|)], s)
  {
    SortAscending(s);
    Rank95Bounds(|s|);
    var p := SortReals(s)[Rank95(|s|)];
    RankCounts(SortReals(s), Rank95(|s|));
    SortCounts(s, AtMost(p));
    SortCounts(s, Below(p));
  }

  /** The percentile of the ring buffer is that of the latest samples, wherever the ring starts. */
  lemma {:induction false} PercentileOfLatest(b: Latencies, samples: seq<real>)
    requires Tracks(b, samples) && b.buffer != []
    ensures |SortReals(b.buffer)| == |b.buffer|
    ensures NearestRank95(SortReals(b.buffer)[Rank95(|b.buffer|)], Latest(samples))
  {
    PercentileIsNearestRank(b.buffer);
    var p := SortReals(b.buffer)[Rank95(|b.buffer|)];
    CountRotated(b.buffer, b.next, AtMost(p));
    CountRotated(b.buffer, b.next, Below(p));
  }

  // ---- the collector ----

  datatype OpType = GetOp | SetOp | DeleteOp

  class MetricsCollector {
    var hits: nat
    var misses: nat
    var sets: nat
    var deletes: nat
    var latenciesUs: seq<real>
    var latencyIdx: nat
    var latencySum: real
    var opTimestamps: seq<int>
    var opTimestampsHead: nat
    /** Every operation's time and latency since startup. */
    ghost var times: seq<int>
    ghost var samples: seq<real>
    /** Head moves and copied elements since startup. */
    ghost var moves: nat
    ghost var copies: nat

    ghost predicate Valid()
      reads this
    {
      && |times| == |samples| == hits + misses + sets + deletes
      && Recorded(Queue(opTimestamps, opTimestampsHead), times, moves, copies)
      && Tracks(Latencies(latenciesUs, latencyIdx, latencySum), samples)
    }

    constructor ()
      ensures Valid() && times == [] && samples == []
    {
      hits, misses, sets, deletes := 0, 0, 0, 0;
      latenciesUs, latencyIdx, latencySum := [], 0, 0.0;
      opTimestamps, opTimestampsHead := [], 0;
      times, samples, moves, copies := [], [], 0, 0;
    }

    method Record(op: OpType, latencyUs: real, hit: bool, now: int)
      requires Valid()
      modifies this
      ensures Valid() && times == old(times) + [now] && samples == old(samples) + [latencyUs]
      ensures hits == old(hits) + (if op.GetOp? && hit then 1 else 0)
      ensures misses == old(misses) + (if op.GetOp? && !hit then 1 else 0)
      ensures sets == old(sets) + (if op.SetOp? then 1 else 0)
      ensures deletes == old(deletes) + (if op.DeleteOp? then 1 else 0)
    {
      PushRecorded(Queue(opTimestamps, opTimestampsHead), times, moves, copies, now);
      CountOp(op, hit);
      RecordLatency(latencyUs);
      RecordTime(now);
    }

    /** The counters' share of record(). */
    method CountOp(op: OpType, hit: bool)
      modifies this`hits, this`misses, this`sets, this`deletes
      ensures hits == old(hits) + (if op.GetOp? && hit then 1 else 0)
      ensures misses == old(misses) + (if op.GetOp? && !hit then 1 else 0)
      ensures sets == old(sets) + (if op.SetOp? then 1 else 0)
      ensures deletes == old(deletes) + (if op.DeleteOp? then 1 else 0)
    {
      match op {
        case GetOp => if hit { hits := hits + 1; } else { misses := misses + 1; }
        case SetOp => sets := sets + 1;
        case DeleteOp => deletes := deletes + 1;
      }
    }

    /** The ring buffer's share of record(). */
    method RecordLatency(latencyUs: real)
      requires Tracks(Latencies(latenciesUs, latencyIdx, latencySum), samples)
      modifies this`latenciesUs, this`latencyIdx, this`latencySum, this`samples
      ensures Tracks(Latencies(latenciesUs, latencyIdx, latencySum), samples)
      ensures samples == old(samples) + [latencyUs]
    {
      SampleTracks(Latencies(latenciesUs, latencyIdx, latencySum), samples, latencyUs);
      if |latenciesUs| < LATENCY_SAMPLE_CAP {
        latenciesUs := latenciesUs + [latencyUs];
        latencySum := latencySum + latencyUs;
      } else {
        latencySum := latencySum + (latencyUs - latenciesUs[latencyIdx]);
        latenciesUs := latenciesUs[latencyIdx := latencyUs];
        latencyIdx := (latencyIdx + 1) % LATENCY_SAMPLE_CAP;
      }
      samples := samples + [latencyUs];
    }

    /** The timestamp queue's share of record(). */
    method RecordTime(now: int)
      requires opTimestampsHead <= |opTimestamps|
      modifies this`opTimestamps, this`opTimestampsHead, this`times, this`moves, this`copies
      ensures times == old(times) + [now]
      ensures var q := old(Queue(opTimestamps, opTimestampsHead));
              && Queue(opTimestamps, opTimestampsHead) == Push(q, now)
              && moves == old(moves) + Moves(q, now) && copies == old(copies) + Copies(q, now)
    {
      ghost var head := opTimestampsHead;
      times := times + [now];
      opTimestamps := opTimestamps + [now];
      var cutoff := now - THROUGHPUT_WINDOW_MS;
      while opTimestampsHead < |opTimestamps| && opTimestamps[opTimestampsHead] < cutoff
        invariant head <= opTimestampsHead <= |opTimestamps|
        invariant moves == old(moves) + (opTimestampsHead - head)
        invariant Advance(opTimestamps, opTimestampsHead, cutoff) == Advance(opTimestamps, head, cutoff)
        modifies this`opTimestampsHead, this`moves
      {
        opTimestampsHead := opTimestampsHead + 1;
        moves := moves + 1;
      }
      if opTimestampsHead > 256 && opTimestampsHead * 2 > |opTimestamps| {
        opTimestamps := opTimestamps[opTimestampsHead..];
        opTimestampsHead := 0;
        copies := copies + |opTimestamps|;
      }
    }

    /** Binary search among the live timestamps for the first that is not too old. */
    method FirstRecent(cutoff: int) returns (lo: nat)
      requires opTimestampsHead <= |opTimestamps| && LiveSorted(Queue(opTimestamps, opTimestampsHead))
      ensures opTimestampsHead <= lo <= |opTimestamps|
      ensures forall i :: opTimestampsHead <= i < lo ==> opTimestamps[i] < cutoff
      ensures forall i :: lo <= i < |opTimestamps| ==> opTimestamps[i] >= cutoff
    {
      var hi := |opTimestamps|;
      lo := opTimestampsHead;
      while lo < hi
        invariant opTimestampsHead <= lo <= hi <= |opTimestamps|
        invariant forall i :: opTimestampsHead <= i < lo ==> opTimestamps[i] < cutoff
        invariant forall i :: hi <= i < |opTimestamps| ==> opTimestamps[i] >= cutoff
      {
        var mid := (lo + hi) / 2;
        if opTimestamps[mid] < cutoff {
          lo := mid + 1;
        } else {
          hi := mid;
        }
      }
    }

    /** The count behind opsPerSec: exact over the whole history, pruned or not. */
    method RecentCount(now: int) returns (recent: nat)
      requires Recorded(Queue(opTimestamps, opTimestampsHead), times, moves, copies)
      requires Nondecreasing(times) && (times != [] ==> times[|times| - 1] <= now)
      ensures recent == CountSince(times, now - THROUGHPUT_WINDOW_MS)
    {
      ghost var q := Queue(opTimestamps, opTimestampsHead);
      KeepsSorted(q, times);
      var lo := FirstRecent(now - THROUGHPUT_WINDOW_MS);
      WindowCountExact(times, q, now, lo);
      recent := |opTimestamps| - lo;
    }

    /** The unrounded average and the 95th percentile of the latest samples. */
    method Latency() returns (avg: Option<real>, p95: Option<real>)
      requires Valid()
      ensures samples == [] ==> avg == None && p95 == None
      ensures samples != [] ==>
                && avg == Some(Sum(Latest(samples)) / |Latest(samples)| as real)
                && p95.Some? && NearestRank95(p95.value, Latest(samples))
    {
      AverageIsMean(Latencies(latenciesUs, latencyIdx, latencySum), samples);
      if |latenciesUs| == 0 {
        return None, None;
      }
      PercentileOfLatest(Latencies(latenciesUs, latencyIdx, latencySum), samples);
      avg := Some(latencySum / |latenciesUs| as real);
      p95 := Some(SortReals(latenciesUs)[Rank95(|latenciesUs|)]);
    }
  }
}
