/**
 * The array sort the ring relies on: by hash, equal hashes keeping their order.
 */
module StableSorting {
  import opened Sequences

  type u32 = x: nat | x < 0x1_0000_0000

  datatype Point = Point(hash: u32, node: string)

  ghost predicate Sorted(s: seq<Point>) {
    forall i, j :: 0 <= i < j < |s| ==> s[i].hash <= s[j].hash
  }

  /** `x` placed after every point that is not beyond it. */
  function Insert(s: seq<Point>, x: Point): seq<Point> {
    if s == [] then [x]
    else
      var n := |s| - 1;
      if s[n].hash <= x.hash then s + [x] else Insert(s[..n], x) + [s[n]]
  }

  function StableSort(s: seq<Point>): seq<Point> {
    if s == [] then [] else Insert(StableSort(s[..|s| - 1]), s[|s| - 1])
  }

  function AtHash(h: u32): Point -> bool {
    (p: Point) => p.hash == h
  }

  lemma {:induction false} InsertSorted(s: seq<Point>, x: Point)
    requires Sorted(s)
    ensures Sorted(Insert(s, x)) && |Insert(s, x)| == |s| + 1
    ensures forall p :: p in Insert(s, x) <==> p in s || p == x
  {
    if s != [] && s[|s| - 1].hash > x.hash {
      var n := |s| - 1;
      SplitLast(s);
      InsertSorted(s[..n], x);
      var t := Insert(s[..n], x);
      forall i | 0 <= i < |t| ensures t[i].hash <= s[n].hash {
        assert t[i] in t;
      }
    }
  }

  lemma {:induction false} SortSorted(s: seq<Point>)
    ensures Sorted(StableSort(s)) && |StableSort(s)| == |s|
    ensures forall p :: p in StableSort(s) <==> p in s
  {
    if s != [] {
      SortSorted(s[..|s| - 1]);
      InsertSorted(StableSort(s[..|s| - 1]), s[|s| - 1]);
      assert s == s[..|s| - 1] + [s[|s| - 1]];
    }
  }

  lemma SortSnoc(s: seq<Point>, x: Point)
    ensures StableSort(s + [x]) == Insert(StableSort(s), x)
  {
    assert (s + [x])[..|s|] == s;
  }

  /** Sorting what is sorted changes nothing. */
  lemma {:induction false} SortOfSorted(s: seq<Point>)
    requires Sorted(s)
    ensures StableSort(s) == s
  {
    if s != [] {
      SortOfSorted(s[..|s| - 1]);
    }
  }

  /** Sorting early changes nothing. */
  lemma {:induction false} SortPrefix(s: seq<Point>, t: seq<Point>)
    ensures StableSort(StableSort(s) + t) == StableSort(s + t)
  {
    if t == [] {
      assert StableSort(s) + t == StableSort(s) && s + t == s;
      SortSorted(s);
      SortOfSorted(StableSort(s));
    } else {
      var n := |t| - 1;
      SortPrefix(s, t[..n]);
      assert StableSort(s) + t == (StableSort(s) + t[..n]) + [t[n]];
      assert s + t == (s + t[..n]) + [t[n]];
      SortSnoc(StableSort(s) + t[..n], t[n]);
      SortSnoc(s + t[..n], t[n]);
    }
  }

  lemma {:induction false} InsertFilter(s: seq<Point>, x: Point, p: Point -> bool)
    requires Sorted(s)
    ensures Filter(Insert(s, x), p) == if p(x) then Insert(Filter(s, p), x) else Filter(s, p)
  {
    if s != [] {
      var n := |s| - 1;
      SplitLast(s);
      if s[n].hash <= x.hash {
        FilterSnoc(s, x, p);
        assert forall q :: q in s ==> q.hash <= x.hash;
        FilterBelow(s, x, p);
      } else {
        InsertFilter(s[..n], x, p);
        InsertFilterAbove(s[..n], s[n], x, p);
      }
    }
  }

  lemma InsertFilterAbove(s: seq<Point>, y: Point, x: Point, p: Point -> bool)
    requires x.hash < y.hash
    requires Filter(Insert(s, x), p) == if p(x) then Insert(Filter(s, p), x) else Filter(s, p)
    ensures Filter(Insert(s, x) + [y], p) ==
            if p(x) then Insert(Filter(s + [y], p), x) else Filter(s + [y], p)
  {
    FilterSnoc(s, y, p);
    FilterSnoc(Insert(s, x), y, p);
    if p(y) {
      InsertBefore(Filter(s, p), y, x);
    } else {
      assert Filter(s, p) + [] == Filter(s, p);
    }
  }

  lemma InsertBefore(s: seq<Point>, y: Point, x: Point)
    requires x.hash < y.hash
    ensures Insert(s + [y], x) == Insert(s, x) + [y]
  {
    assert (s + [y])[..|s|] == s;
  }

  lemma FilterBelow(s: seq<Point>, x: Point, p: Point -> bool)
    requires forall q :: q in s ==> q.hash <= x.hash
    ensures Insert(Filter(s, p), x) == Filter(s, p) + [x]
  {
    var f := Filter(s, p);
    if f != [] {
      FilterIn(s, p);
      var last := f[|f| - 1];
      assert last in f;
      assert last in s;
    }
  }

  lemma {:induction false} SortFilterSnoc(s: seq<Point>, x: Point, p: Point -> bool)
    requires Filter(StableSort(s), p) == StableSort(Filter(s, p))
    ensures Filter(StableSort(s + [x]), p) == StableSort(Filter(s + [x], p))
  {
    SortSorted(s);
    SortSnoc(s, x);
    InsertFilter(StableSort(s), x, p);
    FilterSnoc(s, x, p);
    if p(x) {
      SortSnoc(Filter(s, p), x);
    } else {
      assert Filter(s, p) + [] == Filter(s, p);
    }
  }

  /** Sorting and filtering commute; with a filter on one hash this is stability. */
  lemma {:induction false} SortFilter(s: seq<Point>, p: Point -> bool)
    ensures Filter(StableSort(s), p) == StableSort(Filter(s, p))
  {
    if s != [] {
      var n := |s| - 1;
      SplitLast(s);
      SortFilter(s[..n], p);
      SortFilterSnoc(s[..n], s[n], p);
    }
  }

  lemma SortStable(s: seq<Point>, h: u32)
    ensures Filter(StableSort(s), AtHash(h)) == Filter(s, AtHash(h))
  {
    SortFilter(s, AtHash(h));
    var f := Filter(s, AtHash(h));
    FilterIn(s, AtHash(h));
    assert forall i :: 0 <= i < |f| ==> f[i] in f;
    SortOfSorted(f);
  }

  /** A sorted sequence is determined by what it holds at each hash, in order. */
  lemma {:induction false} SortedDetermined(s: seq<Point>, t: seq<Point>)
    requires Sorted(s) && Sorted(t)
    requires forall h: u32 :: Filter(s, AtHash(h)) == Filter(t, AtHash(h))
    ensures s == t
  {
    if s == [] {
      if t != [] {
        SameHead(t, s);
        assert false;
      }
    } else {
      SameHead(s, t);
      forall h: u32 ensures Filter(s[1..], AtHash(h)) == Filter(t[1..], AtHash(h)) {
        assert s == [s[0]] + s[1..] && t == [s[0]] + t[1..];
        assert Filter(s, AtHash(h)) == Filter(t, AtHash(h));
        SameTail(s[0], s[1..], t[1..], h);
      }
      SortedDetermined(s[1..], t[1..]);
    }
  }

  lemma {:induction false} SameTail(x: Point, s: seq<Point>, t: seq<Point>, h: u32)
    requires Filter([x] + s, AtHash(h)) == Filter([x] + t, AtHash(h))
    ensures Filter(s, AtHash(h)) == Filter(t, AtHash(h))
  {
    FilterCons(x, s, AtHash(h));
    FilterCons(x, t, AtHash(h));
    var n := |if AtHash(h)(x) then [x] else []|;
    assert Filter(s, AtHash(h)) == Filter([x] + s, AtHash(h))[n..];
    assert Filter(t, AtHash(h)) == Filter([x] + t, AtHash(h))[n..];
  }

  lemma SameHead(s: seq<Point>, t: seq<Point>)
    requires Sorted(s) && Sorted(t) && s != []
    requires forall h: u32 :: Filter(s, AtHash(h)) == Filter(t, AtHash(h))
    ensures t != [] && s[0] == t[0]
  {
    var a := s[0].hash;
    assert Filter(s, AtHash(a))[0] == s[0];
    FilterIn(t, AtHash(a));
    assert s[0] in Filter(t, AtHash(a));
    var b := t[0].hash;
    assert Filter(t, AtHash(b))[0] == t[0];
    FilterIn(s, AtHash(b));
    assert t[0] in Filter(s, AtHash(b));
  }

  /** Any stable sort by hash is this one. */
  lemma StableSortUnique(s: seq<Point>, t: seq<Point>)
    requires Sorted(t) && forall h: u32 :: Filter(t, AtHash(h)) == Filter(s, AtHash(h))
    ensures t == StableSort(s)
  {
    SortSorted(s);
    forall h: u32 ensures Filter(t, AtHash(h)) == Filter(StableSort(s), AtHash(h)) {
      SortStable(s, h);
    }
    SortedDetermined(t, StableSort(s));
  }
}
