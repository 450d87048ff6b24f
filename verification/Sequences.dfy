/** Filtering and mapping of sequences and sizes of sets: the few laws the other modules use. */
module Sequences {
  function Filter<T(!new)>(s: seq<T>, p: T -> bool): (r: seq<T>)
    ensures |r| <= |s|
  {
    if s == [] then [] else (if p(s[0]) then [s[0]] else []) + Filter(s[1..], p)
  }

  function Map<T, U>(s: seq<T>, f: T -> U): (r: seq<U>)
    ensures |r| == |s|
    ensures forall i :: 0 <= i < |s| ==> r[i] == f(s[i])
  {
    seq(|s|, i requires 0 <= i < |s| => f(s[i]))
  }

  ghost predicate Distinct<T>(s: seq<T>) {
    forall i, j :: 0 <= i < j < |s| ==> s[i] != s[j]
  }

  function SetOf<T>(s: seq<T>): set<T> {
    set x | x in s
  }

  lemma SplitLast<T>(s: seq<T>)
    requires s != []
    ensures s == s[..|s| - 1] + [s[|s| - 1]]
  {
  }

  lemma SplitFirst<T>(s: seq<T>)
    requires s != []
    ensures s == [s[0]] + s[1..]
  {
  }

  lemma SplitAt<T>(s: seq<T>, i: nat)
    requires i <= |s|
    ensures s == s[..i] + s[i..]
  {
  }

  lemma TakeTake<T>(s: seq<T>, n: nat, i: nat)
    requires i <= n <= |s|
    ensures s[..n][..i] == s[..i]
  {
  }

  lemma TakeAll<T>(s: seq<T>)
    ensures s[..|s|] == s
  {
  }

  lemma {:induction false} FilterIn<T(!new)>(s: seq<T>, p: T -> bool)
    ensures forall x :: x in Filter(s, p) <==> x in s && p(x)
  {
    if s != [] {
      FilterIn(s[1..], p);
      assert s == [s[0]] + s[1..];
    }
  }

  lemma {:induction false} FilterAppend<T(!new)>(s: seq<T>, t: seq<T>, p: T -> bool)
    ensures Filter(s + t, p) == Filter(s, p) + Filter(t, p)
  {
    if s == [] {
      assert s + t == t;
    } else {
      FilterAppend(s[1..], t, p);
      var head := if p(s[0]) then [s[0]] else [];
      calc {
        Filter(s + t, p);
        { assert (s + t)[0] == s[0] && (s + t)[1..] == s[1..] + t; }
        head + Filter(s[1..] + t, p);
        head + (Filter(s[1..], p) + Filter(t, p));
        { assert forall a: seq<T>, b: seq<T>, c: seq<T> :: a + (b + c) == (a + b) + c; }
        (head + Filter(s[1..], p)) + Filter(t, p);
      }
    }
  }

  lemma FilterSnoc<T(!new)>(s: seq<T>, x: T, p: T -> bool)
    ensures Filter(s + [x], p) == Filter(s, p) + if p(x) then [x] else []
  {
    FilterAppend(s, [x], p);
  }

  lemma FilterCons<T(!new)>(x: T, s: seq<T>, p: T -> bool)
    ensures Filter([x] + s, p) == (if p(x) then [x] else []) + Filter(s, p)
  {
    assert ([x] + s)[1..] == s;
  }

  /** Two filters in a row are one filter, whichever way the conjunction is written. */
  lemma {:induction false} FilterFilter<T(!new)>(s: seq<T>, p: T -> bool, q: T -> bool, both: T -> bool)
    requires forall x :: x in s ==> (both(x) <==> p(x) && q(x))
    ensures Filter(Filter(s, p), q) == Filter(s, both)
  {
    if s != [] {
      FilterFilter(s[1..], p, q, both);
      FilterAppend(if p(s[0]) then [s[0]] else [], Filter(s[1..], p), q);
    }
  }

  lemma {:induction false} FilterCommutes<T(!new)>(s: seq<T>, p: T -> bool, q: T -> bool)
    ensures Filter(Filter(s, p), q) == Filter(Filter(s, q), p)
  {
    FilterFilter(s, p, q, x => p(x) && q(x));
    FilterFilter(s, q, p, x => p(x) && q(x));
  }

  lemma {:induction false} FilterSame<T(!new)>(s: seq<T>, p: T -> bool, q: T -> bool)
    requires forall x :: x in s ==> (p(x) <==> q(x))
    ensures Filter(s, p) == Filter(s, q)
  {
    if s != [] {
      FilterSame(s[1..], p, q);
    }
  }

  lemma {:induction false} FilterAll<T(!new)>(s: seq<T>, p: T -> bool)
    requires forall x :: x in s ==> p(x)
    ensures Filter(s, p) == s
  {
    if s != [] {
      FilterAll(s[1..], p);
    }
  }

  lemma {:induction false} FilterNone<T(!new)>(s: seq<T>, p: T -> bool)
    requires forall x :: x in s ==> !p(x)
    ensures Filter(s, p) == []
  {
    if s != [] {
      FilterNone(s[1..], p);
    }
  }

  /** A filter that drops nothing by count drops nothing at all. */
  lemma {:induction false} FilterFull<T(!new)>(s: seq<T>, p: T -> bool)
    requires |Filter(s, p)| == |s|
    ensures Filter(s, p) == s
    ensures forall x :: x in s ==> p(x)
  {
    if s != [] {
      FilterFull(s[1..], p);
    }
  }

  lemma MapSnoc<T, U>(s: seq<T>, x: T, f: T -> U)
    ensures Map(s + [x], f) == Map(s, f) + [f(x)]
  {
  }

  lemma MapDrop<T, U>(s: seq<T>, f: T -> U, i: nat)
    requires i <= |s|
    ensures Map(s, f)[i..] == Map(s[i..], f) && Map(s, f)[..i] == Map(s[..i], f)
  {
  }

  lemma MapCompose<T, U, V>(s: seq<T>, f: T -> U, g: U -> V, h: T -> V)
    requires forall x :: x in s ==> h(x) == g(f(x))
    ensures Map(Map(s, f), g) == Map(s, h)
  {
    assert forall i :: 0 <= i < |s| ==> s[i] in s;
  }

  lemma MapBack<T, U>(s: seq<T>, f: T -> U, g: U -> T)
    requires forall x :: x in s ==> g(f(x)) == x
    ensures Map(Map(s, f), g) == s
  {
    assert forall i :: 0 <= i < |s| ==> s[i] in s;
  }

  /** A subset is no larger, and smaller unless it is the whole. */
  lemma SubsetSize<T>(a: set<T>, b: set<T>)
    requires a <= b
    ensures |a| <= |b| && (a != b ==> |a| < |b|)
  {
    assert b == a + (b - a);
  }

  lemma {:induction false} Enumerate<T(!new)>(s: set<T>) returns (r: seq<T>)
    ensures Distinct(r) && SetOf(r) == s && |r| == |s|
    decreases s
  {
    if s == {} {
      r := [];
    } else {
      var x :| x in s;
      var rest := Enumerate(s - {x});
      r := [x] + rest;
      assert forall y :: y in r <==> y == x || y in SetOf(rest);
    }
  }
}
