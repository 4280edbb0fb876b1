/** Options, 64-bit integers, and sequences seen as sets: distinctness, filtering and counting. */
module Basics {

  const MAX_INT64 := 0x7FFF_FFFF_FFFF_FFFF

  datatype Option<+T> = None | Some(value: T)

  function Elems<T>(s: seq<T>): set<T> { set x | x in s }

  predicate Distinct<T(==)>(s: seq<T>) {
    forall i, j | 0 <= i < j < |s| :: s[i] != s[j]
  }

  lemma {:induction false} DistinctCard<T>(s: seq<T>)
    requires Distinct(s)
    ensures |Elems(s)| == |s|
  {
    if s != [] {
      var init, last := s[..|s| - 1], s[|s| - 1];
      DistinctCard(init);
      assert Elems(s) == Elems(init) + {last};
    }
  }

  lemma DistinctConcat<T>(a: seq<T>, b: seq<T>)
    requires Distinct(a) && Distinct(b) && forall x | x in a :: x !in b
    ensures Distinct(a + b)
  {
    var c := a + b;
    forall i, j | 0 <= i < j < |c| ensures c[i] != c[j] {
      if i < |a| <= j {
        assert c[i] in a && c[j] in b;
      }
    }
  }

  lemma {:induction false} SubsetCard<T>(a: set<T>, b: set<T>)
    requires a <= b
    ensures |a| <= |b|
  {
    if a != {} {
      var x :| x in a;
      SubsetCard(a - {x}, b - {x});
    }
  }

  lemma ElemsSnoc<T>(s: seq<T>, x: T)
    ensures Elems(s + [x]) == Elems(s) + {x}
  {
  }

  function Flat<T>(xs: seq<seq<T>>): seq<T> {
    if xs == [] then [] else xs[0] + Flat(xs[1..])
  }

  lemma {:induction false} FlatSnoc<T>(xs: seq<seq<T>>, x: seq<T>)
    ensures Flat(xs + [x]) == Flat(xs) + x
  {
    if xs == [] {
      assert [x][1..] == [];
      assert xs + [x] == [x];
    } else {
      assert (xs + [x])[1..] == xs[1..] + [x];
      FlatSnoc(xs[1..], x);
    }
  }

  lemma {:induction false} FlatElems<T>(xs: seq<seq<T>>, e: T)
    ensures e in Flat(xs) <==> exists x | x in xs :: e in x
  {
    if xs != [] {
      assert xs == [xs[0]] + xs[1..];
      FlatElems(xs[1..], e);
    }
  }

  function Filter<T(!new)>(f: T -> bool, xs: seq<T>): (r: seq<T>)
    ensures forall x :: x in r <==> x in xs && f(x)
  {
    if xs == [] then []
    else
      var rest, x := Filter(f, xs[..|xs| - 1]), xs[|xs| - 1];
      assert xs == xs[..|xs| - 1] + [x];
      if f(x) then rest + [x] else rest
  }

  lemma {:induction false} FilterConcat<T(!new)>(f: T -> bool, a: seq<T>, b: seq<T>)
    ensures Filter(f, a + b) == Filter(f, a) + Filter(f, b)
  {
    if b == [] {
      assert a + b == a;
    } else {
      assert (a + b)[..|a + b| - 1] == a + b[..|b| - 1];
      FilterConcat(f, a, b[..|b| - 1]);
    }
  }

  /** The positions are increasing, and are exactly those whose elements pass. */
  predicate Selects<T(!new)>(f: T -> bool, xs: seq<T>, at: seq<int>) {
    && (forall i, j | 0 <= i < j < |at| :: at[i] < at[j])
    && (forall i | 0 <= i < |at| :: 0 <= at[i] < |xs| && f(xs[at[i]]))
    && (forall k | 0 <= k < |xs| && f(xs[k]) :: k in at)
  }

  lemma SelectsSnoc<T(!new)>(f: T -> bool, xs: seq<T>, x: T, at: seq<int>)
    requires Selects(f, xs, at)
    ensures Selects(f, xs + [x], if f(x) then at + [|xs|] else at)
  {
    var all, more := xs + [x], if f(x) then at + [|xs|] else at;
    forall i | 0 <= i < |more| ensures 0 <= more[i] < |all| && f(all[more[i]]) {
      if i < |at| { assert more[i] == at[i] && all[at[i]] == xs[at[i]]; }
    }
    forall k | 0 <= k < |all| && f(all[k]) ensures k in more {
      if k < |xs| { assert all[k] == xs[k] && k in at; }
    }
    assert forall i, j | 0 <= i < j < |more| :: more[i] < more[j];
  }

  /** Filtering keeps the elements at these positions, in order. */
  lemma {:induction false} FilterInOrder<T(!new)>(f: T -> bool, xs: seq<T>) returns (at: seq<int>)
    ensures Selects(f, xs, at) && |at| == |Filter(f, xs)|
    ensures forall i | 0 <= i < |at| :: Filter(f, xs)[i] == xs[at[i]]
  {
    hide Selects;
    if xs == [] {
      at := [];
      assert Selects(f, xs, at) by { SelectsNone(f); }
    } else {
      var n := |xs| - 1;
      var init := FilterInOrder(f, xs[..n]);
      SelectsSnoc(f, xs[..n], xs[n], init);
      assert xs[..n] + [xs[n]] == xs;
      at := if f(xs[n]) then init + [n] else init;
      assert forall i | 0 <= i < |init| :: 0 <= init[i] < n by { SelectsInside(f, xs[..n], init); }
    }
  }

  lemma SelectsNone<T(!new)>(f: T -> bool)
    ensures Selects(f, [], [])
  {
  }

  lemma SelectsInside<T(!new)>(f: T -> bool, xs: seq<T>, at: seq<int>)
    requires Selects(f, xs, at)
    ensures forall i | 0 <= i < |at| :: 0 <= at[i] < |xs|
  {
  }

  function Kept<T(!new)>(f: T -> bool, xs: seq<T>): set<T> {
    set x | x in xs && f(x)
  }

  lemma {:induction false} FilterDistinct<T(!new)>(f: T -> bool, xs: seq<T>)
    requires Distinct(xs)
    ensures |Filter(f, xs)| == |Kept(f, xs)|
  {
    if xs != [] {
      var x, init := xs[|xs| - 1], xs[..|xs| - 1];
      FilterDistinct(f, init);
      assert xs == init + [x];
      assert Kept(f, xs) == if f(x) then Kept(f, init) + {x} else Kept(f, init);
    }
  }

  function Occurrences<T(==)>(xs: seq<T>, x: T): nat {
    if xs == [] then 0
    else Occurrences(xs[..|xs| - 1], x) + if xs[|xs| - 1] == x then 1 else 0
  }

  lemma {:induction false} OccurrencesIn<T>(xs: seq<T>, x: T)
    ensures Occurrences(xs, x) > 0 <==> x in xs
  {
    if xs != [] {
      assert xs == xs[..|xs| - 1] + [xs[|xs| - 1]];
      OccurrencesIn(xs[..|xs| - 1], x);
    }
  }

  lemma {:induction false} OccurrencesConcat<T>(a: seq<T>, b: seq<T>, x: T)
    ensures Occurrences(a + b, x) == Occurrences(a, x) + Occurrences(b, x)
  {
    if b == [] {
      assert a + b == a;
    } else {
      assert (a + b)[..|a + b| - 1] == a + b[..|b| - 1];
      OccurrencesConcat(a, b[..|b| - 1], x);
    }
  }

  function Positions<T(==)>(xs: seq<T>, x: T): set<int> { set i | 0 <= i < |xs| && xs[i] == x }

  lemma {:induction false} OccurrencesArePositions<T>(xs: seq<T>, x: T)
    ensures Occurrences(xs, x) == |Positions(xs, x)|
  {
    if xs == [] {
      assert Positions(xs, x) == {};
    } else {
      var n := |xs| - 1;
      OccurrencesArePositions(xs[..n], x);
      assert Positions(xs, x) == if xs[n] == x then Positions(xs[..n], x) + {n} else Positions(xs[..n], x);
    }
  }

  lemma OccurrencesSnoc<T>(xs: seq<T>, y: T, x: T)
    ensures Occurrences(xs + [y], x) == Occurrences(xs, x) + if y == x then 1 else 0
  {
    assert (xs + [y])[..|xs|] == xs;
  }
}
