/** Sorting by a strict total order, and the byte order of strings (which for UTF-8 is the
    order of code points). */
module Ordering {
  import opened Basics

  ghost predicate StrictTotal<T(!new)>(lt: (T, T) -> bool) {
    && (forall a :: !lt(a, a))
    && (forall a, b, c :: lt(a, b) && lt(b, c) ==> lt(a, c))
    && (forall a, b :: a != b ==> lt(a, b) || lt(b, a))
  }

  predicate Sorted<T>(xs: seq<T>, lt: (T, T) -> bool) {
    forall i, j | 0 <= i < j < |xs| :: lt(xs[i], xs[j])
  }

  function Insert<T(==)>(x: T, xs: seq<T>, lt: (T, T) -> bool): (r: seq<T>)
    ensures multiset(r) == multiset(xs) + multiset{x}
  {
    if xs == [] then [x]
    else
      assert xs == [xs[0]] + xs[1..];
      if lt(x, xs[0]) then [x] + xs else [xs[0]] + Insert(x, xs[1..], lt)
  }

  /** Stands for the library sort: it returns a permutation, and by the laws below the order
      leaves it no choice which. */
  function Sort<T(==)>(xs: seq<T>, lt: (T, T) -> bool): (r: seq<T>)
    ensures multiset(r) == multiset(xs)
  {
    if xs == [] then []
    else
      assert xs == [xs[0]] + xs[1..];
      Insert(xs[0], Sort(xs[1..], lt), lt)
  }

  lemma SameMultisetSameElems<T>(xs: seq<T>, ys: seq<T>)
    requires multiset(xs) == multiset(ys)
    ensures forall x :: x in xs <==> x in ys
    ensures |xs| == |ys|
  {
    forall x ensures x in xs <==> x in ys {
      assert x in xs <==> x in multiset(xs);
      assert x in ys <==> x in multiset(ys);
    }
    assert |xs| == |multiset(xs)| && |ys| == |multiset(ys)|;
  }

  lemma {:induction false} InsertSorted<T(!new)>(x: T, xs: seq<T>, lt: (T, T) -> bool)
    requires StrictTotal(lt) && Sorted(xs, lt) && x !in xs
    ensures Sorted(Insert(x, xs, lt), lt)
  {
    if xs != [] {
      var tail := xs[1..];
      if lt(x, xs[0]) {
        assert forall j | 0 <= j < |xs| :: j == 0 || lt(xs[0], xs[j]);
      } else {
        InsertSorted(x, tail, lt);
        var rest := Insert(x, tail, lt);
        SameMultisetSameElems(rest, tail + [x]);
        forall y | y in rest ensures lt(xs[0], y) {
          assert y in tail + [x];
        }
      }
    }
  }

  lemma {:induction false} SortSorts<T(!new)>(xs: seq<T>, lt: (T, T) -> bool)
    requires StrictTotal(lt) && Distinct(xs)
    ensures Sorted(Sort(xs, lt), lt)
  {
    if xs != [] {
      var tail := xs[1..];
      SortSorts(tail, lt);
      SameMultisetSameElems(Sort(tail, lt), tail);
      assert xs[0] !in tail;
      InsertSorted(xs[0], Sort(tail, lt), lt);
    }
  }

  /** A set of elements has only one strictly sorted listing. */
  lemma {:induction false} SortedUnique<T(!new)>(xs: seq<T>, ys: seq<T>, lt: (T, T) -> bool)
    requires StrictTotal(lt) && Sorted(xs, lt) && Sorted(ys, lt)
    requires forall x :: x in xs <==> x in ys
    ensures xs == ys
  {
    assert (xs != [] ==> xs[0] in ys) && (ys != [] ==> ys[0] in xs);
    if xs != [] && ys != [] {
      FirstIsLeast(xs, ys[0], lt);
      FirstIsLeast(ys, xs[0], lt);
      assert xs[0] == ys[0];
      forall x ensures x in xs[1..] <==> x in ys[1..] {
        TailElems(xs, x, lt);
        TailElems(ys, x, lt);
      }
      SortedUnique(xs[1..], ys[1..], lt);
      assert xs == [xs[0]] + xs[1..] && ys == [ys[0]] + ys[1..];
    }
  }

  lemma FirstIsLeast<T(!new)>(xs: seq<T>, y: T, lt: (T, T) -> bool)
    requires StrictTotal(lt) && Sorted(xs, lt) && y in xs
    ensures !lt(y, xs[0])
  {
    var i :| 0 <= i < |xs| && xs[i] == y;
    if i > 0 { assert lt(xs[0], xs[i]); }
  }

  lemma TailElems<T(!new)>(xs: seq<T>, x: T, lt: (T, T) -> bool)
    requires StrictTotal(lt) && Sorted(xs, lt) && xs != []
    ensures x in xs[1..] <==> x in xs && x != xs[0]
  {
    assert xs == [xs[0]] + xs[1..];
    assert forall i | 0 < i < |xs| :: lt(xs[0], xs[i]);
  }

  // ----- strings -----

  predicate Less(a: string, b: string) {
    b != "" && (a == "" || a[0] < b[0] || (a[0] == b[0] && Less(a[1..], b[1..])))
  }

  /** At the first place where they differ, a ends or has the smaller character. */
  predicate LessAt(a: string, b: string, i: int) {
    0 <= i <= |a| && i < |b| && a[..i] == b[..i] && (i == |a| || a[i] < b[i])
  }

  lemma FirstDiffers(a: string, b: string, i: int)
    requires a == "" || b == "" || a[0] != b[0]
    ensures 0 < i <= |a| && i <= |b| ==> a[..i] != b[..i]
  {
    if 0 < i <= |a| && i <= |b| { assert a[..i][0] != b[..i][0]; }
  }

  lemma {:induction false} LessIsFirstDifference(a: string, b: string)
    ensures Less(a, b) <==> exists i :: LessAt(a, b, i)
  {
    if a == "" || b == "" || a[0] != b[0] {
      if Less(a, b) { assert LessAt(a, b, 0); }
      if i :| LessAt(a, b, i) {
        FirstDiffers(a, b, i);
      }
    } else {
      LessIsFirstDifference(a[1..], b[1..]);
      if i :| LessAt(a[1..], b[1..], i) {
        assert a[..i + 1] == [a[0]] + a[1..][..i] && b[..i + 1] == [b[0]] + b[1..][..i];
        assert LessAt(a, b, i + 1);
      }
      if i :| LessAt(a, b, i) {
        assert a[1..][..i - 1] == a[..i][1..] && b[1..][..i - 1] == b[..i][1..];
        assert LessAt(a[1..], b[1..], i - 1);
      }
    }
  }

  lemma {:induction false} LessIrreflexive(a: string)
    ensures !Less(a, a)
  {
    if a != "" { LessIrreflexive(a[1..]); }
  }

  lemma {:induction false} LessTotal(a: string, b: string)
    ensures a == b || Less(a, b) || Less(b, a)
  {
    if a != "" && b != "" && a[0] == b[0] {
      LessTotal(a[1..], b[1..]);
      assert a == [a[0]] + a[1..] && b == [b[0]] + b[1..];
    }
  }

  lemma {:induction false} LessTransitive(a: string, b: string, c: string)
    requires Less(a, b) && Less(b, c)
    ensures Less(a, c)
  {
    if a != "" && a[0] == b[0] && b[0] == c[0] { LessTransitive(a[1..], b[1..], c[1..]); }
  }

  lemma LessStrictTotal()
    ensures StrictTotal(Less)
  {
    forall a ensures !Less(a, a) { LessIrreflexive(a); }
    forall a, b, c | Less(a, b) && Less(b, c) ensures Less(a, c) { LessTransitive(a, b, c); }
    forall a, b | a != b ensures Less(a, b) || Less(b, a) { LessTotal(a, b); }
  }
}
