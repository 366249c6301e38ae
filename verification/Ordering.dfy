/** Sorting by a strict order: the result depends on the elements alone, not on the order they came in. */
module Ordering {

  ghost predicate Strict<T(!new)>(less: (T, T) -> bool) {
    && (forall x :: !less(x, x))
    && (forall x, y, z :: less(x, y) && less(y, z) ==> less(x, z))
  }

  /** Any two elements at different places compare one way or the other. */
  ghost predicate Comparable<T(!new)>(less: (T, T) -> bool, xs: seq<T>) {
    forall i, j :: 0 <= i < j < |xs| ==> less(xs[i], xs[j]) || less(xs[j], xs[i])
  }

  ghost predicate Sorted<T(!new)>(less: (T, T) -> bool, xs: seq<T>) {
    forall i, j :: 0 <= i < j < |xs| ==> less(xs[i], xs[j])
  }

  function Insert<T>(less: (T, T) -> bool, x: T, xs: seq<T>): seq<T> {
    if xs == [] || less(x, xs[0]) then [x] + xs else [xs[0]] + Insert(less, x, xs[1..])
  }

  function Sort<T>(less: (T, T) -> bool, xs: seq<T>): seq<T> {
    if xs == [] then [] else Insert(less, xs[|xs| - 1], Sort(less, xs[..|xs| - 1]))
  }

  lemma {:induction false} InsertKeeps<T>(less: (T, T) -> bool, x: T, xs: seq<T>)
    ensures multiset(Insert(less, x, xs)) == multiset(xs) + multiset{x}
  {
    if xs != [] && !less(x, xs[0]) {
      InsertKeeps(less, x, xs[1..]);
      assert xs == [xs[0]] + xs[1..];
    }
  }

  lemma {:induction false} SortKeeps<T>(less: (T, T) -> bool, xs: seq<T>)
    ensures multiset(Sort(less, xs)) == multiset(xs)
  {
    if xs != [] {
      var last := xs[|xs| - 1];
      SortKeeps(less, xs[..|xs| - 1]);
      InsertKeeps(less, last, Sort(less, xs[..|xs| - 1]));
      assert xs == xs[..|xs| - 1] + [last];
    }
  }

  lemma {:induction false} InsertSorts<T(!new)>(less: (T, T) -> bool, x: T, xs: seq<T>)
    requires Strict(less) && Sorted(less, xs) && forall y :: y in xs ==> less(x, y) || less(y, x)
    ensures Sorted(less, Insert(less, x, xs))
  {
    if xs != [] {
      if less(x, xs[0]) {
        assert forall j :: 0 < j < |xs| ==> less(x, xs[j]);
      } else {
        var rest := xs[1..];
        assert forall y :: y in rest ==> y in xs;
        InsertSorts(less, x, rest);
        InsertKeeps(less, x, rest);
        var r := Insert(less, x, rest);
        forall j | 0 <= j < |r|
          ensures less(xs[0], r[j])
        {
          assert r[j] in multiset(r);
          if r[j] in rest {
            var k :| 0 <= k < |rest| && rest[k] == r[j];
            assert less(xs[0], xs[k + 1]);
          } else {
            assert r[j] == x && xs[0] in xs;
          }
        }
      }
    }
  }

  lemma {:induction false} SortSorts<T(!new)>(less: (T, T) -> bool, xs: seq<T>)
    requires Strict(less) && Comparable(less, xs)
    ensures Sorted(less, Sort(less, xs))
  {
    if xs != [] {
      var rest, last := xs[..|xs| - 1], xs[|xs| - 1];
      SortSorts(less, rest);
      SortKeeps(less, rest);
      forall y | y in Sort(less, rest)
        ensures less(last, y) || less(y, last)
      {
        assert y in multiset(Sort(less, rest));
        var i :| 0 <= i < |rest| && rest[i] == y;
        assert xs[i] == y;
      }
      InsertSorts(less, last, Sort(less, rest));
    }
  }

  lemma FirstIsLeast<T(!new)>(less: (T, T) -> bool, xs: seq<T>, x: T)
    requires Sorted(less, xs) && x in xs
    ensures x == xs[0] || less(xs[0], x)
  {
    var i :| 0 <= i < |xs| && xs[i] == x;
  }

  lemma SameFirst<T(!new)>(less: (T, T) -> bool, a: seq<T>, b: seq<T>)
    requires Strict(less) && Sorted(less, a) && Sorted(less, b) && multiset(a) == multiset(b) && a != [] && b != []
    ensures a[0] == b[0]
  {
    assert a[0] in multiset(b) && b[0] in multiset(a);
    FirstIsLeast(less, a, b[0]);
    FirstIsLeast(less, b, a[0]);
  }

  lemma RestElements<T>(xs: seq<T>)
    requires xs != []
    ensures multiset(xs[1..]) == multiset(xs) - multiset{xs[0]}
  {
    assert xs == [xs[0]] + xs[1..];
  }

  /** There is one sorted arrangement of the same elements. */
  lemma {:induction false} SortedIsUnique<T(!new)>(less: (T, T) -> bool, a: seq<T>, b: seq<T>)
    requires Strict(less) && Sorted(less, a) && Sorted(less, b) && multiset(a) == multiset(b)
    ensures a == b
  {
    assert |multiset(a)| == |a| && |multiset(b)| == |b|;
    if a != [] {
      SameFirst(less, a, b);
      RestElements(a);
      RestElements(b);
      SortedIsUnique(less, a[1..], b[1..]);
      assert a == [a[0]] + a[1..] && b == [b[0]] + b[1..];
    }
  }

  lemma ComparableAnyOrder<T(!new)>(less: (T, T) -> bool, xs: seq<T>, ys: seq<T>)
    requires Strict(less) && Comparable(less, xs) && multiset(xs) == multiset(ys)
    ensures Comparable(less, ys)
  {
    forall i, j | 0 <= i < j < |ys|
      ensures less(ys[i], ys[j]) || less(ys[j], ys[i])
    {
      assert ys[i] in multiset(xs) && ys[j] in multiset(xs);
      var m :| 0 <= m < |xs| && xs[m] == ys[i];
      if ys[i] == ys[j] {
        NoTwins(less, xs, ys[i]);
        Twins(ys, i, j);
        assert false;
      }
      var n :| 0 <= n < |xs| && xs[n] == ys[j];
    }
  }

  lemma {:induction false} NoTwins<T(!new)>(less: (T, T) -> bool, xs: seq<T>, x: T)
    requires Strict(less) && Comparable(less, xs)
    ensures multiset(xs)[x] <= 1
  {
    if xs != [] {
      assert xs == [xs[0]] + xs[1..];
      NoTwins(less, xs[1..], x);
      assert forall k :: 0 < k < |xs| ==> xs[k] != xs[0];
      assert xs[0] !in xs[1..];
    }
  }

  lemma Twins<T>(xs: seq<T>, i: nat, j: nat)
    requires i < j < |xs| && xs[i] == xs[j]
    ensures multiset(xs)[xs[i]] >= 2
  {
    assert xs == xs[..i] + [xs[i]] + xs[i + 1..j] + [xs[j]] + xs[j + 1..];
  }

  /** Sorting forgets the order the elements came in. */
  lemma SortForgetsOrder<T(!new)>(less: (T, T) -> bool, xs: seq<T>, ys: seq<T>)
    requires Strict(less) && Comparable(less, xs) && multiset(xs) == multiset(ys)
    ensures Sort(less, xs) == Sort(less, ys)
  {
    ComparableAnyOrder(less, xs, ys);
    SortSorts(less, xs);
    SortSorts(less, ys);
    SortKeeps(less, xs);
    SortKeeps(less, ys);
    SortedIsUnique(less, Sort(less, xs), Sort(less, ys));
  }

  // ----- Strings by code point -----

  predicate TextLess(s: string, t: string) {
    t != "" && (s == "" || s[0] < t[0] || (s[0] == t[0] && TextLess(s[1..], t[1..])))
  }

  lemma {:induction false} TextNotLessItself(s: string)
    ensures !TextLess(s, s)
  {
    if s != "" {
      TextNotLessItself(s[1..]);
    }
  }

  lemma {:induction false} TextLessTransitive(s: string, t: string, u: string)
    requires TextLess(s, t) && TextLess(t, u)
    ensures TextLess(s, u)
  {
    if s != "" && s[0] == t[0] == u[0] {
      TextLessTransitive(s[1..], t[1..], u[1..]);
    }
  }

  lemma {:induction false} TextLessTotal(s: string, t: string)
    ensures s == t || TextLess(s, t) || TextLess(t, s)
  {
    if s != "" && t != "" && s[0] == t[0] {
      TextLessTotal(s[1..], t[1..]);
      assert s == [s[0]] + s[1..] && t == [t[0]] + t[1..];
    }
  }
}
