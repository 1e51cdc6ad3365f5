/** Optional values, sequences mapped, joined and filtered, and the stable sort of Python's `sorted`. */
module Collections {

  datatype Option<+T> = None | Some(value: T)

  /** A width, a budget or a damping: the source raises for any below 1, or guards against it. */
  type Positive = n: nat | n >= 1 witness 1

  function Concat<T>(parts: seq<seq<T>>): seq<T> {
    if parts == [] then [] else parts[0] + Concat(parts[1..])
  }

  function FlatMap<S, T>(f: S -> seq<T>, s: seq<S>): seq<T> {
    if s == [] then [] else FlatMap(f, s[..|s| - 1]) + f(s[|s| - 1])
  }

  // ---- Concat ----

  lemma {:induction false} ConcatAppend<T>(a: seq<seq<T>>, b: seq<seq<T>>)
    ensures Concat(a + b) == Concat(a) + Concat(b)
  {
    if a == [] {
      assert a + b == b;
    } else {
      assert (a + b)[1..] == a[1..] + b;
      ConcatAppend(a[1..], b);
    }
  }

  lemma ConcatSingle<T>(x: seq<T>)
    ensures Concat([x]) == x
  {
  }

  lemma ConcatNext<T>(lists: seq<seq<T>>, items: seq<T>)
    ensures Concat(lists + [items]) == Concat(lists) + items
  {
    ConcatAppend(lists, [items]);
    ConcatSingle(items);
  }

  lemma {:induction false} ConcatHolds<T>(parts: seq<seq<T>>, i: nat, x: T)
    requires i < |parts| && x in parts[i]
    ensures x in Concat(parts)
  {
    if i > 0 {
      ConcatHolds(parts[1..], i - 1, x);
    }
  }

  // ---- FlatMap ----

  lemma FlatMapNext<S, T>(f: S -> seq<T>, s: seq<S>, x: S)
    ensures FlatMap(f, s + [x]) == FlatMap(f, s) + f(x)
  {
  }

  lemma {:induction false} FlatMapAppend<S, T>(f: S -> seq<T>, a: seq<S>, b: seq<S>)
    ensures FlatMap(f, a + b) == FlatMap(f, a) + FlatMap(f, b)
  {
    if b == [] {
      assert a + b == a;
    } else {
      var init, last := b[..|b| - 1], b[|b| - 1];
      assert b == init + [last] && a + b == a + init + [last];
      FlatMapAppend(f, a, init);
      FlatMapNext(f, a + init, last);
      FlatMapNext(f, init, last);
    }
  }

  lemma {:induction false} FlatMapOrigin<S, T>(f: S -> seq<T>, s: seq<S>, y: T) returns (i: nat)
    requires y in FlatMap(f, s)
    ensures i < |s| && y in f(s[i])
  {
    if y in f(s[|s| - 1]) {
      i := |s| - 1;
    } else {
      i := FlatMapOrigin(f, s[..|s| - 1], y);
    }
  }

  lemma {:induction false} FlatMapHolds<S, T>(f: S -> seq<T>, s: seq<S>, i: nat, y: T)
    requires i < |s| && y in f(s[i])
    ensures y in FlatMap(f, s)
  {
    if i < |s| - 1 {
      FlatMapHolds(f, s[..|s| - 1], i, y);
    }
  }

  lemma {:induction false} FlatMapSame<S, T>(f: S -> seq<T>, g: S -> seq<T>, s: seq<S>)
    requires forall x <- s :: f(x) == g(x)
    ensures FlatMap(f, s) == FlatMap(g, s)
  {
    if s != [] {
      FlatMapSame(f, g, s[..|s| - 1]);
    }
  }

  lemma {:induction false} FlatMapNothing<S, T>(f: S -> seq<T>, s: seq<S>)
    requires forall x <- s :: f(x) == []
    ensures FlatMap(f, s) == []
  {
    if s != [] {
      FlatMapNothing(f, s[..|s| - 1]);
    }
  }

  /** Mapping the parts of parts is mapping the parts. */
  lemma {:induction false} FlatMapTwice<R, S, T>(f: S -> seq<T>, g: R -> seq<S>, h: R -> seq<T>, s: seq<R>)
    requires forall x <- s :: h(x) == FlatMap(f, g(x))
    ensures FlatMap(h, s) == FlatMap(f, FlatMap(g, s))
  {
    if s != [] {
      var init := s[..|s| - 1];
      FlatMapTwice(f, g, h, init);
      FlatMapAppend(f, FlatMap(g, init), g(s[|s| - 1]));
    }
  }

  // ---- Filter ----

  function Filter<T>(p: T -> bool, s: seq<T>): seq<T> {
    if s == [] then [] else Filter(p, s[..|s| - 1]) + if p(s[|s| - 1]) then [s[|s| - 1]] else []
  }

  lemma {:induction false} FilterAppend<T>(p: T -> bool, a: seq<T>, b: seq<T>)
    ensures Filter(p, a + b) == Filter(p, a) + Filter(p, b)
  {
    if b == [] {
      assert a + b == a;
    } else {
      FilterAppend(p, a, b[..|b| - 1]);
      assert (a + b)[..|a + b| - 1] == a + b[..|b| - 1];
    }
  }

  lemma {:induction false} FilterMembers<T>(p: T -> bool, s: seq<T>)
    ensures forall x :: x in Filter(p, s) <==> x in s && p(x)
  {
    if s != [] {
      FilterMembers(p, s[..|s| - 1]);
      assert s == s[..|s| - 1] + [s[|s| - 1]];
    }
  }

  lemma {:induction false} FilterCount<T>(p: T -> bool, s: seq<T>, x: T)
    ensures multiset(Filter(p, s))[x] == if p(x) then multiset(s)[x] else 0
  {
    if s != [] {
      FilterCount(p, s[..|s| - 1], x);
      assert s == s[..|s| - 1] + [s[|s| - 1]];
    }
  }

  // ---- Stable sorting ----

  /** A strict order in which ties are allowed: `before(x, y)` when `x` must come first. */
  ghost predicate IsStrictWeak<T(!new)>(before: (T, T) -> bool) {
    && (forall x :: !before(x, x))
    && (forall x, y, z :: before(x, y) && before(y, z) ==> before(x, z))
    && (forall x, y, z :: !before(x, y) && !before(y, z) ==> !before(x, z))
  }

  predicate IsOrdered<T>(s: seq<T>, before: (T, T) -> bool) {
    forall i, j :: 0 <= i < j < |s| ==> !before(s[j], s[i])
  }

  /** Places `x`, which comes after all of `s` in the input, behind everything it is not before. */
  function Insert<T>(s: seq<T>, x: T, before: (T, T) -> bool): (r: seq<T>)
    ensures |r| == |s| + 1
  {
    if s == [] then [x]
    else if before(x, s[|s| - 1]) then Insert(s[..|s| - 1], x, before) + [s[|s| - 1]]
    else s + [x]
  }

  function Sort<T>(s: seq<T>, before: (T, T) -> bool): (r: seq<T>)
    ensures |r| == |s|
  {
    if s == [] then [] else Insert(Sort(s[..|s| - 1], before), s[|s| - 1], before)
  }

  lemma {:induction false} InsertKeeps<T>(s: seq<T>, x: T, before: (T, T) -> bool)
    ensures multiset(Insert(s, x, before)) == multiset(s) + multiset{x}
  {
    if s != [] {
      assert s == s[..|s| - 1] + [s[|s| - 1]];
      if before(x, s[|s| - 1]) {
        InsertKeeps(s[..|s| - 1], x, before);
      }
    }
  }

  lemma {:induction false} InsertOrders<T(!new)>(s: seq<T>, x: T, before: (T, T) -> bool)
    requires IsStrictWeak(before) && IsOrdered(s, before)
    ensures IsOrdered(Insert(s, x, before), before)
  {
    if s != [] {
      var init, last := s[..|s| - 1], s[|s| - 1];
      if before(x, last) {
        InsertOrders(init, x, before);
        InsertKeeps(init, x, before);
        var r := Insert(init, x, before);
        forall i | 0 <= i < |r| ensures !before(last, r[i]) {
          assert r[i] in multiset(r);
          assert r[i] == x || r[i] in init;
        }
      } else {
        forall i | 0 <= i < |s| ensures !before(x, s[i]) {
          assert i < |s| - 1 ==> !before(last, s[i]);
        }
      }
    }
  }

  lemma {:induction false} SortIsSorted<T(!new)>(s: seq<T>, before: (T, T) -> bool)
    requires IsStrictWeak(before)
    ensures IsOrdered(Sort(s, before), before) && multiset(Sort(s, before)) == multiset(s)
  {
    if s != [] {
      var init, last := s[..|s| - 1], s[|s| - 1];
      SortIsSorted(init, before);
      InsertOrders(Sort(init, before), last, before);
      InsertKeeps(Sort(init, before), last, before);
      assert s == init + [last];
    }
  }

  lemma SortMember<T>(s: seq<T>, before: (T, T) -> bool, x: T)
    ensures x in Sort(s, before) <==> x in s
  {
    SortCounts(s, before);
    assert x in Sort(s, before) <==> x in multiset(Sort(s, before));
  }

  lemma SortMembers<T>(s: seq<T>, before: (T, T) -> bool)
    ensures forall x :: x in Sort(s, before) <==> x in s
  {
    forall x ensures x in Sort(s, before) <==> x in s {
      SortMember(s, before, x);
    }
  }

  lemma {:induction false} SortCounts<T>(s: seq<T>, before: (T, T) -> bool)
    ensures multiset(Sort(s, before)) == multiset(s)
  {
    if s != [] {
      SortCounts(s[..|s| - 1], before);
      InsertKeeps(Sort(s[..|s| - 1], before), s[|s| - 1], before);
      assert s == s[..|s| - 1] + [s[|s| - 1]];
    }
  }

  /** Elements of one rank keep their input order: any class of mutually unordered elements. */
  lemma {:induction false} InsertIsStable<T(!new)>(s: seq<T>, x: T, before: (T, T) -> bool, rank: T -> bool)
    requires forall y, z :: rank(y) && rank(z) ==> !before(y, z)
    requires IsOrdered(s, before)
    ensures Filter(rank, Insert(s, x, before)) == Filter(rank, s + [x])
  {
    FilterAppend(rank, s, [x]);
    if s != [] && before(x, s[|s| - 1]) {
      var init, last := s[..|s| - 1], s[|s| - 1];
      InsertIsStable(init, x, before, rank);
      FilterAppend(rank, Insert(init, x, before), [last]);
      FilterAppend(rank, init, [x]);
      FilterAppend(rank, init, [last]);
      assert s == init + [last];
    }
  }

  lemma {:induction false} SortIsStable<T(!new)>(s: seq<T>, before: (T, T) -> bool, rank: T -> bool)
    requires IsStrictWeak(before) && forall y, z :: rank(y) && rank(z) ==> !before(y, z)
    ensures Filter(rank, Sort(s, before)) == Filter(rank, s)
  {
    if s != [] {
      var init, last := s[..|s| - 1], s[|s| - 1];
      SortIsSorted(init, before);
      SortIsStable(init, before, rank);
      InsertIsStable(Sort(init, before), last, before, rank);
      FilterAppend(rank, Sort(init, before), [last]);
      FilterAppend(rank, init, [last]);
      assert s == init + [last];
    }
  }

  lemma {:induction false} InsertSame<T>(s: seq<T>, x: T, f: (T, T) -> bool, g: (T, T) -> bool)
    requires forall y <- s :: f(x, y) == g(x, y)
    ensures Insert(s, x, f) == Insert(s, x, g)
  {
    if s != [] {
      InsertSame(s[..|s| - 1], x, f, g);
    }
  }

  /** Orders that agree on the elements sort them alike. */
  lemma {:induction false} SortSame<T>(s: seq<T>, f: (T, T) -> bool, g: (T, T) -> bool)
    requires forall x <- s, y <- s :: f(x, y) == g(x, y)
    ensures Sort(s, f) == Sort(s, g)
  {
    if s != [] {
      var init, last := s[..|s| - 1], s[|s| - 1];
      assert s == init + [last];
      SortSame(init, f, g);
      forall y <- Sort(init, g) ensures f(last, y) == g(last, y) {
        SortMember(init, g, y);
        assert y in s && last in s;
      }
      InsertSame(Sort(init, g), last, f, g);
    }
  }
}
