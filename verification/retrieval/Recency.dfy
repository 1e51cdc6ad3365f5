/** Keys in order of last use, and what a bounded cache of them holds. */
module Recency {

  predicate NoRepeats(s: seq<string>) {
    s == [] || (s[|s| - 1] !in s[..|s| - 1] && NoRepeats(s[..|s| - 1]))
  }

  function Minus(s: seq<string>, gone: set<string>): seq<string> {
    if s == [] then []
    else Minus(s[..|s| - 1], gone) + if s[|s| - 1] in gone then [] else [s[|s| - 1]]
  }

  /** `k` becomes the last used key. */
  function Touch(s: seq<string>, k: string): seq<string> {
    Minus(s, {k}) + [k]
  }

  /** The last `capacity` keys. */
  function Trim(s: seq<string>, capacity: nat): seq<string> {
    if |s| > capacity then s[|s| - capacity..] else s
  }

  lemma TrimRest(s: seq<string>, capacity: nat)
    requires |s| > capacity
    ensures Trim(s[1..], capacity) == Trim(s, capacity)
  {
  }

  /** The distinct keys of a history of uses, in order of last use. */
  function LastUsed(history: seq<string>): seq<string> {
    if history == [] then [] else Touch(LastUsed(history[..|history| - 1]), history[|history| - 1])
  }

  /** The `capacity` most recently used distinct keys, least recent first. */
  function Recent(history: seq<string>, capacity: nat): seq<string> {
    Trim(LastUsed(history), capacity)
  }

  predicate IsSuffix(s: seq<string>, t: seq<string>) {
    |s| <= |t| && t[|t| - |s|..] == s
  }

  // ---- Minus ----

  lemma {:induction false} NoRepeatsSplit(a: seq<string>, b: seq<string>)
    ensures NoRepeats(a + b) <==> NoRepeats(a) && NoRepeats(b) && forall k <- b :: k !in a
  {
    if b == [] {
      assert a + b == a;
    } else {
      var init, last := b[..|b| - 1], b[|b| - 1];
      NoRepeatsSplit(a, init);
      assert (a + b)[..|a + b| - 1] == a + init;
      assert b == init + [last];
    }
  }

  lemma NoRepeatsNext(s: seq<string>, k: string)
    ensures NoRepeats(s + [k]) <==> NoRepeats(s) && k !in s
  {
  }

  lemma {:induction false} MinusAppend(a: seq<string>, b: seq<string>, gone: set<string>)
    ensures Minus(a + b, gone) == Minus(a, gone) + Minus(b, gone)
  {
    if b == [] {
      assert a + b == a;
    } else {
      var init, last := b[..|b| - 1], b[|b| - 1];
      MinusAppend(a, init, gone);
      assert (a + b)[..|a + b| - 1] == a + init && (a + b)[|a + b| - 1] == last;
    }
  }

  lemma {:induction false} MinusMembers(s: seq<string>, gone: set<string>)
    ensures forall k :: k in Minus(s, gone) <==> k in s && k !in gone
    ensures |Minus(s, gone)| <= |s|
  {
    if s != [] {
      MinusMembers(s[..|s| - 1], gone);
      assert s == s[..|s| - 1] + [s[|s| - 1]];
    }
  }

  lemma {:induction false} MinusNoRepeats(s: seq<string>, gone: set<string>)
    requires NoRepeats(s)
    ensures NoRepeats(Minus(s, gone))
  {
    if s != [] {
      MinusNoRepeats(s[..|s| - 1], gone);
      MinusMembers(s[..|s| - 1], gone);
      NoRepeatsNext(Minus(s[..|s| - 1], gone), s[|s| - 1]);
      assert Minus(s[..|s| - 1], gone) + [] == Minus(s[..|s| - 1], gone);
    }
  }

  lemma {:induction false} MinusTwice(s: seq<string>, a: set<string>, b: set<string>)
    ensures Minus(Minus(s, a), b) == Minus(s, a + b)
  {
    if s != [] {
      MinusTwice(s[..|s| - 1], a, b);
      var last := s[|s| - 1];
      MinusAppend(Minus(s[..|s| - 1], a), if last in a then [] else [last], b);
      assert Minus([last], b) == Minus([], b) + if last in b then [] else [last] by {
        assert [last][..0] == [];
      }
    }
  }

  lemma {:induction false} MinusNothing(s: seq<string>, gone: set<string>)
    requires forall k <- s :: k !in gone
    ensures Minus(s, gone) == s
  {
    if s != [] {
      MinusNothing(s[..|s| - 1], gone);
    }
  }

  lemma {:induction false} MinusOne(s: seq<string>, k: string)
    requires NoRepeats(s)
    ensures |Minus(s, {k})| == |s| - if k in s then 1 else 0
  {
    if s != [] {
      var init, last := s[..|s| - 1], s[|s| - 1];
      MinusOne(init, k);
      assert s == init + [last];
      if last == k {
        assert k !in init;
      }
    }
  }

  lemma TouchNoRepeats(s: seq<string>, k: string)
    requires NoRepeats(s)
    ensures NoRepeats(Touch(s, k)) && forall x :: x in Touch(s, k) <==> x in s || x == k
  {
    MinusNoRepeats(s, {k});
    MinusMembers(s, {k});
    NoRepeatsNext(Minus(s, {k}), k);
  }

  lemma {:induction false} LastUsedNoRepeats(history: seq<string>)
    ensures NoRepeats(LastUsed(history)) && forall k :: k in LastUsed(history) <==> k in history
  {
    if history != [] {
      var init, last := history[..|history| - 1], history[|history| - 1];
      LastUsedNoRepeats(init);
      TouchNoRepeats(LastUsed(init), last);
      assert history == init + [last];
    }
  }

  // ---- What the most recently used keys are ----

  /** `x` was used, and `y` was used after every use of `x`. */
  ghost predicate IsUsedBefore(history: seq<string>, x: string, y: string) {
    x in history && exists j :: 0 <= j < |history| && history[j] == y && x !in history[j..]
  }

  ghost predicate IsInOrderOfUse(s: seq<string>, history: seq<string>) {
    forall a, b :: 0 <= a < b < |s| ==> IsUsedBefore(history, s[a], s[b])
  }

  lemma {:induction false} MinusKeepsOrder(s: seq<string>, gone: set<string>, history: seq<string>)
    requires IsInOrderOfUse(s, history)
    ensures IsInOrderOfUse(Minus(s, gone), history)
  {
    if s != [] {
      var init, last := s[..|s| - 1], s[|s| - 1];
      MinusKeepsOrder(init, gone, history);
      MinusMembers(init, gone);
      forall x <- Minus(init, gone) ensures IsUsedBefore(history, x, last) {
        assert x in init;
      }
    }
  }

  /** Using `k` leaves the order of the keys before it, and makes it the newest. */
  lemma UsedBeforeNext(history: seq<string>, k: string, x: string, y: string)
    requires x != k && ((y == k && x in history) || IsUsedBefore(history, x, y))
    ensures IsUsedBefore(history + [k], x, y)
  {
    var longer := history + [k];
    var j: nat := |history|;
    if y != k {
      j :| 0 <= j < |history| && history[j] == y && x !in history[j..];
    }
    assert longer[j] == y && longer[j..] == history[j..] + [k];
  }

  lemma OrderOfUseNext(front: seq<string>, history: seq<string>, k: string)
    requires IsInOrderOfUse(front, history) && forall x <- front :: x != k && x in history
    ensures IsInOrderOfUse(front + [k], history + [k])
  {
    var s := front + [k];
    forall a, b | 0 <= a < b < |s| ensures IsUsedBefore(history + [k], s[a], s[b]) {
      assert s[a] == front[a] && s[a] in front;
      assert b < |front| ==> IsUsedBefore(history, front[a], front[b]);
      UsedBeforeNext(history, k, s[a], s[b]);
    }
  }

  lemma {:induction false} LastUsedInOrder(history: seq<string>)
    ensures IsInOrderOfUse(LastUsed(history), history)
  {
    if history != [] {
      var init, k := history[..|history| - 1], history[|history| - 1];
      LastUsedInOrder(init);
      TouchKeepsOrder(LastUsed(init), init, k);
      assert history == init + [k];
    }
  }

  lemma TouchKeepsOrder(used: seq<string>, history: seq<string>, k: string)
    requires IsInOrderOfUse(used, history) && used == LastUsed(history)
    ensures IsInOrderOfUse(Touch(used, k), history + [k])
  {
    MinusKeepsOrder(used, {k}, history);
    MinusMembers(used, {k});
    LastUsedNoRepeats(history);
    OrderOfUseNext(Minus(used, {k}), history, k);
  }

  lemma {:induction false} NoRepeatsCount(s: seq<string>)
    requires NoRepeats(s)
    ensures |set k | k in s| == |s|
  {
    if s != [] {
      var init, last := s[..|s| - 1], s[|s| - 1];
      NoRepeatsCount(init);
      assert s == init + [last];
      assert (set k | k in s) == (set k | k in init) + {last};
    }
  }

  lemma LastUsedCount(history: seq<string>)
    ensures |LastUsed(history)| == |set k | k in history|
    ensures forall k :: k in LastUsed(history) <==> k in history
  {
    LastUsedNoRepeats(history);
    NoRepeatsCount(LastUsed(history));
    assert (set k | k in LastUsed(history)) == (set k | k in history);
  }

  /** `x` was last used before all of `keys`. */
  ghost predicate IsOlder(history: seq<string>, x: string, keys: seq<string>) {
    forall y <- keys :: IsUsedBefore(history, x, y)
  }

  /** The most recently used keys: they are listed in order of last use, as many as there are or the capacity allows,
      and a used key that is not among them was last used before each of them. */
  lemma RecentMeaning(history: seq<string>, capacity: nat)
    ensures
      var r, n := Recent(history, capacity), |set k | k in history|;
      && |r| == (if n < capacity then n else capacity)
      && (forall k <- r :: k in history)
      && IsInOrderOfUse(r, history)
      && (forall x <- history :: x !in r ==> IsOlder(history, x, r))
  {
    var used, r := LastUsed(history), Recent(history, capacity);
    LastUsedInOrder(history);
    LastUsedCount(history);
    OrderOfParts(used[..|used| - |r|], r, history);
    assert used == used[..|used| - |r|] + r;
  }

  lemma OrderOfParts(front: seq<string>, r: seq<string>, history: seq<string>)
    requires IsInOrderOfUse(front + r, history)
    ensures IsInOrderOfUse(r, history)
    ensures forall x <- front :: IsOlder(history, x, r)
  {
    var s := front + r;
    forall a, b | 0 <= a < b < |r| ensures IsUsedBefore(history, r[a], r[b]) {
      assert s[|front| + a] == r[a] && s[|front| + b] == r[b];
    }
    forall x <- front, y <- r ensures IsUsedBefore(history, x, y) {
      var a :| 0 <= a < |front| && front[a] == x;
      var b :| 0 <= b < |r| && r[b] == y;
      assert s[a] == x && s[|front| + b] == y;
    }
  }

  // ---- A bounded cache that loses keys in between ----

  /** The cache holds the most recently used keys except those `gone`; it holds them all, or as many as its capacity
      leaves room for without them. */
  ghost predicate Holds(order: seq<string>, used: seq<string>, gone: set<string>, capacity: nat) {
    && NoRepeats(used)
    && |order| <= capacity
    && IsSuffix(order, Minus(used, gone))
    && (order == Minus(used, gone) || |order| + |gone| >= capacity)
  }

  lemma HeldIsUsed(order: seq<string>, used: seq<string>, gone: set<string>, capacity: nat, k: string)
    requires Holds(order, used, gone, capacity) && k in order
    ensures k in used && k !in gone && NoRepeats(order)
  {
    var kept := Minus(used, gone);
    MinusMembers(used, gone);
    MinusNoRepeats(used, gone);
    var front := kept[..|kept| - |order|];
    assert kept == front + order;
    NoRepeatsSplit(front, order);
  }

  /** Removing a key from a suffix and from the whole. */
  lemma SuffixMinus(order: seq<string>, kept: seq<string>, k: string)
    requires IsSuffix(order, kept)
    ensures IsSuffix(Minus(order, {k}), Minus(kept, {k}))
    ensures IsSuffix(Touch(order, k), Touch(kept, k))
  {
    var front := kept[..|kept| - |order|];
    assert kept == front + order;
    MinusAppend(front, order, {k});
    assert Touch(kept, k) == Minus(front, {k}) + Touch(order, k);
  }

  /** Expiry removes a key, and it is gone until it is stored again. */
  lemma ExpireHolds(order: seq<string>, used: seq<string>, gone: set<string>, capacity: nat, k: string)
    requires Holds(order, used, gone, capacity) && k in order
    ensures Holds(Minus(order, {k}), used, gone + {k}, capacity)
  {
    HeldIsUsed(order, used, gone, capacity, k);
    MinusTwice(used, gone, {k});
    SuffixMinus(order, Minus(used, gone), k);
    MinusOne(order, k);
  }

  /** Touching commutes with leaving out other keys. */
  lemma TouchMinus(used: seq<string>, gone: set<string>, k: string)
    requires NoRepeats(used)
    ensures Minus(Touch(used, k), gone - {k}) == Touch(Minus(used, gone), k)
  {
    MinusTwice(used, {k}, gone - {k});
    MinusTwice(used, gone, {k});
    assert {k} + (gone - {k}) == gone + {k};
    MinusAppend(Minus(used, {k}), [k], gone - {k});
    assert [k][..0] == [];
    assert Minus([k], gone - {k}) == Minus([], gone - {k}) + [k];
  }

  lemma TrimSuffix(s: seq<string>, t: seq<string>, capacity: nat)
    requires IsSuffix(s, t)
    ensures IsSuffix(Trim(s, capacity), t) && |Trim(s, capacity)| <= capacity
    ensures s == t ==> Trim(s, capacity) == t || |Trim(s, capacity)| == capacity
  {
  }

  lemma TouchLength(order: seq<string>, k: string)
    requires NoRepeats(order)
    ensures |Touch(order, k)| == |order| + if k in order then 0 else 1
  {
  }

  lemma WithoutOne(gone: set<string>, k: string)
    ensures |gone - {k}| == |gone| - if k in gone then 1 else 0
  {
  }

  /** Using a key, whether it is held or gone, makes it the last one; the oldest make room. */
  lemma UseHolds(order: seq<string>, used: seq<string>, gone: set<string>, capacity: nat, k: string)
    requires Holds(order, used, gone, capacity)
    ensures Holds(Trim(Touch(order, k), capacity), Touch(used, k), gone - {k}, capacity)
  {
    var kept := Minus(used, gone);
    TouchNoRepeats(used, k);
    TouchMinus(used, gone, k);
    SuffixMinus(order, kept, k);
    TrimSuffix(Touch(order, k), Touch(kept, k), capacity);
    var trimmed := Trim(Touch(order, k), capacity);
    assert trimmed == Touch(kept, k) || |trimmed| + |gone - {k}| >= capacity by {
      if order != kept {
        HoldsNoRepeats(order, used, gone, capacity);
        TouchLength(order, k);
        WithoutOne(gone, k);
        if k in order {
          HeldIsUsed(order, used, gone, capacity, k);
        }
      }
    }
  }

  lemma HoldsNoRepeats(order: seq<string>, used: seq<string>, gone: set<string>, capacity: nat)
    requires Holds(order, used, gone, capacity)
    ensures NoRepeats(order)
  {
    if order != [] {
      HeldIsUsed(order, used, gone, capacity, order[0]);
    }
  }

  /** A hit moves its key to the end without evicting. */
  lemma HitHolds(order: seq<string>, used: seq<string>, gone: set<string>, capacity: nat, k: string)
    requires Holds(order, used, gone, capacity) && k in order
    ensures Holds(Touch(order, k), Touch(used, k), gone, capacity)
  {
    HeldIsUsed(order, used, gone, capacity, k);
    UseHolds(order, used, gone, capacity, k);
    MinusOne(order, k);
    assert gone - {k} == gone;
  }

  /** Once nothing is gone, the cache holds exactly the most recently used keys. */
  lemma NothingGone(order: seq<string>, used: seq<string>, capacity: nat)
    ensures NoRepeats(used) ==> (Holds(order, used, {}, capacity) <==> order == Trim(used, capacity))
  {
    MinusNothing(used, {});
    if order == Trim(used, capacity) {
      assert used[0..] == used;
    }
  }
}
