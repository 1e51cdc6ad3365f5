/**
 Reciprocal rank fusion: items of several ranked lists are scored by the sum of `1 / (k + rank)` over the lists, and
 sorted by score.
 */
module RankFusion {
  import opened Collections

  datatype Stats = Stats(vectorHits: nat, ftsHits: nat, bothHits: nat)

  // ---- What the fusion computes ----

  predicate HasKey<T(==)>(items: seq<T>, key: T -> string, k: string) {
    exists i :: 0 <= i < |items| && key(items[i]) == k
  }

  /** The first item with each key, in order of appearance. */
  function Firsts<T(==)>(items: seq<T>, key: T -> string): seq<T> {
    if items == [] then []
    else
      var init, last := items[..|items| - 1], items[|items| - 1];
      Firsts(init, key) + if HasKey(init, key, key(last)) then [] else [last]
  }

  /** The rank of key `k`: that of its first item, counting from 1; 0 if it has none. */
  function Rank<T(==)>(items: seq<T>, key: T -> string, k: string): (r: nat)
    ensures r <= |items|
  {
    if items == [] then 0
    else
      var before := Rank(items[..|items| - 1], key, k);
      if before == 0 && key(items[|items| - 1]) == k then |items| else before
  }

  function Part(damp: Positive, rank: nat): real {
    1.0 / (damp + rank) as real
  }

  /** What a list adds to the score of key `k`. */
  function Share<T(==)>(items: seq<T>, key: T -> string, k: string, damp: Positive): real {
    if Rank(items, key, k) == 0 then 0.0 else Part(damp, Rank(items, key, k))
  }

  function Score<T(==)>(lists: seq<seq<T>>, key: T -> string, k: string, damp: Positive): real {
    if lists == [] then 0.0
    else Score(lists[..|lists| - 1], key, k, damp) + Share(lists[|lists| - 1], key, k, damp)
  }

  function Scorer<T(==)>(lists: seq<seq<T>>, key: T -> string, damp: Positive): T -> real {
    (x: T) => Score(lists, key, key(x), damp)
  }

  function ByScore<T>(score: T -> real): (T, T) -> bool {
    (a: T, b: T) => score(a) > score(b)
  }

  function Paired<T>(items: seq<T>, score: T -> real): (pairs: seq<(T, real)>)
    ensures |pairs| == |items| && forall i :: 0 <= i < |items| ==> pairs[i] == (items[i], score(items[i]))
  {
    seq(|items|, i requires 0 <= i < |items| => (items[i], score(items[i])))
  }

  function Fused<T(==)>(lists: seq<seq<T>>, key: T -> string, damp: Positive): seq<(T, real)> {
    var score := Scorer(lists, key, damp);
    Paired(Sort(Firsts(Concat(lists), key), ByScore(score)), score)
  }

  function KeySet<T(==)>(items: seq<T>, key: T -> string): set<string> {
    set i | 0 <= i < |items| :: key(items[i])
  }

  function StatsOf<T(==)>(lists: seq<seq<T>>, key: T -> string): Stats
    requires lists != []
  {
    var vector := KeySet(lists[0], key);
    var fts := if |lists| > 1 then KeySet(lists[1], key) else {};
    Stats(|vector - vector * fts|, |fts - vector * fts|, |vector * fts|)
  }

  // ---- The loops ----

  /** The dictionaries after the items read so far: the scores of the distinct keys, and their first items in insertion
      order. */
  ghost predicate Tallies<T>(
    read: seq<seq<T>>, key: T -> string, damp: Positive, order: seq<T>, scores: map<string, real>)
  {
    HoldsItems(read, key, order, scores) && HoldsScores(read, key, damp, scores)
  }

  ghost predicate HoldsItems<T>(read: seq<seq<T>>, key: T -> string, order: seq<T>, scores: map<string, real>) {
    order == Firsts(Concat(read), key) && forall k :: k in scores <==> HasKey(Concat(read), key, k)
  }

  ghost predicate HoldsScores<T>(read: seq<seq<T>>, key: T -> string, damp: Positive, scores: map<string, real>) {
    forall k <- scores :: scores[k] == Score(read, key, k, damp)
  }

  method ReciprocalRankFusion<T(==)>(lists: seq<seq<T>>, key: T -> string, damp: int)
    returns (fused: seq<(T, real)>, stats: Stats)
    ensures lists == [] || damp < 1 ==> fused == [] && stats == Stats(0, 0, 0)
    ensures lists != [] && damp >= 1 ==> fused == Fused(lists, key, damp) && stats == StatsOf(lists, key)
  {
    if lists == [] || !(damp >= 1) {
      return [], Stats(0, 0, 0);
    }
    var order, scores := Tally(lists, key, damp);
    var tallied: T -> real := (x: T) => if key(x) in scores then scores[key(x)] else 0.0;
    TalliedIsScored(lists, key, damp, order, scores, tallied);
    fused := Paired(Sort(order, ByScore(tallied)), tallied);
    stats := StatsOf(lists, key);
  }

  /** The outer loop. */
  method Tally<T(==)>(
    lists: seq<seq<T>>, key: T -> string, damp: Positive)
    returns (order: seq<T>, scores: map<string, real>)
    ensures Tallies(lists, key, damp, order, scores)
  {
    order, scores := [], map[];
    for i := 0 to |lists|
      invariant Tallies(lists[..i], key, damp, order, scores)
    {
      order, scores := TallyList(lists[..i], lists[i], key, damp, order, scores);
      assert lists[..i + 1] == lists[..i] + [lists[i]];
    }
    assert lists[..|lists|] == lists;
  }

  lemma TalliedIsScored<T>(
    lists: seq<seq<T>>, key: T -> string, damp: Positive, order: seq<T>, scores: map<string, real>, tallied: T -> real)
    requires Tallies(lists, key, damp, order, scores)
    requires forall x :: tallied(x) == if key(x) in scores then scores[key(x)] else 0.0
    ensures Paired(Sort(order, ByScore(tallied)), tallied) == Fused(lists, key, damp)
  {
    var score := Scorer(lists, key, damp);
    FirstsCover(Concat(lists), key);
    forall x <- order ensures tallied(x) == score(x) {
      assert key(x) in scores;
    }
    SortedAlike(order, tallied, score);
  }

  lemma SortedAlike<T>(items: seq<T>, f: T -> real, g: T -> real)
    requires forall x <- items :: f(x) == g(x)
    ensures Paired(Sort(items, ByScore(f)), f) == Paired(Sort(items, ByScore(g)), g)
  {
    SortSame(items, ByScore(f), ByScore(g));
    var sorted := Sort(items, ByScore(g));
    forall i | 0 <= i < |sorted| ensures f(sorted[i]) == g(sorted[i]) {
      SortMember(items, ByScore(g), sorted[i]);
      assert sorted[i] in items;
    }
  }

  /** One turn of the outer loop: the inner loop. */
  method TallyList<T(==)>(
    ghost read: seq<seq<T>>, items: seq<T>, key: T -> string, damp: Positive, order: seq<T>, scores: map<string, real>)
    returns (order': seq<T>, scores': map<string, real>)
    requires Tallies(read, key, damp, order, scores)
    ensures Tallies(read + [items], key, damp, order', scores')
  {
    order', scores' := order, scores;
    var seen: set<string> := {};
    NothingRead(read, key, damp, order, scores);
    for i := 0 to |items|
      invariant Tallies(read + [items[..i]], key, damp, order', scores')
      invariant forall k :: k in seen <==> HasKey(items[..i], key, k)
    {
      var k := key(items[i]);
      HasKeyNext(items[..i], items[i], key);
      assert items[..i + 1] == items[..i] + [items[i]];
      if k in seen {
        TallySeen(read, items[..i], items[i], key, damp, order', scores');
      } else {
        seen := seen + {k};
        order', scores' := TallyItem(read, items[..i], items[i], i + 1, key, damp, order', scores');
      }
    }
    assert items[..|items|] == items;
  }

  /** One turn of the inner loop, for a key not yet seen in this list. */
  method TallyItem<T(==)>(
    ghost read: seq<seq<T>>, ghost items: seq<T>, item: T, rank: nat, key: T -> string, damp: Positive,
    order: seq<T>, scores: map<string, real>)
    returns (order': seq<T>, scores': map<string, real>)
    requires Tallies(read + [items], key, damp, order, scores)
    requires rank == |items| + 1 && !HasKey(items, key, key(item))
    ensures Tallies(read + [items + [item]], key, damp, order', scores')
  {
    var k := key(item);
    order', scores' := order, scores;
    if k !in scores {
      scores' := scores'[k := 0.0];
      order' := order' + [item];
    }
    scores' := scores'[k := scores'[k] + Part(damp, rank)];
    TallyNew(read, items, item, key, damp, order, scores);
  }

  lemma HasKeyNext<T>(items: seq<T>, item: T, key: T -> string)
    ensures forall k :: HasKey(items + [item], key, k) <==> HasKey(items, key, k) || key(item) == k
  {
    var longer := items + [item];
    assert longer[|items|] == item && forall i :: 0 <= i < |items| ==> longer[i] == items[i];
  }

  lemma {:induction false} RankIsFirst<T>(items: seq<T>, key: T -> string, k: string)
    ensures
      var r := Rank(items, key, k);
      && (r == 0 <==> !HasKey(items, key, k))
      && (r > 0 ==> r <= |items| && key(items[r - 1]) == k && forall i :: 0 <= i < r - 1 ==> key(items[i]) != k)
  {
    if items != [] {
      RankIsFirst(items[..|items| - 1], key, k);
      HasKeyNext(items[..|items| - 1], items[|items| - 1], key);
      assert items == items[..|items| - 1] + [items[|items| - 1]];
    }
  }

  lemma {:induction false} ScoreOfAbsent<T>(lists: seq<seq<T>>, key: T -> string, k: string, damp: Positive)
    requires !HasKey(Concat(lists), key, k)
    ensures Score(lists, key, k, damp) == 0.0
  {
    if lists != [] {
      var init, last := lists[..|lists| - 1], lists[|lists| - 1];
      ConcatNext(init, last);
      assert lists == init + [last];
      assert forall i :: 0 <= i < |Concat(init)| ==> Concat(lists)[i] == Concat(init)[i];
      assert forall i :: 0 <= i < |last| ==> Concat(lists)[|Concat(init)| + i] == last[i];
      ScoreOfAbsent(init, key, k, damp);
      RankIsFirst(last, key, k);
    }
  }

  lemma NothingRead<T>(read: seq<seq<T>>, key: T -> string, damp: Positive, order: seq<T>, scores: map<string, real>)
    requires Tallies(read, key, damp, order, scores)
    ensures Tallies(read + [[]], key, damp, order, scores)
  {
    ConcatNext(read, []);
    assert Concat(read) + [] == Concat(read);
    forall k ensures Score(read + [[]], key, k, damp) == Score(read, key, k, damp) {
    }
  }

  /** Reading one more item appends it, and makes it a first item if its key is new. */
  lemma FirstsNext<T>(read: seq<seq<T>>, items: seq<T>, item: T, key: T -> string)
    ensures
      var before, after := Concat(read + [items]), Concat(read + [items + [item]]);
      && after == before + [item]
      && Firsts(after, key) == Firsts(before, key) + (if HasKey(before, key, key(item)) then [] else [item])
      && (HasKey(items, key, key(item)) ==> HasKey(before, key, key(item)))
      && forall k :: HasKey(after, key, k) <==> HasKey(before, key, k) || key(item) == k
  {
    var before := Concat(read + [items]);
    ConcatNext(read, items);
    ConcatNext(read, items + [item]);
    assert (before + [item])[..|before|] == before;
    HasKeyNext(before, item, key);
    if HasKey(items, key, key(item)) {
      var i :| 0 <= i < |items| && key(items[i]) == key(item);
      assert before[|Concat(read)| + i] == items[i];
    }
  }

  /** A key gains its share when it is first read in a list. */
  lemma ScoreGains<T>(read: seq<seq<T>>, items: seq<T>, item: T, key: T -> string, damp: Positive, k: string)
    ensures Score(read + [items + [item]], key, k, damp) == Score(read + [items], key, k, damp)
      + if key(item) == k && !HasKey(items, key, k) then Part(damp, |items| + 1) else 0.0
  {
    RankIsFirst(items, key, k);
    assert (items + [item])[..|items|] == items;
  }

  lemma TallySeen<T>(
    read: seq<seq<T>>, items: seq<T>, item: T, key: T -> string, damp: Positive,
    order: seq<T>, scores: map<string, real>)
    requires Tallies(read + [items], key, damp, order, scores) && HasKey(items, key, key(item))
    ensures Tallies(read + [items + [item]], key, damp, order, scores)
  {
    FirstsNext(read, items, item, key);
    forall k <- scores ensures scores[k] == Score(read + [items + [item]], key, k, damp) {
      ScoreGains(read, items, item, key, damp, k);
    }
  }

  lemma TallyNew<T>(
    read: seq<seq<T>>, items: seq<T>, item: T, key: T -> string, damp: Positive,
    order: seq<T>, scores: map<string, real>)
    requires Tallies(read + [items], key, damp, order, scores) && !HasKey(items, key, key(item))
    ensures
      var k := key(item);
      Tallies(read + [items + [item]], key, damp, if k in scores then order else order + [item],
              scores[k := (if k in scores then scores[k] else 0.0) + Part(damp, |items| + 1)])
  {
    var k := key(item);
    var scores' := scores[k := (if k in scores then scores[k] else 0.0) + Part(damp, |items| + 1)];
    ItemsOfNew(read, items, item, key, order, scores, scores'[k]);
    forall j <- scores' ensures scores'[j] == Score(read + [items + [item]], key, j, damp) {
      ScoreOfNew(read, items, item, key, damp, order, scores, j);
    }
  }

  lemma ItemsOfNew<T>(
    read: seq<seq<T>>, items: seq<T>, item: T, key: T -> string, order: seq<T>, scores: map<string, real>, v: real)
    requires HoldsItems(read + [items], key, order, scores)
    ensures
      var k := key(item);
      HoldsItems(read + [items + [item]], key, if k in scores then order else order + [item], scores[k := v])
  {
    FirstsNext(read, items, item, key);
    assert order + [] == order;
  }

  /** The scores after the item: that of its key has gained its part, the others are as before. */
  lemma ScoreOfNew<T>(
    read: seq<seq<T>>, items: seq<T>, item: T, key: T -> string, damp: Positive,
    order: seq<T>, scores: map<string, real>, j: string)
    requires Tallies(read + [items], key, damp, order, scores) && !HasKey(items, key, key(item))
    requires j in scores || j == key(item)
    ensures Score(read + [items + [item]], key, j, damp)
      == (if j in scores then scores[j] else 0.0) + if j == key(item) then Part(damp, |items| + 1) else 0.0
  {
    if j !in scores {
      ScoreOfAbsent(read + [items], key, j, damp);
    }
    ScoreGains(read, items, item, key, damp, j);
  }

  // ---- What the fusion guarantees ----

  lemma {:induction false} FirstsCover<T>(items: seq<T>, key: T -> string)
    ensures forall k :: HasKey(Firsts(items, key), key, k) <==> HasKey(items, key, k)
    ensures forall i, j :: 0 <= i < j < |Firsts(items, key)| ==>
      key(Firsts(items, key)[i]) != key(Firsts(items, key)[j])
    ensures forall x <- Firsts(items, key) :: HasKey(items, key, key(x))
  {
    if items != [] {
      var init, last := items[..|items| - 1], items[|items| - 1];
      FirstsCover(init, key);
      assert items == init + [last];
      HasKeyNext(init, last, key);
      HasKeyNext(Firsts(init, key), last, key);
      assert Firsts(init, key) + [] == Firsts(init, key);
      if !HasKey(init, key, key(last)) {
        forall i | 0 <= i < |Firsts(init, key)| ensures key(Firsts(init, key)[i]) != key(last) {
          assert Firsts(init, key)[i] in Firsts(init, key);
        }
      }
    }
  }

  /** The representative of a key is its first item in the concatenated lists. */
  lemma {:induction false} FirstsAreFirst<T>(items: seq<T>, key: T -> string, x: T)
    requires x in Firsts(items, key)
    ensures Rank(items, key, key(x)) > 0 && items[Rank(items, key, key(x)) - 1] == x
  {
    var init, last := items[..|items| - 1], items[|items| - 1];
    RankIsFirst(init, key, key(last));
    RankIsFirst(items, key, key(x));
    if x in Firsts(init, key) {
      FirstsAreFirst(init, key, x);
    }
  }

  lemma ByScoreIsStrictWeak<T(!new)>(score: T -> real)
    ensures IsStrictWeak(ByScore(score))
  {
  }

  function ItemsOf<T>(pairs: seq<(T, real)>): (items: seq<T>)
    ensures |items| == |pairs| && forall i :: 0 <= i < |pairs| ==> items[i] == pairs[i].0
  {
    seq(|pairs|, i requires 0 <= i < |pairs| => pairs[i].0)
  }

  /** The items with one score. */
  function Scoring<T>(score: T -> real, v: real): T -> bool {
    (x: T) => score(x) == v
  }

  /** Sorting by score: a rearrangement, descending, in which items of equal score keep their order. */
  lemma SortedByScore<T(!new)>(items: seq<T>, score: T -> real)
    ensures
      var sorted := Sort(items, ByScore(score));
      && multiset(sorted) == multiset(items)
      && (forall i, j :: 0 <= i < j < |sorted| ==> score(sorted[i]) >= score(sorted[j]))
      && forall v :: Filter(Scoring(score, v), sorted) == Filter(Scoring(score, v), items)
  {
    ByScoreIsStrictWeak(score);
    SortIsSorted(items, ByScore(score));
    forall v ensures Filter(Scoring(score, v), Sort(items, ByScore(score))) == Filter(Scoring(score, v), items) {
      SortIsStable(items, ByScore(score), Scoring(score, v));
    }
    var sorted := Sort(items, ByScore(score));
    forall i, j | 0 <= i < j < |sorted| ensures score(sorted[i]) >= score(sorted[j]) {
      assert !ByScore(score)(sorted[j], sorted[i]);
    }
  }

  /** The fusion is exact: its items are the first items of all keys, each once; each carries the sum of its shares; the
      scores descend, and items of equal score keep their order of first appearance. */
  lemma {:induction false} FusionIsExact<T(!new)>(lists: seq<seq<T>>, key: T -> string, damp: Positive)
    ensures
      var fused, firsts := Fused(lists, key, damp), Firsts(Concat(lists), key);
      && multiset(ItemsOf(fused)) == multiset(firsts)
      && (forall i :: 0 <= i < |fused| ==> fused[i].1 == Score(lists, key, key(fused[i].0), damp))
      && (forall i, j :: 0 <= i < j < |fused| ==> fused[i].1 >= fused[j].1)
      && forall v :: Filter(Scoring(Scorer(lists, key, damp), v), ItemsOf(fused))
                   == Filter(Scoring(Scorer(lists, key, damp), v), firsts)
  {
    var score, firsts := Scorer(lists, key, damp), Firsts(Concat(lists), key);
    SortedByScore(firsts, score);
    assert ItemsOf(Fused(lists, key, damp)) == Sort(firsts, ByScore(score));
  }

  /** `a` is in every list `b` is in, and ranked no worse there. */
  predicate Dominates<T(==)>(lists: seq<seq<T>>, key: T -> string, a: string, b: string) {
    forall i :: 0 <= i < |lists| && Rank(lists[i], key, b) > 0 ==>
      0 < Rank(lists[i], key, a) <= Rank(lists[i], key, b)
  }

  lemma ShareFalls(damp: Positive, r: nat, q: nat)
    requires r <= q
    ensures Part(damp, r) >= Part(damp, q) > 0.0
    ensures r < q ==> Part(damp, r) > Part(damp, q)
  {
    var x, y := (damp + r) as real, (damp + q) as real;
    assert 1.0 / x - 1.0 / y == (y - x) / (x * y);
  }

  /** An item ranked no worse than another in every list never scores lower, and scores higher if it is ranked better
      in one of them, or is in a list the other is not in. */
  lemma {:induction false} FusionIsMonotone<T>(
    lists: seq<seq<T>>, key: T -> string, damp: Positive, a: string, b: string)
    requires Dominates(lists, key, a, b)
    ensures Score(lists, key, a, damp) >= Score(lists, key, b, damp)
    ensures (exists i :: 0 <= i < |lists| && Rank(lists[i], key, a) != Rank(lists[i], key, b)) ==>
      Score(lists, key, a, damp) > Score(lists, key, b, damp)
  {
    if lists != [] {
      var init, last := lists[..|lists| - 1], lists[|lists| - 1];
      assert forall i :: 0 <= i < |init| ==> init[i] == lists[i];
      FusionIsMonotone(init, key, damp, a, b);
      var r, q := Rank(last, key, a), Rank(last, key, b);
      if q > 0 {
        ShareFalls(damp, r, q);
      } else if r > 0 {
        ShareFalls(damp, r, r);
      }
    }
  }

  /** For two lists the three counts are those of a partition of the union. */
  lemma StatsPartitionUnion<T>(vector: seq<T>, fts: seq<T>, key: T -> string)
    ensures
      var s := StatsOf([vector, fts], key);
      s.vectorHits + s.ftsHits + s.bothHits == |KeySet(vector, key) + KeySet(fts, key)|
  {
  }
}
