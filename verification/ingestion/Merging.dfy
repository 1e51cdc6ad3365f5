/**
 Phase 2 of the chunker: neighbouring fragments are joined again, greedily, where the seam is safe and the
 token budget allows. `GreedyGroups` says which fragments end up together.
 */
module Merging {
  import opened Collections
  import opened Text
  import opened Cutting

  predicate IsSafeJoinBoundary(left: string, right: string) {
    left == "" || right == "" || !IsUnsafePair(left[|left| - 1], right[0])
  }

  function Total(parts: seq<string>, counter: string -> int): int {
    if parts == [] then 0 else Total(parts[..|parts| - 1], counter) + counter(parts[|parts| - 1])
  }

  /** The fragment may be appended to the chunk collected so far. */
  predicate Fits(current: seq<string>, frag: string, maxTokens: int, counter: string -> int) {
    && current != []
    && IsSafeJoinBoundary(current[|current| - 1], frag)
    && Total(current, counter) + counter(frag) <= maxTokens
  }

  // ---- Greedy grouping under any rule ----

  /** Whether an element may join the group collected so far. */
  type Rule<!T> = (seq<T>, T) -> bool

  function GroupsFrom<T>(current: seq<T>, rest: seq<T>, fits: Rule<T>): (groups: seq<seq<T>>)
    ensures groups != []
    decreases |rest|
  {
    if rest == [] then [current]
    else if fits(current, rest[0]) then GroupsFrom(current + [rest[0]], rest[1..], fits)
    else [current] + GroupsFrom([rest[0]], rest[1..], fits)
  }

  function GreedyGroups<T>(elements: seq<T>, fits: Rule<T>): seq<seq<T>> {
    if elements == [] then [] else GroupsFrom([elements[0]], elements[1..], fits)
  }

  /** Each next element of a group was allowed to join what precedes it. */
  predicate IsJoinable<T>(group: seq<T>, fits: Rule<T>) {
    && group != []
    && forall j :: 0 < j < |group| ==> fits(group[..j], group[j])
  }

  predicate StopsBefore<T>(group: seq<T>, next: seq<T>, fits: Rule<T>) {
    next != [] && !fits(group, next[0])
  }

  /** Consecutive groups, each joinable, none extensible by the element after it. */
  predicate IsGreedyGrouping<T>(groups: seq<seq<T>>, fits: Rule<T>) {
    && (forall i :: 0 <= i < |groups| ==> IsJoinable(groups[i], fits))
    && (forall i :: 0 <= i < |groups| - 1 ==> StopsBefore(groups[i], groups[i + 1], fits))
  }

  lemma JoinableGrows<T>(current: seq<T>, x: T, fits: Rule<T>)
    requires IsJoinable(current, fits) && fits(current, x)
    ensures IsJoinable(current + [x], fits)
  {
    var longer := current + [x];
    forall j | 0 < j < |longer| ensures fits(longer[..j], longer[j]) {
      assert longer[..j] == current[..j];
      assert j == |current| ==> current[..j] == current;
    }
  }

  lemma {:induction false} GroupsFromIsGreedy<T>(current: seq<T>, rest: seq<T>, fits: Rule<T>)
    requires IsJoinable(current, fits)
    ensures
      var groups := GroupsFrom(current, rest, fits);
      && Concat(groups) == current + rest
      && IsGreedyGrouping(groups, fits)
      && groups[0] != [] && groups[0][0] == current[0]
    decreases |rest|
  {
    if rest == [] {
      ConcatSingle(current);
    } else if fits(current, rest[0]) {
      JoinableGrows(current, rest[0], fits);
      GroupsFromIsGreedy(current + [rest[0]], rest[1..], fits);
      assert current + [rest[0]] + rest[1..] == current + rest;
    } else {
      var tail := GroupsFrom([rest[0]], rest[1..], fits);
      GroupsFromIsGreedy([rest[0]], rest[1..], fits);
      assert ([current] + tail)[1..] == tail;
      assert [rest[0]] + rest[1..] == rest;
      assert StopsBefore(current, tail[0], fits);
    }
  }

  /** A joinable group is collected whole. */
  lemma {:induction false} CollectsWhole<T>(group: seq<T>, k: nat, rest: seq<T>, fits: Rule<T>)
    requires 0 < k <= |group| && IsJoinable(group, fits)
    ensures GroupsFrom(group[..k], group[k..] + rest, fits) == GroupsFrom(group, rest, fits)
    decreases |group| - k
  {
    var left := group[k..] + rest;
    if k < |group| {
      CollectsWhole(group, k + 1, rest, fits);
      assert left[0] == group[k] && left[1..] == group[k + 1..] + rest;
      assert group[..k] + [group[k]] == group[..k + 1];
    } else {
      assert group[..k] == group && left == rest;
    }
  }

  lemma {:induction false} GreedyFollows<T>(first: seq<T>, others: seq<seq<T>>, fits: Rule<T>)
    requires IsGreedyGrouping([first] + others, fits)
    ensures GroupsFrom(first, Concat(others), fits) == [first] + others
    decreases |others|
  {
    var groups := [first] + others;
    if others != [] {
      var next, last := others[0], others[1..];
      assert groups[0] == first && groups[1] == next;
      assert StopsBefore(groups[0], groups[1], fits) && IsJoinable(groups[1], fits);
      TailIsGreedy(first, others, fits);
      assert [next] + last == others;
      GreedyFollows(next, last, fits);
      StartsWith(next, Concat(last), fits);
    }
  }

  /** Collecting a group afresh from its first element. */
  lemma StartsWith<T>(group: seq<T>, rest: seq<T>, fits: Rule<T>)
    requires IsJoinable(group, fits)
    ensures GroupsFrom([(group + rest)[0]], (group + rest)[1..], fits) == GroupsFrom(group, rest, fits)
  {
    CollectsWhole(group, 1, rest, fits);
    assert group[..1] == [(group + rest)[0]] && group[1..] + rest == (group + rest)[1..];
  }

  lemma TailIsGreedy<T>(first: seq<T>, others: seq<seq<T>>, fits: Rule<T>)
    requires IsGreedyGrouping([first] + others, fits)
    ensures IsGreedyGrouping(others, fits)
  {
    var groups := [first] + others;
    forall i | 0 <= i < |others| ensures IsJoinable(others[i], fits) {
      assert groups[i + 1] == others[i];
    }
    forall i | 0 <= i < |others| - 1 ensures StopsBefore(others[i], others[i + 1], fits) {
      assert groups[i + 1] == others[i] && groups[i + 1 + 1] == others[i + 1];
    }
  }

  /** The greedy grouping is the one division into consecutive groups that joins only what the rule allows and
      never stops a group early: having those properties determines the result. */
  lemma GreedyGroupingIsUnique<T>(elements: seq<T>, groups: seq<seq<T>>, fits: Rule<T>)
    ensures groups == GreedyGroups(elements, fits) <==> Concat(groups) == elements && IsGreedyGrouping(groups, fits)
  {
    if elements != [] {
      GroupsFromIsGreedy([elements[0]], elements[1..], fits);
      assert [elements[0]] + elements[1..] == elements;
    }
    if Concat(groups) == elements && IsGreedyGrouping(groups, fits) && groups != [] {
      assert IsJoinable(groups[0], fits);
      assert [groups[0]] + groups[1..] == groups;
      GreedyFollows(groups[0], groups[1..], fits);
      StartsWith(groups[0], Concat(groups[1..]), fits);
    }
  }

  // ---- Merging fragments ----

  function MergeRule(maxTokens: int, counter: string -> int): Rule<string> {
    (current: seq<string>, frag: string) => Fits(current, frag, maxTokens, counter)
  }

  function ConcatEach(groups: seq<seq<string>>): (texts: seq<string>)
    ensures |texts| == |groups|
    ensures forall i :: 0 <= i < |groups| ==> texts[i] == Concat(groups[i])
  {
    seq(|groups|, i requires 0 <= i < |groups| => Concat(groups[i]))
  }

  function Merged(frags: seq<string>, maxTokens: int, counter: string -> int): seq<string> {
    ConcatEach(GreedyGroups(NonBlank(frags), MergeRule(maxTokens, counter)))
  }

  /** The groups closed so far, the group being collected and the elements still to come make up the grouping. */
  ghost predicate IsUnderWay<T>(done: seq<seq<T>>, current: seq<T>, rest: seq<T>, all: seq<T>, fits: Rule<T>) {
    if current == [] then done == [] && rest == all
    else done + GroupsFrom(current, rest, fits) == GreedyGroups(all, fits)
  }

  /** The next element opens the first group, joins the current one, or closes it. */
  lemma TakeNext<T>(done: seq<seq<T>>, current: seq<T>, rest: seq<T>, all: seq<T>, fits: Rule<T>)
    requires rest != [] && IsUnderWay(done, current, rest, all, fits)
    ensures current == [] ==> IsUnderWay(done, [rest[0]], rest[1..], all, fits)
    ensures current != [] && fits(current, rest[0]) ==> IsUnderWay(done, current + [rest[0]], rest[1..], all, fits)
    ensures current != [] && !fits(current, rest[0]) ==> IsUnderWay(done + [current], [rest[0]], rest[1..], all, fits)
  {
    if current == [] {
      assert done + GreedyGroups(all, fits) == GreedyGroups(all, fits);
    } else if !fits(current, rest[0]) {
      var tail := GroupsFrom([rest[0]], rest[1..], fits);
      assert done + ([current] + tail) == done + [current] + tail;
    }
  }

  method TryMergeFragments(fragments: seq<string>, maxTokens: Positive, counter: string -> int)
    returns (chunks: seq<string>)
    ensures chunks == Merged(fragments, maxTokens, counter)
  {
    if fragments == [] {
      return [];
    }
    chunks := [];
    var current: seq<string> := [];
    var currentTokens := 0;
    ghost var done: seq<seq<string>> := [];
    ghost var kept, rule := NonBlank(fragments), MergeRule(maxTokens, counter);
    assert fragments[0..] == fragments;
    for i := 0 to |fragments|
      invariant currentTokens == Total(current, counter)
      invariant chunks == ConcatEach(done)
      invariant IsUnderWay(done, current, NonBlank(fragments[i..]), kept, rule)
    {
      var frag := fragments[i];
      NonBlankTail(fragments, i);
      if IsBlank(frag) {
        continue;
      }
      TakeNext(done, current, NonBlank(fragments[i..]), kept, rule);
      var fragTokens := counter(frag);
      if current == [] {
        current, currentTokens := [frag], fragTokens;
      } else if IsSafeJoinBoundary(current[|current| - 1], frag) && currentTokens + fragTokens <= maxTokens {
        current, currentTokens := current + [frag], currentTokens + fragTokens;
      } else {
        chunks, done := chunks + [Concat(current)], done + [current];
        current, currentTokens := [frag], fragTokens;
      }
    }
    if current != [] {
      chunks, done := chunks + [Concat(current)], done + [current];
    }
  }

  lemma NonBlankTail(fragments: seq<string>, i: nat)
    requires i < |fragments|
    ensures
      var rest, rest' := NonBlank(fragments[i..]), NonBlank(fragments[i + 1..]);
      if IsBlank(fragments[i]) then rest == rest'
      else rest != [] && rest[0] == fragments[i] && rest[1..] == rest'
  {
  }

  /** No fragment that is not blank is lost, doubled or moved. */
  lemma MergeKeepsText(frags: seq<string>, maxTokens: int, counter: string -> int)
    ensures Concat(Merged(frags, maxTokens, counter)) == Concat(NonBlank(frags))
  {
    var kept, rule := NonBlank(frags), MergeRule(maxTokens, counter);
    var groups := GreedyGroups(kept, rule);
    GreedyGroupingIsUnique(kept, groups, rule);
    ConcatTwice(groups);
  }

  lemma {:induction false} ConcatTwice(groups: seq<seq<string>>)
    ensures Concat(ConcatEach(groups)) == Concat(Concat(groups))
  {
    if groups != [] {
      ConcatTwice(groups[1..]);
      assert ConcatEach(groups)[1..] == ConcatEach(groups[1..]);
      ConcatAppend(groups[0], Concat(groups[1..]));
    }
  }

  /** No seam inside the group parts letters or digits that belong together, and its first parts, however many, are
      within the budget; a single one need not be. */
  predicate IsWellJoined(group: seq<string>, maxTokens: int, counter: string -> int) {
    group != [] && forall j :: 0 < j < |group| ==> JoinsWell(group, j, maxTokens, counter)
  }

  predicate JoinsWell(group: seq<string>, j: nat, maxTokens: int, counter: string -> int)
    requires 0 < j < |group|
  {
    !HasAtomSeam(group[j - 1], group[j]) && Total(group[..j + 1], counter) <= maxTokens
  }

  /** The seam to the next part does, or the sum with it is over the budget. */
  predicate IsWellStopped(group: seq<string>, next: seq<string>, maxTokens: int, counter: string -> int) {
    && group != [] && next != []
    && (HasAtomSeam(group[|group| - 1], next[0]) || Total(group + [next[0]], counter) > maxTokens)
  }

  /** What `_try_merge_fragments` returns, text by text: runs of the fragments that show something, each well joined,
      none stopped early. */
  lemma MergeMeaning(frags: seq<string>, maxTokens: Positive, counter: string -> int) returns (groups: seq<seq<string>>)
    ensures Concat(groups) == NonBlank(frags) && Merged(frags, maxTokens, counter) == ConcatEach(groups)
    ensures forall i :: 0 <= i < |groups| ==> IsWellJoined(groups[i], maxTokens, counter)
    ensures forall i :: 0 <= i < |groups| - 1 ==> IsWellStopped(groups[i], groups[i + 1], maxTokens, counter)
  {
    var kept, rule := NonBlank(frags), MergeRule(maxTokens, counter);
    groups := GreedyGroups(kept, rule);
    GreedyGroupingIsUnique(kept, groups, rule);
    forall i | 0 <= i < |groups| ensures IsWellJoined(groups[i], maxTokens, counter) {
      JoinedMeaning(groups[i], maxTokens, counter);
    }
    forall i | 0 <= i < |groups| - 1 ensures IsWellStopped(groups[i], groups[i + 1], maxTokens, counter) {
      assert IsJoinable(groups[i], rule) && StopsBefore(groups[i], groups[i + 1], rule);
      StoppedMeaning(groups[i], groups[i + 1][0], maxTokens, counter);
    }
  }

  /** The two texts meet in letters or digits that belong together, or in a digit and a point. */
  predicate HasAtomSeam(left: string, right: string) {
    left != "" && right != "" && IsAtomSeam(left[|left| - 1], right[0])
  }

  lemma SeamMeaning(left: string, right: string)
    ensures IsSafeJoinBoundary(left, right) <==> !HasAtomSeam(left, right)
  {
    if left != "" && right != "" {
      PairMeaning(left[|left| - 1], right[0]);
    }
  }

  lemma JoinedMeaning(group: seq<string>, maxTokens: int, counter: string -> int)
    requires IsJoinable(group, MergeRule(maxTokens, counter))
    ensures IsWellJoined(group, maxTokens, counter)
  {
    forall j | 0 < j < |group| ensures JoinsWell(group, j, maxTokens, counter) {
      assert MergeRule(maxTokens, counter)(group[..j], group[j]);
      assert group[..j][j - 1] == group[j - 1] && group[..j + 1] == group[..j] + [group[j]];
      SeamMeaning(group[j - 1], group[j]);
    }
  }

  lemma StoppedMeaning(group: seq<string>, next: string, maxTokens: int, counter: string -> int)
    requires group != [] && !MergeRule(maxTokens, counter)(group, next)
    ensures HasAtomSeam(group[|group| - 1], next) || Total(group + [next], counter) > maxTokens
  {
    SeamMeaning(group[|group| - 1], next);
    assert (group + [next])[..|group|] == group;
  }

  // ---- The budget counts floors, the chunk has the floor of the sum ----

  lemma {:induction false} TotalBoundsLength(parts: seq<string>)
    ensures |Concat(parts)| <= 4 * Total(parts, ESTIMATE) + 3 * |parts|
    ensures |parts| <= Total(parts, ESTIMATE)
    ensures |Concat(parts)| == TotalLength(parts)
  {
    if parts != [] {
      var init, last := parts[..|parts| - 1], parts[|parts| - 1];
      TotalBoundsLength(init);
      assert parts == init + [last];
      ConcatAppend(init, [last]);
      ConcatSingle(last);
      ConcatLength(parts);
      var n: nat := EstimateTokens(last);
      assert Total(parts, ESTIMATE) == Total(init, ESTIMATE) + n;
    }
  }

  /** A joinable group of two or more keeps within the budget as counted fragment by fragment. */
  lemma JoinableWithinBudget(group: seq<string>, maxTokens: int, counter: string -> int)
    requires IsJoinable(group, MergeRule(maxTokens, counter)) && |group| >= 2
    ensures Total(group, counter) <= maxTokens
  {
  }

  /** A chunk merged from k >= 2 fragments has at most `maxTokens + floor(3k/4)` tokens: each fragment's count
      rounds down by up to three characters, the joined text is rounded once. */
  lemma MergedTokenBound(frags: seq<string>, maxTokens: nat, i: nat)
    requires i < |GreedyGroups(frags, MergeRule(maxTokens, ESTIMATE))|
    ensures
      var group := GreedyGroups(frags, MergeRule(maxTokens, ESTIMATE))[i];
      |group| >= 2 ==> EstimateTokens(Concat(group)) <= maxTokens + 3 * |group| / 4 && |group| <= maxTokens
  {
    var rule := MergeRule(maxTokens, ESTIMATE);
    var groups := GreedyGroups(frags, rule);
    GreedyGroupingIsUnique(frags, groups, rule);
    var group := groups[i];
    assert IsJoinable(group, rule);
    if |group| >= 2 {
      JoinableWithinBudget(group, maxTokens, ESTIMATE);
      TotalBoundsLength(group);
    }
  }

  /** The budget is overrun by two fragments: `4p + 3` and `4(M - p) + 1` characters pass a budget of `M` tokens
      and join to `M + 1`. */
  lemma MergeCanOverrun(maxTokens: nat, p: nat, left: string, right: string)
    requires 1 <= p < maxTokens && |left| == 4 * p + 3 && |right| == 4 * (maxTokens - p) + 1
    requires IsSafeJoinBoundary(left, right) && !IsBlank(left) && !IsBlank(right)
    ensures Merged([left, right], maxTokens, ESTIMATE) == [left + right]
    ensures EstimateTokens(left + right) == maxTokens + 1
  {
    var both, rule := [left, right], MergeRule(maxTokens, ESTIMATE);
    NonBlankTwice(both);
    var l: nat, r: nat := EstimateTokens(left), EstimateTokens(right);
    assert Total([left], ESTIMATE) == l == p by {
      assert [left][..0] == [];
      assert Total([left], ESTIMATE) == Total([], ESTIMATE) + l;
    }
    assert r == maxTokens - p;
    assert rule([left], right);
    var groups := [both];
    forall j | 0 < j < 2 ensures rule(both[..j], both[j]) {
      assert both[..1] == [left];
    }
    assert IsJoinable(both, rule);
    ConcatSingle(both);
    GreedyGroupingIsUnique(both, groups, rule);
    assert both == [left] + [right];
    ConcatAppend([left], [right]);
    ConcatSingle(left);
    ConcatSingle(right);
    assert ConcatEach(groups)[0] == left + right;
  }
}
