/**
 `solve`: constraints divided by branch and by parameter, each group solved on its own, and the outcomes collected.
 */
module Branches {
  import opened Collections
  import opened Intervals
  import opened Solver

  datatype Answer = Answer(lower: Option<real>, upper: Option<real>, unit: string, confidence: real)

  /** Where a group of constraints ends up. */
  datatype Outcome = Answered(answer: Answer) | Conflicting | NothingApplied

  datatype Status = Ok | Conflict | Nothing

  datatype Solution = Solution(
    status: Status, branches: map<string, map<string, Answer>>, primary: Option<string>,
    conflicts: seq<(string, string)>) // branch and parameter

  function FirstCondition(cs: seq<Condition>): string {
    if cs == [] then "general"
    else if cs[0].parameter in ["environment", "condition"] && cs[0].truthy then cs[0].shown
    else FirstCondition(cs[1..])
  }

  function BranchKey(c: Constraint): string {
    FirstCondition(c.conditions)
  }

  function ByBranch(): Constraint -> string {
    (c: Constraint) => BranchKey(c)
  }

  function ByParameter(normalize: string -> string): Constraint -> string {
    (c: Constraint) => normalize(c.parameter)
  }

  /** The constraints whose key is `k`, in input order. */
  function Keyed(key: Constraint -> string, k: string, cs: seq<Constraint>): seq<Constraint> {
    Filter(c => key(c) == k, cs)
  }

  function Group(cs: seq<Constraint>, normalize: string -> string, branch: string, param: string): seq<Constraint> {
    Keyed(ByParameter(normalize), param, Keyed(ByBranch(), branch, cs))
  }

  /** A closed end is reported; an open or infinite one is not. */
  function Reported(b: Bound): Option<real> {
    if b.At? && b.closed then Some(b.value) else None
  }

  function OutcomeOf(r: Solved): Outcome {
    if r.conflict then Conflicting
    else if r.interval.Empty? then NothingApplied
    else Answered(Answer(Reported(r.interval.lo), Reported(r.interval.hi), r.unit, r.confidence))
  }

  function GroupOutcome(cs: seq<Constraint>, active: Option<seq<string>>): Outcome {
    OutcomeOf(Solve(cs, active))
  }

  // ---- The loops ----

  /** The keys in order of first appearance. */
  function FirstKeys(key: Constraint -> string, cs: seq<Constraint>): seq<string> {
    if cs == [] then []
    else
      var keys, k := FirstKeys(key, cs[..|cs| - 1]), key(cs[|cs| - 1]);
      if k in keys then keys else keys + [k]
  }

  /** The keys in order of first appearance, each with its constraints. */
  ghost predicate IsGrouping(
    key: Constraint -> string, cs: seq<Constraint>, keys: seq<string>, groups: map<string, seq<Constraint>>)
  {
    && keys == FirstKeys(key, cs)
    && (forall k :: k in groups <==> k in keys)
    && (forall i, j :: 0 <= i < j < |keys| ==> keys[i] != keys[j])
    && (forall k <- keys :: groups[k] == Keyed(key, k, cs) && groups[k] != [])
    && (forall i :: 0 <= i < |cs| ==> key(cs[i]) in groups)
  }

  lemma {:induction false} KeyedAbsent(key: Constraint -> string, k: string, cs: seq<Constraint>)
    requires forall i :: 0 <= i < |cs| ==> key(cs[i]) != k
    ensures Keyed(key, k, cs) == []
  {
    if cs != [] {
      KeyedAbsent(key, k, cs[..|cs| - 1]);
    }
  }

  method GroupBy(
    key: Constraint -> string, cs: seq<Constraint>)
    returns (keys: seq<string>, groups: map<string, seq<Constraint>>)
    ensures IsGrouping(key, cs, keys, groups)
  {
    keys, groups := [], map[];
    for i := 0 to |cs|
      invariant IsGrouping(key, cs[..i], keys, groups)
    {
      var k := key(cs[i]);
      assert cs[..i + 1] == cs[..i] + [cs[i]];
      assert cs[..i + 1][..i] == cs[..i];
      if k !in groups {
        KeyedAbsent(key, k, cs[..i]);
        keys := keys + [k];
        groups := groups[k := []];
      }
      forall j <- keys ensures Keyed(key, j, cs[..i + 1]) == (groups[k := groups[k] + [cs[i]]])[j] {
      }
      groups := groups[k := groups[k] + [cs[i]]];
    }
    assert cs[..|cs|] == cs;
  }

  /** The outcomes of all groups of a list of constraints. */
  function Outcomes(cs: seq<Constraint>, normalize: string -> string, active: Option<seq<string>>)
    : (string, string) -> Outcome
  {
    (branch: string, param: string) => GroupOutcome(Group(cs, normalize, branch, param), active)
  }

  /** What solving one branch yields: answers by parameter, and the conflicting parameters without repetition. */
  ghost predicate IsBranchSolution(outcome: string -> Outcome, params: map<string, Answer>, conflicts: seq<string>) {
    && (forall p :: p in params <==> outcome(p).Answered?)
    && (forall p <- params :: outcome(p) == Answered(params[p]))
    && (forall p :: p in conflicts <==> outcome(p).Conflicting?)
    && (forall i, j :: 0 <= i < j < |conflicts| ==> conflicts[i] != conflicts[j])
  }

  function BranchOutcomes(
    key: Constraint -> string, cs: seq<Constraint>, active: Option<seq<string>>)
    : string -> Outcome
  {
    (param: string) => GroupOutcome(Keyed(key, param, cs), active)
  }

  /** The outcomes of the parameters seen so far. */
  function Within(outcome: string -> Outcome, seen: seq<string>): string -> Outcome {
    (param: string) => if param in seen then outcome(param) else NothingApplied
  }

  lemma AddParameter(
    outcome: string -> Outcome, seen: seq<string>, p: string, params: map<string, Answer>, conflicts: seq<string>)
    requires IsBranchSolution(Within(outcome, seen), params, conflicts) && p !in seen
    ensures
      var after := Within(outcome, seen + [p]);
      match outcome(p)
      case Answered(a) => IsBranchSolution(after, params[p := a], conflicts)
      case Conflicting => IsBranchSolution(after, params, conflicts + [p])
      case NothingApplied => IsBranchSolution(after, params, conflicts)
  {
    var before, after := Within(outcome, seen), Within(outcome, seen + [p]);
    assert before(p) == NothingApplied && after(p) == outcome(p);
    assert forall q :: q != p ==> after(q) == before(q);
  }

  lemma WithinAll(outcome: string -> Outcome, seen: seq<string>, params: map<string, Answer>, conflicts: seq<string>)
    requires IsBranchSolution(Within(outcome, seen), params, conflicts)
    requires forall p :: p !in seen ==> outcome(p) == NothingApplied
    ensures IsBranchSolution(outcome, params, conflicts)
  {
  }

  lemma AbsentIsNothing(key: Constraint -> string, cs: seq<Constraint>, active: Option<seq<string>>, keys: seq<string>)
    requires forall i :: 0 <= i < |cs| ==> key(cs[i]) in keys
    ensures keys[..|keys|] == keys
    ensures forall p :: p !in keys ==> BranchOutcomes(key, cs, active)(p) == NothingApplied
  {
    forall p | p !in keys ensures BranchOutcomes(key, cs, active)(p) == NothingApplied {
      KeyedAbsent(key, p, cs);
    }
  }

  lemma PrefixNext(keys: seq<string>, i: nat)
    requires i < |keys| && forall j, l :: 0 <= j < l < |keys| ==> keys[j] != keys[l]
    ensures keys[..i + 1] == keys[..i] + [keys[i]] && keys[i] !in keys[..i]
  {
  }

  method SolveBranch(cs: seq<Constraint>, key: Constraint -> string, active: Option<seq<string>>)
    returns (params: map<string, Answer>, conflicts: seq<string>)
    ensures IsBranchSolution(BranchOutcomes(key, cs, active), params, conflicts)
  {
    var keys, groups := GroupBy(key, cs);
    ghost var outcome := BranchOutcomes(key, cs, active);
    params, conflicts := map[], [];
    for i := 0 to |keys|
      invariant IsBranchSolution(Within(outcome, keys[..i]), params, conflicts)
    {
      var p := keys[i];
      PrefixNext(keys, i);
      var r := SolveParameter(groups[p], active);
      assert outcome(p) == OutcomeOf(r);
      AddParameter(outcome, keys[..i], p, params, conflicts);
      if r.conflict {
        conflicts := conflicts + [p];
      } else if r.interval.Empty? {
        continue;
      } else {
        params := params[p := Answer(Reported(r.interval.lo), Reported(r.interval.hi), r.unit, r.confidence)];
      }
    }
    AbsentIsNothing(key, cs, active, keys);
    WithinAll(outcome, keys[..|keys|], params, conflicts);
  }

  ghost predicate HasAnswer(outcome: (string, string) -> Outcome, branch: string) {
    exists p :: outcome(branch, p).Answered?
  }

  ghost predicate CollectsAnswers(outcome: (string, string) -> Outcome, branches: map<string, map<string, Answer>>) {
    && (forall b :: b in branches <==> HasAnswer(outcome, b))
    && (forall b <- branches, p :: p in branches[b] <==> outcome(b, p).Answered?)
    && (forall b <- branches, p <- branches[b] :: outcome(b, p) == Answered(branches[b][p]))
  }

  ghost predicate CollectsConflicts(outcome: (string, string) -> Outcome, conflicts: seq<(string, string)>) {
    && (forall b, p :: (b, p) in conflicts <==> outcome(b, p).Conflicting?)
    && (forall i, j :: 0 <= i < j < |conflicts| ==> conflicts[i] != conflicts[j])
  }

  /** Every answered group has its answer in the branches, every conflicting group is listed once, and nothing else is
      there. */
  ghost predicate Collects(
    outcome: (string, string) -> Outcome, branches: map<string, map<string, Answer>>, conflicts: seq<(string, string)>)
  {
    CollectsAnswers(outcome, branches) && CollectsConflicts(outcome, conflicts)
  }

  /** The first of the keys that has a branch. */
  ghost predicate IsFirstIn(b: string, keys: seq<string>, branches: map<string, map<string, Answer>>) {
    b in branches && exists j :: 0 <= j < |keys| && keys[j] == b && forall l :: 0 <= l < j ==> keys[l] !in branches
  }

  /** What `solve` returns, group by group; `keys` are the branches in order of first appearance. */
  ghost predicate IsSolution(outcome: (string, string) -> Outcome, keys: seq<string>, r: Solution) {
    && Collects(outcome, r.branches, r.conflicts)
    && r.status == (if r.conflicts != [] then Conflict else if r.branches == map[] then Nothing else Ok)
    && (r.primary.None? <==> r.branches == map[])
    && ("general" in r.branches ==> r.primary == Some("general"))
    && (r.primary.Some? && "general" !in r.branches ==> IsFirstIn(r.primary.value, keys, r.branches))
  }

  function Tagged(branch: string, params: seq<string>): (tagged: seq<(string, string)>)
    ensures |tagged| == |params| && forall i :: 0 <= i < |params| ==> tagged[i] == (branch, params[i])
  {
    seq(|params|, i requires 0 <= i < |params| => (branch, params[i]))
  }

  /** The outcomes of the branches seen so far. */
  function Seen(outcome: (string, string) -> Outcome, seen: seq<string>): (string, string) -> Outcome {
    (branch: string, param: string) => if branch in seen then outcome(branch, param) else NothingApplied
  }

  /** After the branches seen so far. */
  ghost predicate IsUnderWay(
    outcome: (string, string) -> Outcome, seen: seq<string>,
    branches: map<string, map<string, Answer>>, conflicts: seq<(string, string)>, primary: Option<string>)
  {
    && Collects(Seen(outcome, seen), branches, conflicts)
    && (primary.None? <==> branches == map[])
    && (primary.Some? ==> IsFirstIn(primary.value, seen, branches))
    && (forall b <- branches :: b in seen)
  }

  method SolveAll(constraints: seq<Constraint>, normalize: string -> string, active: Option<seq<string>>)
    returns (r: Solution)
    ensures IsSolution(Outcomes(constraints, normalize, active), FirstKeys(ByBranch(), constraints), r)
  {
    var keys, groups := GroupBy(ByBranch(), constraints);
    var branches: map<string, map<string, Answer>>, conflicts: seq<(string, string)> := map[], [];
    var primary: Option<string> := None;
    ghost var outcome := Outcomes(constraints, normalize, active);
    for i := 0 to |keys|
      invariant IsUnderWay(outcome, keys[..i], branches, conflicts, primary)
    {
      var b := keys[i];
      PrefixNext(keys, i);
      var params, clashes := SolveBranch(groups[b], ByParameter(normalize), active);
      BranchMatches(constraints, normalize, active, b, params, clashes);
      TakeBranch(outcome, keys[..i], b, branches, conflicts, primary, params, clashes);
      conflicts := conflicts + Tagged(b, clashes);
      if params != map[] {
        branches := branches[b := params];
        if primary.None? {
          primary := Some(b);
        }
      }
    }
    UnseenIsNothing(constraints, normalize, active, keys);
    SeenIsAll(outcome, keys[..|keys|], branches, conflicts);
    if "general" in branches {
      primary := Some("general");
    }
    var status := if conflicts != [] then Conflict else if branches == map[] then Nothing else Ok;
    r := Solution(status, branches, primary, conflicts);
  }

  lemma TakeBranch(
    outcome: (string, string) -> Outcome, seen: seq<string>, b: string,
    branches: map<string, map<string, Answer>>, conflicts: seq<(string, string)>, primary: Option<string>,
    params: map<string, Answer>, clashes: seq<string>)
    requires IsUnderWay(outcome, seen, branches, conflicts, primary) && b !in seen
    requires IsBranchSolution(p => outcome(b, p), params, clashes)
    ensures IsUnderWay(
      outcome, seen + [b], if params != map[] then branches[b := params] else branches, conflicts + Tagged(b, clashes),
      if params != map[] && primary.None? then Some(b) else primary)
  {
    AddBranch(outcome, seen, branches, conflicts, b, params, clashes);
    if params != map[] {
      var more := branches[b := params];
      assert b in more;
      if primary.None? {
        assert (seen + [b])[|seen|] == b;
      } else {
        StaysFirst(primary.value, seen, b, branches, more);
      }
    } else if primary.Some? {
      StaysFirst(primary.value, seen, b, branches, branches);
    }
  }

  lemma StaysFirst(first: string, seen: seq<string>, b: string,
                   branches: map<string, map<string, Answer>>, more: map<string, map<string, Answer>>)
    requires IsFirstIn(first, seen, branches) && b !in seen
    requires branches.Keys <= more.Keys <= branches.Keys + {b}
    ensures IsFirstIn(first, seen + [b], more)
  {
    var longer := seen + [b];
    var j :| 0 <= j < |seen| && seen[j] == first && forall l :: 0 <= l < j ==> seen[l] !in branches;
    assert longer[j] == first;
    forall l | 0 <= l < j ensures longer[l] !in more {
      assert longer[l] == seen[l];
    }
  }

  lemma BranchMatches(cs: seq<Constraint>, normalize: string -> string, active: Option<seq<string>>, b: string,
                      params: map<string, Answer>, clashes: seq<string>)
    requires IsBranchSolution(BranchOutcomes(ByParameter(normalize), Keyed(ByBranch(), b, cs), active), params, clashes)
    ensures IsBranchSolution(p => Outcomes(cs, normalize, active)(b, p), params, clashes)
  {
    var one := BranchOutcomes(ByParameter(normalize), Keyed(ByBranch(), b, cs), active);
    assert forall p :: one(p) == Outcomes(cs, normalize, active)(b, p);
  }

  lemma UnseenIsNothing(
    cs: seq<Constraint>, normalize: string -> string, active: Option<seq<string>>, keys: seq<string>)
    requires forall i :: 0 <= i < |cs| ==> ByBranch()(cs[i]) in keys
    ensures keys[..|keys|] == keys
    ensures forall b, p :: b !in keys ==> Outcomes(cs, normalize, active)(b, p) == NothingApplied
  {
    forall b, p | b !in keys ensures Outcomes(cs, normalize, active)(b, p) == NothingApplied {
      KeyedAbsent(ByBranch(), b, cs);
    }
  }

  lemma SeenIsAll(outcome: (string, string) -> Outcome, seen: seq<string>,
                  branches: map<string, map<string, Answer>>, conflicts: seq<(string, string)>)
    requires Collects(Seen(outcome, seen), branches, conflicts)
    requires forall b, p :: b !in seen ==> outcome(b, p) == NothingApplied
    ensures Collects(outcome, branches, conflicts)
  {
    var part := Seen(outcome, seen);
    assert forall b, p :: part(b, p) == outcome(b, p);
    forall b ensures HasAnswer(part, b) <==> HasAnswer(outcome, b) {
      if HasAnswer(outcome, b) {
        var p :| outcome(b, p).Answered?;
        assert part(b, p).Answered?;
      }
    }
  }

  lemma AddBranch(
    outcome: (string, string) -> Outcome, seen: seq<string>,
    branches: map<string, map<string, Answer>>, conflicts: seq<(string, string)>,
    b: string, params: map<string, Answer>, clashes: seq<string>)
    requires Collects(Seen(outcome, seen), branches, conflicts) && b !in seen
    requires IsBranchSolution(p => outcome(b, p), params, clashes)
    ensures Collects(Seen(outcome, seen + [b]), if params != map[] then branches[b := params] else branches,
                     conflicts + Tagged(b, clashes))
  {
    var before, after, one := Seen(outcome, seen), Seen(outcome, seen + [b]), p => outcome(b, p);
    assert forall c, p :: c != b ==> after(c, p) == before(c, p);
    assert forall p :: after(b, p) == one(p) && before(b, p) == NothingApplied;
    JoinBranch(before, after, one, branches, conflicts, b, params, clashes);
  }

  /** Adding the solution of one branch, of which nothing was collected before. */
  lemma JoinBranch(
    before: (string, string) -> Outcome, after: (string, string) -> Outcome, one: string -> Outcome,
    branches: map<string, map<string, Answer>>, conflicts: seq<(string, string)>,
    b: string, params: map<string, Answer>, clashes: seq<string>)
    requires Collects(before, branches, conflicts) && IsBranchSolution(one, params, clashes)
    requires forall c, p :: c != b ==> after(c, p) == before(c, p)
    requires forall p :: after(b, p) == one(p) && before(b, p) == NothingApplied
    ensures Collects(after, if params != map[] then branches[b := params] else branches, conflicts + Tagged(b, clashes))
  {
    assert before(b, "") == NothingApplied;
  }
}
