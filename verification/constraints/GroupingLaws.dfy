/** What `solve` answers, in terms of the constraints given to it: who is solved with whom, and what comes of it. */
module GroupingLaws {
  import opened Collections
  import opened Intervals
  import opened Conversion
  import opened Solver
  import opened Branches
  import opened SolverLaws

  predicate IsBranching(k: Condition) {
    (k.parameter == "environment" || k.parameter == "condition") && k.truthy
  }

  /** The `i`-th entry is the first to name a branch, and names `b`. */
  predicate NamesFirst(ks: seq<Condition>, i: nat, b: string)
    requires i < |ks|
  {
    IsBranching(ks[i]) && ks[i].shown == b && forall j :: 0 <= j < i ==> !IsBranching(ks[j])
  }

  predicate Names(ks: seq<Condition>, b: string) {
    || (exists i :: 0 <= i < |ks| && NamesFirst(ks, i, b))
    || (b == "general" && forall i :: 0 <= i < |ks| ==> !IsBranching(ks[i]))
  }

  /** The branch is what the first environment or condition says that counts as true; without one it is "general". */
  predicate NamesBranch(c: Constraint, b: string) {
    Names(c.conditions, b)
  }

  lemma {:induction false} FirstConditionMeaning(ks: seq<Condition>)
    ensures Names(ks, FirstCondition(ks))
  {
    if ks != [] {
      if IsBranching(ks[0]) {
        assert NamesFirst(ks, 0, FirstCondition(ks));
      } else {
        FirstConditionMeaning(ks[1..]);
        assert forall j :: 0 < j < |ks| ==> ks[j] == ks[1..][j - 1];
        if i :| 0 <= i < |ks[1..]| && NamesFirst(ks[1..], i, FirstCondition(ks)) {
          assert NamesFirst(ks, i + 1, FirstCondition(ks));
        }
      }
    }
  }

  lemma NamesOnce(ks: seq<Condition>, a: string, b: string)
    requires Names(ks, a) && Names(ks, b)
    ensures a == b
  {
  }

  lemma BranchMeaning(c: Constraint, b: string)
    ensures BranchKey(c) == b <==> NamesBranch(c, b)
  {
    FirstConditionMeaning(c.conditions);
    if NamesBranch(c, b) {
      NamesOnce(c.conditions, b, FirstCondition(c.conditions));
    }
  }

  /** The constraint is in scope and has an interval. */
  predicate Applies(c: Constraint, active: Option<seq<string>>) {
    c.range.Some? && (active.None? || c.scopePath.None? || c.scopePath.value <= active.value)
  }

  lemma AppliesIsApplicable(c: Constraint, active: Option<seq<string>>)
    ensures Applies(c, active) <==> IsApplicable(c, active)
  {
    if active.Some? && c.scopePath.Some? && |c.scopePath.value| <= |active.value| {
      assert active.value[..|c.scopePath.value|] == c.scopePath.value <==> c.scopePath.value <= active.value;
    }
  }

  /** Solved together: constraints of one branch whose parameters have the same normalised name. */
  predicate IsMember(c: Constraint, cs: seq<Constraint>, normalize: string -> string, b: string, p: string) {
    c in cs && normalize(c.parameter) == p && NamesBranch(c, b)
  }

  /** The group of a branch and a parameter, member by member. */
  lemma GroupMembers(cs: seq<Constraint>, normalize: string -> string, b: string, p: string, c: Constraint)
    ensures c in Group(cs, normalize, b, p) <==> IsMember(c, cs, normalize, b, p)
  {
    BranchMeaning(c, b);
    FilterMembers(d => ByBranch()(d) == b, cs);
    FilterMembers(d => ByParameter(normalize)(d) == p, Keyed(ByBranch(), b, cs));
  }

  /** Some member applies. */
  ghost predicate HasMember(
    cs: seq<Constraint>, normalize: string -> string, active: Option<seq<string>>, b: string, p: string)
  {
    exists c :: IsMember(c, cs, normalize, b, p) && Applies(c, active)
  }

  /** The value satisfies every member that applies. */
  ghost predicate SatisfiesAll(
    x: real, cs: seq<Constraint>, normalize: string -> string, active: Option<seq<string>>, b: string, p: string)
  {
    forall c :: IsMember(c, cs, normalize, b, p) && Applies(c, active) ==> Allows(c.range.value, x)
  }

  lemma MembersMeaning(
    cs: seq<Constraint>, normalize: string -> string, active: Option<seq<string>>, b: string, p: string)
    ensures
      var group := Group(cs, normalize, b, p);
      && (HasApplicable(group, active) <==> HasMember(cs, normalize, active, b, p))
      && forall x :: IsFeasible(x, group, active) <==> SatisfiesAll(x, cs, normalize, active, b, p)
  {
    var group := Group(cs, normalize, b, p);
    forall c ensures c in group <==> IsMember(c, cs, normalize, b, p) {
      GroupMembers(cs, normalize, b, p, c);
    }
    forall c ensures Applies(c, active) <==> IsApplicable(c, active) {
      AppliesIsApplicable(c, active);
    }
    SameApplicable(group, cs, normalize, active, b, p);
  }

  lemma SameApplicable(
    group: seq<Constraint>, cs: seq<Constraint>, normalize: string -> string, active: Option<seq<string>>,
    b: string, p: string)
    requires forall c :: c in group <==> IsMember(c, cs, normalize, b, p)
    requires forall c :: Applies(c, active) <==> IsApplicable(c, active)
    ensures HasApplicable(group, active) <==> HasMember(cs, normalize, active, b, p)
    ensures forall x :: IsFeasible(x, group, active) <==> SatisfiesAll(x, cs, normalize, active, b, p)
  {
    if i :| 0 <= i < |group| && IsApplicable(group[i], active) {
      assert IsMember(group[i], cs, normalize, b, p) && Applies(group[i], active);
    }
    if c :| IsMember(c, cs, normalize, b, p) && Applies(c, active) {
      var i :| 0 <= i < |group| && group[i] == c;
    }
    forall x ensures IsFeasible(x, group, active) <==> SatisfiesAll(x, cs, normalize, active, b, p) {
      if IsFeasible(x, group, active) {
        forall c | IsMember(c, cs, normalize, b, p) && Applies(c, active) ensures Allows(c.range.value, x) {
          var i :| 0 <= i < |group| && group[i] == c;
        }
      }
      if SatisfiesAll(x, cs, normalize, active, b, p) {
        forall i | 0 <= i < |group| && IsApplicable(group[i], active) ensures Allows(group[i].range.value, x) {
          assert IsMember(group[i], cs, normalize, b, p);
        }
      }
    }
  }

  /** What `solve` answers for a branch and a parameter name: an answer when constraints of that branch and name apply
      and some value satisfies them all, a conflict when they apply and none does, otherwise nothing. */
  lemma SolutionMeaning(
    cs: seq<Constraint>, normalize: string -> string, active: Option<seq<string>>, r: Solution, b: string, p: string)
    requires IsSolution(Outcomes(cs, normalize, active), FirstKeys(ByBranch(), cs), r)
    ensures (b in r.branches && p in r.branches[b]) <==>
      HasMember(cs, normalize, active, b, p) && exists x :: SatisfiesAll(x, cs, normalize, active, b, p)
    ensures (b, p) in r.conflicts <==>
      HasMember(cs, normalize, active, b, p) && forall x :: !SatisfiesAll(x, cs, normalize, active, b, p)
    ensures (b, p) in r.conflicts ==> r.status.Conflict?
    ensures b in r.branches && p in r.branches[b] ==>
      forall x :: SatisfiesAll(x, cs, normalize, active, b, p) ==> InReported(x, r.branches[b][p])
  {
    var group := Group(cs, normalize, b, p);
    MembersMeaning(cs, normalize, active, b, p);
    EveryGroupHasOneFate(cs, normalize, active, r, b, p);
    if b in r.branches && p in r.branches[b] {
      AnswerOfGroup(cs, normalize, active, r, b, p);
      forall x | SatisfiesAll(x, cs, normalize, active, b, p) ensures InReported(x, r.branches[b][p]) {
        ReportedRangeIsSound(group, active, x);
      }
    }
  }

  lemma AnswerOfGroup(
    cs: seq<Constraint>, normalize: string -> string, active: Option<seq<string>>, r: Solution, b: string, p: string)
    requires IsSolution(Outcomes(cs, normalize, active), FirstKeys(ByBranch(), cs), r)
    requires b in r.branches && p in r.branches[b]
    ensures GroupOutcome(Group(cs, normalize, b, p), active) == Answered(r.branches[b][p])
  {
    assert Outcomes(cs, normalize, active)(b, p) == Answered(r.branches[b][p]);
  }

  /** Two applicable constraints of one branch that no value satisfies together conflict, if their parameters have the
      same normalised name, however they are written. */
  lemma SynonymsConflict(
    cs: seq<Constraint>, normalize: string -> string, active: Option<seq<string>>, r: Solution, b: string,
    c: Constraint, d: Constraint)
    requires IsSolution(Outcomes(cs, normalize, active), FirstKeys(ByBranch(), cs), r)
    requires c in cs && d in cs && normalize(c.parameter) == normalize(d.parameter)
    requires NamesBranch(c, b) && NamesBranch(d, b) && Applies(c, active) && Applies(d, active)
    requires forall x :: !(Allows(c.range.value, x) && Allows(d.range.value, x))
    ensures (b, normalize(c.parameter)) in r.conflicts && r.status.Conflict?
  {
    var p := normalize(c.parameter);
    assert IsMember(c, cs, normalize, b, p) && IsMember(d, cs, normalize, b, p);
    SolutionMeaning(cs, normalize, active, r, b, p);
  }

  /** Every branch answered is named by a constraint, and every name answered in it is the normalised name of one. */
  lemma AnswersHaveMembers(
    cs: seq<Constraint>, normalize: string -> string, active: Option<seq<string>>, r: Solution, b: string, p: string)
    returns (c: Constraint)
    requires IsSolution(Outcomes(cs, normalize, active), FirstKeys(ByBranch(), cs), r)
    requires b in r.branches && p in r.branches[b]
    ensures c in cs && normalize(c.parameter) == p && NamesBranch(c, b) && Applies(c, active)
  {
    SolutionMeaning(cs, normalize, active, r, b, p);
    c :| IsMember(c, cs, normalize, b, p) && Applies(c, active);
  }

  // ---- The status and the primary branch ----

  /** Constraints of this branch and name apply, and some value satisfies them all. */
  ghost predicate IsAnswerable(
    cs: seq<Constraint>, normalize: string -> string, active: Option<seq<string>>, b: string, p: string)
  {
    HasMember(cs, normalize, active, b, p) && exists x :: SatisfiesAll(x, cs, normalize, active, b, p)
  }

  ghost predicate IsClash(
    cs: seq<Constraint>, normalize: string -> string, active: Option<seq<string>>, b: string, p: string)
  {
    HasMember(cs, normalize, active, b, p) && forall x :: !SatisfiesAll(x, cs, normalize, active, b, p)
  }

  ghost predicate IsAnsweredBranch(
    cs: seq<Constraint>, normalize: string -> string, active: Option<seq<string>>, b: string)
  {
    exists p :: IsAnswerable(cs, normalize, active, b, p)
  }

  lemma AnsweredBranches(
    cs: seq<Constraint>, normalize: string -> string, active: Option<seq<string>>, r: Solution, b: string)
    requires IsSolution(Outcomes(cs, normalize, active), FirstKeys(ByBranch(), cs), r)
    ensures b in r.branches <==> IsAnsweredBranch(cs, normalize, active, b)
  {
    forall p ensures (b in r.branches && p in r.branches[b]) <==> IsAnswerable(cs, normalize, active, b, p) {
      SolutionMeaning(cs, normalize, active, r, b, p);
    }
    if b in r.branches {
      assert r.branches[b] != map[];
      var p :| p in r.branches[b];
      assert IsAnswerable(cs, normalize, active, b, p);
    }
  }

  /** The status: a conflict when some branch and name clash, otherwise OK when something is answered, otherwise nothing
      applies at all. There is a primary branch when something is answered. */
  lemma StatusMeaning(cs: seq<Constraint>, normalize: string -> string, active: Option<seq<string>>, r: Solution)
    requires IsSolution(Outcomes(cs, normalize, active), FirstKeys(ByBranch(), cs), r)
    ensures r.status.Conflict? <==> exists b, p :: IsClash(cs, normalize, active, b, p)
    ensures r.status.Nothing? <==> forall b, p :: !HasMember(cs, normalize, active, b, p)
    ensures r.status.Ok? ==> exists b :: IsAnsweredBranch(cs, normalize, active, b)
    ensures r.primary.None? <==> forall b :: !IsAnsweredBranch(cs, normalize, active, b)
  {
    forall b, p ensures (b, p) in r.conflicts <==> IsClash(cs, normalize, active, b, p) {
      SolutionMeaning(cs, normalize, active, r, b, p);
    }
    forall b ensures b in r.branches <==> IsAnsweredBranch(cs, normalize, active, b) {
      AnsweredBranches(cs, normalize, active, r, b);
    }
    StatusOfClashes(cs, normalize, active, r);
    if r.branches != map[] {
      var b :| b in r.branches;
    }
  }

  lemma StatusOfClashes(cs: seq<Constraint>, normalize: string -> string, active: Option<seq<string>>, r: Solution)
    requires r.status == if r.conflicts != [] then Conflict else if r.branches == map[] then Nothing else Ok
    requires forall b, p :: (b, p) in r.conflicts <==> IsClash(cs, normalize, active, b, p)
    requires forall b :: b in r.branches <==> IsAnsweredBranch(cs, normalize, active, b)
    ensures r.status.Conflict? <==> exists b, p :: IsClash(cs, normalize, active, b, p)
    ensures r.status.Nothing? <==> forall b, p :: !HasMember(cs, normalize, active, b, p)
    ensures r.status.Ok? ==> exists b :: IsAnsweredBranch(cs, normalize, active, b)
  {
    if r.conflicts != [] {
      var (b, p) := r.conflicts[0];
      assert (b, p) in r.conflicts;
    } else if r.branches != map[] {
      var b :| b in r.branches;
      assert IsAnsweredBranch(cs, normalize, active, b);
      var p :| IsAnswerable(cs, normalize, active, b, p);
    } else {
      forall b, p ensures !HasMember(cs, normalize, active, b, p) {
        assert b !in r.branches && (b, p) !in r.conflicts;
        if HasMember(cs, normalize, active, b, p) {
          MemberHasFate(cs, normalize, active, b, p);
        }
      }
    }
  }

  lemma MemberHasFate(
    cs: seq<Constraint>, normalize: string -> string, active: Option<seq<string>>, b: string, p: string)
    requires HasMember(cs, normalize, active, b, p)
    ensures IsClash(cs, normalize, active, b, p) || IsAnsweredBranch(cs, normalize, active, b)
  {
    assert IsClash(cs, normalize, active, b, p) || IsAnswerable(cs, normalize, active, b, p);
  }

  /** A constraint of branch `a` comes before every constraint of branch `b`. */
  ghost predicate AppearsBefore(cs: seq<Constraint>, a: string, b: string) {
    exists i :: 0 <= i < |cs| && NamesBranch(cs[i], a) && forall j :: 0 <= j <= i ==> !NamesBranch(cs[j], b)
  }

  lemma {:induction false} BranchAppears(cs: seq<Constraint>, b: string) returns (i: nat)
    requires b in FirstKeys(ByBranch(), cs)
    ensures i < |cs| && NamesBranch(cs[i], b)
  {
    i := |cs| - 1;
    BranchMeaning(cs[i], b);
    if BranchKey(cs[i]) != b {
      i := BranchAppears(cs[..|cs| - 1], b);
    }
  }

  lemma {:induction false} AppearingIsListed(cs: seq<Constraint>, i: nat, b: string)
    requires i < |cs| && NamesBranch(cs[i], b)
    ensures b in FirstKeys(ByBranch(), cs)
  {
    if i < |cs| - 1 {
      AppearingIsListed(cs[..|cs| - 1], i, b);
    } else {
      BranchMeaning(cs[i], b);
    }
  }

  lemma AppearsBeforeNext(cs: seq<Constraint>, c: Constraint, a: string, b: string)
    requires AppearsBefore(cs, a, b)
    ensures AppearsBefore(cs + [c], a, b)
  {
    var i :| 0 <= i < |cs| && NamesBranch(cs[i], a) && forall j :: 0 <= j <= i ==> !NamesBranch(cs[j], b);
    assert forall j :: 0 <= j <= i ==> (cs + [c])[j] == cs[j];
  }

  /** The branches are listed in order of first appearance. */
  lemma {:induction false} KeysInOrder(cs: seq<Constraint>, j: nat, l: nat)
    requires j < l < |FirstKeys(ByBranch(), cs)|
    ensures AppearsBefore(cs, FirstKeys(ByBranch(), cs)[j], FirstKeys(ByBranch(), cs)[l])
  {
    var init, last := cs[..|cs| - 1], cs[|cs| - 1];
    var keys := FirstKeys(ByBranch(), init);
    assert cs == init + [last];
    if l < |keys| {
      KeysInOrder(init, j, l);
      AppearsBeforeNext(init, last, keys[j], keys[l]);
    } else {
      var b := BranchKey(last);
      var i := BranchAppears(init, keys[j]);
      forall k | 0 <= k <= i ensures !NamesBranch(cs[k], b) {
        assert cs[k] == init[k];
        if NamesBranch(init[k], b) {
          AppearingIsListed(init, k, b);
        }
      }
      assert NamesBranch(cs[i], keys[j]);
    }
  }

  /** The primary branch: the general one if it is answered, otherwise the answered one that appears first. */
  lemma PrimaryMeaning(cs: seq<Constraint>, normalize: string -> string, active: Option<seq<string>>, r: Solution,
                       b: string)
    requires IsSolution(Outcomes(cs, normalize, active), FirstKeys(ByBranch(), cs), r)
    requires IsAnsweredBranch(cs, normalize, active, b)
    ensures r.primary.Some? && IsAnsweredBranch(cs, normalize, active, r.primary.value)
    ensures IsAnsweredBranch(cs, normalize, active, "general") ==> r.primary.value == "general"
    ensures r.primary.value == b || r.primary.value == "general" || AppearsBefore(cs, r.primary.value, b)
  {
    AnsweredBranches(cs, normalize, active, r, b);
    AnsweredBranches(cs, normalize, active, r, "general");
    AnsweredBranches(cs, normalize, active, r, r.primary.value);
    if r.primary.value != b && r.primary.value != "general" {
      AnsweredIsListed(cs, normalize, active, b);
      FirstAppearsBefore(cs, r.branches, r.primary.value, b);
    }
  }

  lemma AnsweredIsListed(cs: seq<Constraint>, normalize: string -> string, active: Option<seq<string>>, b: string)
    requires IsAnsweredBranch(cs, normalize, active, b)
    ensures b in FirstKeys(ByBranch(), cs)
  {
    var p :| IsAnswerable(cs, normalize, active, b, p);
    var c :| IsMember(c, cs, normalize, b, p);
    var i :| 0 <= i < |cs| && cs[i] == c;
    AppearingIsListed(cs, i, b);
  }

  lemma FirstAppearsBefore(cs: seq<Constraint>, branches: map<string, map<string, Answer>>, a: string, b: string)
    requires IsFirstIn(a, FirstKeys(ByBranch(), cs), branches)
    requires b in branches && b in FirstKeys(ByBranch(), cs) && a != b
    ensures AppearsBefore(cs, a, b)
  {
    var keys := FirstKeys(ByBranch(), cs);
    var j :| 0 <= j < |keys| && keys[j] == a && forall l :: 0 <= l < j ==> keys[l] !in branches;
    var l :| 0 <= l < |keys| && keys[l] == b;
    KeysInOrder(cs, j, l);
  }

  // ---- The unit ----

  /** `d` ranks no lower than `c`: by level, then by confidence. */
  predicate RanksNoLower(d: Constraint, c: Constraint) {
    d.level > c.level || (d.level == c.level && d.confidence >= c.confidence)
  }

  function Ties(c: Constraint, active: Option<seq<string>>): Constraint -> bool {
    (d: Constraint) => IsApplicable(d, active) && d.level == c.level && d.confidence == c.confidence
  }

  /** The last constraint of a sequence that applies. */
  predicate IsLastApplicable(cs: seq<Constraint>, i: nat, active: Option<seq<string>>) {
    i < |cs| && IsApplicable(cs[i], active) && forall j :: i < j < |cs| ==> !IsApplicable(cs[j], active)
  }

  lemma {:induction false} UnitIsOfLast(cs: seq<Constraint>, active: Option<seq<string>>) returns (i: nat)
    ensures !HasApplicable(cs, active) ==> ApplyAll(cs, active).unit == CELSIUS
    ensures HasApplicable(cs, active) ==>
      IsLastApplicable(cs, i, active) && ApplyAll(cs, active).unit == UnitOf(cs[i])
  {
    i := 0;
    if cs != [] {
      var n := |cs| - 1;
      var k := UnitIsOfLast(cs[..n], active);
      assert cs == cs[..n] + [cs[n]];
      FeasibleNext(0.0, cs[..n], cs[n], active);
      if IsApplicable(cs[n], active) {
        i := n;
      } else {
        i := k;
        assert ApplyAll(cs, active) == ApplyAll(cs[..n], active);
      }
    }
  }

  lemma FilterEndsWith<T>(p: T -> bool, s: seq<T>, i: nat)
    requires i < |s| && p(s[i]) && forall j :: i < j < |s| ==> !p(s[j])
    ensures Filter(p, s) != [] && Filter(p, s)[|Filter(p, s)| - 1] == s[i]
    decreases |s|
  {
    if i < |s| - 1 {
      FilterEndsWith(p, s[..|s| - 1], i);
    }
  }

  /** The reported unit is that of the applicable constraint with the lowest rank, the last given among equals: its own
      unit, or degrees Celsius if it is a scalar temperature; without one it is degrees Celsius. */
  lemma UnitMeaning(cs: seq<Constraint>, active: Option<seq<string>>) returns (c: Constraint)
    ensures !HasApplicable(cs, active) ==> Solve(cs, active).unit == "\U{00B0}C"
    ensures HasApplicable(cs, active) ==>
      && c in cs && IsApplicable(c, active)
      && (forall d <- cs :: IsApplicable(d, active) ==> RanksNoLower(d, c))
      && Filter(Ties(c, active), cs) != [] && Filter(Ties(c, active), cs)[|Filter(Ties(c, active), cs)| - 1] == c
      && Solve(cs, active).unit == if IsTemperatureUnit(c.unit) && c.scalar.Some? then "\U{00B0}C" else c.unit
  {
    var sorted := Sort(cs, BY_PRIORITY);
    var i := UnitIsOfLast(sorted, active);
    SortMembers(cs, BY_PRIORITY);
    SameMeaning(cs, sorted, active);
    SameMeaning(sorted, cs, active);
    PriorityIsStrictWeak();
    SortIsSorted(cs, BY_PRIORITY);
    if HasApplicable(cs, active) {
      c := sorted[i];
      assert c in sorted;
      LastRanksLowest(cs, sorted, i, active);
      SortIsStable(cs, BY_PRIORITY, Ties(c, active));
      FilterEndsWith(Ties(c, active), sorted, i);
    } else {
      c := Constraint("", None, "", None, 0, 0.0, None, []);
    }
  }

  lemma PriorityIsStrictWeak()
    ensures IsStrictWeak(BY_PRIORITY)
  {
  }

  lemma LastRanksLowest(cs: seq<Constraint>, sorted: seq<Constraint>, i: nat, active: Option<seq<string>>)
    requires IsOrdered(sorted, BY_PRIORITY) && IsLastApplicable(sorted, i, active)
    requires forall d :: d in cs <==> d in sorted
    ensures forall d <- cs :: IsApplicable(d, active) ==> RanksNoLower(d, sorted[i])
  {
    forall d | d in cs && IsApplicable(d, active) ensures RanksNoLower(d, sorted[i]) {
      var j :| 0 <= j < |sorted| && sorted[j] == d;
      assert j <= i;
      assert j < i ==> !BY_PRIORITY(sorted[i], sorted[j]);
    }
  }
}
