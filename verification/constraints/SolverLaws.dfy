/** What `solve` guarantees about its result, whatever the constraints and their order. */
module SolverLaws {
  import opened Collections
  import opened Intervals
  import opened Conversion
  import opened Solver
  import opened Branches

  // ---- Order ----

  predicate SameConstraints(cs: seq<Constraint>, ds: seq<Constraint>) {
    && (forall i :: 0 <= i < |cs| ==> cs[i] in ds)
    && (forall i :: 0 <= i < |ds| ==> ds[i] in cs)
  }

  lemma SameGroups(cs: seq<Constraint>, ds: seq<Constraint>, normalize: string -> string, b: string, p: string)
    requires SameConstraints(cs, ds)
    ensures forall c :: c in Group(cs, normalize, b, p) <==> c in Group(ds, normalize, b, p)
  {
    FilterMembers(c => ByBranch()(c) == b, cs);
    FilterMembers(c => ByBranch()(c) == b, ds);
    FilterMembers(c => ByParameter(normalize)(c) == p, Keyed(ByBranch(), b, cs));
    FilterMembers(c => ByParameter(normalize)(c) == p, Keyed(ByBranch(), b, ds));
  }

  /** Same fate, and for answers the same range and confidence; the unit is that of the lowest-ranked constraint and may
      differ. */
  predicate Agree(o: Outcome, q: Outcome) {
    match (o, q)
    case (Answered(a), Answered(b)) => a.lower == b.lower && a.upper == b.upper && a.confidence == b.confidence
    case (Conflicting, Conflicting) => true
    case (NothingApplied, NothingApplied) => true
    case _ => false
  }

  lemma GroupsAgree(cs: seq<Constraint>, ds: seq<Constraint>, normalize: string -> string, active: Option<seq<string>>,
                    b: string, p: string)
    requires SameConstraints(cs, ds)
    ensures Agree(Outcomes(cs, normalize, active)(b, p), Outcomes(ds, normalize, active)(b, p))
  {
    SameGroups(cs, ds, normalize, b, p);
    SolveIgnoresOrder(Group(cs, normalize, b, p), Group(ds, normalize, b, p), active);
  }

  /** The same groups are answered, alike. */
  ghost predicate AnswersAgree(r: Solution, t: Solution) {
    && r.branches.Keys == t.branches.Keys
    && (forall b <- r.branches :: r.branches[b].Keys == t.branches[b].Keys)
    && (forall b <- r.branches, p <- r.branches[b] :: Agree(Answered(r.branches[b][p]), Answered(t.branches[b][p])))
  }

  lemma CollectedAnswersAgree(o: (string, string) -> Outcome, q: (string, string) -> Outcome, r: Solution, t: Solution)
    requires CollectsAnswers(o, r.branches) && CollectsAnswers(q, t.branches)
    requires forall b, p :: Agree(o(b, p), q(b, p))
    ensures AnswersAgree(r, t)
  {
    forall b ensures b in r.branches <==> b in t.branches {
    }
    forall b <- r.branches ensures r.branches[b].Keys == t.branches[b].Keys {
      forall p ensures p in r.branches[b] <==> p in t.branches[b] {
        assert Agree(o(b, p), q(b, p));
      }
    }
  }

  lemma CollectedConflictsAgree(
    o: (string, string) -> Outcome, q: (string, string) -> Outcome, r: Solution, t: Solution)
    requires CollectsConflicts(o, r.conflicts) && CollectsConflicts(q, t.conflicts)
    requires forall b, p :: Agree(o(b, p), q(b, p))
    ensures forall b, p :: (b, p) in r.conflicts <==> (b, p) in t.conflicts
    ensures r.conflicts == [] <==> t.conflicts == []
  {
    forall b, p ensures (b, p) in r.conflicts <==> (b, p) in t.conflicts {
      assert Agree(o(b, p), q(b, p));
    }
    if r.conflicts != [] {
      assert r.conflicts[0] == (r.conflicts[0].0, r.conflicts[0].1) && r.conflicts[0] in t.conflicts;
    }
    if t.conflicts != [] {
      assert t.conflicts[0] == (t.conflicts[0].0, t.conflicts[0].1) && t.conflicts[0] in r.conflicts;
    }
  }

  lemma SolutionsAgree(
    o: (string, string) -> Outcome, q: (string, string) -> Outcome, oKeys: seq<string>, qKeys: seq<string>,
    r: Solution, t: Solution)
    requires IsSolution(o, oKeys, r) && IsSolution(q, qKeys, t)
    requires forall b, p :: Agree(o(b, p), q(b, p))
    ensures r.status == t.status && AnswersAgree(r, t)
    ensures forall b, p :: (b, p) in r.conflicts <==> (b, p) in t.conflicts
  {
    CollectedAnswersAgree(o, q, r, t);
    CollectedConflictsAgree(o, q, r, t);
    assert r.branches == map[] <==> r.branches.Keys == {};
    assert t.branches == map[] <==> t.branches.Keys == {};
  }

  /** `solve` does not depend on the order of the constraints, nor on repetitions: status, answered and conflicting
      groups, ranges and confidences are the same. */
  lemma {:induction false} SolveAllIgnoresOrder(cs: seq<Constraint>, ds: seq<Constraint>, normalize: string -> string,
                             active: Option<seq<string>>, r: Solution, t: Solution)
    requires SameConstraints(cs, ds)
    requires IsSolution(Outcomes(cs, normalize, active), FirstKeys(ByBranch(), cs), r)
    requires IsSolution(Outcomes(ds, normalize, active), FirstKeys(ByBranch(), ds), t)
    ensures r.status == t.status && AnswersAgree(r, t)
    ensures forall b, p :: (b, p) in r.conflicts <==> (b, p) in t.conflicts
  {
    var o, q := Outcomes(cs, normalize, active), Outcomes(ds, normalize, active);
    forall b, p ensures Agree(o(b, p), q(b, p)) {
      GroupsAgree(cs, ds, normalize, active, b, p);
    }
    SolutionsAgree(o, q, FirstKeys(ByBranch(), cs), FirstKeys(ByBranch(), ds), r, t);
  }

  // ---- The fate of a group ----

  /** A group is answered when something applies and can be satisfied, conflicting when something applies and cannot,
      and passed over when nothing applies. */
  lemma FateOfGroup(cs: seq<Constraint>, active: Option<seq<string>>)
    ensures
      var o := GroupOutcome(cs, active);
      && (o.Answered? <==> HasApplicable(cs, active) && exists x :: IsFeasible(x, cs, active))
      && (o.Conflicting? <==> HasApplicable(cs, active) && forall x :: !IsFeasible(x, cs, active))
      && (o.NothingApplied? <==> !HasApplicable(cs, active))
  {
    SolveIsExact(cs, active);
    var r := Solve(cs, active);
    if r.interval.Span? {
      var x := HasPoint(r.interval);
      assert IsFeasible(x, cs, active);
    }
  }

  /** Each branch and parameter lands in exactly one place: among the answers, among the conflicts, or nowhere; and the
      status says which kinds there are. */
  lemma EveryGroupHasOneFate(cs: seq<Constraint>, normalize: string -> string, active: Option<seq<string>>, r: Solution,
                             b: string, p: string)
    requires IsSolution(Outcomes(cs, normalize, active), FirstKeys(ByBranch(), cs), r)
    ensures
      var group := Group(cs, normalize, b, p);
      && ((b in r.branches && p in r.branches[b]) <==>
            HasApplicable(group, active) && exists x :: IsFeasible(x, group, active))
      && ((b, p) in r.conflicts <==> HasApplicable(group, active) && forall x :: !IsFeasible(x, group, active))
      && (r.status.Ok? ==> (b, p) !in r.conflicts)
      && (r.status.Nothing? ==> !HasApplicable(group, active))
  {
    FateOfGroup(Group(cs, normalize, b, p), active);
    var o := Outcomes(cs, normalize, active);
    assert o(b, p) == GroupOutcome(Group(cs, normalize, b, p), active);
    if o(b, p).Answered? {
      assert HasAnswer(o, b);
    }
  }

  // ---- The reported range ----

  predicate InReported(x: real, a: Answer) {
    (a.lower.None? || a.lower.value <= x) && (a.upper.None? || x <= a.upper.value)
  }

  predicate IsFiniteOpen(b: Bound) {
    b.At? && !b.closed
  }

  /** Every feasible value lies in the reported range. */
  lemma ReportedRangeIsSound(cs: seq<Constraint>, active: Option<seq<string>>, x: real)
    requires GroupOutcome(cs, active).Answered? && IsFeasible(x, cs, active)
    ensures InReported(x, GroupOutcome(cs, active).answer)
  {
    SolveIsExact(cs, active);
    FateOfGroup(cs, active);
  }

  lemma ReportedEndsAreExactIff(cs: seq<Constraint>, active: Option<seq<string>>)
    requires GroupOutcome(cs, active).Answered?
    ensures
      var i := Solve(cs, active).interval;
      (forall x :: InReported(x, GroupOutcome(cs, active).answer) <==> IsFeasible(x, cs, active))
      <==> !IsFiniteOpen(i.lo) && !IsFiniteOpen(i.hi)
  {
    SolveIsExact(cs, active);
    FateOfGroup(cs, active);
    var r := Solve(cs, active);
    var i, a := r.interval, GroupOutcome(cs, active).answer;
    var p := HasPoint(i);
    if IsFiniteOpen(i.lo) {
      var x := i.lo.value;
      assert InReported(x, a) && !In(x, i);
    } else if IsFiniteOpen(i.hi) {
      var x := i.hi.value;
      assert InReported(x, a) && !In(x, i);
    } else {
      forall x ensures InReported(x, a) <==> IsFeasible(x, cs, active) {
        assert In(x, i) <==> IsFeasible(x, cs, active);
      }
    }
  }

  /** No applicable constraint has a lower end above `v`. */
  predicate IsTightestLower(v: real, cs: seq<Constraint>, active: Option<seq<string>>) {
    forall j :: 0 <= j < |cs| && IsApplicable(cs[j], active) && cs[j].range.value.lower.Some? ==>
      cs[j].range.value.lower.value <= v
  }

  predicate IsTightestUpper(v: real, cs: seq<Constraint>, active: Option<seq<string>>) {
    forall j :: 0 <= j < |cs| && IsApplicable(cs[j], active) && cs[j].range.value.upper.Some? ==>
      v <= cs[j].range.value.upper.value
  }

  /** An applicable constraint excludes its own lower end. */
  predicate ExcludesLower(c: Constraint, active: Option<seq<string>>) {
    IsApplicable(c, active) && c.range.value.lower.Some? && !c.range.value.lowerInclusive
  }

  predicate ExcludesUpper(c: Constraint, active: Option<seq<string>>) {
    IsApplicable(c, active) && c.range.value.upper.Some? && !c.range.value.upperInclusive
  }

  /** The tightest lower end among the applicable constraints is excluded by one of them. */
  predicate TightestLowerIsExcluded(cs: seq<Constraint>, active: Option<seq<string>>) {
    exists i :: 0 <= i < |cs| && ExcludesLower(cs[i], active)
      && IsTightestLower(cs[i].range.value.lower.value, cs, active)
  }

  predicate TightestUpperIsExcluded(cs: seq<Constraint>, active: Option<seq<string>>) {
    exists i :: 0 <= i < |cs| && ExcludesUpper(cs[i], active)
      && IsTightestUpper(cs[i].range.value.upper.value, cs, active)
  }

  /** An interval that holds `p` and nothing at `v` or below, but everything between, starts open at `v`. */
  lemma LowEndIsAt(i: Interval, v: real, p: real)
    requires In(p, i) && v < p && !In(v, i) && forall x :: v < x <= p ==> In(x, i)
    ensures i.lo == At(v, false)
  {
    var x := (v + if i.lo.At? && i.lo.value < p then i.lo.value else p) / 2.0;
    assert v < x <= p ==> In(x, i);
  }

  lemma HighEndIsAt(i: Interval, v: real, p: real)
    requires In(p, i) && p < v && !In(v, i) && forall x :: p <= x < v ==> In(x, i)
    ensures i.hi == At(v, false)
  {
    var x := (v + if i.hi.At? && i.hi.value > p then i.hi.value else p) / 2.0;
    assert p <= x < v ==> In(x, i);
  }

  lemma LowEndIsOpenIff(i: Interval, cs: seq<Constraint>, active: Option<seq<string>>, p: real)
    requires IsCanonical(i) && In(p, i) && forall x :: In(x, i) <==> IsFeasible(x, cs, active)
    ensures IsFiniteOpen(i.lo) <==> TightestLowerIsExcluded(cs, active)
  {
    if TightestLowerIsExcluded(cs, active) {
      var k :|
        0 <= k < |cs| && ExcludesLower(cs[k], active) && IsTightestLower(cs[k].range.value.lower.value, cs, active);
      var v := cs[k].range.value.lower.value;
      assert Allows(cs[k].range.value, p) && !Allows(cs[k].range.value, v);
      assert !IsFeasible(v, cs, active);
      forall x | v < x <= p ensures In(x, i) {
        assert IsFeasible(p, cs, active);
      }
      LowEndIsAt(i, v, p);
    }
    if IsFiniteOpen(i.lo) {
      var v := i.lo.value;
      assert !In(v, i);
      var k :| 0 <= k < |cs| && IsApplicable(cs[k], active) && !Allows(cs[k].range.value, v);
      assert Allows(cs[k].range.value, p);
      forall j | 0 <= j < |cs| && IsApplicable(cs[j], active) && cs[j].range.value.lower.Some?
        ensures cs[j].range.value.lower.value <= v
      {
        LowerIsBelow(i, cs, active, p, j);
      }
      assert ExcludesLower(cs[k], active) && cs[k].range.value.lower.value == v;
    }
  }

  /** A lower end above the interval's own would exclude points of it. */
  lemma LowerIsBelow(i: Interval, cs: seq<Constraint>, active: Option<seq<string>>, p: real, j: nat)
    requires IsCanonical(i) && In(p, i) && i.lo.At? && forall x :: In(x, i) <==> IsFeasible(x, cs, active)
    requires j < |cs| && IsApplicable(cs[j], active) && cs[j].range.value.lower.Some?
    ensures cs[j].range.value.lower.value <= i.lo.value
  {
    var v, w := i.lo.value, cs[j].range.value.lower.value;
    var x := (v + if w < p then w else p) / 2.0;
    assert In(x, i) ==> Allows(cs[j].range.value, x);
    assert In(p, i) ==> Allows(cs[j].range.value, p);
  }

  lemma HighEndIsOpenIff(i: Interval, cs: seq<Constraint>, active: Option<seq<string>>, p: real)
    requires IsCanonical(i) && In(p, i) && forall x :: In(x, i) <==> IsFeasible(x, cs, active)
    ensures IsFiniteOpen(i.hi) <==> TightestUpperIsExcluded(cs, active)
  {
    if TightestUpperIsExcluded(cs, active) {
      var k :|
        0 <= k < |cs| && ExcludesUpper(cs[k], active) && IsTightestUpper(cs[k].range.value.upper.value, cs, active);
      var v := cs[k].range.value.upper.value;
      assert Allows(cs[k].range.value, p) && !Allows(cs[k].range.value, v);
      assert !IsFeasible(v, cs, active);
      forall x | p <= x < v ensures In(x, i) {
        assert IsFeasible(p, cs, active);
      }
      HighEndIsAt(i, v, p);
    }
    if IsFiniteOpen(i.hi) {
      var v := i.hi.value;
      assert !In(v, i);
      var k :| 0 <= k < |cs| && IsApplicable(cs[k], active) && !Allows(cs[k].range.value, v);
      assert Allows(cs[k].range.value, p);
      forall j | 0 <= j < |cs| && IsApplicable(cs[j], active) && cs[j].range.value.upper.Some?
        ensures v <= cs[j].range.value.upper.value
      {
        UpperIsAbove(i, cs, active, p, j);
      }
      assert ExcludesUpper(cs[k], active) && cs[k].range.value.upper.value == v;
    }
  }

  lemma UpperIsAbove(i: Interval, cs: seq<Constraint>, active: Option<seq<string>>, p: real, j: nat)
    requires IsCanonical(i) && In(p, i) && i.hi.At? && forall x :: In(x, i) <==> IsFeasible(x, cs, active)
    requires j < |cs| && IsApplicable(cs[j], active) && cs[j].range.value.upper.Some?
    ensures i.hi.value <= cs[j].range.value.upper.value
  {
    var v, w := i.hi.value, cs[j].range.value.upper.value;
    var x := (v + if w > p then w else p) / 2.0;
    assert In(x, i) ==> Allows(cs[j].range.value, x);
    assert In(p, i) ==> Allows(cs[j].range.value, p);
  }

  /** The reported range is exactly the feasible set if and only if no applicable constraint excludes the tightest lower
      or the tightest upper end: such an end is reported as if there were none. */
  lemma ReportedRangeIsExactIff(cs: seq<Constraint>, active: Option<seq<string>>)
    requires GroupOutcome(cs, active).Answered?
    ensures (forall x :: InReported(x, GroupOutcome(cs, active).answer) <==> IsFeasible(x, cs, active))
      <==> !TightestLowerIsExcluded(cs, active) && !TightestUpperIsExcluded(cs, active)
  {
    SolveIsExact(cs, active);
    FateOfGroup(cs, active);
    var i := Solve(cs, active).interval;
    var p := HasPoint(i);
    ReportedEndsAreExactIff(cs, active);
    LowEndIsOpenIff(i, cs, active, p);
    HighEndIsOpenIff(i, cs, active, p);
  }

  /** "below `v`" alone is reported without bounds: every number is in the reported range, `v` is not feasible. */
  lemma OpenEndIsNotReported(c: Constraint, v: real)
    requires c.range == Some(Range(None, Some(v), true, false))
    ensures GroupOutcome([c], None).Answered? && !IsFeasible(v, [c], None)
    ensures forall x :: InReported(x, GroupOutcome([c], None).answer)
  {
    var cs := [c];
    assert IsApplicable(cs[0], None);
    assert IsFeasible(v - 1.0, cs, None) && !IsFeasible(v, cs, None);
    FateOfGroup(cs, None);
    SolveIsExact(cs, None);
    var i := Solve(cs, None).interval;
    HighEndIsAt(i, v, v - 1.0);
    var low := if i.lo.At? && i.lo.value < v then i.lo.value - 1.0 else v - 1.0;
    assert IsFeasible(low, cs, None);
  }

  // ---- Old-style constraints ----

  datatype OldConstraint = OldConstraint(
    parameter: string, op: string, value: Value, unit: string, level: int, confidence: real,
    scopePath: Option<seq<string>>, conditions: seq<Condition>)

  /** `_ensure_v2`: an empty scope path becomes none, and the conditions are not carried over. */
  function EnsureV2(c: OldConstraint): Constraint
    requires IsConvertible(c.op, c.value, c.unit)
  {
    var (range, unit) := Converted(c.op, c.value, c.unit);
    Constraint(c.parameter, Some(range), unit, None, c.level, c.confidence,
               if c.scopePath == Some([]) then None else c.scopePath, [])
  }

  /** An old-style constraint solved alone: a reading is feasible exactly when the constraint does not apply or the
      reading satisfies it in its own unit. It is always solved in the general branch, whatever its conditions. */
  lemma OldConstraintMeaning(c: OldConstraint, active: Option<seq<string>>, x: real)
    requires IsConvertible(c.op, c.value, c.unit)
    ensures
      var applies := active.None? || c.scopePath.None? || c.scopePath.value <= active.value;
      && (IsApplicable(EnsureV2(c), active) <==> applies)
      && (applies ==> (IsFeasible(Image(x, c.unit), [EnsureV2(c)], active) <==> Satisfies(x, c.op, c.value)))
      && BranchKey(EnsureV2(c)) == "general"
      && EnsureV2(c).parameter == c.parameter && EnsureV2(c).level == c.level && EnsureV2(c).confidence == c.confidence
      && EnsureV2(c).unit == if IsTemperatureUnit(c.unit) then "\U{00B0}C" else c.unit
  {
    ConversionKeepsMeaning(x, c.op, c.value, c.unit);
    var v2 := EnsureV2(c);
    FeasibleNext(Image(x, c.unit), [], v2, active);
    assert [] + [v2] == [v2];
    if active.Some? && v2.scopePath.Some? && |v2.scopePath.value| <= |active.value| {
      assert active.value[..|v2.scopePath.value|] == v2.scopePath.value <==> v2.scopePath.value <= active.value;
    }
  }

  /** Converted or not, a constraint stays in its branch exactly when its own conditions give the general one. */
  lemma ConversionKeepsBranchIff(c: OldConstraint)
    requires IsConvertible(c.op, c.value, c.unit)
    ensures BranchKey(EnsureV2(c)) == FirstCondition(c.conditions) <==> FirstCondition(c.conditions) == "general"
  {
  }

  /** A constraint conditioned on an environment leaves its branch. */
  lemma ConversionLeavesBranch(c: OldConstraint, environment: string)
    requires IsConvertible(c.op, c.value, c.unit) && environment != "general"
    requires c.conditions == [Condition("environment", environment, true)]
    ensures FirstCondition(c.conditions) == environment && BranchKey(EnsureV2(c)) == "general"
  {
  }
}
