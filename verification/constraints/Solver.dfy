/**
 The constraint solver: constraints are grouped by branch and parameter, and each group is solved by intersecting the
 intervals of its applicable constraints in order of priority.
 */
module Solver {
  import opened Collections
  import opened Intervals
  import opened Conversion

  datatype Condition = Condition(parameter: string, shown: string, truthy: bool)

  /** `scalar` is the scalar value of a constraint of value type "scalar". */
  datatype Constraint = Constraint(
    parameter: string, range: Option<Range>, unit: string, scalar: Option<real>, level: int, confidence: real,
    scopePath: Option<seq<string>>, conditions: seq<Condition>)

  /** What solving one parameter yields. */
  datatype Solved = Solved(interval: Interval, unit: string, confidence: real, applied: bool, conflict: bool)

  predicate ScopeMatches(scope: Option<seq<string>>, active: seq<string>) {
    match scope
    case None => true
    case Some(path) => if |path| > |active| then false else active[..|path|] == path
  }

  /** The constraint is in scope and has an interval. */
  predicate IsApplicable(c: Constraint, active: Option<seq<string>>) {
    c.range.Some? && (active.None? || ScopeMatches(c.scopePath, active.value))
  }

  predicate ComesBefore(a: Constraint, b: Constraint) {
    a.level > b.level || (a.level == b.level && a.confidence > b.confidence)
  }

  const BY_PRIORITY: (Constraint, Constraint) -> bool := (a: Constraint, b: Constraint) => ComesBefore(a, b)

  function UnitOf(c: Constraint): string {
    if IsTemperatureUnit(c.unit) && c.scalar.Some? then CELSIUS else c.unit
  }

  const START := Solved(EVERYTHING, CELSIUS, 1.0, false, false)

  function Min(a: real, b: real): real {
    if b < a then b else a
  }

  /** One turn of the loop over the sorted constraints. */
  function Applied(s: Solved, c: Constraint, active: Option<seq<string>>): Solved {
    if !IsApplicable(c, active) then s
    else
      var met := Meet(s.interval, RangeToInterval(c.range.value));
      if met.Empty? then s.(interval := met, unit := UnitOf(c), conflict := true)
      else Solved(met, UnitOf(c), Min(s.confidence, c.confidence), true, s.conflict)
  }

  function ApplyAll(cs: seq<Constraint>, active: Option<seq<string>>): Solved {
    if cs == [] then START else Applied(ApplyAll(cs[..|cs| - 1], active), cs[|cs| - 1], active)
  }

  function Solve(cs: seq<Constraint>, active: Option<seq<string>>): Solved {
    var s := ApplyAll(Sort(cs, BY_PRIORITY), active);
    if s.applied then s else s.(interval := Empty)
  }

  method SolveParameter(constraints: seq<Constraint>, active: Option<seq<string>>) returns (r: Solved)
    ensures r == Solve(constraints, active)
  {
    var sorted := Sort(constraints, BY_PRIORITY);
    var interval, unit, confidence := EVERYTHING, CELSIUS, 1.0;
    var appliedAny, hadConflict := false, false;
    for i := 0 to |sorted|
      invariant Solved(interval, unit, confidence, appliedAny, hadConflict) == ApplyAll(sorted[..i], active)
    {
      var c := sorted[i];
      assert sorted[..i + 1][..i] == sorted[..i];
      if active.Some? && !ScopeMatches(c.scopePath, active.value) {
        continue;
      }
      if c.range.None? {
        continue;
      }
      unit := c.unit;
      if IsTemperatureUnit(c.unit) && c.scalar.Some? {
        unit := CELSIUS;
      }
      var met := Meet(interval, RangeToInterval(c.range.value));
      interval := met;
      if met.Empty? {
        hadConflict := true;
      } else {
        appliedAny := true;
        confidence := Min(confidence, c.confidence);
      }
    }
    assert sorted[..|sorted|] == sorted;
    if !appliedAny {
      interval := Empty;
    }
    return Solved(interval, unit, confidence, appliedAny, hadConflict);
  }

  // ---- The meaning of one group ----

  predicate HasApplicable(cs: seq<Constraint>, active: Option<seq<string>>) {
    exists i :: 0 <= i < |cs| && IsApplicable(cs[i], active)
  }

  /** `x` satisfies every applicable constraint. */
  predicate IsFeasible(x: real, cs: seq<Constraint>, active: Option<seq<string>>) {
    forall i :: 0 <= i < |cs| && IsApplicable(cs[i], active) ==> Allows(cs[i].range.value, x)
  }

  lemma FeasibleNext(x: real, cs: seq<Constraint>, c: Constraint, active: Option<seq<string>>)
    ensures IsFeasible(x, cs + [c], active)
      <==> IsFeasible(x, cs, active) && (IsApplicable(c, active) ==> Allows(c.range.value, x))
    ensures HasApplicable(cs + [c], active) <==> HasApplicable(cs, active) || IsApplicable(c, active)
  {
    var longer := cs + [c];
    assert longer[|cs|] == c;
    assert forall i :: 0 <= i < |cs| ==> longer[i] == cs[i];
  }

  /** The least confidence of the applicable constraints, at most 1. */
  ghost predicate IsLeastConfidence(conf: real, cs: seq<Constraint>, active: Option<seq<string>>) {
    && conf <= 1.0
    && (forall i :: 0 <= i < |cs| && IsApplicable(cs[i], active) ==> conf <= cs[i].confidence)
    && (conf == 1.0 || exists i :: 0 <= i < |cs| && IsApplicable(cs[i], active) && conf == cs[i].confidence)
  }

  lemma LeastConfidenceNext(conf: real, cs: seq<Constraint>, c: Constraint, active: Option<seq<string>>)
    requires IsLeastConfidence(conf, cs, active)
    ensures IsLeastConfidence(if IsApplicable(c, active) then Min(conf, c.confidence) else conf, cs + [c], active)
  {
    var longer := cs + [c];
    assert longer[|cs|] == c;
    assert forall i :: 0 <= i < |cs| ==> longer[i] == cs[i];
  }

  ghost predicate LoopInv(s: Solved, cs: seq<Constraint>, active: Option<seq<string>>) {
    && IsCanonical(s.interval)
    && (forall x :: In(x, s.interval) <==> IsFeasible(x, cs, active))
    && (s.conflict <==> s.interval.Empty?)
    && (s.applied ==> HasApplicable(cs, active))
    && (HasApplicable(cs, active) ==> s.applied || s.conflict)
    && (s.conflict ==> HasApplicable(cs, active))
    && (!s.conflict ==> IsLeastConfidence(s.confidence, cs, active))
  }

  lemma {:induction false} ApplyAllMeaning(cs: seq<Constraint>, active: Option<seq<string>>)
    ensures LoopInv(ApplyAll(cs, active), cs, active)
  {
    if cs != [] {
      var init, c := cs[..|cs| - 1], cs[|cs| - 1];
      var s := ApplyAll(init, active);
      ApplyAllMeaning(init, active);
      assert cs == init + [c];
      forall x ensures In(x, ApplyAll(cs, active).interval) <==> IsFeasible(x, cs, active) {
        FeasibleNext(x, init, c, active);
      }
      FeasibleNext(0.0, init, c, active);
      if !s.conflict {
        LeastConfidenceNext(s.confidence, init, c, active);
      }
    }
  }

  lemma SameMeaning(cs: seq<Constraint>, ds: seq<Constraint>, active: Option<seq<string>>)
    requires forall c :: c in cs <==> c in ds
    ensures HasApplicable(cs, active) ==> HasApplicable(ds, active)
    ensures forall x :: IsFeasible(x, cs, active) ==> IsFeasible(x, ds, active)
    ensures forall conf :: IsLeastConfidence(conf, cs, active) ==> IsLeastConfidence(conf, ds, active)
  {
    assert forall i :: 0 <= i < |cs| ==> cs[i] in ds;
    assert forall i :: 0 <= i < |ds| ==> ds[i] in cs;
  }

  /** Exact meaning: `x` lies in the result exactly when some constraint applies and `x` satisfies every one that
      does; a conflict is reported exactly when some apply and no real satisfies them all; and without conflict the
      confidence is the least of theirs. */
  lemma SolveIsExact(cs: seq<Constraint>, active: Option<seq<string>>)
    ensures
      var r := Solve(cs, active);
      && IsCanonical(r.interval)
      && (forall x :: In(x, r.interval) <==> HasApplicable(cs, active) && IsFeasible(x, cs, active))
      && (r.conflict <==> HasApplicable(cs, active) && forall x :: !IsFeasible(x, cs, active))
      && (!r.conflict ==> IsLeastConfidence(r.confidence, cs, active))
  {
    var sorted := Sort(cs, BY_PRIORITY);
    SortMembers(cs, BY_PRIORITY);
    ApplyAllMeaning(sorted, active);
    SameMeaning(sorted, cs, active);
    SameMeaning(cs, sorted, active);
    var s := ApplyAll(sorted, active);
    if s.interval.Span? {
      var x := HasPoint(s.interval);
      assert IsFeasible(x, cs, active);
    }
  }

  lemma LeastConfidenceIsUnique(a: real, b: real, cs: seq<Constraint>, active: Option<seq<string>>)
    requires IsLeastConfidence(a, cs, active) && IsLeastConfidence(b, cs, active)
    ensures a == b
  {
  }

  /** The interval, the conflict flag and the confidence of a conflict-free group do not depend on the order in which
      its constraints are given. */
  lemma SolveIgnoresOrder(cs: seq<Constraint>, ds: seq<Constraint>, active: Option<seq<string>>)
    requires forall c :: c in cs <==> c in ds
    ensures
      var r, q := Solve(cs, active), Solve(ds, active);
      r.interval == q.interval && r.conflict == q.conflict && (!r.conflict ==> r.confidence == q.confidence)
  {
    var r, q := Solve(cs, active), Solve(ds, active);
    SolveIsExact(cs, active);
    SolveIsExact(ds, active);
    SameMeaning(cs, ds, active);
    SameMeaning(ds, cs, active);
    SameMembers(r.interval, q.interval);
    if !r.conflict {
      LeastConfidenceIsUnique(r.confidence, q.confidence, cs, active);
    }
  }
}
