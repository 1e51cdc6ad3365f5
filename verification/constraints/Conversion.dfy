/**
 Temperature units, and the two routes from an operator with a value to an interval in base units: the conversion of
 an old-style constraint, and the parser's.
 */
module Conversion {
  import opened Collections
  import opened Intervals

  /** The bounds of a constraint; a missing inclusiveness flag is true. */
  datatype Range = Range(lower: Option<real>, upper: Option<real>, lowerInclusive: bool, upperInclusive: bool)

  /** A single number or a pair. */
  datatype Value = Number(x: real) | Pair(first: real, second: real)

  predicate Allows(r: Range, x: real) {
    && (r.lower.None? || r.lower.value < x || (r.lower.value == x && r.lowerInclusive))
    && (r.upper.None? || x < r.upper.value || (x == r.upper.value && r.upperInclusive))
  }

  function RangeToInterval(r: Range): (i: Interval)
    ensures IsCanonical(i)
    ensures forall x :: In(x, i) <==> Allows(r, x)
  {
    match (r.lower, r.upper)
    case (None, None) => EVERYTHING
    case (None, Some(hi)) => Make(Inf, At(hi, r.upperInclusive))
    case (Some(lo), None) => Make(At(lo, r.lowerInclusive), Inf)
    case (Some(lo), Some(hi)) =>
      if r.lowerInclusive && r.upperInclusive then Make(At(lo, true), At(hi, true))
      else if r.lowerInclusive then Make(At(lo, true), At(hi, false))
      else if r.upperInclusive then Make(At(lo, false), At(hi, true))
      else Make(At(lo, false), At(hi, false))
  }

  // ---- Units ----

  function Upper(c: char): char {
    if 'a' <= c <= 'z' then (c as int - 32) as char else c
  }

  /** `unit.upper().replace("°", "")` */
  function UnitName(unit: string): string {
    if unit == "" then "" else (if unit[0] == '\U{00B0}' then "" else [Upper(unit[0])]) + UnitName(unit[1..])
  }

  predicate IsTemperatureUnit(unit: string) {
    UnitName(unit) in ["C", "F", "K"]
  }

  const CELSIUS := "\U{00B0}C"

  /** The reading in degrees Celsius; the source raises for any other unit. */
  function NormalizeTemperature(value: real, unit: string): real
    requires IsTemperatureUnit(unit)
  {
    var u := UnitName(unit);
    if u == "C" then value else if u == "F" then (value - 32.0) * 5.0 / 9.0 else value - 273.15
  }

  /** Normalising keeps the order of readings, strictly, and so loses none. */
  lemma NormalizeKeepsOrder(x: real, y: real, unit: string)
    requires IsTemperatureUnit(unit)
    ensures x < y <==> NormalizeTemperature(x, unit) < NormalizeTemperature(y, unit)
    ensures x == y <==> NormalizeTemperature(x, unit) == NormalizeTemperature(y, unit)
  {
  }

  /** The units, with or without a degree sign, in either case. */
  lemma UnitMeaning(unit: string)
    ensures unit in {"C", "c", "\U{00B0}C", "\U{00B0}c"} ==> UnitName(unit) == "C"
    ensures unit in {"F", "f", "\U{00B0}F", "\U{00B0}f"} ==> UnitName(unit) == "F"
    ensures unit in {"K", "k", "\U{00B0}K", "\U{00B0}k"} ==> UnitName(unit) == "K"
    ensures IsTemperatureUnit(unit) <==> UnitName(unit) == "C" || UnitName(unit) == "F" || UnitName(unit) == "K"
  {
    if |unit| == 2 {
      assert unit[1..] == [unit[1]] && [unit[1]][1..] == "";
      assert UnitName([unit[1]]) == (if unit[1] == '\U{00B0}' then "" else [Upper(unit[1])]) + UnitName("");
    }
  }

  /** Water freezes at 32 and boils at 212 degrees Fahrenheit, absolute zero is 0 kelvin; and a difference of readings
      scales by 5/9 from Fahrenheit, and not at all from the others. */
  lemma NormalizeMeaning(unit: string, x: real, y: real)
    ensures UnitName(unit) == "F" ==>
      && NormalizeTemperature(32.0, unit) == 0.0 && NormalizeTemperature(212.0, unit) == 100.0
      && NormalizeTemperature(y, unit) - NormalizeTemperature(x, unit) == (y - x) * 5.0 / 9.0
    ensures UnitName(unit) == "K" ==>
      && NormalizeTemperature(0.0, unit) == -273.15 && NormalizeTemperature(273.15, unit) == 0.0
      && NormalizeTemperature(y, unit) - NormalizeTemperature(x, unit) == y - x
    ensures UnitName(unit) == "C" ==> NormalizeTemperature(x, unit) == x
  {
  }

  /** The reading in the given unit of `y` degrees Celsius. */
  function ReadingOf(y: real, unit: string): real {
    if UnitName(unit) == "F" then y * 9.0 / 5.0 + 32.0 else if UnitName(unit) == "K" then y + 273.15 else y
  }

  // ---- Old-style constraints ----

  const OPERATORS := ["==", "<=", ">=", "<", ">"]

  /** The comparison `x op v`; an operator that is no comparison says nothing. */
  predicate Compares(x: real, op: string, v: real) {
    if op == "==" then x == v
    else if op == "<=" then x <= v
    else if op == ">=" then x >= v
    else if op == "<" then x < v
    else if op == ">" then x > v
    else true
  }

  /** What an old-style constraint says about a reading in its own unit. A pair is a range, or is compared by its first
      number. A range without a pair, and an operator the converter does not know, say nothing. */
  predicate Satisfies(x: real, op: string, value: Value) {
    match value
    case Number(v) => Compares(x, op, v)
    case Pair(lo, hi) => if op == "range" then lo <= x <= hi else Compares(x, op, lo)
  }

  /** A pair can be compared only as a temperature; in other units the source would build bounds that are pairs. */
  predicate IsConvertible(op: string, value: Value, unit: string) {
    value.Pair? && op in OPERATORS ==> IsTemperatureUnit(unit)
  }

  const ANY := Range(None, None, true, true)

  function Compare(op: string, v: real): Range {
    if op == "==" then Range(Some(v), Some(v), true, true)
    else if op == "<=" then Range(None, Some(v), true, true)
    else if op == ">=" then Range(Some(v), None, true, true)
    else if op == "<" then Range(None, Some(v), true, false)
    else if op == ">" then Range(Some(v), None, false, true)
    else ANY
  }

  /** The table of comparisons by which the interval of a temperature is rebuilt; other operators leave it as it was. */
  function Rebuild(raw: Range, op: string, v: real): Range {
    if op == "<=" then Range(None, Some(v), true, true)
    else if op == ">=" then Range(Some(v), None, true, true)
    else if op == "<" then Range(None, Some(v), true, false)
    else if op == ">" then Range(Some(v), None, false, true)
    else if op == "==" then Range(Some(v), Some(v), true, true)
    else raw
  }

  /** The interval and unit `_ensure_v2` gives an old-style constraint: first built from the raw value, then rebuilt
      from the normalised one for temperatures. */
  function Converted(op: string, value: Value, unit: string): (Range, string)
    requires IsConvertible(op, value, unit)
  {
    var raw :=
      match value
      case Number(v) => Compare(op, v)
      case Pair(lo, hi) => if op == "range" then Range(Some(lo), Some(hi), true, true) else ANY;
    if IsTemperatureUnit(unit) then
      var scalar := if value.Pair? then value.first else value.x;
      var normal := NormalizeTemperature(scalar, unit);
      var rebuilt :=
        if op == "range" && value.Pair? then
          var lo, hi := NormalizeTemperature(value.first, unit), NormalizeTemperature(value.second, unit);
          Range(Some(lo), Some(hi), true, true)
        else Rebuild(raw, op, normal);
      (rebuilt, CELSIUS)
    else (raw, unit)
  }

  /** The reading in the unit the conversion reports. */
  function Image(x: real, unit: string): real {
    if IsTemperatureUnit(unit) then NormalizeTemperature(x, unit) else x
  }

  /** A reading satisfies an old-style constraint in its own unit exactly when its image lies in the converted
      interval. */
  lemma ConversionKeepsMeaning(x: real, op: string, value: Value, unit: string)
    requires IsConvertible(op, value, unit)
    ensures Satisfies(x, op, value) <==> Allows(Converted(op, value, unit).0, Image(x, unit))
  {
  }

  lemma EveryReadingHasAnImage(y: real, unit: string) returns (x: real)
    ensures Image(x, unit) == y
  {
    var u := UnitName(unit);
    x := if u == "F" then y * 9.0 / 5.0 + 32.0 else if u == "K" then y + 273.15 else y;
  }

  /** Conversion preserves meaning: the converted interval is exactly the set of images of the readings that satisfy
      the constraint. */
  lemma ConversionIsExact(op: string, value: Value, unit: string)
    requires IsConvertible(op, value, unit)
    ensures forall y ::
      (Allows(Converted(op, value, unit).0, y) <==> exists x :: Satisfies(x, op, value) && Image(x, unit) == y)
  {
    forall y
      ensures Allows(Converted(op, value, unit).0, y) <==> exists x :: Satisfies(x, op, value) && Image(x, unit) == y
    {
      var x := EveryReadingHasAnImage(y, unit);
      ConversionKeepsMeaning(x, op, value, unit);
      if z :| Satisfies(z, op, value) && Image(z, unit) == y {
        ConversionKeepsMeaning(z, op, value, unit);
      }
    }
  }

  /** What a converted constraint allows, read back in the constraint's own unit: a value is in the interval exactly
      when the reading it stands for satisfies the comparison, or lies in the range. */
  lemma ConvertedMeaning(op: string, value: Value, unit: string, y: real)
    requires IsConvertible(op, value, unit)
    ensures Allows(Converted(op, value, unit).0, y) <==>
      match value
      case Number(v) => Compares(ReadingOf(y, unit), op, v)
      case Pair(lo, hi) =>
        if op == "range" then lo <= ReadingOf(y, unit) <= hi else Compares(ReadingOf(y, unit), op, lo)
    ensures Converted(op, value, unit).1 == if IsTemperatureUnit(unit) then "\U{00B0}C" else unit
  {
    UnitMeaning(unit);
  }

  // ---- The parser's route ----

  /** The parser's own table: the interval of an operator with a number, or of a range with a pair. */
  function OperatorToRange(op: string, value: Value): Option<Range>
    requires value.Pair? ==> op == "range"
  {
    match value
    case Pair(lo, hi) => Some(Range(Some(lo), Some(hi), true, true))
    case Number(v) =>
      if op == ">" then Some(Range(Some(v), None, false, true))
      else if op == "<" then Some(Range(None, Some(v), true, false))
      else if op == ">=" then Some(Range(Some(v), None, true, true))
      else if op == "<=" then Some(Range(None, Some(v), true, true))
      else if op == "==" then Some(Range(Some(v), Some(v), true, true))
      else None
  }

  // ---- The parser's loop ----

  /** A numeric hint with the operator and value found near it, if any. */
  datatype Hint = Hint(parameter: string, value: real, unit: string, found: Option<(string, Value)>)

  /** What the parser remembers of an interval: its ends, but not whether they are included. */
  datatype Key = Key(parameter: string, lower: Option<real>, upper: Option<real>, unit: string)

  /** Normalisation of units that are not temperatures is a table of factors: any function of value and unit. */
  type Scaling = (real, string) -> (real, string)

  function NormalizeHint(h: Hint, scale: Scaling): (real, string) {
    if IsTemperatureUnit(h.unit) then (NormalizeTemperature(h.value, h.unit), CELSIUS) else scale(h.value, h.unit)
  }

  function HintRange(h: Hint, scale: Scaling): Option<Range> {
    match h.found
    case None => None
    case Some((op, value)) =>
      if op == "range" && value.Pair? then
        if IsTemperatureUnit(h.unit) then
          var lo, hi := NormalizeTemperature(value.first, h.unit), NormalizeTemperature(value.second, h.unit);
          OperatorToRange(op, Pair(lo, hi))
        else OperatorToRange(op, value)
      else OperatorToRange(op, Number(NormalizeHint(h, scale).0))
  }

  /** For temperatures the parser and the converter of old-style constraints build the same interval: from the pair for
      a range, and otherwise from the number of the hint; where the parser gives up, the converter sets no bound. */
  lemma RoutesAgree(h: Hint, scale: Scaling)
    requires IsTemperatureUnit(h.unit) && h.found.Some?
    ensures
      var (op, value) := h.found.value;
      var used := if op == "range" && value.Pair? then value else Number(h.value);
      var converted := Converted(op, used, h.unit).0;
      && (HintRange(h, scale).Some? ==> HintRange(h, scale).value == converted)
      && (HintRange(h, scale).None? <==> op !in OPERATORS && used.Number?)
      && (HintRange(h, scale).None? ==> converted == ANY)
  {
  }

  /** What a parsed interval allows, read back in the hint's own unit. */
  lemma HintMeaning(h: Hint, scale: Scaling, y: real)
    requires IsTemperatureUnit(h.unit) && HintRange(h, scale).Some?
    ensures
      var (op, value) := h.found.value;
      Allows(HintRange(h, scale).value, y) <==>
      if op == "range" && value.Pair? then value.first <= ReadingOf(y, h.unit) <= value.second
      else Compares(ReadingOf(y, h.unit), op, h.value)
  {
    var (op, value) := h.found.value;
    RoutesAgree(h, scale);
    ConvertedMeaning(op, if op == "range" && value.Pair? then value else Number(h.value), h.unit, y);
  }

  function HintKey(h: Hint, scale: Scaling): Key
    requires HintRange(h, scale).Some?
  {
    var r := HintRange(h, scale).value;
    Key(h.parameter, r.lower, r.upper, NormalizeHint(h, scale).1)
  }

  /** The hint yields an interval with the given key. */
  predicate HasKey(h: Hint, scale: Scaling, key: Key) {
    HintRange(h, scale).Some? && HintKey(h, scale) == key
  }

  /** The hint yields an interval, and none before it has the same key. */
  predicate IsFirstOfKey(hints: seq<Hint>, i: nat, scale: Scaling)
    requires i < |hints|
  {
    HintRange(hints[i], scale).Some? && forall j :: 0 <= j < i ==> !HasKey(hints[j], scale, HintKey(hints[i], scale))
  }

  function FirstOfKeys(hints: seq<Hint>, n: nat, scale: Scaling): seq<Range>
    requires n <= |hints|
  {
    if n == 0 then []
    else
      FirstOfKeys(hints, n - 1, scale)
      + if IsFirstOfKey(hints, n - 1, scale) then [HintRange(hints[n - 1], scale).value] else []
  }

  /** `parse_interval`: one interval for each key, that of the first hint with it, in the order of the hints. */
  method ParseInterval(hints: seq<Hint>, scale: Scaling) returns (intervals: seq<Range>)
    ensures intervals == FirstOfKeys(hints, |hints|, scale)
  {
    intervals := [];
    var seen: set<Key> := {};
    for i := 0 to |hints|
      invariant intervals == FirstOfKeys(hints, i, scale)
      invariant forall k :: k in seen <==> exists j :: 0 <= j < i && HasKey(hints[j], scale, k)
    {
      var range := HintRange(hints[i], scale);
      if range.None? {
        continue;
      }
      var key := HintKey(hints[i], scale);
      if key !in seen {
        intervals := intervals + [range.value];
      }
      seen := seen + {key};
    }
  }

  /** A hint dropped as a duplicate repeats the ends of one that is kept. */
  lemma {:induction false} DroppedHintHasKept(hints: seq<Hint>, i: nat, scale: Scaling) returns (k: nat)
    requires i < |hints| && HintRange(hints[i], scale).Some?
    ensures k <= i && IsFirstOfKey(hints, k, scale) && HasKey(hints[k], scale, HintKey(hints[i], scale))
    decreases i
  {
    if IsFirstOfKey(hints, i, scale) {
      k := i;
    } else {
      var j :| 0 <= j < i && HasKey(hints[j], scale, HintKey(hints[i], scale));
      k := DroppedHintHasKept(hints, j, scale);
    }
  }

  /** Only true duplicates are dropped: a hint is kept exactly when no hint before it has the same parameter, the same
      ends and the same normalised unit. */
  lemma KeptIff(hints: seq<Hint>, i: nat, scale: Scaling)
    requires i < |hints| && HintRange(hints[i], scale).Some?
    ensures IsFirstOfKey(hints, i, scale) <==> forall j :: 0 <= j < i ==> !IsDuplicate(hints[j], hints[i], scale)
  {
    forall j | 0 <= j < i
      ensures HasKey(hints[j], scale, HintKey(hints[i], scale)) <==> IsDuplicate(hints[j], hints[i], scale)
    {
    }
  }

  predicate IsDuplicate(h: Hint, k: Hint, scale: Scaling)
    requires HintRange(k, scale).Some?
  {
    && HintRange(h, scale).Some? && h.parameter == k.parameter
    && HintRange(h, scale).value.lower == HintRange(k, scale).value.lower
    && HintRange(h, scale).value.upper == HintRange(k, scale).value.upper
    && (if IsTemperatureUnit(h.unit) then "\U{00B0}C" else scale(h.value, h.unit).1)
     == (if IsTemperatureUnit(k.unit) then "\U{00B0}C" else scale(k.value, k.unit).1)
  }

  /** The list holds the intervals of the kept hints, in their order. */
  lemma {:induction false} KeptAreListed(hints: seq<Hint>, n: nat, scale: Scaling, i: nat) returns (k: nat)
    requires i < n <= |hints| && IsFirstOfKey(hints, i, scale)
    ensures k < |FirstOfKeys(hints, n, scale)| && FirstOfKeys(hints, n, scale)[k] == HintRange(hints[i], scale).value
    ensures k == |FirstOfKeys(hints, i, scale)|
  {
    if i == n - 1 {
      k := |FirstOfKeys(hints, i, scale)|;
    } else {
      k := KeptAreListed(hints, n - 1, scale, i);
    }
  }

  // ---- What dropping duplicates loses ----

  /** With the same ends, an end that `kept` includes is included by `dropped`. */
  predicate IsNoStricter(dropped: Range, kept: Range) {
    && (kept.lower.Some? && kept.lowerInclusive ==> dropped.lowerInclusive)
    && (kept.upper.Some? && kept.upperInclusive ==> dropped.upperInclusive)
  }

  /** An interval with two ends includes both: only comparisons exclude ends, and they have one. */
  predicate HasHintShape(r: Range) {
    r.lower.Some? && r.upper.Some? ==> r.lowerInclusive && r.upperInclusive
  }

  /** Dropping an interval in favour of another with the same ends loses nothing exactly when it is no stricter: every
      value the kept one allows, the dropped one allows too. */
  lemma DuplicateIsHarmlessIff(kept: Range, dropped: Range)
    requires kept.lower == dropped.lower && kept.upper == dropped.upper
    requires HasHintShape(kept) && HasHintShape(dropped)
    ensures (forall x :: Allows(kept, x) ==> Allows(dropped, x)) <==> IsNoStricter(dropped, kept)
  {
    if kept.lower.Some? && kept.upper.None? {
      assert Allows(kept, kept.lower.value) <==> kept.lowerInclusive;
    } else if kept.upper.Some? && kept.lower.None? {
      assert Allows(kept, kept.upper.value) <==> kept.upperInclusive;
    }
  }

  /** The hint yields an interval that allows `x`, or none. */
  predicate HintAllows(h: Hint, scale: Scaling, x: real) {
    HintRange(h, scale).Some? ==> Allows(HintRange(h, scale).value, x)
  }

  /** All intervals found allow `x`. */
  predicate FoundAllow(hints: seq<Hint>, scale: Scaling, x: real) {
    forall i :: 0 <= i < |hints| ==> HintAllows(hints[i], scale, x)
  }

  /** All intervals of a list allow `x`. */
  predicate AllAllow(ranges: seq<Range>, x: real) {
    forall r <- ranges :: Allows(r, x)
  }

  /** The intervals of the hints that are the first of their keys allow `x`. */
  predicate FirstsAllow(hints: seq<Hint>, n: nat, scale: Scaling, x: real)
    requires n <= |hints|
  {
    forall k :: 0 <= k < n && IsFirstOfKey(hints, k, scale) ==> HintAllows(hints[k], scale, x)
  }

  lemma {:induction false} ListIsFirsts(hints: seq<Hint>, n: nat, scale: Scaling, x: real)
    requires n <= |hints|
    ensures AllAllow(FirstOfKeys(hints, n, scale), x) <==> FirstsAllow(hints, n, scale, x)
  {
    if n > 0 {
      ListIsFirsts(hints, n - 1, scale, x);
      var init := FirstOfKeys(hints, n - 1, scale);
      if IsFirstOfKey(hints, n - 1, scale) {
        var r := HintRange(hints[n - 1], scale).value;
        assert forall q :: q in init + [r] <==> q in init || q == r;
      } else {
        assert init + [] == init;
      }
    }
  }

  /** The hint's interval has `end` as an end and does not include it. */
  predicate ExcludesEnd(h: Hint, scale: Scaling, end: real) {
    && HintRange(h, scale).Some?
    && var r := HintRange(h, scale).value;
      (r.lower == Some(end) && !r.lowerInclusive) || (r.upper == Some(end) && !r.upperInclusive)
  }

  /** Every end some hint excludes is ruled out by a hint that is kept. */
  ghost predicate ExcludedEndsStayOut(hints: seq<Hint>, scale: Scaling) {
    forall i, end :: 0 <= i < |hints| && ExcludesEnd(hints[i], scale, end) ==> !FirstsAllow(hints, |hints|, scale, end)
  }

  /** A value that a dropped interval rules out and the kept one of the same key allows is an excluded end. */
  lemma OnlyEndsAreLost(hints: seq<Hint>, i: nat, scale: Scaling, x: real)
    requires i < |hints| && !HintAllows(hints[i], scale, x) && FirstsAllow(hints, |hints|, scale, x)
    ensures ExcludesEnd(hints[i], scale, x)
  {
    var k := DroppedHintHasKept(hints, i, scale);
    assert HintAllows(hints[k], scale, x);
  }

  /** The kept intervals let nothing through at `x` that the dropped ones would stop. */
  ghost predicate NothingLostAt(hints: seq<Hint>, scale: Scaling, x: real) {
    AllAllow(FirstOfKeys(hints, |hints|, scale), x) <==> FoundAllow(hints, scale, x)
  }

  lemma NothingLost(hints: seq<Hint>, scale: Scaling, x: real)
    requires ExcludedEndsStayOut(hints, scale)
    ensures NothingLostAt(hints, scale, x)
  {
    ListIsFirsts(hints, |hints|, scale, x);
    if FirstsAllow(hints, |hints|, scale, x) && !FoundAllow(hints, scale, x) {
      var i :| 0 <= i < |hints| && !HintAllows(hints[i], scale, x);
      OnlyEndsAreLost(hints, i, scale, x);
    }
  }

  lemma EndIsLost(hints: seq<Hint>, i: nat, scale: Scaling, end: real)
    requires i < |hints| && ExcludesEnd(hints[i], scale, end) && FirstsAllow(hints, |hints|, scale, end)
    ensures !NothingLostAt(hints, scale, end)
  {
    ListIsFirsts(hints, |hints|, scale, end);
    assert !HintAllows(hints[i], scale, end);
  }

  /** `parse_interval` returns intervals that allow together exactly what all the intervals found allow together, if
      and only if every end that some hint excludes is ruled out by one of the hints it keeps. */
  lemma ParseKeepsMeaningIff(hints: seq<Hint>, scale: Scaling)
    ensures (forall x :: NothingLostAt(hints, scale, x)) <==> ExcludedEndsStayOut(hints, scale)
  {
    if ExcludedEndsStayOut(hints, scale) {
      forall x ensures NothingLostAt(hints, scale, x) {
        NothingLost(hints, scale, x);
      }
    } else {
      var i, end :| 0 <= i < |hints| && ExcludesEnd(hints[i], scale, end) && FirstsAllow(hints, |hints|, scale, end);
      EndIsLost(hints, i, scale, end);
    }
  }

  /** Whatever else is parsed, the duplicates of one key lose nothing exactly when none is stricter than the first. */
  lemma KeyKeepsMeaningIff(hints: seq<Hint>, k: nat, scale: Scaling)
    requires k < |hints| && IsFirstOfKey(hints, k, scale)
    ensures
      var kept, key := HintRange(hints[k], scale).value, HintKey(hints[k], scale);
      (forall x, i :: 0 <= i < |hints| && HasKey(hints[i], scale, key) && Allows(kept, x) ==>
        HintAllows(hints[i], scale, x))
      <==> forall i :: 0 <= i < |hints| && HasKey(hints[i], scale, key) ==>
             IsNoStricter(HintRange(hints[i], scale).value, kept)
  {
    var kept, key := HintRange(hints[k], scale).value, HintKey(hints[k], scale);
    forall i | 0 <= i < |hints| && HasKey(hints[i], scale, key)
      ensures (forall x :: Allows(kept, x) ==> HintAllows(hints[i], scale, x))
        <==> IsNoStricter(HintRange(hints[i], scale).value, kept)
    {
      DuplicateIsHarmlessIff(kept, HintRange(hints[i], scale).value);
    }
  }

  /** ">= v" followed by "> v": the second is dropped, and `v` gets through. */
  lemma StricterDuplicateIsLost(parameter: string, v: real, scale: Scaling)
    ensures
      var least, above := Some((">=", Number(v))), Some((">", Number(v)));
      var hints := [Hint(parameter, v, CELSIUS, least), Hint(parameter, v, CELSIUS, above)];
      && AllAllow(FirstOfKeys(hints, 2, scale), v) && !FoundAllow(hints, scale, v)
      && FirstOfKeys(hints, 2, scale) == [Range(Some(v), None, true, true)]
  {
    var least, above := Some((">=", Number(v))), Some((">", Number(v)));
    var hints := [Hint(parameter, v, CELSIUS, least), Hint(parameter, v, CELSIUS, above)];
    CelsiusStays(v);
    assert HintRange(hints[0], scale) == Some(Range(Some(v), None, true, true));
    assert HintRange(hints[1], scale) == Some(Range(Some(v), None, false, true));
    assert HasKey(hints[0], scale, HintKey(hints[1], scale));
    assert IsFirstOfKey(hints, 0, scale) && !IsFirstOfKey(hints, 1, scale);
    assert FirstOfKeys(hints, 2, scale) == FirstOfKeys(hints, 1, scale) == [Range(Some(v), None, true, true)];
    assert !HintAllows(hints[1], scale, v);
  }

  lemma CelsiusStays(v: real)
    ensures IsTemperatureUnit(CELSIUS) && NormalizeTemperature(v, CELSIUS) == v
  {
    assert UnitName("C") == "C" && CELSIUS[1..] == "C";
    assert UnitName(CELSIUS) == "C";
  }
}
