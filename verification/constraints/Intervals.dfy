/** Intervals of reals with open, closed and infinite ends, in the one form each set of reals has. */
module Intervals {

  datatype Bound = Inf | At(value: real, closed: bool)

  datatype Interval = Empty | Span(lo: Bound, hi: Bound)

  predicate Above(lo: Bound, x: real) {
    lo.Inf? || lo.value < x || (lo.value == x && lo.closed)
  }

  predicate Below(hi: Bound, x: real) {
    hi.Inf? || x < hi.value || (x == hi.value && hi.closed)
  }

  predicate In(x: real, i: Interval) {
    i.Span? && Above(i.lo, x) && Below(i.hi, x)
  }

  /** No real lies between the bounds. */
  predicate AreCrossed(lo: Bound, hi: Bound) {
    lo.At? && hi.At? && (lo.value > hi.value || (lo.value == hi.value && !(lo.closed && hi.closed)))
  }

  predicate IsCanonical(i: Interval) {
    i.Span? ==> !AreCrossed(i.lo, i.hi)
  }

  function Make(lo: Bound, hi: Bound): (i: Interval)
    ensures IsCanonical(i)
    ensures forall x :: In(x, i) <==> Above(lo, x) && Below(hi, x)
  {
    if AreCrossed(lo, hi) then Empty else Span(lo, hi)
  }

  const EVERYTHING := Span(Inf, Inf)

  function TighterLo(a: Bound, b: Bound): Bound {
    if a.Inf? then b
    else if b.Inf? then a
    else if a.value != b.value then (if a.value > b.value then a else b)
    else At(a.value, a.closed && b.closed)
  }

  function TighterHi(a: Bound, b: Bound): Bound {
    if a.Inf? then b
    else if b.Inf? then a
    else if a.value != b.value then (if a.value < b.value then a else b)
    else At(a.value, a.closed && b.closed)
  }

  /** The intersection. */
  function Meet(a: Interval, b: Interval): (i: Interval)
    ensures IsCanonical(i)
    ensures forall x :: In(x, i) <==> In(x, a) && In(x, b)
  {
    if a.Empty? || b.Empty? then Empty else Make(TighterLo(a.lo, b.lo), TighterHi(a.hi, b.hi))
  }

  /** A canonical interval other than `Empty` holds a real. */
  lemma HasPoint(i: Interval) returns (x: real)
    requires IsCanonical(i) && i.Span?
    ensures In(x, i)
  {
    if i.lo.Inf? {
      x := if i.hi.Inf? then 0.0 else i.hi.value - 1.0;
    } else {
      x := if i.hi.Inf? then i.lo.value + 1.0 else (i.lo.value + i.hi.value) / 2.0;
    }
  }

  lemma LowEndsShow(a: Interval, b: Interval, p: real) returns (x: real)
    requires a.Span? && b.Span? && In(p, a) && In(p, b) && a.lo != b.lo
    ensures In(x, a) != In(x, b)
  {
    if a.lo.Inf? || b.lo.Inf? {
      var v := if a.lo.Inf? then b.lo.value else a.lo.value;
      x := v - 1.0;
    } else if a.lo.value == b.lo.value {
      x := a.lo.value;
    } else {
      x := (a.lo.value + b.lo.value) / 2.0;
    }
  }

  lemma HighEndsShow(a: Interval, b: Interval, p: real) returns (x: real)
    requires a.Span? && b.Span? && In(p, a) && In(p, b) && a.hi != b.hi
    ensures In(x, a) != In(x, b)
  {
    if a.hi.Inf? || b.hi.Inf? {
      var v := if a.hi.Inf? then b.hi.value else a.hi.value;
      x := v + 1.0;
    } else if a.hi.value == b.hi.value {
      x := a.hi.value;
    } else {
      x := (a.hi.value + b.hi.value) / 2.0;
    }
  }

  /** Canonical intervals with the same members are the same interval. */
  lemma SameMembers(a: Interval, b: Interval)
    requires IsCanonical(a) && IsCanonical(b)
    requires forall x :: In(x, a) <==> In(x, b)
    ensures a == b
  {
    if a.Span? {
      var p := HasPoint(a);
      assert In(p, b);
      if a.lo != b.lo {
        var x := LowEndsShow(a, b, p);
      } else if a.hi != b.hi {
        var x := HighEndsShow(a, b, p);
      }
    } else if b.Span? {
      var p := HasPoint(b);
    }
  }
}
