/**
 * Membership functions (membership.go): piecewise-linear maps from a crisp value to a
 * degree, each reporting a domain. Min and Max always carry at least one operand.
 */
module MembershipFunctions {
  import opened Floats

  datatype Membership =
    | Constant(y: real)
    | MinOf(first: Membership, rest: seq<Membership>)
    | MaxOf(first: Membership, rest: seq<Membership>)
    | Linear(x1: real, x2: real)
    | Triangular(x1: real, x2: real, x3: real)
    | Inverted(inner: Membership)
    | Trapezoid(x1: real, x2: real, x3: real, x4: real)
  {
    /** The operands of a Min or Max membership, in construction order. */
    function Operands(): (ms: seq<Membership>)
      requires MinOf? || MaxOf?
      ensures |ms| == 1 + |rest| && ms[0] == first && ms[1..] == rest
    {
      [first] + rest
    }
  }

  /** Step(x1) is Linear(x1, x1). */
  function Step(x1: real): Membership {
    Linear(x1, x1)
  }

  function RMin(a: real, b: real): real { if a <= b then a else b }

  function RMax(a: real, b: real): real { if a >= b then a else b }

  /** The value of a left-to-right running minimum over a non-empty list. */
  function MinAll(s: seq<real>): real
    requires |s| > 0
    decreases |s|
  {
    if |s| == 1 then s[0] else RMin(MinAll(s[..|s| - 1]), s[|s| - 1])
  }

  /** The value of a left-to-right running maximum over a non-empty list. */
  function MaxAll(s: seq<real>): real
    requires |s| > 0
    decreases |s|
  {
    if |s| == 1 then s[0] else RMax(MaxAll(s[..|s| - 1]), s[|s| - 1])
  }

  /** The running minimum is a lower bound of the list and one of its elements. */
  lemma {:induction false} MinAllBounds(s: seq<real>)
    requires |s| > 0
    ensures forall i :: 0 <= i < |s| ==> MinAll(s) <= s[i]
    ensures exists i :: 0 <= i < |s| && MinAll(s) == s[i]
    decreases |s|
  {
    if |s| > 1 {
      var init := s[..|s| - 1];
      MinAllBounds(init);
      assert forall i :: 0 <= i < |init| ==> init[i] == s[i];
      var j :| 0 <= j < |init| && MinAll(init) == init[j];
      if MinAll(init) <= s[|s| - 1] {
        assert MinAll(s) == s[j];
      } else {
        assert MinAll(s) == s[|s| - 1];
      }
    } else {
      assert MinAll(s) == s[0];
    }
  }

  /** The running maximum is an upper bound of the list and one of its elements. */
  lemma {:induction false} MaxAllBounds(s: seq<real>)
    requires |s| > 0
    ensures forall i :: 0 <= i < |s| ==> s[i] <= MaxAll(s)
    ensures exists i :: 0 <= i < |s| && MaxAll(s) == s[i]
    decreases |s|
  {
    if |s| > 1 {
      var init := s[..|s| - 1];
      MaxAllBounds(init);
      assert forall i :: 0 <= i < |init| ==> init[i] == s[i];
      var j :| 0 <= j < |init| && MaxAll(init) == init[j];
      if MaxAll(init) >= s[|s| - 1] {
        assert MaxAll(s) == s[j];
      } else {
        assert MaxAll(s) == s[|s| - 1];
      }
    } else {
      assert MaxAll(s) == s[0];
    }
  }

  /** One step of a running minimum seeded with +Inf: the minimum of the next longer prefix. */
  lemma RunningMin(s: seq<real>, i: nat, acc: Float)
    requires i < |s|
    requires i == 0 ==> acc == PosInf
    requires i > 0 ==> acc == Fin(MinAll(s[..i]))
    ensures Floats.Min(acc, Fin(s[i])) == Fin(MinAll(s[..i + 1]))
  {
    assert s[..i + 1][..i] == s[..i];
  }

  /** One step of a running maximum seeded with -Inf: the maximum of the next longer prefix. */
  lemma RunningMax(s: seq<real>, i: nat, acc: Float)
    requires i < |s|
    requires i == 0 ==> acc == NegInf
    requires i > 0 ==> acc == Fin(MaxAll(s[..i]))
    ensures Floats.Max(acc, Fin(s[i])) == Fin(MaxAll(s[..i + 1]))
  {
    assert s[..i + 1][..i] == s[..i];
  }

  /**
   * A membership is normalised when every Constant inside it lies in [0, 1]; every other
   * shape already stays in [0, 1] by construction.
   */
  predicate Normalised(m: Membership)
    decreases m
  {
    match m
    case Constant(y) => 0.0 <= y <= 1.0
    case MinOf(f, rest) => Normalised(f) && forall i :: 0 <= i < |rest| ==> Normalised(rest[i])
    case MaxOf(f, rest) => Normalised(f) && forall i :: 0 <= i < |rest| ==> Normalised(rest[i])
    case Inverted(inner) => Normalised(inner)
    case _ => true
  }

  /** The operands' values at x, in operand order. */
  function OperandValues(m: Membership, x: real): (vs: seq<real>)
    requires m.MinOf? || m.MaxOf?
    ensures |vs| == 1 + |m.rest|
    ensures vs[0] == Value(m.first, x)
    ensures forall i :: 0 <= i < |m.rest| ==> vs[i + 1] == Value(m.rest[i], x)
    decreases m, 0
  {
    [Value(m.first, x)] + seq(|m.rest|, i requires 0 <= i < |m.rest| => Value(m.rest[i], x))
  }

  /** `num / den` for a positive denominator: a degree in [0, 1] when 0 <= num <= den. */
  function Fraction(num: real, den: real): (r: real)
    requires den > 0.0
    ensures 0.0 <= num <= den ==> 0.0 <= r <= 1.0
    ensures num == den ==> r == 1.0
    ensures num == 0.0 ==> r == 0.0
  {
    FractionBounds(num, den);
    num / den
  }

  lemma FractionBounds(num: real, den: real)
    requires den > 0.0
    ensures 0.0 <= num <= den ==> 0.0 <= num / den <= 1.0
    ensures num == den ==> num / den == 1.0
  {
    if 0.0 <= num <= den {
      assert num / den * den == num;
    }
  }

  /**
   * Membership.Value. The one departure from float64: Triangular(x1, x2, x2) at x2 divides
   * zero by zero in the source (NaN); here it is the peak value 1.
   */
  function Value(m: Membership, x: real): real
    decreases m, 1
  {
    match m
    case Constant(y) => y
    case MinOf(_, _) => MinAll(OperandValues(m, x))
    case MaxOf(_, _) => MaxAll(OperandValues(m, x))
    case Linear(x1, x2) =>
      if x1 == x2 then (if x < x1 then 0.0 else 1.0)
      else if x < x1 then 0.0
      else if x <= x2 then Fraction(x - x1, x2 - x1)
      else 1.0
    case Triangular(x1, x2, x3) =>
      if x1 < x && x < x2 then Fraction(x - x1, x2 - x1)
      else if x2 <= x && x <= x3 then (if x3 == x2 then 1.0 else Fraction(x3 - x, x3 - x2))
      else 0.0
    case Inverted(inner) => 1.0 - Value(inner, x)
    case Trapezoid(x1, x2, x3, x4) =>
      if x1 < x && x < x2 then (if x1 == x2 then 1.0 else Fraction(x - x1, x2 - x1))
      else if x2 <= x && x <= x3 then 1.0
      else if x3 < x && x < x4 then (if x3 == x4 then 1.0 else Fraction(x4 - x, x4 - x3))
      else 0.0
  }

  /** The operands' domains, in operand order. */
  function OperandDomains(m: Membership): (ds: seq<(real, real)>)
    requires m.MinOf? || m.MaxOf?
    ensures |ds| == 1 + |m.rest|
    ensures ds[0] == Domain(m.first)
    ensures forall i :: 0 <= i < |m.rest| ==> ds[i + 1] == Domain(m.rest[i])
    decreases m, 0
  {
    [Domain(m.first)] + seq(|m.rest|, i requires 0 <= i < |m.rest| => Domain(m.rest[i]))
  }

  function Lows(ds: seq<(real, real)>): (lo: seq<real>)
    ensures |lo| == |ds| && forall i :: 0 <= i < |ds| ==> lo[i] == ds[i].0
  {
    seq(|ds|, i requires 0 <= i < |ds| => ds[i].0)
  }

  function Highs(ds: seq<(real, real)>): (hi: seq<real>)
    ensures |hi| == |ds| && forall i :: 0 <= i < |ds| ==> hi[i] == ds[i].1
  {
    seq(|ds|, i requires 0 <= i < |ds| => ds[i].1)
  }

  /** Membership.Domain: (min, max) in the order each shape was built with. */
  function Domain(m: Membership): (real, real)
    decreases m, 1
  {
    match m
    case Constant(y) => (y, y)
    case MinOf(_, _) => (MinAll(Lows(OperandDomains(m))), MaxAll(Highs(OperandDomains(m))))
    case MaxOf(_, _) => (MinAll(Lows(OperandDomains(m))), MaxAll(Highs(OperandDomains(m))))
    case Linear(x1, x2) => (x1, x2)
    case Triangular(x1, _, x3) => (x1, x3)
    case Inverted(inner) => Domain(inner)
    case Trapezoid(x1, _, _, x4) => (x1, x4)
  }

  /** MinMembership.Value: a running minimum seeded with +Inf. */
  method MinValue(m: Membership, x: real) returns (v: real)
    requires m.MinOf?
    ensures v == Value(m, x)
  {
    var ms := m.Operands();
    ghost var vs := OperandValues(m, x);
    var acc := PosInf;
    for i := 0 to |ms|
      invariant i == 0 ==> acc == PosInf
      invariant i > 0 ==> acc == Fin(MinAll(vs[..i]))
    {
      RunningMin(vs, i, acc);
      acc := Floats.Min(acc, Fin(Value(ms[i], x)));
    }
    assert vs[..|ms|] == vs;
    v := acc.r;
  }

  /** MaxMembership.Value: a running maximum seeded with -Inf. */
  method MaxValue(m: Membership, x: real) returns (v: real)
    requires m.MaxOf?
    ensures v == Value(m, x)
  {
    var ms := m.Operands();
    ghost var vs := OperandValues(m, x);
    var acc := NegInf;
    for i := 0 to |ms|
      invariant i == 0 ==> acc == NegInf
      invariant i > 0 ==> acc == Fin(MaxAll(vs[..i]))
    {
      RunningMax(vs, i, acc);
      acc := Floats.Max(acc, Fin(Value(ms[i], x)));
    }
    assert vs[..|ms|] == vs;
    v := acc.r;
  }

  /**
   * membershipsDomain: the running minimum of the operands' lower bounds and the running
   * maximum of their upper bounds, seeded with +Inf and -Inf (kept for an empty list).
   */
  method MembershipsDomain(ms: seq<Membership>) returns (lo: Float, hi: Float)
    ensures ms == [] ==> lo == PosInf && hi == NegInf
    ensures ms != [] ==>
      lo == Fin(Domain(MinOf(ms[0], ms[1..])).0) && hi == Fin(Domain(MinOf(ms[0], ms[1..])).1)
  {
    lo, hi := PosInf, NegInf;
    ghost var (lows, highs) := Bounds(ms);
    for i := 0 to |ms|
      invariant i == 0 ==> lo == PosInf && hi == NegInf
      invariant i > 0 ==> lo == Fin(MinAll(lows[..i])) && hi == Fin(MaxAll(highs[..i]))
    {
      var d := Domain(ms[i]);
      RunningMin(lows, i, lo);
      RunningMax(highs, i, hi);
      lo := Floats.Min(lo, Fin(d.0));
      hi := Floats.Max(hi, Fin(d.1));
    }
    assert lows[..|ms|] == lows && highs[..|ms|] == highs;
  }

  /** The lower and the upper bounds of the memberships' domains, and the domain of their Min. */
  ghost function Bounds(ms: seq<Membership>): (b: (seq<real>, seq<real>))
    ensures |b.0| == |ms| == |b.1|
    ensures forall i :: 0 <= i < |ms| ==> b.0[i] == Domain(ms[i]).0 && b.1[i] == Domain(ms[i]).1
    ensures ms != [] ==> Domain(MinOf(ms[0], ms[1..])) == (MinAll(b.0), MaxAll(b.1))
  {
    if ms == [] then ([], [])
    else
      var m := MinOf(ms[0], ms[1..]);
      var ds := OperandDomains(m);
      assert forall i :: 0 <= i < |ms| ==> ds[i] == Domain(ms[i]) by {
        forall i | 0 <= i < |ms| ensures ds[i] == Domain(ms[i]) {
          if i > 0 { assert ms[i] == m.rest[i - 1]; }
        }
      }
      (Lows(ds), Highs(ds))
  }

  // ---------------------------------------------------------------------------------
  // Properties of the shapes

  /** Constant(y) is y everywhere and its domain is the single point y. */
  lemma ConstantIsFlat(y: real)
    ensures forall x :: Value(Constant(y), x) == y
    ensures Domain(Constant(y)) == (y, y)
  {
  }

  /** An ascending Linear(x1, x2) is 0 below x1, the ramp on [x1, x2], 1 above x2. */
  lemma LinearRamp(x1: real, x2: real, x: real)
    requires x1 < x2
    ensures x < x1 ==> Value(Linear(x1, x2), x) == 0.0
    ensures x1 <= x <= x2 ==> Value(Linear(x1, x2), x) == (x - x1) / (x2 - x1)
    ensures x2 < x ==> Value(Linear(x1, x2), x) == 1.0
    ensures 0.0 <= Value(Linear(x1, x2), x) <= 1.0
    ensures Value(Linear(x1, x2), x1) == 0.0 && Value(Linear(x1, x2), x2) == 1.0
    ensures Value(Linear(x1, x2), (x1 + x2) / 2.0) == 0.5
  {
    var mid := (x1 + x2) / 2.0;
    assert (mid - x1) / (x2 - x1) == 0.5 by {
      assert mid - x1 == (x2 - x1) * 0.5;
    }
    assert (x2 - x1) / (x2 - x1) == 1.0;
  }

  /**
   * Linear(x1, x2) with x1 >= x2, and so Step(x1), is a step at x1: 0 below it and 1 from
   * it on; the second bound plays no part.
   */
  lemma LinearStepAt(x1: real, x2: real, x: real)
    requires x1 >= x2
    ensures Value(Linear(x1, x2), x) == (if x < x1 then 0.0 else 1.0)
    ensures Value(Step(x1), x) == Value(Linear(x1, x2), x)
  {
  }

  /** Triangular(x1, x2, x3) rises from 0 at x1 to 1 at x2 and falls back to 0 at x3. */
  lemma TriangularPeak(x1: real, x2: real, x3: real, x: real)
    requires x1 < x2 < x3
    ensures Value(Triangular(x1, x2, x3), x1) == 0.0
    ensures Value(Triangular(x1, x2, x3), x2) == 1.0
    ensures Value(Triangular(x1, x2, x3), x3) == 0.0
    ensures x <= x1 || x3 <= x ==> Value(Triangular(x1, x2, x3), x) == 0.0
    ensures 0.0 <= Value(Triangular(x1, x2, x3), x) <= 1.0
  {
  }

  /** Triangular is non-decreasing up to its peak and non-increasing after it. */
  lemma TriangularMonotone(x1: real, x2: real, x3: real, a: real, b: real)
    requires x1 < x2 < x3 && a <= b
    ensures b <= x2 ==> Value(Triangular(x1, x2, x3), a) <= Value(Triangular(x1, x2, x3), b)
    ensures x2 <= a ==> Value(Triangular(x1, x2, x3), a) >= Value(Triangular(x1, x2, x3), b)
  {
    var t := Triangular(x1, x2, x3);
    if b <= x2 {
      if x1 < a && b < x2 {
        assert (a - x1) / (x2 - x1) <= (b - x1) / (x2 - x1) by { DivMonotone(a - x1, b - x1, x2 - x1); }
      }
      if x1 < a && b == x2 {
        assert Value(t, b) == 1.0;
      }
    }
    if x2 <= a && b <= x3 {
      assert (x3 - b) / (x3 - x2) <= (x3 - a) / (x3 - x2) by { DivMonotone(x3 - b, x3 - a, x3 - x2); }
    }
  }

  lemma DivMonotone(a: real, b: real, d: real)
    requires a <= b && d > 0.0
    ensures a / d <= b / d
  {
    assert b / d - a / d == (b - a) / d;
  }

  /**
   * Trapezoid(x1, x2, x3, x4) is 1 on the closed plateau [x2, x3], whatever the shoulders,
   * degenerate ones (x1 == x2 or x3 == x4) included.
   */
  lemma TrapezoidPlateau(x1: real, x2: real, x3: real, x4: real, x: real)
    requires x2 <= x3
    ensures x2 <= x <= x3 ==> Value(Trapezoid(x1, x2, x3, x4), x) == 1.0
  {
  }

  /**
   * For x1 <= x2 <= x3 <= x4, Trapezoid is 0 outside [x1, x4] and in [0, 1] everywhere. It is
   * 0 at x1 (x4) only when that shoulder slopes: with x1 == x2 (x3 == x4) the shared point
   * belongs to the plateau and is 1.
   */
  lemma TrapezoidEdges(x1: real, x2: real, x3: real, x4: real, x: real)
    requires x1 <= x2 <= x3 <= x4
    ensures x < x1 || x4 < x ==> Value(Trapezoid(x1, x2, x3, x4), x) == 0.0
    ensures x1 < x2 ==> Value(Trapezoid(x1, x2, x3, x4), x1) == 0.0
    ensures x3 < x4 ==> Value(Trapezoid(x1, x2, x3, x4), x4) == 0.0
    ensures x1 == x2 ==> Value(Trapezoid(x1, x2, x3, x4), x1) == 1.0
    ensures x3 == x4 ==> Value(Trapezoid(x1, x2, x3, x4), x4) == 1.0
    ensures 0.0 <= Value(Trapezoid(x1, x2, x3, x4), x) <= 1.0
  {
  }

  /** Trapezoid(a, b, b, c) coincides with Triangular(a, b, c) at every point. */
  lemma TrapezoidAsTriangle(a: real, b: real, c: real, x: real)
    requires a < b < c
    ensures Value(Trapezoid(a, b, b, c), x) == Value(Triangular(a, b, c), x)
  {
  }

  /** The sample points checked for Trapezoid(10, 20, 30, 40) and Trapezoid(10, 20, 20, 30). */
  lemma TrapezoidSamples()
    ensures Value(Trapezoid(10.0, 20.0, 30.0, 40.0), 15.0) == 0.5
    ensures Value(Trapezoid(10.0, 20.0, 30.0, 40.0), 25.0) == 1.0
    ensures Value(Trapezoid(10.0, 20.0, 30.0, 40.0), 35.0) == 0.5
    ensures Value(Trapezoid(10.0, 20.0, 20.0, 30.0), 15.0) == 0.5
    ensures Value(Trapezoid(10.0, 20.0, 20.0, 30.0), 20.0) == 1.0
    ensures Value(Trapezoid(10.0, 20.0, 20.0, 30.0), 25.0) == 0.5
  {
  }

  /** Inverted(m) is the complement of m and keeps m's domain; inverting twice is m again. */
  lemma InvertedComplement(m: Membership, x: real)
    ensures Value(Inverted(m), x) == 1.0 - Value(m, x)
    ensures Domain(Inverted(m)) == Domain(m)
    ensures Value(Inverted(Inverted(m)), x) == Value(m, x)
  {
  }

  /** A normalised membership yields a degree in [0, 1] at every point. */
  lemma {:induction false} ValueNormalised(m: Membership, x: real)
    requires Normalised(m)
    ensures 0.0 <= Value(m, x) <= 1.0
    decreases m
  {
    match m
    case Inverted(inner) => ValueNormalised(inner, x);
    case MinOf(f, rest) => OperandsNormalised(m, x);
    case MaxOf(f, rest) => OperandsNormalised(m, x);
    case _ =>
  }

  lemma {:induction false} OperandsNormalised(m: Membership, x: real)
    requires (m.MinOf? || m.MaxOf?) && Normalised(m)
    ensures 0.0 <= Value(m, x) <= 1.0
    decreases m, 0
  {
    var vs := OperandValues(m, x);
    forall i | 0 <= i < |vs| ensures 0.0 <= vs[i] <= 1.0 {
      if i == 0 { ValueNormalised(m.first, x); } else { ValueNormalised(m.rest[i - 1], x); }
    }
    if m.MinOf? {
      MinAllBounds(vs);
    } else {
      MaxAllBounds(vs);
    }
  }

  /**
   * Min and Max are the pointwise minimum and maximum of their operands: bounded by every
   * operand's value and equal to one of them.
   */
  lemma {:induction false} MinMaxPointwise(m: Membership, x: real)
    requires m.MinOf? || m.MaxOf?
    ensures m.MinOf? ==> forall op :: op in m.Operands() ==> Value(m, x) <= Value(op, x)
    ensures m.MaxOf? ==> forall op :: op in m.Operands() ==> Value(op, x) <= Value(m, x)
    ensures exists op :: op in m.Operands() && Value(m, x) == Value(op, x)
  {
    var ops, vs := m.Operands(), OperandValues(m, x);
    assert forall i :: 0 <= i < |ops| ==> vs[i] == Value(ops[i], x) by {
      forall i | 0 <= i < |ops| ensures vs[i] == Value(ops[i], x) {
        if i > 0 { assert ops[i] == m.rest[i - 1]; }
      }
    }
    if m.MinOf? { MinAllBounds(vs); } else { MaxAllBounds(vs); }
    var j :| 0 <= j < |vs| && Value(m, x) == vs[j];
    assert ops[j] in ops;
  }

  /**
   * Min and Max over the same operands report the same domain: the least lower bound and the
   * greatest upper bound of the operands' domains, each attained by an operand.
   */
  lemma {:induction false} MinMaxDomain(m: Membership)
    requires m.MinOf? || m.MaxOf?
    ensures Domain(m) == Domain(MinOf(m.first, m.rest)) == Domain(MaxOf(m.first, m.rest))
    ensures forall op :: op in m.Operands() ==> Domain(m).0 <= Domain(op).0 && Domain(op).1 <= Domain(m).1
    ensures exists op :: op in m.Operands() && Domain(m).0 == Domain(op).0
    ensures exists op :: op in m.Operands() && Domain(m).1 == Domain(op).1
  {
    var ops := m.Operands();
    assert MinOf(ops[0], ops[1..]) == MinOf(m.first, m.rest);
    assert OperandDomains(MinOf(m.first, m.rest)) == OperandDomains(m) == OperandDomains(MaxOf(m.first, m.rest));
    var (lo, hi) := Bounds(ops);
    MinAllBounds(lo);
    MaxAllBounds(hi);
    var j :| 0 <= j < |lo| && MinAll(lo) == lo[j];
    var k :| 0 <= k < |hi| && MaxAll(hi) == hi[k];
    assert ops[j] in ops && ops[k] in ops;
    forall op | op in ops
      ensures Domain(m).0 <= Domain(op).0 && Domain(op).1 <= Domain(m).1
    {
      var i :| 0 <= i < |ops| && ops[i] == op;
      assert lo[i] == Domain(op).0 && hi[i] == Domain(op).1;
    }
  }

  /** Linear, Triangular and Trapezoid report their outer parameters unsorted. */
  lemma DomainInConstructionOrder(x1: real, x2: real, x3: real, x4: real)
    ensures Domain(Linear(x1, x2)) == (x1, x2)
    ensures Domain(Triangular(x1, x2, x3)) == (x1, x3)
    ensures Domain(Trapezoid(x1, x2, x3, x4)) == (x1, x4)
  {
  }
}
