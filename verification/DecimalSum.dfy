/** Exact decimal sums against a stated total (packages/core/src/agent/arithmetic-check.ts, lines 112 to 150).

    Each figure comes with what it reads as under either decimal convention. */
module DecimalSum {
  import opened Common

  datatype Scaled = Scaled(units: int, scale: nat)

  function Pow10(n: nat): (p: nat)
    ensures p > 0
  {
    if n == 0 then 1 else 10 * Pow10(n - 1)
  }

  // ----- Rounding.

  /** Half of a divisor and more goes up. */
  function NearestMultiple(magnitude: nat, divisor: nat): nat
    requires divisor > 0
  {
    magnitude / divisor + if (magnitude % divisor) * 2 >= divisor then 1 else 0
  }

  /** `roundHalfUp`, lines 112 to 120. */
  function RoundHalfUp(value: Scaled, scale: nat): int {
    if value.scale <= scale then value.units * Pow10(scale - value.scale)
    else
      var quotient: int := NearestMultiple(Abs(value.units), Pow10(value.scale - scale));
      if value.units < 0 then -quotient else quotient
  }

  lemma NearestIsNear(m: nat, d: nat)
    requires d > 0
    ensures var q := NearestMultiple(m, d);
      && -(d as int) < 2 * (q * d - m) <= d
  {
    var q, r := m / d, m % d;
    assert m == q * d + r;
    assert (q + 1) * d == q * d + d;
  }

  /** The whole number that rounding gives, told apart from its body: within half a unit of the exact value, and away
      from zero where two are equally near. */
  ghost predicate IsRounded(units: int, d: nat, r: int) {
    && -(d as int) <= 2 * (r * d - units) <= d
    && (2 * Abs(r * d - units) == d ==> Abs(r * d) > Abs(units))
  }

  lemma MultipleBounds(k: int, d: nat)
    ensures k >= 0 ==> k * d >= 0
    ensures k <= 0 ==> k * d <= 0
    ensures k >= 1 ==> k * d >= d
  {
    if k >= 1 {
      assert (k - 1) * d >= 0;
      assert k * d == (k - 1) * d + d;
    }
  }

  /** The tie is on the side away from zero. */
  lemma RoundedSide(units: int, d: nat, r: int)
    requires d > 0 && IsRounded(units, d, r)
    ensures units >= 0 ==> 2 * (r * d - units) != -(d as int)
    ensures units <= 0 ==> 2 * (r * d - units) != d
  {
    MultipleBounds(r, d);
    MultipleBounds(-r, d);
    assert (-r) * d == -(r * d);
  }

  /** There is only one such number. */
  lemma RoundedIsUnique(units: int, d: nat, low: int, high: int)
    requires d > 0 && IsRounded(units, d, low) && IsRounded(units, d, high)
    ensures low >= high
  {
    RoundedSide(units, d, low);
    RoundedSide(units, d, high);
    assert high * d - low * d == (high - low) * d;
    MultipleBounds(high - low, d);
  }

  lemma RoundingRounds(value: Scaled, scale: nat)
    requires value.scale > scale
    ensures IsRounded(value.units, Pow10(value.scale - scale), RoundHalfUp(value, scale))
  {
    var d, m := Pow10(value.scale - scale), Abs(value.units);
    NearestIsNear(m, d);
    var q: int := NearestMultiple(m, d);
    assert (-q) * d == -(q * d);
  }

  /** `roundHalfUp` gives the one nearest number, ties away from zero; with places to spare it only rescales.
      It treats both signs alike. */
  lemma RoundHalfUpIsNearest(value: Scaled, scale: nat, r: int)
    ensures value.scale > scale ==> (r == RoundHalfUp(value, scale) <==> IsRounded(value.units, Pow10(value.scale - scale), r))
    ensures value.scale <= scale ==> RoundHalfUp(value, scale) == value.units * Pow10(scale - value.scale)
    ensures RoundHalfUp(Scaled(-value.units, value.scale), scale) == -RoundHalfUp(value, scale)
  {
    if value.scale > scale {
      RoundingRounds(value, scale);
      var d, q := Pow10(value.scale - scale), RoundHalfUp(value, scale);
      if IsRounded(value.units, d, r) {
        RoundedIsUnique(value.units, d, r, q);
        RoundedIsUnique(value.units, d, q, r);
      }
    } else {
      assert (-value.units) * Pow10(scale - value.scale) == -(value.units * Pow10(scale - value.scale));
    }
  }

  // ----- One chain under one convention.

  datatype Convention = Comma | Point

  /** What a figure reads as, or None where it is ill-formed. */
  datatype Figure = Figure(comma: Option<Scaled>, point: Option<Scaled>)

  function Reading(f: Figure, convention: Convention): Option<Scaled> {
    if convention == Comma then f.comma else f.point
  }

  datatype Operator = Plus | Minus

  datatype Verdict = Unreadable | Skip | Checked(matches: bool, computed: string)

  const MAX_TERM_DIGITS := 15

  predicate TooLarge(v: Scaled) {
    Abs(v.units) > Pow10(MAX_TERM_DIGITS) * Pow10(v.scale)
  }

  predicate Usable(f: Figure, convention: Convention) {
    Reading(f, convention).Some? && !TooLarge(Reading(f, convention).value)
  }

  /** The first term that cannot be used decides: unreadable, or too large and skipped. */
  function FirstProblem(terms: seq<Figure>, convention: Convention): Option<Verdict> {
    if terms == [] then None
    else if FirstProblem(Init(terms), convention).Some? then FirstProblem(Init(terms), convention)
    else if Reading(Last(terms), convention).None? then Some(Unreadable)
    else if TooLarge(Reading(Last(terms), convention).value) then Some(Skip)
    else None
  }

  lemma {:induction false} NoProblem(terms: seq<Figure>, convention: Convention)
    ensures FirstProblem(terms, convention).None? <==> forall k | 0 <= k < |terms| :: Usable(terms[k], convention)
  {
    if terms != [] {
      NoProblem(Init(terms), convention);
      assert terms == Init(terms) + [Last(terms)];
    }
  }

  function MaxScale(values: seq<Scaled>): nat {
    if values == [] then 0 else Max(MaxScale(Init(values)), Last(values).scale)
  }

  /** The most places are those of some term. */
  lemma {:induction false} MaxScaleIsOne(values: seq<Scaled>)
    requires values != []
    ensures exists k | 0 <= k < |values| :: values[k].scale == MaxScale(values)
  {
    if |values| == 1 {
      assert Init(values) == [] && values[0].scale == MaxScale(values);
    } else if MaxScale(values) == Last(values).scale {
      assert values[|values| - 1].scale == MaxScale(values);
    } else {
      MaxScaleIsOne(Init(values));
      var k :| 0 <= k < |Init(values)| && Init(values)[k].scale == MaxScale(Init(values));
      assert values[k] == Init(values)[k];
    }
  }

  lemma {:induction false} MaxScaleBounds(values: seq<Scaled>)
    ensures forall k | 0 <= k < |values| :: values[k].scale <= MaxScale(values)
  {
    if values != [] {
      MaxScaleBounds(Init(values));
      assert values == Init(values) + [Last(values)];
    }
  }

  /** Whether the term at an index is subtracted: the first never is. */
  predicate Subtracted(operators: seq<Operator>, index: nat) {
    0 < index <= |operators| && operators[index - 1] == Minus
  }

  function Signed(operators: seq<Operator>, index: nat, units: int): int {
    if Subtracted(operators, index) then -units else units
  }

  /** The total in units of 10^-scale. */
  function Total(values: seq<Scaled>, operators: seq<Operator>, scale: nat): int
    requires forall k | 0 <= k < |values| :: values[k].scale <= scale
  {
    if values == [] then 0
    else
      assert forall k | 0 <= k < |Init(values)| :: Init(values)[k] == values[k];
      Total(Init(values), operators, scale)
      + Signed(operators, |values| - 1, Last(values).units * Pow10(scale - Last(values).scale))
  }

  /** What a scaled figure is worth. */
  ghost function Worth(v: Scaled): real {
    v.units as real / Pow10(v.scale) as real
  }

  ghost function ExactSum(values: seq<Scaled>, operators: seq<Operator>): real {
    if values == [] then 0.0
    else
      var last := Worth(Last(values));
      ExactSum(Init(values), operators)
      + (if |values| > 1 && |values| - 2 < |operators| && operators[|values| - 2] == Minus then -last else last)
  }

  lemma {:induction false} Pow10Adds(a: nat, b: nat)
    ensures Pow10(a + b) == Pow10(a) * Pow10(b)
  {
    if a > 0 {
      Pow10Adds(a - 1, b);
      assert Pow10(a + b) == 10 * Pow10(a + b - 1);
      Regroup(Pow10(a - 1), Pow10(b));
    }
  }

  lemma Pow10IsTen()
    ensures Pow10(0) == 1 && Pow10(1) == 10
  {
    assert Pow10(1) == 10 * Pow10(0);
  }

  lemma Regroup(x: int, y: int)
    ensures 10 * (x * y) == (10 * x) * y
  {
  }

  lemma ProductAsReal(a: int, b: int)
    ensures (a * b) as real == a as real * b as real
  {
  }

  /** Rescaling to more places is exact. */
  lemma RescaleKeepsWorth(v: Scaled, scale: nat)
    requires v.scale <= scale
    ensures Worth(Scaled(v.units * Pow10(scale - v.scale), scale)) == Worth(v)
  {
    Pow10Adds(scale - v.scale, v.scale);
    CancelWhole(v.units, Pow10(scale - v.scale), Pow10(v.scale), Pow10(scale));
  }

  lemma CancelWhole(u: int, x: nat, y: nat, z: nat)
    requires x > 0 && y > 0 && z == x * y
    ensures z > 0 && (u * x) as real / z as real == u as real / y as real
  {
    ProductAsReal(u, x);
    ProductAsReal(x, y);
    Cancel(u as real, x as real, y as real);
  }

  lemma Cancel(u: real, x: real, y: real)
    requires x > 0.0 && y > 0.0
    ensures x * y > 0.0 && (u * x) / (x * y) == u / y
  {
    var w := u / y;
    assert u == w * y;
    assert u * x == w * (x * y);
  }

  /** The sum in whole units is the exact sum. */
  lemma {:induction false} TotalIsExact(values: seq<Scaled>, operators: seq<Operator>, scale: nat)
    requires forall k | 0 <= k < |values| :: values[k].scale <= scale
    ensures Worth(Scaled(Total(values, operators, scale), scale)) == ExactSum(values, operators)
  {
    if values != [] {
      assert forall k | 0 <= k < |Init(values)| :: Init(values)[k] == values[k];
      TotalIsExact(Init(values), operators, scale);
      RescaleKeepsWorth(Last(values), scale);
      var last := Last(values).units * Pow10(scale - Last(values).scale);
      WorthAdds(Total(Init(values), operators, scale), Signed(operators, |values| - 1, last), scale);
      WorthNegates(last, scale);
    }
  }

  lemma WorthAdds(a: int, b: int, scale: nat)
    ensures Worth(Scaled(a + b, scale)) == Worth(Scaled(a, scale)) + Worth(Scaled(b, scale))
  {
    Distribute(a as real, b as real, Pow10(scale) as real);
  }

  lemma Distribute(a: real, b: real, p: real)
    requires p > 0.0
    ensures (a + b) / p == a / p + b / p
  {
  }

  lemma WorthNegates(a: int, scale: nat)
    ensures Worth(Scaled(-a, scale)) == -Worth(Scaled(a, scale))
  {
    Negate(a as real, Pow10(scale) as real);
  }

  lemma Negate(a: real, p: real)
    requires p > 0.0
    ensures (-a) / p == -(a / p)
  {
    assert (-a) / p + a / p == 0.0 by { Distribute(-a, a, p); }
  }

  // ----- Writing the sum out.

  /** `format`, lines 122 to 127. */
  function Format(units: int, scale: nat, convention: Convention): string {
    var digits := Pad(Abs(units), scale + 1);
    PadIsLong(Abs(units), scale + 1);
    var body := if scale > 0
                then digits[..|digits| - scale] + [if convention == Comma then ',' else '.'] + digits[|digits| - scale..]
                else digits;
    (if units < 0 then "-" else "") + body
  }

  lemma PadIsLong(n: nat, width: nat)
    ensures |Pad(n, width)| >= width
  {
  }

  function Readings(terms: seq<Figure>, convention: Convention): seq<Scaled>
    requires forall k | 0 <= k < |terms| :: Usable(terms[k], convention)
  {
    seq(|terms|, k requires 0 <= k < |terms| && Usable(terms[k], convention) => Reading(terms[k], convention).value)
  }

  /** The verdict on a chain that can be read in full. */
  function Judged(values: seq<Scaled>, operators: seq<Operator>, stated: Scaled, convention: Convention): Verdict {
    MaxScaleBounds(values);
    var scale := MaxScale(values);
    if stated.scale > scale then Skip
    else
      var total := Total(values, operators, scale);
      Checked(RoundHalfUp(Scaled(total, scale), stated.scale) == stated.units, Format(total, scale, convention))
  }

  function Verdicted(terms: seq<Figure>, operators: seq<Operator>, stated: Figure, convention: Convention): Verdict {
    var problem := FirstProblem(terms, convention);
    if problem.Some? then problem.value
    else if Reading(stated, convention).None? then Unreadable
    else
      NoProblem(terms, convention);
      Judged(Readings(terms, convention), operators, Reading(stated, convention).value, convention)
  }

  lemma ValuesSnoc(terms: seq<Figure>, k: nat, convention: Convention)
    requires k < |terms| && forall i | 0 <= i <= k :: Usable(terms[i], convention)
    ensures Readings(terms[..k + 1], convention) == Readings(terms[..k], convention) + [Reading(terms[k], convention).value]
  {
  }

  /** The exact total, line 145 to 148: terms rescaled to the most places any of them has. */
  method AddUp(values: seq<Scaled>, operators: seq<Operator>) returns (scale: nat, total: int)
    ensures scale == MaxScale(values)
    ensures forall k | 0 <= k < |values| :: values[k].scale <= scale
    ensures total == Total(values, operators, scale)
  {
    scale := 0;
    for k := 0 to |values|
      invariant scale == MaxScale(values[..k])
    {
      assert Init(values[..k + 1]) == values[..k];
      scale := Max(scale, values[k].scale);
    }
    assert values[..|values|] == values;
    MaxScaleBounds(values);
    total := 0;
    for k := 0 to |values|
      invariant total == Total(values[..k], operators, scale)
    {
      assert Init(values[..k + 1]) == values[..k];
      var units := values[k].units * Pow10(scale - values[k].scale);
      total := total + if k > 0 && k <= |operators| && operators[k - 1] == Minus then -units else units;
    }
  }

  /** `evaluate`, lines 130 to 150. */
  method Evaluate(terms: seq<Figure>, operators: seq<Operator>, stated: Figure, convention: Convention) returns (v: Verdict)
    ensures v == Verdicted(terms, operators, stated, convention)
  {
    var values: seq<Scaled> := [];
    for k := 0 to |terms|
      invariant FirstProblem(terms[..k], convention).None?
      invariant forall i | 0 <= i < k :: Usable(terms[i], convention)
      invariant values == Readings(terms[..k], convention)
    {
      assert Init(terms[..k + 1]) == terms[..k];
      var value := Reading(terms[k], convention);
      if value.None? {
        FirstProblemStays(terms, k + 1, convention);
        return Unreadable;
      }
      if TooLarge(value.value) {
        FirstProblemStays(terms, k + 1, convention);
        return Skip;
      }
      ValuesSnoc(terms, k, convention);
      values := values + [value.value];
    }
    assert terms[..|terms|] == terms;
    var statedValue := Reading(stated, convention);
    if statedValue.None? { return Unreadable; }
    var scale, total := AddUp(values, operators);
    if statedValue.value.scale > scale { return Skip; }
    var rounded := RoundHalfUp(Scaled(total, scale), statedValue.value.scale);
    v := Checked(rounded == statedValue.value.units, Format(total, scale, convention));
  }

  lemma {:induction false} FirstProblemStays(terms: seq<Figure>, k: nat, convention: Convention)
    requires k <= |terms| && FirstProblem(terms[..k], convention).Some?
    ensures FirstProblem(terms, convention) == FirstProblem(terms[..k], convention)
  {
    if k == |terms| {
      assert terms[..k] == terms;
    } else {
      assert Init(terms)[..k] == terms[..k];
      FirstProblemStays(Init(terms), k, convention);
    }
  }

  // ----- What a verdict says of the exact sum.

  lemma DivideKeepsOrder(a: int, b: int, p: nat)
    requires p > 0
    ensures a <= b <==> a as real / p as real <= b as real / p as real
    ensures a < b <==> a as real / p as real < b as real / p as real
  {
    var x, y, q := a as real, b as real, p as real;
    assert y / q - x / q == (y - x) / q by { Distribute(y, -x, q); Negate(x, q); }
  }

  lemma WorthKeepsOrder(a: int, b: int, scale: nat)
    ensures a <= b <==> Worth(Scaled(a, scale)) <= Worth(Scaled(b, scale))
    ensures a < b <==> Worth(Scaled(a, scale)) < Worth(Scaled(b, scale))
  {
    DivideKeepsOrder(a, b, Pow10(scale));
  }

  lemma WorthDoubles(a: int, scale: nat)
    ensures Worth(Scaled(2 * a, scale)) == 2.0 * Worth(Scaled(a, scale))
  {
    WorthAdds(a, a, scale);
  }

  /** The stated total less the sum, in whole units of the finer scale, and in reals. */
  lemma OffInReals(total: int, scale: nat, stated: Scaled)
    requires stated.scale <= scale
    ensures var d, off := Pow10(scale - stated.scale), stated.units * Pow10(scale - stated.scale) - total;
      var realOff, unit := Worth(stated) - Worth(Scaled(total, scale)), Worth(Scaled(1, stated.scale));
      && (2 * off <= d <==> 2.0 * realOff <= unit) && (2 * off < d <==> 2.0 * realOff < unit)
      && (-(d as int) <= 2 * off <==> -unit <= 2.0 * realOff) && (-(d as int) < 2 * off <==> -unit < 2.0 * realOff)
  {
    var d, off := Pow10(scale - stated.scale), stated.units * Pow10(scale - stated.scale) - total;
    RescaleKeepsWorth(stated, scale);
    RescaleKeepsWorth(Scaled(1, stated.scale), scale);
    assert 1 * d == d;
    WorthAdds(off, total, scale);
    WorthDoubles(off, scale);
    WorthNegates(d, scale);
    WorthKeepsOrder(2 * off, d, scale);
    WorthKeepsOrder(-(d as int), 2 * off, scale);
  }

  ghost function RealAbs(x: real): real {
    if x < 0.0 then -x else x
  }

  /** Rounding x to v's places gives v: it is nearest, and away from zero where two are equally near. */
  ghost predicate RoundsTo(x: real, v: Scaled) {
    var off, unit := Worth(v) - x, Worth(Scaled(1, v.scale));
    && -unit <= 2.0 * off <= unit
    && (2.0 * off == unit || 2.0 * off == -unit ==> RealAbs(Worth(v)) > RealAbs(x))
  }

  lemma WorthOfNone(scale: nat)
    ensures Worth(Scaled(0, scale)) == 0.0
  {
  }

  lemma WorthAbs(a: int, scale: nat)
    ensures Worth(Scaled(Abs(a), scale)) == RealAbs(Worth(Scaled(a, scale)))
  {
    WorthOfNone(scale);
    WorthKeepsOrder(a, 0, scale);
    WorthNegates(a, scale);
  }

  lemma FartherInReals(total: int, scale: nat, stated: Scaled)
    requires stated.scale <= scale
    ensures Abs(stated.units * Pow10(scale - stated.scale)) > Abs(total) <==>
      RealAbs(Worth(stated)) > RealAbs(Worth(Scaled(total, scale)))
  {
    var units := stated.units * Pow10(scale - stated.scale);
    RescaleKeepsWorth(stated, scale);
    WorthAbs(units, scale);
    WorthAbs(total, scale);
    WorthKeepsOrder(Abs(total), Abs(units), scale);
  }

  lemma RoundedInReals(total: int, scale: nat, stated: Scaled)
    requires stated.scale <= scale
    ensures IsRounded(total, Pow10(scale - stated.scale), stated.units) <==> RoundsTo(Worth(Scaled(total, scale)), stated)
  {
    OffInReals(total, scale, stated);
    FartherInReals(total, scale, stated);
  }

  lemma RoundedToUnits(total: int, r: int)
    ensures IsRounded(total, 1, r) <==> r == total
  {
  }

  lemma RoundedIffEqual(total: int, scale: nat, stated: Scaled)
    requires stated.scale <= scale
    ensures RoundHalfUp(Scaled(total, scale), stated.scale) == stated.units <==>
      IsRounded(total, Pow10(scale - stated.scale), stated.units)
  {
    RoundHalfUpIsNearest(Scaled(total, scale), stated.scale, stated.units);
    RoundedToUnits(total, stated.units);
    assert Pow10(0) == 1;
  }

  /** A chain matches exactly when its exact sum, rounded to the places of the stated total, is that total. */
  lemma VerdictIsExact(values: seq<Scaled>, operators: seq<Operator>, stated: Scaled, convention: Convention)
    requires stated.scale <= MaxScale(values)
    ensures Judged(values, operators, stated, convention).Checked?
    ensures Judged(values, operators, stated, convention).matches <==> RoundsTo(ExactSum(values, operators), stated)
  {
    MaxScaleBounds(values);
    var scale := MaxScale(values);
    var total := Total(values, operators, scale);
    TotalIsExact(values, operators, scale);
    RoundedInReals(total, scale, stated);
    RoundedIffEqual(total, scale, stated);
  }

  // ----- The verdict, told by the figures.

  /** Under this convention all the figures read, none is too large, and the total has no more places than they have. */
  ghost predicate ReadsFully(terms: seq<Figure>, stated: Figure, convention: Convention) {
    && (forall k | 0 <= k < |terms| :: Usable(terms[k], convention))
    && Reading(stated, convention).Some?
    && Reading(stated, convention).value.scale <= MaxScale(Readings(terms, convention))
  }

  /** The first term that cannot be used. */
  ghost predicate FirstUnusable(terms: seq<Figure>, convention: Convention, k: nat) {
    && k < |terms| && !Usable(terms[k], convention)
    && forall i | 0 <= i < k :: Usable(terms[i], convention)
  }

  /** Under this convention the chain is passed over: its first term that cannot be used is too large, or its total
      has more places than its terms. */
  ghost predicate Skipped(terms: seq<Figure>, stated: Figure, convention: Convention) {
    || (exists k: nat :: FirstUnusable(terms, convention, k) && Reading(terms[k], convention).Some?)
    || ((forall k | 0 <= k < |terms| :: Usable(terms[k], convention))
        && Reading(stated, convention).Some?
        && Reading(stated, convention).value.scale > MaxScale(Readings(terms, convention)))
  }

  /** The exact sum does not round to the total. */
  ghost predicate Misses(terms: seq<Figure>, operators: seq<Operator>, stated: Figure, convention: Convention)
    requires ReadsFully(terms, stated, convention)
  {
    !RoundsTo(ExactSum(Readings(terms, convention), operators), Reading(stated, convention).value)
  }

  lemma {:induction false} FirstProblemIs(terms: seq<Figure>, convention: Convention, k: nat)
    requires FirstUnusable(terms, convention, k)
    ensures FirstProblem(terms, convention) == Some(if Reading(terms[k], convention).None? then Unreadable else Skip)
  {
    if k < |terms| - 1 {
      FirstProblemIs(Init(terms), convention, k);
    } else {
      NoProblem(Init(terms), convention);
    }
  }

  lemma {:induction false} SomeIsFirst(terms: seq<Figure>, convention: Convention) returns (k: nat)
    requires FirstProblem(terms, convention).Some?
    ensures FirstUnusable(terms, convention, k)
  {
    var front := Init(terms);
    assert forall j | 0 <= j < |front| :: front[j] == terms[j];
    if FirstProblem(front, convention).Some? {
      k := SomeIsFirst(front, convention);
    } else {
      NoProblem(front, convention);
      k := |terms| - 1;
    }
  }

  lemma VerdictOnProblem(terms: seq<Figure>, operators: seq<Operator>, stated: Figure, convention: Convention)
    requires FirstProblem(terms, convention).Some?
    ensures var v := Verdicted(terms, operators, stated, convention);
      !v.Checked? && (v.Skip? <==> Skipped(terms, stated, convention)) && !ReadsFully(terms, stated, convention)
  {
    var first := SomeIsFirst(terms, convention);
    FirstProblemIs(terms, convention, first);
    forall j: nat | FirstUnusable(terms, convention, j) ensures j == first {
    }
  }

  lemma VerdictOnUsable(terms: seq<Figure>, operators: seq<Operator>, stated: Figure, convention: Convention)
    requires FirstProblem(terms, convention).None?
    ensures var v := Verdicted(terms, operators, stated, convention);
      && (v.Skip? <==> Skipped(terms, stated, convention))
      && (v.Checked? <==> ReadsFully(terms, stated, convention))
  {
    NoProblem(terms, convention);
    forall j: nat ensures !FirstUnusable(terms, convention, j) {
    }
  }

  lemma ReadingIs(f: Figure)
    ensures Reading(f, Comma) == f.comma && Reading(f, Point) == f.point
  {
  }

  lemma FifteenZeros()
    ensures Pow10(MAX_TERM_DIGITS) == 1000000000000000
  {
    Pow10IsTen();
    assert Pow10(5) == 100000 by { assert Pow10(3) == 1000 by { assert Pow10(2) == 100; } assert Pow10(4) == 10000; }
    Pow10Adds(5, 5);
    Pow10Adds(10, 5);
  }

  /** A term is too large exactly if it is worth more than a million milliards, of either sign. */
  lemma TooLargeIff(v: Scaled)
    ensures TooLarge(v) <==> RealAbs(Worth(v)) > 1000000000000000.0
  {
    FifteenZeros();
    var limit: int := 1000000000000000;
    WorthAbs(v.units, v.scale);
    WorthKeepsOrder(limit * Pow10(v.scale), Abs(v.units), v.scale);
    Whole(limit, Pow10(v.scale));
  }

  lemma Whole(n: int, p: nat)
    requires p > 0
    ensures (n * p) as real / p as real == n as real
  {
    ProductAsReal(n, p);
    Cancelled(n as real, p as real);
  }

  lemma Cancelled(x: real, y: real)
    requires y > 0.0
    ensures (x * y) / y == x
  {
  }

  /** The verdict on a chain: skipped, or checked when all of it reads, and then a match unless its sum misses. */
  lemma VerdictTold(terms: seq<Figure>, operators: seq<Operator>, stated: Figure, convention: Convention)
    ensures var v := Verdicted(terms, operators, stated, convention);
      && (v.Skip? <==> Skipped(terms, stated, convention))
      && (v.Checked? <==> ReadsFully(terms, stated, convention))
      && (v.Checked? ==> (v.matches <==> !Misses(terms, operators, stated, convention)))
  {
    if FirstProblem(terms, convention).Some? {
      VerdictOnProblem(terms, operators, stated, convention);
    } else {
      VerdictOnUsable(terms, operators, stated, convention);
      if ReadsFully(terms, stated, convention) {
        VerdictIsExact(Readings(terms, convention), operators, Reading(stated, convention).value, convention);
      }
    }
  }

  /** No convention skips the chain, one at least reads it, and its sum misses the total under each that does. */
  ghost predicate MissesUnderAll(terms: seq<Figure>, operators: seq<Operator>, stated: Figure) {
    && (forall c :: !Skipped(terms, stated, c))
    && (exists c :: ReadsFully(terms, stated, c))
    && (forall c | ReadsFully(terms, stated, c) :: Misses(terms, operators, stated, c))
  }

  /** The sum as written under this convention. */
  ghost predicate WritesSum(terms: seq<Figure>, operators: seq<Operator>, stated: Figure, convention: Convention, computed: string) {
    && ReadsFully(terms, stated, convention)
    && var values := Readings(terms, convention);
       MaxScaleBounds(values);
       computed == Format(Total(values, operators, MaxScale(values)), MaxScale(values), convention)
  }

  lemma ComputedIsWritten(terms: seq<Figure>, operators: seq<Operator>, stated: Figure, convention: Convention)
    requires Verdicted(terms, operators, stated, convention).Checked?
    ensures WritesSum(terms, operators, stated, convention, Verdicted(terms, operators, stated, convention).computed)
  {
    VerdictTold(terms, operators, stated, convention);
    NoProblem(terms, convention);
  }

  // ----- The written sum.

  /** The written sum is the sum: its sign, then digits that denote the units, split before the last `scale` of them. */
  lemma FormatReadsBack(units: int, scale: nat, convention: Convention) returns (whole: string, fraction: string)
    ensures whole != "" && |fraction| == scale
    ensures AllDigits(whole + fraction) && Number(whole + fraction) == Abs(units)
    ensures Format(units, scale, convention) == (if units < 0 then "-" else "")
      + (if scale > 0 then whole + [if convention == Comma then ',' else '.'] + fraction else whole)
  {
    var digits := Pad(Abs(units), scale + 1);
    PadIsLong(Abs(units), scale + 1);
    PadReadsBack(Abs(units), scale + 1);
    whole, fraction := SplitBefore(digits, scale);
    FormatIs(units, scale, convention, whole, fraction);
  }

  lemma SplitBefore(digits: string, scale: nat) returns (whole: string, fraction: string)
    requires |digits| > scale
    ensures whole != "" && |fraction| == scale && whole + fraction == digits
    ensures digits[..|digits| - scale] == whole && digits[|digits| - scale..] == fraction
  {
    whole, fraction := digits[..|digits| - scale], digits[|digits| - scale..];
  }

  lemma FormatIs(units: int, scale: nat, convention: Convention, whole: string, fraction: string)
    requires var digits := Pad(Abs(units), scale + 1);
      |digits| > scale && digits[..|digits| - scale] == whole && digits[|digits| - scale..] == fraction
    ensures Format(units, scale, convention) == (if units < 0 then "-" else "")
      + (if scale > 0 then whole + [if convention == Comma then ',' else '.'] + fraction else whole)
  {
    if scale == 0 { assert Pad(Abs(units), scale + 1) == whole; }
  }
}
