/** Fitting the softmax temperature of a checkpoint (docker/laya/app/train.py, lines 316 to 376).

    Numbers are reals; the held-out loss, the exponential and the golden ratio are parameters, of which
    only what the search relies on is assumed. The search runs over x = log T. */
module Temperature {
  import opened Common

  /** The conjugate of the golden ratio. */
  predicate IsRatio(ratio: real) {
    0.0 < ratio && ratio * ratio + ratio == 1.0
  }

  lemma RatioRange(ratio: real)
    requires IsRatio(ratio)
    ensures 0.5 < ratio < 0.6181
  {
    assert (ratio - 0.5) * (ratio + 1.5) == 0.25;
    PositiveFactor(ratio - 0.5, ratio + 1.5);
    assert (0.6181 - ratio) * (ratio + 1.6181) == 0.6181 * 1.6181 - 1.0;
    PositiveFactor(0.6181 - ratio, ratio + 1.6181);
  }

  lemma PositiveFactor(x: real, y: real)
    requires 0.0 < x * y && 0.0 < y
    ensures 0.0 < x
  {
  }

  const GRID_STEPS := 240
  const SECTIONS := 60

  /** Strictly falling before the minimisers m1 to m2, level on them, strictly rising after. */
  ghost predicate Unimodal(f: real -> real, low: real, high: real, m1: real, m2: real) {
    && low <= m1 <= m2 <= high
    && (forall x, y | low <= x < y <= m1 :: f(x) > f(y))
    && (forall x, y | m1 <= x <= m2 && m1 <= y <= m2 :: f(x) == f(y))
    && (forall x, y | m2 <= x < y <= high :: f(x) < f(y))
  }

  /** Between two points no worse than on the line that joins them. */
  ghost predicate Convex(g: real -> real, low: real, high: real) {
    forall u, v, w | low <= u < v < w <= high :: Chord(g, u, v, w)
  }

  ghost predicate Chord(g: real -> real, u: real, v: real, w: real) {
    (w - u) * g(v) <= (w - v) * g(u) + (v - u) * g(w)
  }

  /** Of three points, if an outer one is better than the other, so is the middle one. */
  lemma BelowWorse(g: real -> real, low: real, high: real, u: real, v: real, w: real)
    requires Convex(g, low, high) && low <= u < v < w <= high
    ensures g(u) < g(w) ==> g(v) < g(w)
    ensures g(w) < g(u) ==> g(v) < g(u)
    ensures g(u) == g(w) ==> g(v) <= g(u)
  {
    assert Chord(g, u, v, w);
    var p, q := w - v, v - u;
    assert p * (g(u) - g(v)) + q * (g(w) - g(v)) >= 0.0;
    NotBothNegative(p, g(u) - g(v), q, g(w) - g(v));
  }

  lemma NotBothNegative(p: real, a: real, q: real, b: real)
    requires 0.0 < p && 0.0 < q && p * a + q * b >= 0.0
    ensures a >= 0.0 || b >= 0.0
    ensures a > 0.0 || b > 0.0 || (a == 0.0 && b == 0.0)
  {
    if a < 0.0 { NegativeProduct(p, a); }
    if b < 0.0 { NegativeProduct(q, b); }
  }

  lemma NegativeProduct(p: real, a: real)
    requires 0.0 < p && a < 0.0
    ensures p * a < 0.0
  {
  }

  /** Whatever falls along the range, as one over the temperature does along its logarithm. */
  ghost predicate Falling(inverse: real -> real, low: real, high: real) {
    forall x, y | low <= x < y <= high :: inverse(x) > inverse(y)
  }

  /** All of m1 to m2, and nothing else, is as good as m1. */
  ghost predicate AreMinimisers(f: real -> real, low: real, high: real, m1: real, m2: real) {
    && low <= m1 <= m2 <= high && f(m1) == f(m2)
    && forall x | low <= x <= high :: f(m1) <= f(x) && (x < m1 || m2 < x ==> f(m1) < f(x))
  }

  /** A loss that is convex in one over the temperature has no other dip: the search's assumption holds of it. */
  lemma ConvexIsUnimodal(f: real -> real, g: real -> real, inverse: real -> real, low: real, high: real, m1: real, m2: real)
    requires low <= high && Falling(inverse, low, high) && Convex(g, inverse(high), inverse(low))
    requires forall x | low <= x <= high :: f(x) == g(inverse(x))
    requires AreMinimisers(f, low, high, m1, m2)
    ensures Unimodal(f, low, high, m1, m2)
  {
    forall x, y | low <= x < y <= m1 ensures f(x) > f(y) {
      if y < m1 { BelowWorse(g, inverse(high), inverse(low), inverse(m1), inverse(y), inverse(x)); }
    }
    forall x, y | m2 <= x < y <= high ensures f(x) < f(y) {
      if m2 < x { BelowWorse(g, inverse(high), inverse(low), inverse(y), inverse(x), inverse(m2)); }
    }
    forall x | m1 <= x <= m2 ensures f(x) == f(m1) {
      if m1 < x < m2 { BelowWorse(g, inverse(high), inverse(low), inverse(m2), inverse(x), inverse(m1)); }
    }
  }

  /** Some minimiser lies in the bracket. */
  ghost predicate Holds(a: real, b: real, m1: real, m2: real) {
    a <= b && a <= m2 && m1 <= b
  }

  lemma HoldsMinimiser(a: real, b: real, m1: real, m2: real) returns (m: real)
    requires Holds(a, b, m1, m2) && m1 <= m2
    ensures a <= m <= b && m1 <= m <= m2
  {
    m := if a <= m1 then m1 else a;
  }

  function GridPoint(low: real, high: real, i: int): real {
    low + (high - low) * (i as real) / (GRID_STEPS as real)
  }

  lemma GridGrows(low: real, high: real, i: int, j: int)
    requires low < high && i < j
    ensures GridPoint(low, high, i) < GridPoint(low, high, j)
    ensures GridPoint(low, high, j) - GridPoint(low, high, i) == ((j - i) as real) * ((high - low) / (GRID_STEPS as real))
  {
  }

  lemma GridEnds(low: real, high: real)
    ensures GridPoint(low, high, 0) == low && GridPoint(low, high, GRID_STEPS) == high
  {
  }

  lemma GridInside(low: real, high: real, i: int)
    requires low < high && 0 <= i <= GRID_STEPS
    ensures low <= GridPoint(low, high, i) <= high
  {
    GridEnds(low, high);
    if 0 < i { GridGrows(low, high, 0, i); }
    if i < GRID_STEPS { GridGrows(low, high, i, GRID_STEPS); }
  }

  /** `min(range(len(grid)), key=...)`: the first of the best points. */
  method BestPoint(f: real -> real, low: real, high: real) returns (best: int)
    ensures 0 <= best <= GRID_STEPS
    ensures forall j | 0 <= j <= GRID_STEPS :: f(GridPoint(low, high, best)) <= f(GridPoint(low, high, j))
    ensures forall j | 0 <= j < best :: f(GridPoint(low, high, best)) < f(GridPoint(low, high, j))
  {
    best := 0;
    for i := 1 to GRID_STEPS + 1
      invariant 0 <= best < i
      invariant forall j | 0 <= j < i :: f(GridPoint(low, high, best)) <= f(GridPoint(low, high, j))
      invariant forall j | 0 <= j < best :: f(GridPoint(low, high, best)) < f(GridPoint(low, high, j))
    {
      if f(GridPoint(low, high, i)) < f(GridPoint(low, high, best)) { best := i; }
    }
  }

  /** If the left of two points is no worse, the minimisers do not all lie beyond the right one. */
  lemma LeftNoWorse(f: real -> real, low: real, high: real, m1: real, m2: real, x: real, y: real)
    requires Unimodal(f, low, high, m1, m2) && low <= x < y <= high && f(x) <= f(y)
    ensures m1 <= y
  {
    if y < m1 {
      assert false;
    }
  }

  lemma RightNoWorse(f: real -> real, low: real, high: real, m1: real, m2: real, x: real, y: real)
    requires Unimodal(f, low, high, m1, m2) && low <= x < y <= high && f(y) <= f(x)
    ensures x <= m2
  {
    if m2 < x {
      assert false;
    }
  }

  /** The grid points around the best one hold a minimiser. */
  lemma GridBrackets(f: real -> real, low: real, high: real, m1: real, m2: real, best: int)
    requires low < high && Unimodal(f, low, high, m1, m2) && 0 <= best <= GRID_STEPS
    requires forall j | 0 <= j <= GRID_STEPS :: f(GridPoint(low, high, best)) <= f(GridPoint(low, high, j))
    ensures Holds(GridPoint(low, high, Max(0, best - 1)), GridPoint(low, high, Min(GRID_STEPS, best + 1)), m1, m2)
  {
    GridEnds(low, high);
    GridInside(low, high, best);
    if best > 0 {
      GridInside(low, high, best - 1);
      GridGrows(low, high, best - 1, best);
      RightNoWorse(f, low, high, m1, m2, GridPoint(low, high, best - 1), GridPoint(low, high, best));
    }
    if best < GRID_STEPS {
      GridInside(low, high, best + 1);
      GridGrows(low, high, best, best + 1);
      LeftNoWorse(f, low, high, m1, m2, GridPoint(low, high, best), GridPoint(low, high, best + 1));
    }
  }

  /** Where the two inner points of a section fall. */
  lemma SectionPoints(ratio: real, a: real, b: real)
    requires IsRatio(ratio) && a <= b
    ensures var c, d := b - ratio * (b - a), a + ratio * (b - a); a <= c <= d <= b && (a < b ==> c < d)
  {
    RatioRange(ratio);
    var w := b - a;
    assert 0.0 <= ratio * w;
    assert 0.0 <= (1.0 - ratio) * w;
    assert (1.0 - ratio) * w == w - ratio * w;
    var gap := (2.0 * ratio - 1.0) * w;
    assert 0.0 <= gap && (0.0 < w ==> 0.0 < gap);
    assert gap == 2.0 * (ratio * w) - w;
  }

  /** One golden section keeps a minimiser in the bracket. */
  lemma SectionKeepsMinimiser(f: real -> real, low: real, high: real, m1: real, m2: real, a: real, c: real, d: real, b: real)
    requires Unimodal(f, low, high, m1, m2) && Holds(a, b, m1, m2) && low <= a <= c <= d <= b <= high
    requires a < b ==> c < d
    ensures f(c) <= f(d) ==> Holds(a, d, m1, m2)
    ensures f(c) > f(d) ==> Holds(c, b, m1, m2)
  {
    if c < d {
      if f(c) <= f(d) {
        LeftNoWorse(f, low, high, m1, m2, c, d);
      } else {
        RightNoWorse(f, low, high, m1, m2, c, d);
      }
    }
  }

  /** One golden section, lines 341 to 345: the bracket keeps a minimiser and shrinks by the ratio. */
  method Section(f: real -> real, low: real, high: real, ratio: real, a: real, b: real, ghost m1: real, ghost m2: real)
    returns (a': real, b': real)
    requires IsRatio(ratio) && Unimodal(f, low, high, m1, m2) && Holds(a, b, m1, m2) && low <= a && b <= high
    ensures a <= a' && b' <= b && Holds(a', b', m1, m2)
    ensures b' - a' == ratio * (b - a)
  {
    var c, d := b - ratio * (b - a), a + ratio * (b - a);
    SectionPoints(ratio, a, b);
    SectionKeepsMinimiser(f, low, high, m1, m2, a, c, d, b);
    if f(c) <= f(d) { a', b' := a, d; } else { a', b' := c, b; }
  }

  /** A width after n sections. */
  function Shrunk(ratio: real, n: nat, width: real): real {
    if n == 0 then width else ratio * Shrunk(ratio, n - 1, width)
  }

  lemma {:induction false} ShrunkGrows(ratio: real, n: nat, width: real, step: real)
    requires 0.0 < ratio && width <= 2.0 * step
    ensures Shrunk(ratio, n, width) <= 2.0 * Shrunk(ratio, n, step)
  {
    if n > 0 {
      ShrunkGrows(ratio, n - 1, width, step);
      Scale(ratio, Shrunk(ratio, n - 1, width), Shrunk(ratio, n - 1, step));
    }
  }

  lemma Scale(ratio: real, x: real, y: real)
    requires 0.0 < ratio && x <= 2.0 * y
    ensures ratio * x <= 2.0 * (ratio * y)
  {
    assert ratio * (2.0 * y - x) >= 0.0;
  }

  // ----- How far 60 sections shrink a width.

  /** n sections shrink every width to at most that part of it. */
  ghost predicate ShrinksTo(ratio: real, n: nat, part: real) {
    forall width | width >= 0.0 :: 0.0 <= Shrunk(ratio, n, width) <= part * width
  }

  lemma {:induction false} ShrunkTwice(ratio: real, m: nat, n: nat, width: real)
    ensures Shrunk(ratio, m + n, width) == Shrunk(ratio, m, Shrunk(ratio, n, width))
  {
    if m > 0 {
      ShrunkTwice(ratio, m - 1, n, width);
    }
  }

  lemma ShrinksTwice(ratio: real, m: nat, p: real, n: nat, q: real, k: nat, r: real)
    requires ShrinksTo(ratio, m, p) && ShrinksTo(ratio, n, q) && k == m + n && 0.0 <= p && p * q <= r
    ensures ShrinksTo(ratio, k, r)
  {
    forall width | width >= 0.0 ensures 0.0 <= Shrunk(ratio, k, width) <= r * width {
      ShrunkTwice(ratio, m, n, width);
      var inner := Shrunk(ratio, n, width);
      AtMost(p, inner, q * width);
      AtMost(width, p * q, r);
      assert p * (q * width) == width * (p * q);
    }
  }

  lemma AtMost(p: real, x: real, y: real)
    requires 0.0 <= p && x <= y
    ensures p * x <= p * y
  {
  }

  lemma OneShrinks(ratio: real)
    requires IsRatio(ratio)
    ensures ShrinksTo(ratio, 1, 0.6181)
  {
    RatioRange(ratio);
    forall width | width >= 0.0 ensures 0.0 <= Shrunk(ratio, 1, width) <= 0.6181 * width {
      assert Shrunk(ratio, 1, width) == ratio * Shrunk(ratio, 0, width);
      AtMost(width, ratio, 0.6181);
    }
  }

  /** Sixty golden sections shrink a width by more than three million million. */
  lemma SixtyShrink(ratio: real)
    requires IsRatio(ratio)
    ensures ShrinksTo(ratio, 60, 0.0000000000002909)
  {
    OneShrinks(ratio);
    ShrinksTwice(ratio, 1, 0.6181, 1, 0.6181, 2, 0.38205);
    ShrinksTwice(ratio, 2, 0.38205, 1, 0.6181, 3, 0.236146);
    ShrinksTwice(ratio, 2, 0.38205, 3, 0.236146, 5, 0.0902196);
    ShrinksTwice(ratio, 5, 0.0902196, 5, 0.0902196, 10, 0.00813958);
    ShrinksTwice(ratio, 10, 0.00813958, 5, 0.0902196, 15, 0.000734350);
    ShrinksTwice(ratio, 15, 0.000734350, 15, 0.000734350, 30, 0.000000539270);
    ShrinksTwice(ratio, 30, 0.000000539270, 30, 0.000000539270, 60, 0.0000000000002909);
  }

  /** The 60 golden sections. */
  method Narrow(f: real -> real, low: real, high: real, ratio: real, a0: real, b0: real, ghost m1: real, ghost m2: real)
    returns (a: real, b: real)
    requires IsRatio(ratio) && Unimodal(f, low, high, m1, m2) && Holds(a0, b0, m1, m2) && low <= a0 && b0 <= high
    ensures a0 <= a && b <= b0 && Holds(a, b, m1, m2)
    ensures b - a == Shrunk(ratio, SECTIONS, b0 - a0)
  {
    a, b := a0, b0;
    for i := 0 to SECTIONS
      invariant a0 <= a && b <= b0 && Holds(a, b, m1, m2)
      invariant b - a == Shrunk(ratio, i, b0 - a0)
    {
      a, b := Section(f, low, high, ratio, a, b, m1, m2);
    }
  }

  /** How far the result can be from a minimiser: one grid step, shrunk 60 times by the ratio. */
  function Bound(low: real, high: real, ratio: real): real {
    Shrunk(ratio, SECTIONS, GridStep(low, high))
  }

  /** Less than a hundred-trillionth of the range. */
  lemma BoundIsTiny(low: real, high: real, ratio: real)
    requires IsRatio(ratio) && low < high
    ensures 0.0 <= Bound(low, high, ratio) <= 0.00000000000000121209 * (high - low)
  {
    var step := GridStep(low, high);
    SixtyShrink(ratio);
    assert 240.0 * step == high - low;
    assert 0.0000000000002909 * step <= 0.00000000000000121209 * (240.0 * step);
  }

  function GridStep(low: real, high: real): real {
    (high - low) / (GRID_STEPS as real)
  }

  lemma GridWidth(low: real, high: real, i: int, j: int)
    requires low < high && i < j <= i + 2
    ensures GridPoint(low, high, j) - GridPoint(low, high, i) <= 2.0 * GridStep(low, high)
  {
    GridGrows(low, high, i, j);
  }

  /** The grid part of the fit, lines 334 to 338. */
  method Bracket(f: real -> real, low: real, high: real, ghost m1: real, ghost m2: real) returns (a: real, b: real)
    requires low < high && Unimodal(f, low, high, m1, m2)
    ensures low <= a && b <= high && Holds(a, b, m1, m2)
    ensures b - a <= 2.0 * GridStep(low, high)
    ensures 120.0 * (b - a) <= high - low
  {
    var best := BestPoint(f, low, high);
    GridBrackets(f, low, high, m1, m2, best);
    var i, j := Max(0, best - 1), Min(GRID_STEPS, best + 1);
    GridInside(low, high, i);
    GridInside(low, high, j);
    GridWidth(low, high, i, j);
    a, b := GridPoint(low, high, i), GridPoint(low, high, j);
  }

  /** `fit_temperature_free` in the logarithm, lines 334 to 346: the log grid, then the golden sections. */
  method FitLog(f: real -> real, low: real, high: real, ratio: real, ghost m1: real, ghost m2: real)
    returns (x: real, ghost m: real)
    requires IsRatio(ratio) && low < high && Unimodal(f, low, high, m1, m2)
    ensures m1 <= m <= m2 && low <= x <= high
    ensures -Bound(low, high, ratio) <= x - m <= Bound(low, high, ratio)
    ensures 0.0 <= Bound(low, high, ratio) <= 0.00000000000000121209 * (high - low)
  {
    BoundIsTiny(low, high, ratio);
    var a0, b0 := Bracket(f, low, high, m1, m2);
    ShrunkGrows(ratio, SECTIONS, b0 - a0, GridStep(low, high));
    var a, b := Narrow(f, low, high, ratio, a0, b0, m1, m2);
    x := (a + b) / 2.0;
    m := HoldsMinimiser(a, b, m1, m2);
  }

  // ----- What laya applies, lines 349 to 376.

  const FIT_MIN := 0.05
  const FIT_MAX := 100.0
  const SERVED_MIN := 0.5
  const SERVED_MAX := 5.0

  function Clamp(x: real, low: real, high: real): real {
    var atLeast := if x < low then low else x;
    if high < atLeast then high else atLeast
  }

  datatype AtBound = Within | Upper | Lower

  datatype Fit = Fit(fitted: real, served: real, atBound: AtBound, fold: real, effective: real)

  /** `temperature_fit` after the free fit. */
  function TemperatureFit(fitted: real): Fit {
    var served := Clamp(fitted, SERVED_MIN, SERVED_MAX);
    var bound := if fitted > SERVED_MAX then Upper else if fitted < SERVED_MIN then Lower else Within;
    var fold := if bound == Upper then fitted / SERVED_MAX else 1.0;
    Fit(fitted, served, bound, fold, served * fold)
  }

  /** The checkpoint applies what the fit asked for, exactly unless that is sharper than the floor; then it
      applies the floor. Only softening is ever folded into the weights. */
  lemma EffectiveIsFittedIff(fitted: real)
    ensures var t := TemperatureFit(fitted);
      && SERVED_MIN <= t.served <= SERVED_MAX
      && t.effective == t.served * t.fold && 1.0 <= t.fold
      && (t.effective == fitted <==> SERVED_MIN <= fitted)
      && (fitted < SERVED_MIN ==> t.effective == SERVED_MIN)
      && (t.fold != 1.0 <==> SERVED_MAX < fitted)
  {
    if fitted > SERVED_MAX {
      assert SERVED_MAX * (fitted / SERVED_MAX) == fitted;
      assert fitted / SERVED_MAX > 1.0;
    }
  }

  /** Clamping a minimiser to a narrower range gives the best point of that range. */
  lemma ClampIsConstrainedOptimum(f: real -> real, low: real, high: real, m1: real, m2: real, m: real, l: real, h: real, y: real)
    requires Unimodal(f, low, high, m1, m2) && m1 <= m <= m2
    requires low <= l <= h <= high && l <= y <= h
    ensures l <= Clamp(m, l, h) <= h && f(Clamp(m, l, h)) <= f(y)
  {
    var best := Clamp(m, l, h);
    if y < m1 {
      FallsTo(f, low, high, m1, m2, y, if best <= m1 then best else m1);
    } else if m2 < y {
      RisesFrom(f, low, high, m1, m2, if m2 <= best then best else m2, y);
    }
    if m1 <= best <= m2 {
      assert f(best) == f(m1) == f(m2);
    }
  }

  lemma FallsTo(f: real -> real, low: real, high: real, m1: real, m2: real, x: real, y: real)
    requires Unimodal(f, low, high, m1, m2) && low <= x <= y <= m1
    ensures f(y) <= f(x)
  {
  }

  lemma RisesFrom(f: real -> real, low: real, high: real, m1: real, m2: real, x: real, y: real)
    requires Unimodal(f, low, high, m1, m2) && m2 <= x <= y <= high
    ensures f(x) <= f(y)
  {
  }

  /** The exponential, as far as the fit relies on it: strictly increasing over the fit's range. */
  ghost predicate Rising(exp: real -> real, low: real, high: real) {
    forall x, y | low <= x < y <= high :: exp(x) < exp(y)
  }

  /** Clamping the temperature is clamping its logarithm. */
  lemma ClampCommutes(exp: real -> real, low: real, high: real, l: real, h: real, x: real)
    requires Rising(exp, low, high) && low <= l <= h <= high && low <= x <= high
    ensures Clamp(exp(x), exp(l), exp(h)) == exp(Clamp(x, l, h))
  {
  }

  lemma ClampIsLipschitz(x: real, y: real, l: real, h: real, d: real)
    requires l <= h && -d <= x - y <= d
    ensures -d <= Clamp(x, l, h) - Clamp(y, l, h) <= d
  {
  }

  /** A temperature near a minimiser, once clamped, is near the best of the range. */
  lemma ServedIsNearOptimum(f: real -> real, low: real, high: real, m1: real, m2: real, x: real, m: real, l: real, h: real, d: real)
    requires Unimodal(f, low, high, m1, m2) && m1 <= m <= m2 && -d <= x - m <= d
    requires low <= l <= h <= high
    ensures IsBest(f, Clamp(m, l, h), l, h)
    ensures -d <= Clamp(x, l, h) - Clamp(m, l, h) <= d
  {
    ClampIsLipschitz(x, m, l, h, d);
    forall y | l <= y <= h ensures f(Clamp(m, l, h)) <= f(y) {
      ClampIsConstrainedOptimum(f, low, high, m1, m2, m, l, h, y);
    }
  }

  ghost predicate IsBest(f: real -> real, x: real, l: real, h: real) {
    l <= x <= h && forall y | l <= y <= h :: f(x) <= f(y)
  }

  lemma MinimiserIsBest(f: real -> real, low: real, high: real, m1: real, m2: real, m: real)
    requires Unimodal(f, low, high, m1, m2) && m1 <= m <= m2
    ensures IsBest(f, m, low, high)
  {
    forall y | low <= y <= high ensures f(m) <= f(y) {
      ClampIsConstrainedOptimum(f, low, high, m1, m2, m, low, high, y);
    }
  }

  /** `fit_temperature` and `temperature_fit`, f(x) being the held-out loss at temperature exp(x): 1.0 without held-out
      cases. With them, `fitted` is near the best temperature of all, and is what the checkpoint applies unless it is
      below the floor; `served` is near the best of what laya applies. Near is in the logarithm, within the bound. */
  method FitTemperature(anyItems: bool, f: real -> real, exp: real -> real, low: real, high: real, ratio: real,
                        ghost l: real, ghost h: real, ghost m1: real, ghost m2: real)
    returns (fit: Fit, ghost fitted: real, ghost free: real, ghost served: real, ghost optimum: real)
    requires IsRatio(ratio) && low <= l <= h <= high && low < high
    requires Rising(exp, low, high) && exp(low) == FIT_MIN && exp(high) == FIT_MAX
    requires exp(l) == SERVED_MIN && exp(h) == SERVED_MAX
    requires Unimodal(f, low, high, m1, m2)
    ensures !anyItems ==> fit == Fit(1.0, 1.0, Within, 1.0, 1.0)
    ensures anyItems ==> low <= fitted <= high && fit.fitted == exp(fitted) && IsBest(f, free, low, high)
    ensures anyItems ==> -Bound(low, high, ratio) <= fitted - free <= Bound(low, high, ratio)
    ensures 0.05 <= fit.fitted <= 100.0
    ensures anyItems ==> l <= served <= h && fit.served == exp(served) && IsBest(f, optimum, l, h)
    ensures anyItems ==> -Bound(low, high, ratio) <= served - optimum <= Bound(low, high, ratio)
    ensures 0.0 <= Bound(low, high, ratio) <= 0.00000000000000121209 * (high - low)
    ensures fit.effective == fit.served * fit.fold && fit.effective == if fit.fitted < 0.5 then 0.5 else fit.fitted
    ensures (fit.atBound == Upper <==> fit.fitted > 5.0) && (fit.atBound == Lower <==> fit.fitted < 0.5)
    ensures fit.fold != 1.0 <==> fit.fitted > 5.0
  {
    BoundIsTiny(low, high, ratio);
    if !anyItems {
      fit := TemperatureFit(1.0);
      fitted, free, served, optimum := 0.0, 0.0, 0.0, 0.0;
      return;
    }
    var x, m := FitLog(f, low, high, ratio, m1, m2);
    fit := TemperatureFit(exp(x));
    fitted, free, served, optimum := x, m, Clamp(x, l, h), Clamp(m, l, h);
    EffectiveIsFittedIff(exp(x));
    MinimiserIsBest(f, low, high, m1, m2, m);
    ClampCommutes(exp, low, high, l, h, x);
    ServedIsNearOptimum(f, low, high, m1, m2, x, m, l, h, Bound(low, high, ratio));
  }
}
