/** The completion curves of a tween (jgame.controller.Interpolation): each maps
    the elapsed tick and the duration to a completion fraction. */
module Interpolation {
  import opened Common

  datatype Interpolation = CONSTANT | LINEAR | EASE_IN | EASE_OUT | EASE

  /** calculateInterpolation(tick, max). A non-positive max is rejected with
      the NullPointerException the source throws. */
  function CalculateInterpolation(kind: Interpolation, tick: int, max: int): (r: Result<real>)
    ensures r.Err? <==> max <= 0
    ensures r.Err? ==> r.error == NullPointer
    ensures r.Ok? ==> r.value == Curve(kind, tick, max)
  {
    if max <= 0 then Err(NullPointer) else Ok(Curve(kind, tick, max))
  }

  /** The curve itself, once max has been checked. The EASE breakpoint max / 2
      is Java integer division (max > 0, so it agrees with Dafny's). */
  function Curve(kind: Interpolation, tick: int, max: int): real
    requires max > 0
  {
    var t := tick as real / max as real;
    match kind
    case CONSTANT => if tick >= max then 1.0 else 0.0
    case LINEAR => t
    case EASE =>
      if tick < 0 then 0.0
      else if tick <= max / 2 then 2.0 * t * t
      else if tick < max then 4.0 * t - 2.0 * t * t - 1.0
      else 1.0
    case EASE_IN => t * t
    case EASE_OUT => 2.0 * t - t * t
  }

  /** CONSTANT is a step: 1 exactly from tick max on. */
  lemma ConstantIsStep(tick: int, max: int)
    requires max > 0
    ensures Curve(CONSTANT, tick, max) == 1.0 <==> tick >= max
    ensures Curve(CONSTANT, tick, max) == 0.0 <==> tick < max
  {
  }

  /** Every curve starts at 0 and ends at 1. */
  lemma Endpoints(kind: Interpolation, max: int)
    requires max > 0
    ensures Curve(kind, 0, max) == 0.0
    ensures Curve(kind, max, max) == 1.0
  {
    assert max as real / max as real == 1.0;
  }

  /** The two EASE pieces meet at t = 1/2, and for an even max the tick max / 2
      lands exactly there. */
  lemma EaseMidpoint(max: int)
    requires max > 0 && max % 2 == 0
    ensures Curve(EASE, max / 2, max) == 0.5
    ensures var t := 0.5; 2.0 * t * t == 4.0 * t - 2.0 * t * t - 1.0
  {
    var h := max / 2;
    assert h as real / max as real == 0.5 by {
      assert max as real == 2.0 * h as real;
    }
  }

  /** The fraction t = tick / max lies in [0, 1] for 0 <= tick <= max. */
  lemma FractionInUnit(tick: int, max: int)
    requires 0 <= tick <= max && max > 0
    ensures 0.0 <= tick as real / max as real <= 1.0
  {
    assert tick as real <= max as real;
  }

  /** On the first EASE piece t <= 1/2, on the second t > 1/2. */
  lemma EaseBreakpoint(tick: int, max: int)
    requires max > 0
    ensures tick <= max / 2 ==> tick as real / max as real <= 0.5
    ensures tick > max / 2 ==> tick as real / max as real > 0.5
  {
    var t := tick as real / max as real;
    var m := max as real;
    assert t * m == tick as real;
    ScaleLe(2.0 * t, 1.0, m);
    assert (2.0 * t) * m == (2 * tick) as real;
  }

  /** The fraction is monotone in tick. */
  lemma FractionMonotone(a: int, b: int, max: int)
    requires a <= b && max > 0
    ensures a as real / max as real <= b as real / max as real
  {
    var m := max as real;
    assert (a as real / m) * m == a as real;
    assert (b as real / m) * m == b as real;
    ScaleLe(a as real / m, b as real / m, m);
  }

  /** For 0 <= tick <= max every curve lies in [0, 1]. */
  lemma {:induction false} InUnitInterval(kind: Interpolation, tick: int, max: int)
    requires 0 <= tick <= max && max > 0
    ensures 0.0 <= Curve(kind, tick, max) <= 1.0
  {
    FractionInUnit(tick, max);
    match kind
    case CONSTANT =>
    case LINEAR =>
    case EASE_IN =>
      PolynomialsInUnit(tick as real / max as real);
    case EASE_OUT =>
      PolynomialsInUnit(tick as real / max as real);
    case EASE =>
      if tick < max {
        EaseAsPoly(tick, max);
        EasePolyInUnit(tick as real / max as real);
      }
  }

  lemma EasePolyInUnit(t: real)
    requires 0.0 <= t <= 1.0
    ensures 0.0 <= EasePoly(t) <= 1.0
  {
    PolynomialsInUnit(t);
  }

  /** The curve polynomials map [0, 1] into [0, 1], EASE on each half. */
  lemma PolynomialsInUnit(t: real)
    requires 0.0 <= t <= 1.0
    ensures 0.0 <= t * t <= 1.0
    ensures 0.0 <= 2.0 * t - t * t <= 1.0
    ensures t <= 0.5 ==> 0.0 <= 2.0 * t * t <= 1.0
    ensures t > 0.5 ==> 0.0 <= 4.0 * t - 2.0 * t * t - 1.0 <= 1.0
  {
    UnitSquare(t);
    var u := 1.0 - t;
    UnitSquare(u);
    assert 2.0 * t - t * t == 1.0 - u * u;
    if t <= 0.5 {
      SquareMonotone(t, 0.5);
    } else {
      assert 4.0 * t - 2.0 * t * t - 1.0 == 1.0 - 2.0 * (1.0 - t) * (1.0 - t);
      SquareMonotone(1.0 - t, 0.5);
    }
  }

  /** For 0 <= a <= b <= max every curve is non-decreasing: curve(a) <= curve(b). */
  lemma {:induction false} Monotone(kind: Interpolation, a: int, b: int, max: int)
    requires 0 <= a <= b <= max && max > 0
    ensures Curve(kind, a, max) <= Curve(kind, b, max)
  {
    match kind
    case CONSTANT =>
    case LINEAR =>
      FractionMonotone(a, b, max);
    case EASE_IN =>
      MonotoneEaseIn(a, b, max);
    case EASE_OUT =>
      MonotoneEaseOut(a, b, max);
    case EASE =>
      MonotoneEase(a, b, max);
  }

  lemma MonotoneEaseIn(a: int, b: int, max: int)
    requires 0 <= a <= b <= max && max > 0
    ensures Curve(EASE_IN, a, max) <= Curve(EASE_IN, b, max)
  {
    FractionInUnit(a, max);
    FractionMonotone(a, b, max);
    SquareMonotone(a as real / max as real, b as real / max as real);
  }

  lemma MonotoneEaseOut(a: int, b: int, max: int)
    requires 0 <= a <= b <= max && max > 0
    ensures Curve(EASE_OUT, a, max) <= Curve(EASE_OUT, b, max)
  {
    FractionInUnit(a, max);
    FractionInUnit(b, max);
    FractionMonotone(a, b, max);
    EaseOutPolyMonotone(a as real / max as real, b as real / max as real);
  }

  lemma MonotoneEase(a: int, b: int, max: int)
    requires 0 <= a <= b <= max && max > 0
    ensures Curve(EASE, a, max) <= Curve(EASE, b, max)
  {
    if b == max {
      InUnitInterval(EASE, a, max);
    } else {
      FractionInUnit(a, max);
      FractionInUnit(b, max);
      FractionMonotone(a, b, max);
      EaseAsPoly(a, max);
      EaseAsPoly(b, max);
      EasePolyMonotone(a as real / max as real, b as real / max as real);
    }
  }

  /** Before the end, EASE is EasePoly of the fraction. */
  lemma EaseAsPoly(tick: int, max: int)
    requires 0 <= tick < max
    ensures Curve(EASE, tick, max) == EasePoly(tick as real / max as real)
  {
    EaseBreakpoint(tick, max);
  }

  /** EASE_OUT's polynomial 2t - t^2 = 1 - (1 - t)^2 rises on [0, 1]. */
  lemma EaseOutPolyMonotone(ta: real, tb: real)
    requires 0.0 <= ta <= tb <= 1.0
    ensures 2.0 * ta - ta * ta <= 2.0 * tb - tb * tb
  {
    SquareMonotone(1.0 - tb, 1.0 - ta);
    assert 2.0 * ta - ta * ta == 1.0 - (1.0 - ta) * (1.0 - ta);
    assert 2.0 * tb - tb * tb == 1.0 - (1.0 - tb) * (1.0 - tb);
  }

  /** EASE before the end, as one function of t whose piece is chosen by
      t <= 1/2. */
  function EasePoly(t: real): real
  {
    if t <= 0.5 then 2.0 * t * t else 4.0 * t - 2.0 * t * t - 1.0
  }

  lemma EasePolyMonotone(ta: real, tb: real)
    requires 0.0 <= ta <= tb <= 1.0
    ensures EasePoly(ta) <= EasePoly(tb)
  {
    assert 4.0 * ta - 2.0 * ta * ta - 1.0 == 1.0 - 2.0 * ((1.0 - ta) * (1.0 - ta));
    assert 4.0 * tb - 2.0 * tb * tb - 1.0 == 1.0 - 2.0 * ((1.0 - tb) * (1.0 - tb));
    assert 2.0 * ta * ta == 2.0 * (ta * ta);
    assert 2.0 * tb * tb == 2.0 * (tb * tb);
    if tb <= 0.5 {
      SquareMonotone(ta, tb);
    } else if 0.5 < ta {
      SquareMonotone(1.0 - tb, 1.0 - ta);
    } else {
      SquareMonotone(ta, 0.5);
      SquareMonotone(1.0 - tb, 0.5);
    }
  }

  /** x <= y exactly when x * m <= y * m, for m > 0. */
  lemma ScaleLe(x: real, y: real, m: real)
    requires m > 0.0
    ensures x <= y <==> x * m <= y * m
  {
    assert y * m - x * m == (y - x) * m;
    if x <= y {
      assert (y - x) * m >= 0.0;
    } else {
      assert (x - y) * m > 0.0;
    }
  }

  lemma UnitSquare(u: real)
    requires 0.0 <= u <= 1.0
    ensures 0.0 <= u * u <= u
  {
    assert u * u <= u * 1.0;
  }

  lemma SquareMonotone(x: real, y: real)
    requires 0.0 <= x <= y
    ensures x * x <= y * y
  {
    assert x * x <= x * y <= y * y;
  }
}
