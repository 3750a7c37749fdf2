/** Values, Java arithmetic and host-library oracles shared by every module of
    the model. */
module Common {

  datatype Option<T> = None | Some(value: T)

  /** The Java exceptions the modelled code throws. */
  datatype Exception =
    | NullPointer        // java.lang.NullPointerException
    | IllegalArgument    // java.lang.IllegalArgumentException
    | IndexOutOfBounds   // java.lang.IndexOutOfBoundsException
    | NoSuchElement      // java.util.NoSuchElementException
    | Arithmetic         // java.lang.ArithmeticException (integer division by zero)
    | StackOverflow      // java.lang.StackOverflowError

  datatype Result<T> = Ok(value: T) | Err(error: Exception)

  /** How a void Java method ended: normally, or by throwing. */
  datatype Outcome = Done | Threw(error: Exception)

  /** No element occurs twice. */
  predicate NoDup<T(==)>(s: seq<T>)
  {
    forall i, j :: 0 <= i < j < |s| ==> s[i] != s[j]
  }

  /** A java.awt.geom.Point2D.Double. */
  datatype Vec = Vec(x: real, y: real)

  /** A java.awt.Point (integer coordinates). */
  datatype IntPoint = IntPoint(x: int, y: int)

  /** A java.awt.geom.Rectangle2D. */
  datatype Rect = Rect(x: real, y: real, width: real, height: real)

  function ToVec(p: IntPoint): Vec { Vec(p.x as real, p.y as real) }

  function Abs(r: real): real { if r < 0.0 then -r else r }

  function Max(a: real, b: real): (m: real)
    ensures m >= a && m >= b && (m == a || m == b)
  {
    if a >= b then a else b
  }

  function Min(a: real, b: real): (m: real)
    ensures m <= a && m <= b && (m == a || m == b)
  {
    if a <= b then a else b
  }

  /** Java's (int) cast of a double: truncation toward zero (saturation at the
      int range is not modelled). */
  function Trunc(r: real): (i: int)
    ensures r >= 0.0 ==> i >= 0 && i as real <= r < i as real + 1.0
    ensures r < 0.0 ==> i <= 0 && i as real - 1.0 < r <= i as real
  {
    if r >= 0.0 then r.Floor else -((-r).Floor)
  }

  /** Java's int division: the quotient is truncated toward zero. */
  function JavaDiv(a: int, b: int): int
    requires b != 0
  {
    var q := Abs(a as real).Floor / Abs(b as real).Floor;
    if (a < 0) == (b < 0) then q else -q
  }

  /** Java's int remainder: the sign follows the dividend. */
  function JavaRem(a: int, b: int): (r: int)
    requires b != 0
    ensures a == b * JavaDiv(a, b) + r
    ensures r == 0 || (r < 0 <==> a < 0)
    ensures -Abs(b as real) < r as real < Abs(b as real)
  {
    var r := a - b * JavaDiv(a, b);
    JavaRemBounds(a, b);
    r
  }

  /** On non-negative operands Java's division is Dafny's. */
  lemma JavaDivOfNat(a: nat, b: nat)
    requires b > 0
    ensures JavaDiv(a, b) == a / b
  {
    assert Abs(a as real).Floor == a;
    assert Abs(b as real).Floor == b;
  }

  lemma JavaRemBounds(a: int, b: int)
    requires b != 0
    ensures var r := a - b * JavaDiv(a, b);
            (r == 0 || (r < 0 <==> a < 0)) && -Abs(b as real) < r as real < Abs(b as real)
  {
    var na := if a < 0 then -a else a;
    var nb := if b < 0 then -b else b;
    assert Abs(a as real).Floor == na;
    assert Abs(b as real).Floor == nb;
    var q := na / nb;
    RemainderBySigns(a, b, q, JavaDiv(a, b), na - nb * q);
    assert Abs(b as real) == nb as real;
  }

  /** With the quotient q of the magnitudes, given the sign of the operands,
      a - b * d is the magnitude remainder m with the dividend's sign. */
  lemma RemainderBySigns(a: int, b: int, q: int, d: int, m: int)
    requires d == if (a < 0) == (b < 0) then q else -q
    requires m == (if a < 0 then -a else a) - (if b < 0 then -b else b) * q
    ensures a - b * d == if a < 0 then -m else m
  {
    if (a < 0) == (b < 0) {
      assert b * q == if b < 0 then -((-b) * q) else b * q;
    } else {
      assert b * -q == if b < 0 then (-b) * q else -(b * q);
    }
  }

  /** Java's double remainder a % b: a - b * q with q = a / b truncated toward
      zero, so the result takes the sign of the dividend. */
  function JavaRemReal(a: real, b: real): (r: real)
    requires b != 0.0
    ensures Abs(r) < Abs(b)
    ensures a >= 0.0 ==> r >= 0.0
    ensures a <= 0.0 ==> r <= 0.0
  {
    var k := Trunc(a / b);
    var r := a - b * k as real;
    JavaRemRealBounds(a, b, k);
    r
  }

  /** The remainder is what is left after the truncated quotient's
      multiple of b. */
  lemma JavaRemRealQuotient(a: real, b: real)
    requires b != 0.0
    ensures JavaRemReal(a, b) == a - b * Trunc(a / b) as real
  {
  }

  lemma JavaRemRealBounds(a: real, b: real, k: int)
    requires b != 0.0 && k == Trunc(a / b)
    ensures var r := a - b * k as real;
            Abs(r) < Abs(b) && (a >= 0.0 ==> r >= 0.0) && (a <= 0.0 ==> r <= 0.0)
  {
    var q := a / b;
    assert a == b * q;
    var f := q - k as real;  // the dropped fraction, in (-1, 1) with the sign of q
    assert a - b * k as real == b * f;
    if q >= 0.0 {
      assert 0.0 <= f < 1.0;
    } else {
      assert -1.0 < f <= 0.0;
    }
    if b > 0.0 {
      assert a >= 0.0 ==> q >= 0.0;
      assert a <= 0.0 ==> q <= 0.0;
    } else {
      assert a >= 0.0 ==> q <= 0.0;
      assert a <= 0.0 ==> q >= 0.0;
    }
    AbsProduct(b, f);
  }

  lemma AbsProduct(b: real, f: real)
    requires b != 0.0 && -1.0 < f < 1.0
    ensures Abs(b * f) < Abs(b)
  {
    if b > 0.0 {
      if f >= 0.0 { assert b * f < b * 1.0; } else { assert b * f > b * -1.0; }
    } else {
      if f >= 0.0 { assert b * f > b * 1.0; } else { assert b * f < b * -1.0; }
    }
  }

  /** Math.min(1, Math.max(0, v)). */
  function Clamp01(v: real): (r: real)
    ensures 0.0 <= r <= 1.0
    ensures 0.0 <= v <= 1.0 ==> r == v
    ensures v < 0.0 ==> r == 0.0
    ensures v > 1.0 ==> r == 1.0
  {
    Min(1.0, Max(0.0, v))
  }

  /** The host's trigonometry and square root (java.lang.Math). They are kept
      uninterpreted: the model passes them in and proves nothing about them. */
  datatype MathLib = MathLib(
    atan2: (real, real) -> real,
    sqrt: real -> real,
    sin: real -> real,
    cos: real -> real,
    toDegrees: real -> real)

  /** Point2D.distance: the square root of the summed squared differences. */
  function Distance(m: MathLib, a: Vec, b: Vec): real
  {
    m.sqrt((a.x - b.x) * (a.x - b.x) + (a.y - b.y) * (a.y - b.y))
  }
}
