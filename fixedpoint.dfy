/** The fixed-point numbers every numeric field decodes to: an integer mantissa and
    a scale, worth value/scale; scale 0 means the field was absent. */
module FixedPoint {
  import opened Text

  datatype Fixed = Fixed(value: int, scale: int)

  /** The sign of a mantissa, as C's `(x > 0) - (x < 0)`. */
  function Sign(x: int): (s: int)
    ensures s * x >= 0 && (s == 0 <==> x == 0) && -1 <= s <= 1
  {
    if x > 0 then 1 else if x < 0 then -1 else 0
  }

  /** `minmea_rescale`: re-express value/fromScale with denominator toScale. Scaling
      down divides by the whole ratio q of the two scales and rounds to the nearest
      integer, ties away from zero; scaling up multiplies by the whole ratio; an absent
      number (scale 0) gives 0 whatever the target scale. */
  function Rescale(value: int, fromScale: int, toScale: int): (r: int)
    requires fromScale >= 0 && (fromScale == 0 || toScale > 0)
    ensures fromScale == 0 ==> r == 0
    ensures value >= 0 ==> r >= 0
    ensures value <= 0 ==> r <= 0
    ensures fromScale >= toScale > 0 ==>
      var q := fromScale / toScale;
      if value >= 0 then -q <= 2 * (value - q * r) < q
      else -q < 2 * (value - q * r) <= q
    ensures 0 < fromScale < toScale && toScale % fromScale == 0 ==>
      r * fromScale == value * toScale
  {
    if fromScale == 0 then 0
    else if fromScale == toScale then value
    else if fromScale > toScale then
      var q := fromScale / toScale;
      assert q >= 1;
      HalfAway(value, q);
      CDiv(value + Sign(value) * (q / 2), q)
    else
      var k := toScale / fromScale;
      ExactFactor(value, fromScale, toScale);
      MulSign(value, k);
      value * k
  }

  /** Adding half the divisor, with the mantissa's sign, before a C division rounds
      to the nearest quotient, ties away from zero. */
  lemma HalfAway(value: int, q: int)
    requires q >= 1
    ensures var r := CDiv(value + Sign(value) * (q / 2), q);
      && (value >= 0 ==> r >= 0 && -q <= 2 * (value - q * r) < q)
      && (value < 0 ==> r <= 0 && -q < 2 * (value - q * r) <= q)
  {
    var h := q / 2;
    if value == 0 {
      assert Sign(value) * h == 0;
    } else if value > 0 {
      assert Sign(value) * h == h;
      HalfUp(value, q);
    } else {
      var m := (-value + h) / q;
      HalfUp(-value, q);
      assert Sign(value) * h == -h;
      assert CDiv(value - h, q) == -m;
      Mirror(value, q, m);
    }
  }

  lemma Mirror(value: int, q: int, m: int)
    requires -q <= 2 * (-value - q * m) < q
    ensures -q < 2 * (value - q * -m) <= q
  {
    assert q * -m == -(q * m);
  }

  lemma MulSign(a: int, k: int)
    requires k >= 0
    ensures a >= 0 ==> a * k >= 0
    ensures a <= 0 ==> a * k <= 0
  {
  }

  /** Adding half the divisor before dividing rounds to the nearest quotient. */
  lemma HalfUp(value: int, q: int)
    requires value >= 0 && q >= 1
    ensures var r := (value + q / 2) / q; r >= 0 && -q <= 2 * (value - q * r) < q
  {
    var n := value + q / 2;
    DivBounds(n, q);
    assert 2 * (q / 2) <= q <= 2 * (q / 2) + 1;
  }

  lemma DivBounds(n: int, q: int)
    requires n >= 0 && q >= 1
    ensures q * (n / q) <= n < q * (n / q) + q && n / q >= 0
  {
  }

  /** A whole factor between two scales carries the mantissa across exactly. */
  lemma ExactFactor(value: int, fromScale: int, toScale: int)
    requires 0 < fromScale
    ensures toScale % fromScale == 0 ==>
      value * (toScale / fromScale) * fromScale == value * toScale
  {
    var k := toScale / fromScale;
    assert toScale % fromScale == 0 ==> toScale == k * fromScale;
    MulAssocComm(value, k, fromScale);
  }

  lemma MulAssocComm(a: int, b: int, c: int)
    ensures (a * b) * c == a * (b * c)
  {
  }

  /** Scaling up by a whole factor and back down gives the original mantissa. */
  lemma RescaleRoundTrip(value: int, scale: int, k: int)
    requires scale > 0 && k > 0
    ensures Rescale(Rescale(value, scale, scale * k), scale * k, scale) == value
  {
    RescaleUp(value, scale, k);
    RescaleDown(value, scale, k);
  }

  /** Scaling up by a whole factor multiplies the mantissa by it. */
  lemma RescaleUp(value: int, scale: int, k: int)
    requires scale > 0 && k > 0
    ensures Rescale(value, scale, scale * k) == value * k
  {
    MulMod(k, scale);
    if k > 1 {
      MulAtLeast(k - 1, scale);
      assert scale * k == scale * (k - 1) + scale;
    }
  }

  /** Scaling a whole multiple down by the factor divides it exactly: the rounding
      half-step k / 2 stays below k, on either side of zero. */
  lemma RescaleDown(value: int, scale: int, k: int)
    requires scale > 0 && k > 0
    ensures Rescale(value * k, scale * k, scale) == value
  {
    MulMod(k, scale);
    if k > 1 {
      MulAtLeast(k - 1, scale);
      assert scale * k == scale * (k - 1) + scale;
      if value >= 0 {
        MulSign(value, k);
        DivModUnique(value * k + k / 2, k, value, k / 2);
      } else {
        MulSign(value, k);
        assert value * k != 0 by { MulAtLeast(k, -value); }
        assert -(value * k) == (-value) * k;
        DivModUnique((-value) * k + k / 2, k, -value, k / 2);
      }
    }
  }

  /** Rounding is symmetric about zero: a negated mantissa rescales to the negated result. */
  lemma RescaleNegate(value: int, fromScale: int, toScale: int)
    requires fromScale >= 0 && (fromScale == 0 || toScale > 0)
    ensures Rescale(-value, fromScale, toScale) == -Rescale(value, fromScale, toScale)
  {
    if fromScale > toScale > 0 {
      var q := fromScale / toScale;
      assert Sign(-value) == -Sign(value);
      assert -value + Sign(-value) * (q / 2) == -(value + Sign(value) * (q / 2));
      CDivNegate(value + Sign(value) * (q / 2), q);
    }
  }

  lemma MulMod(k: int, s: int)
    requires s > 0
    ensures (s * k) % s == 0 && (s * k) / s == k
  {
    DivModUnique(s * k, s, k, 0);
  }

  lemma {:induction false} MulAtLeast(d: int, b: int)
    requires d >= 1 && b > 0
    ensures d * b >= b
  {
    if d > 1 { MulAtLeast(d - 1, b); }
  }

  /** `minmea_float`, exactly: value/scale as a real, absent when the scale is 0. */
  function ToReal(f: Fixed): (r: Option<real>)
    ensures r.None? <==> f.scale == 0
    ensures r.Some? ==> r.value * (f.scale as real) == f.value as real
  {
    if f.scale == 0 then None else Some(f.value as real / f.scale as real)
  }

  /** Scaling a number up keeps the quantity it stands for. */
  lemma ToRealRescale(value: int, scale: int, k: int)
    requires scale > 0 && k > 0
    ensures ToReal(Fixed(Rescale(value, scale, scale * k), scale * k)) == ToReal(Fixed(value, scale))
  {
    RescaleUp(value, scale, k);
    assert scale * k > 0 by { MulAtLeast(k, scale); }
    QuotientScaled(value, scale, k);
  }

  /** value*k / (scale*k) is value/scale. */
  lemma QuotientScaled(value: int, scale: int, k: int)
    requires scale > 0 && k > 0
    ensures (value * k) as real / (scale * k) as real == value as real / scale as real
  {
    IntToRealMul(value, k);
    IntToRealMul(scale, k);
    RealCancel(value as real, scale as real, k as real);
  }

  lemma IntToRealMul(a: int, b: int)
    ensures (a * b) as real == (a as real) * (b as real)
  {
  }

  lemma RealCancel(a: real, s: real, k: real)
    requires s > 0.0 && k > 0.0
    ensures (a * k) / (s * k) == a / s
  {
  }

  /** C integer division and remainder: truncation toward zero. */
  function CDiv(a: int, b: int): int
    requires b > 0
  {
    if a >= 0 then a / b else -((-a) / b)
  }

  function CMod(a: int, b: int): int
    requires b > 0
  {
    a - b * CDiv(a, b)
  }

  /** `minmea_coord`: DDMM.MMMM (degrees times 100 plus decimal minutes) as decimal
      degrees, exactly; absent when the scale is 0. */
  function Coord(f: Fixed): (r: Option<real>)
    requires f.scale >= 0
    ensures r.None? <==> f.scale == 0
  {
    if f.scale == 0 then None
    else
      var degrees := CDiv(f.value, f.scale * 100);
      var minutes := CMod(f.value, f.scale * 100);
      Some(degrees as real + minutes as real / (60 * f.scale) as real)
  }

  /** deg degrees and m/scale minutes (m below a hundred minutes) read back as
      deg + minutes/60 degrees. */
  lemma CoordOfDegreesMinutes(deg: nat, m: nat, scale: int)
    requires scale > 0 && m < 100 * scale
    ensures Coord(Fixed(deg * (100 * scale) + m, scale))
         == Some(deg as real + m as real / (60 * scale) as real)
  {
    var v := deg * (100 * scale) + m;
    var b := scale * 100;
    assert v == deg * b + m;
    DivModUnique(v, b, deg, m);
    assert CDiv(v, b) == deg && CMod(v, b) == m;
  }

  lemma DivModUnique(v: int, b: int, q: int, r: int)
    requires b > 0 && 0 <= r < b && v == q * b + r
    ensures v / b == q && v % b == r
  {
    var d := q - v / b;
    assert d * b == v % b - r;
    if d >= 1 {
      MulAtLeast(d, b);
    } else if d <= -1 {
      MulAtLeast(-d, b);
    }
  }

  /** A southern or western coordinate is the mirror image of the northern or eastern one. */
  lemma CoordNegate(f: Fixed)
    requires f.scale > 0
    ensures Coord(Fixed(-f.value, f.scale)).value == -Coord(f).value
  {
    var b := f.scale * 100;
    CDivNegate(f.value, b);
    RealNegDiv(CMod(f.value, b), (60 * f.scale) as real);
  }

  lemma CDivNegate(a: int, b: int)
    requires b > 0
    ensures CDiv(-a, b) == -CDiv(a, b) && CMod(-a, b) == -CMod(a, b)
  {
  }

  lemma RealNegDiv(m: int, w: real)
    requires w > 0.0
    ensures ((-m) as real) / w == -((m as real) / w)
  {
  }

  /** The four `minmea_rescale` checks of the test suite, and two negative mantissas:
      a tie rounds away from zero, and scaling up negates nothing. */
  lemma RescaleExamples()
    ensures Rescale(42, 0, 3) == 0
    ensures Rescale(1234, 10, 1) == 123
    ensures Rescale(1235, 10, 1) == 124
    ensures Rescale(1234, 10, 1000) == 123400
    ensures Rescale(-1235, 10, 1) == -124 && Rescale(-375165, 100, 1000) == -3751650
  {
  }

  /** The `minmea_float` and `minmea_coord` checks of the test suite, in exact arithmetic. */
  lemma RealExamples()
    ensures ToReal(Fixed(42, 0)).None? && Coord(Fixed(42, 0)).None?
    ensures ToReal(Fixed(7, 1)) == Some(7.0)
    ensures ToReal(Fixed(-200, 100)) == Some(-2.0)
    ensures ToReal(Fixed(15, 10)) == Some(1.5)
    ensures Coord(Fixed(4200, 1)) == Some(42.0)
    ensures Coord(Fixed(420000, 100)) == Some(42.0)
    ensures Coord(Fixed(423000, 100)) == Some(42.5)
  {
  }
}
