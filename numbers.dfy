/** The two numeric helpers of the JavaScript frontend, over exact reals. */
module Numbers {

  /** `Math.round(x * 100) / 100`: JavaScript's Math.round rounds half-way
      cases toward +infinity, so Math.round(y) is the floor of y + 1/2. */
  function Round2(x: real): real
  {
    ((x * 100.0 + 0.5).Floor as real) / 100.0
  }

  /** `Math.max(a, b)`. */
  function Max(a: real, b: real): (m: real)
    ensures m >= a && m >= b
    ensures m == a || m == b
  {
    if a >= b then a else b
  }

  /** Rounding moves a value by at most half a cent, and half-way values go up. */
  lemma Round2Close(x: real)
    ensures x - 0.005 < Round2(x) <= x + 0.005
  {
    var y := x * 100.0 + 0.5;
    assert (y.Floor as real) <= y < (y.Floor as real) + 1.0;
  }

  /** A value that is already a whole number of cents is left unchanged. */
  lemma Round2OfCents(n: int)
    ensures Round2((n as real) / 100.0) == (n as real) / 100.0
  {
    var y := ((n as real) / 100.0) * 100.0 + 0.5;
    assert y == (n as real) + 0.5;
    assert (y.Floor as real) <= y < (y.Floor as real) + 1.0;
    assert y.Floor == n;
  }

  /** Rounding twice is rounding once. */
  lemma Round2Idempotent(x: real)
    ensures Round2(Round2(x)) == Round2(x)
  {
    var n := (x * 100.0 + 0.5).Floor;
    assert Round2(x) == (n as real) / 100.0;
    Round2OfCents(n);
  }

  /** Rounding preserves order. */
  lemma Round2Monotone(x: real, y: real)
    requires x <= y
    ensures Round2(x) <= Round2(y)
  {
    var a := x * 100.0 + 0.5;
    var b := y * 100.0 + 0.5;
    assert (a.Floor as real) <= a <= b < (b.Floor as real) + 1.0;
  }

  /** A non-negative value rounds to a non-negative value. */
  lemma Round2NonNegative(x: real)
    requires x >= 0.0
    ensures Round2(x) >= 0.0
  {
    Round2Monotone(0.0, x);
    Round2OfCents(0);
  }

  /** A part of a positive whole is between 0 and 100 per cent of it. */
  lemma ShareBounds(part: real, whole: real)
    requires 0.0 <= part <= whole && whole > 0.0
    ensures 0.0 <= (part / whole) * 100.0 <= 100.0
  {
    assert (part / whole) * whole == part;
    assert part / whole <= 1.0;
  }
}
