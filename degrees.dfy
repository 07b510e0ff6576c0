/**
 * Angle arithmetic in degrees, on exact reals. `Mod360` is the mathematical
 * (floored) reduction to one turn; `JsRem360` is JavaScript's `x % 360`,
 * whose result takes the sign of `x`.
 */
module Degrees {

  /** `d` is a whole number of turns. */
  predicate WholeTurns(d: real) {
    d == 360.0 * (d / 360.0).Floor as real
  }

  /** The angle `x` reduced to `[0, 360)`. */
  function Mod360(x: real): (r: real)
    ensures 0.0 <= r < 360.0
    ensures WholeTurns(x - r)
  {
    x - 360.0 * (x / 360.0).Floor as real
  }

  /** Reduction forgets whole turns, and leaves an angle inside one turn alone. */
  lemma Mod360Shift(x: real, k: int)
    ensures Mod360(x + 360.0 * k as real) == Mod360(x)
    ensures 0.0 <= x < 360.0 ==> Mod360(x) == x
  {
    assert ((x + 360.0 * k as real) / 360.0).Floor == (x / 360.0).Floor + k;
  }

  /** An integer multiple of 360 is a whole number of turns. */
  lemma MultipleIsWholeTurns(d: real, k: int)
    requires d == 360.0 * k as real
    ensures WholeTurns(d)
  {
    assert d / 360.0 == k as real;
  }

  /** Two angles whose difference is a whole number of turns reduce alike. */
  lemma WholeTurnsSameAngle(x: real, y: real)
    requires WholeTurns(x - y)
    ensures Mod360(x) == Mod360(y)
  {
    var k := ((x - y) / 360.0).Floor;
    assert x == y + 360.0 * k as real;
    Mod360Shift(y, k);
  }

  /** Two angles of one turn that reach the same angle after the same rotation are equal. */
  lemma SameAngleWithinTurn(x: real, y: real, z: real)
    requires 0.0 <= x < 360.0 && 0.0 <= y < 360.0
    requires Mod360(x + z) == Mod360(y + z)
    ensures x == y
  {
    var f := ((x + z) / 360.0).Floor;
    var g := ((y + z) / 360.0).Floor;
    assert x - y == 360.0 * (f - g) as real;
  }

  /** Truncation toward zero, as JavaScript's integer quotient. */
  function Trunc(y: real): (t: int)
    ensures 0.0 <= y ==> 0 <= t && t as real <= y < t as real + 1.0
    ensures y < 0.0 ==> t as real - 1.0 < y <= t as real <= 0.0
  {
    if y >= 0.0 then y.Floor else -((-y).Floor)
  }

  /** JavaScript's `x % 360` on numbers: the remainder of the truncating division. */
  function JsRem360(x: real): (r: real)
    ensures 0.0 <= x ==> 0.0 <= r < 360.0
    ensures x < 0.0 ==> -360.0 < r <= 0.0
    ensures WholeTurns(x - r)
  {
    var t := Trunc(x / 360.0);
    MultipleIsWholeTurns(360.0 * t as real, t);
    x - 360.0 * t as real
  }

  /** On non-negative angles JavaScript's `%` and the floored reduction agree. */
  lemma JsRemIsMod360OnNonNegative(x: real)
    requires 0.0 <= x
    ensures JsRem360(x) == Mod360(x)
  {
  }

  /** Scaling by a positive factor keeps the order of two reals. */
  lemma ScaleKeepsOrder(a: real, b: real, m: real)
    requires m > 0.0
    ensures a < b <==> a * m < b * m
  {
    assert b * m - a * m == (b - a) * m;
    if a < b {
      assert (b - a) * m > 0.0;
    } else {
      assert (a - b) * m >= 0.0;
    }
  }
}
