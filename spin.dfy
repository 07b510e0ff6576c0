/**
 * The arithmetic of a spin: the winner index drawn from `Math.random()` and
 * the rotation target that brings the middle of the winner's slice under the
 * pointer after eight extra turns.
 */
module Spin {
  import opened Degrees

  /** Full turns added on every spin, for the animation. */
  const ExtraTurns: int := 8

  /** Where the pointer sits, in the wheel's angle convention (0 at three o'clock, clockwise). */
  const PointerAngle: real := 270.0

  /** `Math.floor(u * n)` for a draw `u` of `Math.random()`. */
  function WinnerIndex(u: real, n: nat): (k: nat)
    requires 0.0 <= u < 1.0 && n > 0
    ensures k < n
  {
    var x := u * n as real;
    assert 0.0 <= x < n as real by { ProductBelow(u, n); }
    x.Floor
  }

  lemma ProductBelow(u: real, n: nat)
    requires 0.0 <= u < 1.0 && n > 0
    ensures 0.0 <= u * n as real < n as real
  {
    assert (1.0 - u) * n as real > 0.0;
  }

  /**
   * Index `k` is chosen exactly when the draw falls in `[k/n, (k+1)/n)`, an
   * interval of width `1/n`: every participant has the same share of draws.
   */
  lemma WinnerIndexPreimage(u: real, n: nat, k: nat)
    requires 0.0 <= u < 1.0 && n > 0 && k < n
    ensures WinnerIndex(u, n) == k <==> k as real / n as real <= u < (k + 1) as real / n as real
  {
    var m := n as real;
    var x := u * m;
    assert WinnerIndex(u, n) == x.Floor;
    BelowScaled(u, k as real, m);
    BelowScaled(u, (k + 1) as real, m);
  }

  lemma BelowScaled(u: real, c: real, m: real)
    requires m > 0.0
    ensures u * m < c <==> u < c / m
  {
    var q := c / m;
    assert q * m == c;
    ScaleKeepsOrder(u, q, m);
  }

  /**
   * `360 / n`, divided by the registry length: the angle the spin handler
   * assigns one participant's slice. The drawn wheel divides by its segment
   * count instead, and `Landing.SliceIsSegment` shows the two agree for n >= 2.
   */
  function SliceAngle(n: nat): (a: real)
    requires n > 0
    ensures 0.0 < a && a * n as real == 360.0
  {
    360.0 / n as real
  }

  /** The middle of slice `idx`: `idx * slice + slice / 2`, strictly inside one turn. */
  function SliceMiddle(idx: nat, n: nat): (m: real)
    requires idx < n
    ensures 0.0 < m < 360.0
    ensures m - idx as real * SliceAngle(n) == (idx + 1) as real * SliceAngle(n) - m
  {
    var a := SliceAngle(n);
    assert idx as real * a <= 360.0 - a by {
      assert (n - 1 - idx) as real * a >= 0.0;
    }
    idx as real * a + a / 2.0
  }

  /** `270 - middle`: the rotation, modulo a turn, that puts the slice middle under the pointer. */
  function TargetAngle(idx: nat, n: nat): (t: real)
    requires idx < n
    ensures -90.0 < t < 270.0
    ensures t + SliceMiddle(idx, n) == PointerAngle
  {
    PointerAngle - SliceMiddle(idx, n)
  }

  /** `rotation + 8 * 360 + targetAngle - rotation % 360`, with JavaScript's `%`. */
  function NewRotation(rotation: real, idx: nat, n: nat): (r: real)
    requires idx < n
    ensures 0.0 <= rotation ==> rotation + 2430.0 < r < rotation + 3150.0
  {
    rotation + (ExtraTurns * 360) as real + TargetAngle(idx, n) - JsRem360(rotation)
  }

  /**
   * From a non-negative rotation the wheel always moves forward, by more than
   * 2430 and less than 3150 degrees, and it stops at the target angle up to
   * whole turns.
   */
  lemma RotationAdvances(rotation: real, idx: nat, n: nat)
    requires 0.0 <= rotation && idx < n
    ensures rotation + 2430.0 < NewRotation(rotation, idx, n) < rotation + 3150.0
    ensures WholeTurns(NewRotation(rotation, idx, n) - TargetAngle(idx, n))
  {
    var r := JsRem360(rotation);
    var k := ((rotation - r) / 360.0).Floor;
    assert rotation - r == 360.0 * k as real;
    var d := NewRotation(rotation, idx, n) - TargetAngle(idx, n);
    assert d == 360.0 * (k + ExtraTurns) as real;
    assert (d / 360.0).Floor == k + ExtraTurns;
  }

  /**
   * The eight extra turns are not a lower bound on the advance: from rotation
   * 0 with four participants, choosing the last one advances only 2835 degrees.
   */
  lemma AdvanceCanBeBelowEightTurns()
    ensures NewRotation(0.0, 3, 4) == 2835.0
  {
    assert JsRem360(0.0) == 0.0;
    assert SliceAngle(4) == 90.0;
  }
}
