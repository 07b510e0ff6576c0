/**
 * Where the wheel stops: the spin's rotation target read against the
 * segments the wheel draws.
 */
module Landing {
  import opened Palette
  import opened Degrees
  import opened Spin
  import opened Wheel
  import Registry

  /** The wheel angle under the pointer once the wheel is turned by `rotation` (SVG rotates clockwise). */
  function UnderPointer(rotation: real): (x: real)
    ensures 0.0 <= x < 360.0
    ensures Mod360(x + rotation) == PointerAngle
  {
    var y := PointerAngle - rotation;
    var x := Mod360(y);
    var k := ((y - x) / 360.0).Floor;
    MultipleIsWholeTurns(x + rotation - PointerAngle, -k);
    WholeTurnsSameAngle(x + rotation, PointerAngle);
    Mod360Shift(PointerAngle, 0);
    x
  }

  /** With two or more participants, the spin's slice is the drawn segment. */
  lemma SliceIsSegment(idx: nat, n: nat)
    requires idx < n && n >= 2
    ensures SliceAngle(n) == SegmentAngle(SegmentCount(n))
    ensures SliceMiddle(idx, n) == MidAngle(idx, SegmentCount(n))
  {
  }

  /**
   * With two or more participants, a spin from a non-negative rotation stops
   * with the bisector of the winner's segment exactly under the pointer, so
   * the pointer shows the winner's segment and no other.
   */
  lemma PointerLandsOnWinner(ps: seq<Participant>, rotation: real, idx: nat)
    requires 0.0 <= rotation && idx < |ps| && |ps| >= 2
    ensures Mod360(MidAngle(idx, |ps|) + NewRotation(rotation, idx, |ps|)) == PointerAngle
    ensures UnderPointer(NewRotation(rotation, idx, |ps|)) == MidAngle(idx, |ps|)
    ensures SegmentUnder(UnderPointer(NewRotation(rotation, idx, |ps|)), |Segments(ps)|) == idx
    ensures Segments(ps)[idx] == ps[idx]
  {
    var n := |ps|;
    var r := NewRotation(rotation, idx, n);
    var t := TargetAngle(idx, n);
    var m := MidAngle(idx, n);
    SliceIsSegment(idx, n);
    RotationAdvances(rotation, idx, n);
    assert (m + r) - PointerAngle == r - t;
    WholeTurnsSameAngle(m + r, PointerAngle);
    Mod360Shift(PointerAngle, 0);
    var x := UnderPointer(r);
    SegmentGeometry(idx, n);
    SameAngleWithinTurn(x, m, r);
    SegmentUnderUnique(x, n, idx);
  }

  /**
   * The winner is fixed when the spin starts, but the registry can still be
   * edited while the wheel turns: with four players, a spin from rotation 0
   * that picks the first one, followed by removing that entry, leaves the
   * pointer over the segment of the second player while the first is announced.
   */
  lemma RemovalDuringSpinMovesPointer()
    ensures var ps := [Participant("player1", WheelColors[0]), Participant("player2", WheelColors[1]),
                       Participant("player3", WheelColors[2]), Participant("player4", WheelColors[3])];
            var after := Registry.Without(ps, 0);
            var r := NewRotation(0.0, 0, 4);
            Segments(after)[SegmentUnder(UnderPointer(r), |Segments(after)|)] == ps[1] != ps[0]
  {
    var ps := [Participant("player1", WheelColors[0]), Participant("player2", WheelColors[1]),
               Participant("player3", WheelColors[2]), Participant("player4", WheelColors[3])];
    var after := Registry.Without(ps, 0);
    Registry.WithoutDeletes(ps, 0);
    assert after == ps[1..];
    var r := NewRotation(0.0, 0, 4);
    assert JsRem360(0.0) == 0.0;
    assert SliceAngle(4) == 90.0;
    assert r == 3105.0;
    var x := UnderPointer(r);
    assert x == 45.0 by {
      assert PointerAngle - r == 45.0 - 360.0 * 8.0;
      Mod360Shift(45.0, -8);
    }
    assert StartAngle(0, 3) <= 45.0 < EndAngle(0, 3);
    SegmentUnderUnique(x, 3, 0);
  }
}
