/**
 * The static wheel: the segments it draws for a registry, each segment's
 * angles and arc flag, and the label written on it.
 */
module Wheel {
  import opened Palette
  import opened Degrees

  /** Number of blank segments drawn while the registry has fewer than two entries. */
  const PlaceholderCount: nat := 8

  /** Longest name shown in full on a segment. */
  const MaxLabelLength: nat := 10

  /** One participant per segment once there are two of them; otherwise the placeholder count. */
  function SegmentCount(n: nat): (c: nat)
    ensures c >= 2
    ensures c == n <==> n > 1
    ensures n <= 1 ==> c == PlaceholderCount
  {
    if n > 1 then n else PlaceholderCount
  }

  /** The entries drawn: the registry itself, or blank placeholders cycling through the palette. */
  function Segments(ps: seq<Participant>): (segs: seq<Participant>)
    ensures |segs| == SegmentCount(|ps|)
    ensures |ps| > 1 ==> segs == ps
    ensures |ps| <= 1 ==> |segs| == PlaceholderCount
    ensures |ps| <= 1 ==> forall i :: 0 <= i < |segs| ==> segs[i] == Participant("", WheelColors[i])
  {
    if |ps| > 1 then ps
    else seq(PlaceholderCount, i requires 0 <= i < PlaceholderCount => Participant("", ColorAt(i)))
  }

  /** `360 / numSegments`: positive, and `count` of them make one turn. */
  function SegmentAngle(count: nat): (a: real)
    requires count > 0
    ensures 0.0 < a && a * count as real == 360.0
  {
    360.0 / count as real
  }

  /** `i * angle`: the first segment starts at 0. */
  function StartAngle(i: nat, count: nat): (s: real)
    requires count > 0
    ensures i == 0 ==> s == 0.0
    ensures 0.0 <= s
  {
    i as real * SegmentAngle(count)
  }

  /** `(i + 1) * angle`: one segment angle after the start, where the next segment starts. */
  function EndAngle(i: nat, count: nat): (e: real)
    requires count > 0
    ensures e == StartAngle(i + 1, count)
    ensures e - StartAngle(i, count) == SegmentAngle(count)
  {
    (i + 1) as real * SegmentAngle(count)
  }

  /** `startAngle + angle / 2`: the bisector, where the label sits, strictly inside the segment. */
  function MidAngle(i: nat, count: nat): (m: real)
    requires count > 0
    ensures StartAngle(i, count) < m < EndAngle(i, count)
    ensures m - StartAngle(i, count) == EndAngle(i, count) - m
  {
    StartAngle(i, count) + SegmentAngle(count) / 2.0
  }

  /** The SVG arc's large-arc flag: never set once the wheel has two segments or more. */
  function LargeArcFlag(count: nat): (f: int)
    requires count > 0
    ensures count >= 2 ==> f == 0
    ensures f == 0 || f == 1
  {
    var a := SegmentAngle(count);
    assert count >= 2 ==> a <= 180.0 by {
      if count >= 2 {
        assert (count - 2) as real * a >= 0.0;
      }
    }
    if a > 180.0 then 1 else 0
  }

  /** A segment's label: names longer than ten characters keep nine and gain three dots. */
  function Label(name: string): (r: string)
    ensures |name| <= MaxLabelLength ==> r == name
    ensures |name| > MaxLabelLength ==> |r| == 12 && r[..9] == name[..9] && r[9..] == "..."
    ensures |r| <= 12
  {
    if |name| > MaxLabelLength then name[..9] + "..." else name
  }

  /** What the wheel derives for one segment. */
  datatype SegmentView = SegmentView(
    color: string, text: string,
    startAngle: real, endAngle: real, midAngle: real, largeArcFlag: int)

  /**
   * Segment geometry: each segment spans `360 / count`; consecutive segments
   * share an edge; the bisector lies strictly inside; and with at least two
   * segments no arc exceeds half a turn.
   */
  lemma {:induction false} SegmentGeometry(i: nat, count: nat)
    requires i < count && count >= 2
    ensures EndAngle(i, count) - StartAngle(i, count) == SegmentAngle(count) > 0.0
    ensures StartAngle(i, count) < MidAngle(i, count) < EndAngle(i, count)
    ensures 0.0 <= StartAngle(i, count) && EndAngle(i, count) <= 360.0
    ensures LargeArcFlag(count) == 0
  {
    var a := SegmentAngle(count);
    assert a * count as real == 360.0;
    assert (count - 1 - i) as real * a >= 0.0;
    assert a <= 180.0 by {
      assert (count - 2) as real * a >= 0.0;
    }
  }

  /** The segments tile the circle: the first starts at 0 and the last ends at 360. */
  lemma CircleClosed(count: nat)
    requires count >= 2
    ensures StartAngle(0, count) == 0.0
    ensures EndAngle(count - 1, count) == 360.0
  {
  }

  /** The segment under wheel angle `x` of one turn. */
  function SegmentUnder(x: real, count: nat): (i: nat)
    requires 0.0 <= x < 360.0 && count >= 1
    ensures i < count && StartAngle(i, count) <= x < EndAngle(i, count)
  {
    var a := SegmentAngle(count);
    var q := x / a;
    QuotientBelow(x, a, count as real);
    var i := q.Floor;
    FloorBelow(q, count);
    Bracket(x, q, a, i);
    i
  }

  /** The floor of a quotient in `[0, c)` is a segment index. */
  lemma FloorBelow(q: real, c: nat)
    requires 0.0 <= q < c as real
    ensures 0 <= q.Floor < c
  {
  }

  /** For `0 <= x < c * a`, the quotient `x / a` lies in `[0, c)` and scales back to `x`. */
  lemma QuotientBelow(x: real, a: real, c: real)
    requires a > 0.0 && 0.0 <= x < c * a
    ensures 0.0 <= x / a < c && (x / a) * a == x
  {
    var q := x / a;
    assert q * a == x;
    ScaleKeepsOrder(q, 0.0, a);
    ScaleKeepsOrder(q, c, a);
  }

  /** An integer `f` with `f <= q < f + 1` brackets `x == q * a` between `f * a` and `(f + 1) * a`. */
  lemma Bracket(x: real, q: real, a: real, f: int)
    requires a > 0.0 && q * a == x && f as real <= q < (f + 1) as real
    ensures f as real * a <= x < (f + 1) as real * a
  {
    ScaleKeepsOrder(q, f as real, a);
    ScaleKeepsOrder(q, (f + 1) as real, a);
  }

  /** No other segment contains that angle: the segments do not overlap. */
  lemma {:induction false} SegmentUnderUnique(x: real, count: nat, j: nat)
    requires 0.0 <= x < 360.0 && count >= 1
    requires StartAngle(j, count) <= x < EndAngle(j, count)
    ensures SegmentUnder(x, count) == j
  {
    var i := SegmentUnder(x, count);
    if i < j {
      EndNotAfterLaterStart(i, j, count);
    } else if j < i {
      EndNotAfterLaterStart(j, i, count);
    }
  }

  /** An earlier segment ends no later than a later one starts. */
  lemma EndNotAfterLaterStart(i: nat, j: nat, count: nat)
    requires i < j && count > 0
    ensures EndAngle(i, count) <= StartAngle(j, count)
  {
    NextStartNotBelow(i, j, SegmentAngle(count));
  }

  /** A later segment starts no earlier than the end of an earlier one. */
  lemma NextStartNotBelow(i: nat, j: nat, a: real)
    requires a > 0.0
    ensures i < j ==> (i + 1) as real * a <= j as real * a
  {
    if i < j {
      assert (j - i - 1) as real * a >= 0.0;
    }
  }

  /** The view of one segment, as the wheel's `map` callback derives it. */
  function View(p: Participant, i: nat, count: nat): (v: SegmentView)
    requires count > 0
    ensures v.color == p.color && v.text == Label(p.name)
    ensures v.endAngle - v.startAngle == SegmentAngle(count)
    ensures v.startAngle < v.midAngle < v.endAngle
    ensures count >= 2 ==> v.largeArcFlag == 0
  {
    SegmentView(p.color, Label(p.name),
      StartAngle(i, count), EndAngle(i, count), MidAngle(i, count), LargeArcFlag(count))
  }

  /** Every segment the wheel draws for a registry, in order. */
  function Render(ps: seq<Participant>): (vs: seq<SegmentView>)
    ensures |vs| == SegmentCount(|ps|)
  {
    var segs := Segments(ps);
    seq(|segs|, i requires 0 <= i < |segs| => View(segs[i], i, |segs|))
  }

  /**
   * The drawn wheel: one segment per participant (or per placeholder) in
   * order, with that entry's colour and label, laid edge to edge from 0 to
   * 360 degrees, the label's bisector strictly inside, and no large arc.
   */
  lemma RenderTilesCircle(ps: seq<Participant>)
    ensures forall i :: 0 <= i < |Render(ps)| ==>
      Render(ps)[i].color == Segments(ps)[i].color && Render(ps)[i].text == Label(Segments(ps)[i].name)
    ensures Render(ps)[0].startAngle == 0.0 && Render(ps)[|Render(ps)| - 1].endAngle == 360.0
    ensures forall i :: 0 <= i < |Render(ps)| - 1 ==> Render(ps)[i].endAngle == Render(ps)[i + 1].startAngle
    ensures forall i :: 0 <= i < |Render(ps)| ==>
      Render(ps)[i].startAngle < Render(ps)[i].midAngle < Render(ps)[i].endAngle
      && Render(ps)[i].largeArcFlag == 0
  {
    var vs := Render(ps);
    var segs := Segments(ps);
    var count := |segs|;
    assert forall i :: 0 <= i < count ==> vs[i] == View(segs[i], i, count);
    CircleClosed(count);
    forall i | 0 <= i < count - 1
      ensures vs[i].endAngle == vs[i + 1].startAngle
    {
      assert vs[i + 1] == View(segs[i + 1], i + 1, count);
    }
    forall i | 0 <= i < count
      ensures vs[i].startAngle < vs[i].midAngle < vs[i].endAngle && vs[i].largeArcFlag == 0
    {
      SegmentGeometry(i, count);
    }
  }
}
