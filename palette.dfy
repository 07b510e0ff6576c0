/** The participant record and the fixed colour palette of the wheel widget. */
module Palette {

  /** One registry entry: the name exactly as typed and the colour fixed when it was added. */
  datatype Participant = Participant(name: string, color: string)

  /** The twenty wheel colours, in palette order. */
  const WheelColors: seq<string> := [
    "#FF6B6B", "#4ECDC4", "#45B7D1", "#FED766", "#2AB7CA",
    "#F0C419", "#FF8C42", "#A2DED0", "#FE4A49", "#3498DB",
    "#F7CAC9", "#92A8D1", "#88B04B", "#E8A87C", "#C38D9E",
    "#41B3A3", "#E27D60", "#FAD02C", "#6A4C93", "#B5EAD7"
  ]

  lemma PaletteSize()
    ensures |WheelColors| == 20
  {
  }

  /** The palette colour for position `k`, cycling through the twenty colours. */
  function ColorAt(k: nat): (c: string)
    ensures k < |WheelColors| ==> c == WheelColors[k]
  {
    PaletteSize();
    var i := k % |WheelColors|;
    assert k < |WheelColors| ==> i == k;
    WheelColors[i]
  }

  /** Colours repeat every twenty positions. */
  lemma ColorAtPeriodic(k: nat)
    ensures ColorAt(k + |WheelColors|) == ColorAt(k)
  {
    PaletteSize();
    assert (k + 20) % 20 == k % 20;
  }
}
