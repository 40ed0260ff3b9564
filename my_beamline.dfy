/**
  my_beamline.py: a drift to a lens, the lens, and a drift from the lens to
  the image plane, with the last distance fixed by the thin-lens equation.
*/
module MyBeamline {
  import opened Wrappers
  import opened Optics

  /** Distance from the source to the lens. */
  const SourceDistance: real := 300.0
  /** Focal length of the lens in both directions. */
  const FocalLength: real := 2.0

  /**
    `1/(1/f - 1/d)`: the image distance of a thin lens of focal length `f`
    for an object at distance `d` beyond the focus.
  */
  function ImageDistance(f: real, d: real): (r: real)
    requires 0.0 < f < d
    ensures r > 0.0
    ensures 1.0 / d + 1.0 / r == 1.0 / f
  {
    var x := 1.0 / f - 1.0 / d;
    assert 1.0 / d < 1.0 / f by {
      assert (1.0 / d) * d == 1.0;
      assert (1.0 / f) * f == 1.0;
      assert (1.0 / d) * f < (1.0 / d) * d;
    }
    assert (1.0 / x) * x == 1.0;
    1.0 / x
  }

  /**
    The stages `get_beamline` appends, in order: a drift, a lens and a drift
    whose lengths satisfy the thin-lens equation for that lens.
  */
  function Stages(): (r: seq<Stage>)
    ensures |r| == 3
    ensures r[0].element.Drift? && r[1].element.Lens? && r[2].element.Drift?
    ensures r[0].element.length > 0.0 && r[1].element.fx > 0.0 && r[2].element.length > 0.0
    ensures 1.0 / r[0].element.length + 1.0 / r[2].element.length == 1.0 / r[1].element.fx
  {
    var image := ImageDistance(FocalLength, SourceDistance);
    [ Stage(Drift(SourceDistance), UsePP(Some(1), Some(0.5), Some(8.0))),
      Stage(Lens(FocalLength, FocalLength), DefaultTreatment),
      Stage(Drift(image), UsePP(Some(1), Some(4.2), Some(0.5))) ]
  }

  /** `get_beamline()`: a fresh beamline built by three appends. */
  method GetBeamline() returns (bl: Beamline)
    ensures fresh(bl)
    ensures bl.stages == Stages()
  {
    var distance := SourceDistance;
    var focDist := FocalLength;
    var drift0 := Drift(distance);
    var lens0 := Lens(focDist, focDist);
    var drift1 := Drift(ImageDistance(focDist, distance));
    bl := new Beamline();
    bl.Append(drift0, UsePP(Some(1), Some(0.5), Some(8.0)));
    bl.Append(lens0, DefaultTreatment);
    bl.Append(drift1, UsePP(Some(1), Some(4.2), Some(0.5)));
  }

  /** Three stages: drift, lens, drift, the lens focusing equally in both directions. */
  lemma StagesShape()
    ensures var s := Stages();
      && |s| == 3
      && s[0].element == Drift(300.0) && s[0].treatment == UsePP(Some(1), Some(0.5), Some(8.0))
      && s[1].element == Lens(2.0, 2.0) && s[1].element.fx == s[1].element.fy
      && s[1].treatment == UsePP(None, None, None)
      && s[2].element.Drift? && s[2].treatment == UsePP(Some(1), Some(4.2), Some(0.5))
  {
  }

  /**
    The last drift is the image distance of the lens: positive, satisfying
    `1/300 + 1/d = 1/2`, and equal to 300/149.
  */
  lemma LastDriftImagesSource()
    ensures var d := Stages()[2].element.length;
      && d > 0.0
      && 1.0 / 300.0 + 1.0 / d == 1.0 / 2.0
      && d == 300.0 / 149.0
  {
    var d := ImageDistance(2.0, 300.0);
    assert 1.0 / d == 149.0 / 300.0;
    assert d * (149.0 / 300.0) == 1.0;
  }

  /** Every explicit zoom and sampling factor of the beamline is positive. */
  lemma KnobsPositive()
    ensures forall i :: 0 <= i < |Stages()| ==> PositiveKnobs(Stages()[i].treatment)
  {
  }
}
