/**
  Optical elements and propagation parameters as the scripts pass them to
  the engine, and the beamline that collects them in order. What the engine
  does with a stage is not modelled.
*/
module Optics {
  import opened Wrappers

  /** The optical elements the scripts construct. */
  datatype Element =
    | Drift(length: real)
    | Lens(fx: real, fy: real)

  /**
    `Use_PP(...)`: the propagation parameters of one stage. A knob left out
    of the call is `None`, meaning the engine's own default.
  */
  datatype Treatment = UsePP(semiAnalytical: Option<int>, zoom: Option<real>, sampling: Option<real>)

  /** `Use_PP()` with every knob left to the engine. */
  const DefaultTreatment: Treatment := UsePP(None, None, None)

  /** One appended pair of an element and its propagation parameters. */
  datatype Stage = Stage(element: Element, treatment: Treatment)

  /** Every zoom and sampling factor given explicitly is positive. */
  predicate PositiveKnobs(t: Treatment)
  {
    (t.zoom.Some? ==> t.zoom.value > 0.0) && (t.sampling.Some? ==> t.sampling.value > 0.0)
  }

  /** `wpg.Beamline`: the stages in the order they were appended. */
  class Beamline {
    var stages: seq<Stage>

    constructor ()
      ensures stages == []
    {
      stages := [];
    }

    /** `append(element, treatment)`: adds one stage at the end. */
    method Append(element: Element, treatment: Treatment)
      modifies this
      ensures stages == old(stages) + [Stage(element, treatment)]
    {
      stages := stages + [Stage(element, treatment)];
    }
  }
}
