/**
  `propagate` of propagate.py: load a wavefront record, run it through a
  one-stage beamline in the frequency representation, convert mesh and field
  units, store it and attach the lineage of the input record.

  The wave-optics engine is a parameter: `load` and `store` stand for
  `load_hdf5` and `store_hdf5`, and `engine` for every call that changes the
  wavefront inside the engine. The model fixes which calls are made, in which
  order, and what the script itself does to the result.
*/
module Propagate {
  import opened Wrappers
  import opened Hdf5
  import opened Wavefronts
  import opened Optics
  import Fwhm
  import History

  /** `SetRepresElecField(..., 'f')` and `(..., 't')`. */
  datatype Domain = Frequency | Time

  /** A call into the engine that changes the wavefront. */
  datatype EngineCall =
    | SetRepresentation(domain: Domain)
    | RunBeamline(stages: seq<Stage>)

  /**
    A wavefront as a value: the mesh and `arrEver` the script assigns, and
    `arrEhor` and the other stored fields it leaves to the engine.
  */
  datatype Snapshot = Snapshot(mesh: Mesh, arrEver: seq<real>, arrEhor: seq<real>, others: map<string, Node>)

  /** The length of the single drift. */
  const DriftLength: real := 100.0

  /** The beamline `propagate` builds: a single drift of positive length with positive knobs. */
  function PropagateStages(): (r: seq<Stage>)
    ensures |r| == 1 && r[0].element.Drift? && r[0].element.length > 0.0
    ensures PositiveKnobs(r[0].treatment)
  {
    [Stage(Drift(DriftLength), UsePP(Some(1), Some(0.1), Some(4.0)))]
  }

  /**
    The engine calls of one propagation, in the order they are made: the
    beamline runs once, in the frequency representation, and the wavefront
    is switched back to time afterwards.
  */
  function EngineCalls(): (r: seq<EngineCall>)
    ensures |r| == 3
    ensures forall i :: 0 <= i < |r| ==> (r[i].RunBeamline? <==> i == 1)
    ensures r[0] == SetRepresentation(Frequency) && r[|r| - 1] == SetRepresentation(Time)
  {
    [SetRepresentation(Frequency), RunBeamline(PropagateStages()), SetRepresentation(Time)]
  }

  /** The state reached by making `calls` one after the other. */
  function RunCalls(engine: (Snapshot, EngineCall) -> Snapshot, s: Snapshot, calls: seq<EngineCall>): Snapshot
    decreases |calls|
  {
    if calls == [] then s else RunCalls(engine, engine(s, calls[0]), calls[1..])
  }

  /** The mesh after its bounds are multiplied by `1e-4`. */
  function RescaledMesh(m: Mesh): (r: Mesh)
    ensures r.nx == m.nx && r.ny == m.ny
    ensures ValidMesh(m) <==> ValidMesh(r)
    ensures r.xMax - r.xMin == (m.xMax - m.xMin) * 0.0001
    ensures r.yMax - r.yMin == (m.yMax - m.yMin) * 0.0001
  {
    m.(xMin := m.xMin * 0.0001, xMax := m.xMax * 0.0001, yMin := m.yMin * 0.0001, yMax := m.yMax * 0.0001)
  }

  /** The field samples after they are multiplied by `1e4`. */
  function ScaledField(s: seq<real>): (r: seq<real>)
    ensures |r| == |s|
  {
    seq(|s|, i requires 0 <= i < |s| => s[i] * 10000.0)
  }

  /**
    What the script does to the wavefront after the engine is done with it:
    the mesh and `arrEver` change units, and the other polarisation and
    every other field are left as the engine left them.
  */
  function Rescaled(s: Snapshot): (r: Snapshot)
    ensures r.mesh == RescaledMesh(s.mesh) && r.arrEver == ScaledField(s.arrEver)
    ensures r.arrEhor == s.arrEhor && r.others == s.others
  {
    s.(mesh := RescaledMesh(s.mesh), arrEver := ScaledField(s.arrEver))
  }

  /** The wavefront as a value. */
  function SnapshotOf(wf: Wavefront): Snapshot
    reads wf
  {
    Snapshot(wf.mesh, wf.arrEver, wf.arrEhor, wf.others)
  }

  /** Hands the wavefront to the engine for one call. */
  method Apply(wf: Wavefront, engine: (Snapshot, EngineCall) -> Snapshot, call: EngineCall)
    modifies wf
    ensures SnapshotOf(wf) == engine(old(SnapshotOf(wf)), call)
  {
    var s := engine(SnapshotOf(wf), call);
    wf.mesh, wf.arrEver, wf.arrEhor, wf.others := s.mesh, s.arrEver, s.arrEhor, s.others;
  }

  /**
    Builds the one-stage beamline and runs it between the switch to the
    frequency representation and the switch back; `calls` records the
    engine calls in the order they are made.
  */
  method RunEngine(wf: Wavefront, engine: (Snapshot, EngineCall) -> Snapshot) returns (calls: seq<EngineCall>)
    modifies wf
    ensures calls == EngineCalls()
    ensures SnapshotOf(wf) == RunCalls(engine, old(SnapshotOf(wf)), calls)
  {
    var bl := new Beamline();
    bl.Append(Drift(DriftLength), UsePP(Some(1), Some(0.1), Some(4.0)));
    assert bl.stages == PropagateStages();
    ghost var s0 := SnapshotOf(wf);
    Apply(wf, engine, SetRepresentation(Frequency));
    Apply(wf, engine, RunBeamline(bl.stages));
    Apply(wf, engine, SetRepresentation(Time));
    calls := [SetRepresentation(Frequency), RunBeamline(bl.stages), SetRepresentation(Time)];
    assert calls[1..] == [RunBeamline(bl.stages), SetRepresentation(Time)];
    assert calls[1..][1..] == [SetRepresentation(Time)];
    assert calls[1..][1..][1..] == [];
  }

  /** The unit conversion: each mesh bound times `1e-4`, each field sample times `1e4`. */
  method ConvertUnits(wf: Wavefront)
    modifies wf
    ensures wf.mesh == RescaledMesh(old(wf.mesh)) && wf.arrEver == ScaledField(old(wf.arrEver))
    ensures wf.arrEhor == old(wf.arrEhor) && wf.others == old(wf.others)
    ensures SnapshotOf(wf) == Rescaled(old(SnapshotOf(wf)))
  {
    wf.mesh := wf.mesh.(xMin := wf.mesh.xMin * 0.0001);
    wf.mesh := wf.mesh.(xMax := wf.mesh.xMax * 0.0001);
    wf.mesh := wf.mesh.(yMin := wf.mesh.yMin * 0.0001);
    wf.mesh := wf.mesh.(yMax := wf.mesh.yMax * 0.0001);
    wf.arrEver := ScaledField(wf.arrEver);
  }

  /**
    `propagate(in_fname, out_fname)`: the output file ends up holding the
    stored, rescaled result of the engine calls, with the lineage of the
    input merged in after it was stored.
  */
  method Propagate(inFile: HFile, outFile: HFile,
                   load: map<string, Node> -> Snapshot,
                   engine: (Snapshot, EngineCall) -> Snapshot,
                   store: Snapshot -> map<string, Node>)
      returns (calls: seq<EngineCall>)
    requires inFile != outFile
    modifies outFile
    ensures calls == EngineCalls()
    ensures outFile.root ==
      History.Merge(store(Rescaled(RunCalls(engine, load(inFile.root), calls))), inFile.name, inFile.root)
  {
    var loaded := load(inFile.root);
    var wf := new Wavefront(loaded.mesh, loaded.arrEver, loaded.arrEhor, loaded.others);
    calls := RunEngine(wf, engine);
    ConvertUnits(wf);
    outFile.root := store(SnapshotOf(wf));
    History.AddHistory(outFile, inFile);
  }

  // Properties of the unit conversion.

  /** The sample spacing shrinks by the same factor as the bounds. */
  lemma RescaledSpacing(m: Mesh)
    requires m.nx != 0 && m.ny != 0
    ensures XStep(RescaledMesh(m)) == XStep(m) * 0.0001
    ensures YStep(RescaledMesh(m)) == YStep(m) * 0.0001
  {
  }

  /** Each field sample is multiplied by `1e4`, and `1e-4` undoes it. */
  lemma ScaledFieldInverse(s: seq<real>)
    ensures forall i :: 0 <= i < |s| ==> ScaledField(s)[i] == s[i] * 10000.0
    ensures forall i :: 0 <= i < |s| ==> ScaledField(s)[i] * 0.0001 == s[i]
  {
  }

  /** Dropping the first sample commutes with scaling. */
  lemma ScaledFieldTail(s: seq<real>)
    requires |s| > 0
    ensures ScaledField(s)[1..] == ScaledField(s[1..])
  {
    var r := ScaledField(s);
    forall i | 0 <= i < |s| - 1 ensures r[1..][i] == ScaledField(s[1..])[i] {
      assert r[1..][i] == s[i + 1] * 10000.0;
    }
  }

  /** The maximum is scaled with the samples. */
  lemma {:induction false} ScaledFieldMax(s: seq<real>)
    requires |s| > 0
    ensures Fwhm.Max(ScaledField(s)) == Fwhm.Max(s) * 10000.0
  {
    if |s| > 1 {
      ScaledFieldTail(s);
      ScaledFieldMax(s[1..]);
    }
  }

  /** Scaling the samples and the threshold alike keeps the count. */
  lemma {:induction false} ScaledFieldCount(s: seq<real>, t: real)
    ensures Fwhm.CountAbove(ScaledField(s), t * 10000.0) == Fwhm.CountAbove(s, t)
  {
    if s != [] {
      ScaledFieldTail(s);
      ScaledFieldCount(s[1..], t);
    }
  }

  /** A sample lies above half the maximum exactly when its scaled value does. */
  lemma {:induction false} ScaledFieldAboveHalf(s: seq<real>)
    requires |s| > 0
    ensures forall i :: 0 <= i < |s| ==>
      (ScaledField(s)[i] > Fwhm.Max(ScaledField(s)) / 2.0 <==> s[i] > Fwhm.Max(s) / 2.0)
  {
    var half := Fwhm.Max(s) / 2.0;
    ScaledFieldMax(s);
    assert Fwhm.Max(ScaledField(s)) / 2.0 == half * 10000.0;
    forall i | 0 <= i < |s|
      ensures ScaledField(s)[i] > half * 10000.0 <==> s[i] > half
    {
      assert ScaledField(s)[i] == s[i] * 10000.0;
    }
  }

  /**
    Scaling `arrEver` by 1e4 keeps which samples of a slice lie above half
    its maximum, and so their number. This is about the field samples only:
    propagate.py computes no width.
  */
  lemma {:induction false} ScaledFieldHalfMaxCount(s: seq<real>)
    requires |s| > 0
    ensures forall i :: 0 <= i < |s| ==>
      (ScaledField(s)[i] > Fwhm.Max(ScaledField(s)) / 2.0 <==> s[i] > Fwhm.Max(s) / 2.0)
    ensures Fwhm.HalfMaxCount(ScaledField(s)) == Fwhm.HalfMaxCount(s)
  {
    assert Fwhm.HalfMaxCount(ScaledField(s)) == Fwhm.HalfMaxCount(s) by {
      ScaledFieldMax(s);
      ScaledFieldCount(s, Fwhm.Max(s) / 2.0);
    }
    ScaledFieldAboveHalf(s);
  }

  // Properties of the whole run.

  /** One drift of 100 with semi-analytical treatment, zoom 0.1 and sampling 4. */
  lemma PropagateStagesShape()
    ensures |PropagateStages()| == 1
    ensures PropagateStages()[0] == Stage(Drift(100.0), UsePP(Some(1), Some(0.1), Some(4.0)))
    ensures PositiveKnobs(PropagateStages()[0].treatment)
  {
  }

  /** The beamline runs between the switch to frequency and the switch back to time. */
  lemma EngineCallsOrder()
    ensures |EngineCalls()| == 3
    ensures EngineCalls()[0] == SetRepresentation(Frequency)
    ensures EngineCalls()[1] == RunBeamline(PropagateStages())
    ensures EngineCalls()[2] == SetRepresentation(Time)
  {
  }

  /**
    Storing happens before the merge: every stored entry other than
    `history` survives in the output, and `history` holds the input's lineage
    whatever the store wrote there.
  */
  lemma StoredBeforeMerge(stored: map<string, Node>, parentName: string, parentRoot: map<string, Node>)
    ensures var out := History.Merge(stored, parentName, parentRoot);
      && out.Keys == stored.Keys + {"history"}
      && (forall k :: k in stored && k != "history" ==> out[k] == stored[k])
      && out["history"] == History.HistoryNode(History.ParentCopy(parentName, parentRoot))
  {
    History.MergeOnlyHistory(stored, parentName, parentRoot);
  }
}
