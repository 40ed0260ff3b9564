/**
  A WPG wavefront as the propagation scripts see it: the mesh bounds and
  sample counts (`wf.params.Mesh`) and the field array `wf.data.arrEver`,
  which the scripts read or assign directly, and beside them the other
  polarisation `wf.data.arrEhor` and every other field `store_hdf5` writes,
  which the scripts pass on untouched.
*/
module Wavefronts {
  import opened Hdf5

  /** `wf.params.Mesh`: horizontal and vertical bounds and sample counts. */
  datatype Mesh = Mesh(xMin: real, xMax: real, nx: int, yMin: real, yMax: real, ny: int)

  /** A record's mesh: bounds in increasing order, positive sample counts. */
  predicate ValidMesh(m: Mesh)
  {
    m.xMin < m.xMax && m.yMin < m.yMax && m.nx > 0 && m.ny > 0
  }

  /** Horizontal sample spacing `(xMax - xMin) / nx`. */
  function XStep(m: Mesh): (dx: real)
    requires m.nx != 0
    ensures ValidMesh(m) ==> dx > 0.0
  {
    (m.xMax - m.xMin) / (m.nx as real)
  }

  /** Vertical sample spacing `(yMax - yMin) / ny`. */
  function YStep(m: Mesh): (dy: real)
    requires m.ny != 0
    ensures ValidMesh(m) ==> dy > 0.0
  {
    (m.yMax - m.yMin) / (m.ny as real)
  }

  /**
    A wavefront: its mesh, its two field arrays, and the remaining stored
    fields (the other parameters and the custom fields), keyed by their
    path in the record.
  */
  class Wavefront {
    var mesh: Mesh
    var arrEver: seq<real>
    var arrEhor: seq<real>
    var others: map<string, Node>

    constructor (mesh: Mesh, arrEver: seq<real>, arrEhor: seq<real>, others: map<string, Node>)
      ensures this.mesh == mesh && this.arrEver == arrEver
      ensures this.arrEhor == arrEhor && this.others == others
    {
      this.mesh := mesh;
      this.arrEver := arrEver;
      this.arrEhor := arrEhor;
      this.others := others;
    }
  }
}
