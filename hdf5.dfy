/**
  The hierarchical container of a wavefront record, reduced to what the lineage
  merge touches: a file is a map from top-level names to nodes, and a node is a
  group of named children, a dataset, or an external link into another file.
  Open modes, link resolution and on-disk encoding are not modelled.
*/
module Hdf5 {
  import opened Wrappers

  /** The payload of a dataset; the merge never looks inside it. */
  datatype Value = Number(x: real) | Numbers(xs: seq<real>) | Text(s: string)

  datatype Node =
    | Group(children: map<string, Node>)
    | Dataset(value: Value)
    | ExternalLink(file: string, path: string)

  /** An open file: its own name (as given to `h5py.File`) and its top-level entries. */
  class HFile {
    const name: string
    var root: map<string, Node>

    constructor (name: string, root: map<string, Node>)
      ensures this.name == name && this.root == root
    {
      this.name := name;
      this.root := root;
    }
  }

  /** The node reached from `m` by following the names of `path` through groups. */
  function Lookup(m: map<string, Node>, path: seq<string>): (r: Option<Node>)
    requires |path| > 0
    ensures r.Some? ==> path[0] in m
    ensures |path| == 1 ==> r == (if path[0] in m then Some(m[path[0]]) else None)
    decreases |path|
  {
    if path[0] !in m then None
    else if |path| == 1 then Some(m[path[0]])
    else if m[path[0]].Group? then Lookup(m[path[0]].children, path[1..])
    else None
  }

  /**
    Stores `v` at `path`, creating the groups along the way that are missing
    (h5py's `create_group` on a nested path, and item assignment into a group).
  */
  function Put(m: map<string, Node>, path: seq<string>, v: Node): (r: map<string, Node>)
    requires |path| > 0
    decreases |path|
  {
    if |path| == 1 then m[path[0] := v]
    else
      var below := if path[0] in m && m[path[0]].Group? then m[path[0]].children else map[];
      m[path[0] := Group(Put(below, path[1..], v))]
  }

  /** `Put` adds the first name of the path and leaves every other entry as it was. */
  lemma PutFrame(m: map<string, Node>, path: seq<string>, v: Node)
    requires |path| > 0
    ensures Put(m, path, v).Keys == m.Keys + {path[0]}
    ensures forall k :: k in m && k != path[0] ==> Put(m, path, v)[k] == m[k]
  {
  }

  /** What `Put` stores at a path, `Lookup` finds there. */
  lemma {:induction false} LookupPut(m: map<string, Node>, path: seq<string>, v: Node)
    requires |path| > 0
    ensures Lookup(Put(m, path, v), path) == Some(v)
    decreases |path|
  {
    if |path| > 1 {
      var below := if path[0] in m && m[path[0]].Group? then m[path[0]].children else map[];
      LookupPut(below, path[1..], v);
    }
  }

  /** The entries of `m` whose names are in `names`. */
  function Restrict(m: map<string, Node>, names: set<string>): (r: map<string, Node>)
    ensures r.Keys == m.Keys * names
    ensures forall k :: k in r ==> r[k] == m[k]
  {
    map k | k in m && k in names :: m[k]
  }

  /** `Lookup` on a path of two or more names descends into the group named first. */
  lemma LookupCons(m: map<string, Node>, a: string, rest: seq<string>)
    requires |rest| > 0
    ensures Lookup(m, [a] + rest)
         == if a in m && m[a].Group? then Lookup(m[a].children, rest) else None
  {
    assert ([a] + rest)[1..] == rest;
  }

  /** `Put` on a path of two or more names descends into the group named first. */
  lemma PutCons(m: map<string, Node>, a: string, rest: seq<string>, v: Node)
    requires |rest| > 0
    ensures Put(m, [a] + rest, v)
         == m[a := Group(Put(if a in m && m[a].Group? then m[a].children else map[], rest, v))]
  {
    assert ([a] + rest)[1..] == rest;
  }

  /** Restricting to every name keeps the whole map. */
  lemma RestrictAll(m: map<string, Node>, done: set<string>)
    requires done == m.Keys
    ensures Restrict(m, done) == m
  {
  }

  /**
    What a lineage merge stores for the parent entry `k`: the bulk `data`
    payload as an external link to `/data` of the parent file, any other
    entry as a copy.
  */
  function LinkedOrCopied(parentName: string, parentRoot: map<string, Node>, k: string): Node
    requires k in parentRoot
  {
    if k == "data" then ExternalLink(parentName, "/data") else parentRoot[k]
  }

  /** How many `parent` groups are nested one inside the other, starting at `n`. */
  function ParentChain(n: Node): nat
  {
    if n.Group? && "parent" in n.children then 1 + ParentChain(n.children["parent"]) else 0
  }
}
