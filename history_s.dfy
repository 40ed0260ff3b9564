/**
  `add_history` of propagateS.py: rebuilds the `history` branch of an output
  file from the top-level entries of the file it was propagated from.
  The merged branch is `history/parent/detail/<name>` for every ordinary entry
  of the parent, an external link `history/parent/detail/data` in place of the
  parent's bulk `data`, and `history/parent/parent` for the parent's own
  `/history/parent` when there is one.
*/
module HistoryS {
  import opened Wrappers
  import opened Hdf5

  /** What `copy('/history/parent', ...)` finds in the parent file; a missing path raises KeyError, which is skipped. */
  function Grandparent(parentRoot: map<string, Node>): (r: Option<Node>)
    ensures r == Lookup(parentRoot, ["history", "parent"])
  {
    if "history" in parentRoot && parentRoot["history"].Group? && "parent" in parentRoot["history"].children
    then Some(parentRoot["history"].children["parent"])
    else None
  }

  /** The contents of `history/parent/detail`: every entry but `history`, with `data` linked. */
  function Detail(parentName: string, parentRoot: map<string, Node>): map<string, Node>
  {
    map k | k in parentRoot && k != "history" :: LinkedOrCopied(parentName, parentRoot, k)
  }

  /** The `history/parent` group: `detail` and, when present, a copied grandparent lineage. */
  function ParentGroup(detail: map<string, Node>, grandparent: Option<Node>): map<string, Node>
  {
    match grandparent
    case Some(g) => map["detail" := Group(detail), "parent" := g]
    case None => map["detail" := Group(detail)]
  }

  function HistoryNode(detail: map<string, Node>, grandparent: Option<Node>): Node
  {
    Group(map["parent" := Group(ParentGroup(detail, grandparent))])
  }

  /** The `history` branch that the merge leaves in the output file. */
  function MergedHistory(parentName: string, parentRoot: map<string, Node>): Node
  {
    HistoryNode(Detail(parentName, parentRoot), Grandparent(parentRoot))
  }

  /** The output file's entries after the merge. */
  function Merge(root: map<string, Node>, parentName: string, parentRoot: map<string, Node>): (r: map<string, Node>)
    ensures r.Keys == root.Keys + {"history"}
    ensures forall k :: k in root && k != "history" ==> r[k] == root[k]
  {
    root["history" := MergedHistory(parentName, parentRoot)]
  }

  /** One iteration of the loop of `add_history` for the parent entry `k`. */
  function Step(root: map<string, Node>, parentName: string, parentRoot: map<string, Node>, k: string): map<string, Node>
    requires k in parentRoot
  {
    if k == "history" then
      match Grandparent(parentRoot)
      case Some(g) => Put(root, ["history", "parent", "parent"], g)
      case None => root
    else Put(root, ["history", "parent", "detail", k], LinkedOrCopied(parentName, parentRoot, k))
  }

  /** Assigning into `history/parent/detail` adds one detail entry. */
  lemma PutDetail(m: map<string, Node>, detail: map<string, Node>, g: Option<Node>, k: string, v: Node)
    requires "history" in m && m["history"] == HistoryNode(detail, g)
    ensures Put(m, ["history", "parent", "detail", k], v) == m["history" := HistoryNode(detail[k := v], g)]
  {
    var pg := ParentGroup(detail, g);
    var hc := map["parent" := Group(pg)];
    var inner := Put(pg, ["detail", k], v);
    assert inner == ParentGroup(detail[k := v], g) by {
      assert ["detail", k] == ["detail"] + [k];
      PutCons(pg, "detail", [k], v);
    }
    var mid := Put(hc, ["parent", "detail", k], v);
    assert mid == map["parent" := Group(inner)] by {
      assert ["parent", "detail", k] == ["parent"] + ["detail", k];
      PutCons(hc, "parent", ["detail", k], v);
    }
    assert Put(m, ["history", "parent", "detail", k], v) == m["history" := Group(mid)] by {
      assert ["history", "parent", "detail", k] == ["history"] + ["parent", "detail", k];
      PutCons(m, "history", ["parent", "detail", k], v);
    }
  }

  /** Copying the grandparent under `history/parent` adds the `parent` entry. */
  lemma PutGrandparent(m: map<string, Node>, detail: map<string, Node>, g: Node)
    requires "history" in m && m["history"] == HistoryNode(detail, None)
    ensures Put(m, ["history", "parent", "parent"], g) == m["history" := HistoryNode(detail, Some(g))]
  {
    var pg := ParentGroup(detail, None);
    var hc := map["parent" := Group(pg)];
    var inner := Put(pg, ["parent"], g);
    assert inner == ParentGroup(detail, Some(g));
    var mid := Put(hc, ["parent", "parent"], g);
    assert mid == map["parent" := Group(inner)] by {
      assert ["parent", "parent"] == ["parent"] + ["parent"];
      PutCons(hc, "parent", ["parent"], g);
    }
    assert Put(m, ["history", "parent", "parent"], g) == m["history" := Group(mid)] by {
      assert ["history", "parent", "parent"] == ["history"] + ["parent", "parent"];
      PutCons(m, "history", ["parent", "parent"], g);
    }
  }

  /** Merging the parent's `history` entry supplies the grandparent and leaves the detail alone. */
  lemma RestrictAddHistory(parentName: string, parentRoot: map<string, Node>, done: set<string>)
    requires "history" in parentRoot && "history" !in done
    ensures Grandparent(Restrict(parentRoot, done)) == None
    ensures Grandparent(Restrict(parentRoot, done + {"history"})) == Grandparent(parentRoot)
    ensures Detail(parentName, Restrict(parentRoot, done + {"history"})) == Detail(parentName, Restrict(parentRoot, done))
  {
  }

  /** Merging any other entry adds one detail entry and leaves the grandparent alone. */
  lemma RestrictAddOther(parentName: string, parentRoot: map<string, Node>, done: set<string>, k: string)
    requires k in parentRoot && k !in done && k != "history"
    ensures Grandparent(Restrict(parentRoot, done + {k})) == Grandparent(Restrict(parentRoot, done))
    ensures Detail(parentName, Restrict(parentRoot, done + {k}))
         == Detail(parentName, Restrict(parentRoot, done))[k := LinkedOrCopied(parentName, parentRoot, k)]
  {
    var before := Restrict(parentRoot, done);
    var after := Restrict(parentRoot, done + {k});
    forall j | j in after && j != "history"
      ensures LinkedOrCopied(parentName, after, j) == LinkedOrCopied(parentName, parentRoot, j)
    {
    }
  }

  /** The loop iteration for the parent's `history` entry. */
  lemma StepHistory(root: map<string, Node>, parentName: string, parentRoot: map<string, Node>, done: set<string>)
    requires "history" in parentRoot && "history" !in done
    ensures Step(Merge(root, parentName, Restrict(parentRoot, done)), parentName, parentRoot, "history")
         == Merge(root, parentName, Restrict(parentRoot, done + {"history"}))
  {
    var m := Merge(root, parentName, Restrict(parentRoot, done));
    var d := Detail(parentName, Restrict(parentRoot, done));
    RestrictAddHistory(parentName, parentRoot, done);
    match Grandparent(parentRoot)
    case Some(g) => PutGrandparent(m, d, g);
    case None =>
  }

  /** The loop iteration for any other parent entry. */
  lemma StepOther(root: map<string, Node>, parentName: string, parentRoot: map<string, Node>, done: set<string>, k: string)
    requires k in parentRoot && k !in done && k != "history"
    ensures Step(Merge(root, parentName, Restrict(parentRoot, done)), parentName, parentRoot, k)
         == Merge(root, parentName, Restrict(parentRoot, done + {k}))
  {
    var before := Restrict(parentRoot, done);
    var m := Merge(root, parentName, before);
    var d := Detail(parentName, before);
    RestrictAddOther(parentName, parentRoot, done, k);
    PutDetail(m, d, Grandparent(before), k, LinkedOrCopied(parentName, parentRoot, k));
  }

  /** Adding one more parent entry to those already merged is one loop iteration. */
  lemma StepExtends(root: map<string, Node>, parentName: string, parentRoot: map<string, Node>, done: set<string>, k: string)
    requires k in parentRoot && k !in done
    ensures Step(Merge(root, parentName, Restrict(parentRoot, done)), parentName, parentRoot, k)
         == Merge(root, parentName, Restrict(parentRoot, done + {k}))
  {
    if k == "history" {
      StepHistory(root, parentName, parentRoot, done);
    } else {
      StepOther(root, parentName, parentRoot, done, k);
    }
  }

  /** The two `create_group` calls leave an empty `history/parent/detail`. */
  lemma CreateGroups(m: map<string, Node>)
    requires "history" !in m
    ensures Put(Put(m, ["history", "parent"], Group(map[])), ["history", "parent", "detail"], Group(map[]))
         == m["history" := HistoryNode(map[], None)]
  {
    var empty: map<string, Node> := map[];
    assert ["history", "parent"] == ["history"] + ["parent"];
    PutCons(m, "history", ["parent"], Group(empty));
    var m1 := Put(m, ["history", "parent"], Group(empty));
    assert m1 == m["history" := Group(map["parent" := Group(empty)])];
    var hc := map["parent" := Group(empty)];
    assert ["history", "parent", "detail"] == ["history"] + ["parent", "detail"];
    PutCons(m1, "history", ["parent", "detail"], Group(empty));
    assert ["parent", "detail"] == ["parent"] + ["detail"];
    PutCons(hc, "parent", ["detail"], Group(empty));
    assert Put(empty, ["detail"], Group(empty)) == ParentGroup(empty, None);
    assert hc["parent" := Group(ParentGroup(empty, None))] == map["parent" := Group(ParentGroup(empty, None))];
    assert m1["history" := HistoryNode(empty, None)] == m["history" := HistoryNode(empty, None)];
  }

  /** The body of the `for k in history_h5` loop for one parent entry `k`. */
  method MergeEntry(wf: HFile, parent: HFile, k: string)
    requires wf != parent && k in parent.root
    modifies wf
    ensures wf.root == Step(old(wf.root), parent.name, parent.root, k)
  {
    if k == "history" {
      var g := Grandparent(parent.root);
      if g.Some? {
        wf.root := Put(wf.root, ["history", "parent", "parent"], g.value);
      }
    } else if k != "data" {
      wf.root := Put(wf.root, ["history", "parent", "detail", k], parent.root[k]);
    } else {
      wf.root := Put(wf.root, ["history", "parent", "detail", "data"], ExternalLink(parent.name, "/data"));
    }
  }

  /** Before any parent entry is visited the merge holds only the empty groups. */
  lemma MergeNothing(root: map<string, Node>, parentName: string, parentRoot: map<string, Node>)
    ensures Merge(root, parentName, Restrict(parentRoot, {}))
         == (root - {"history"})["history" := HistoryNode(map[], None)]
  {
    assert Restrict(parentRoot, {}) == map[];
    assert Detail(parentName, map[]) == map[];
  }

  /**
    `add_history(wf_file_name, history_file_name)`: `wf` is the output file,
    `parent` the file it was propagated from. The parent entries are visited
    in any order (h5py visits them by name); the result does not depend on it.
  */
  method AddHistory(wf: HFile, parent: HFile)
    requires wf != parent
    modifies wf
    ensures wf.root == Merge(old(wf.root), parent.name, parent.root)
  {
    ghost var start := wf.root;
    if "history" in wf.root {
      wf.root := wf.root - {"history"};
    }
    CreateGroups(wf.root);
    wf.root := Put(wf.root, ["history", "parent"], Group(map[]));
    wf.root := Put(wf.root, ["history", "parent", "detail"], Group(map[]));
    ghost var source := parent.root;
    ghost var done: set<string> := {};
    MergeNothing(start, parent.name, source);
    var pending := parent.root.Keys;
    while pending != {}
      invariant parent.root == source
      invariant done !! pending && done + pending == source.Keys
      invariant wf.root == Merge(start, parent.name, Restrict(source, done))
      decreases pending
    {
      var k :| k in pending;
      MergeEntry(wf, parent, k);
      StepExtends(start, parent.name, source, done, k);
      done, pending := done + {k}, pending - {k};
    }
    RestrictAll(source, done);
  }

  // Properties of the merge.

  /** Merging twice from the same parent leaves what merging once left. */
  lemma MergeIdempotent(root: map<string, Node>, parentName: string, parentRoot: map<string, Node>)
    ensures Merge(Merge(root, parentName, parentRoot), parentName, parentRoot) == Merge(root, parentName, parentRoot)
  {
  }

  /** Only `history` is written: every other entry of the output is kept as it was. */
  lemma MergeOnlyHistory(root: map<string, Node>, parentName: string, parentRoot: map<string, Node>)
    ensures Merge(root, parentName, parentRoot).Keys == root.Keys + {"history"}
    ensures forall k :: k in root && k != "history" ==> Merge(root, parentName, parentRoot)[k] == root[k]
  {
  }

  /** The merged `history` does not depend on what the output held before. */
  lemma MergeForgetsOldHistory(root1: map<string, Node>, root2: map<string, Node>, parentName: string, parentRoot: map<string, Node>)
    ensures Merge(root1, parentName, parentRoot)["history"] == Merge(root2, parentName, parentRoot)["history"]
  {
  }

  /** The node found under `history/parent/detail/<k>` in a merged file. */
  lemma LookupDetail(root: map<string, Node>, parentName: string, parentRoot: map<string, Node>, k: string)
    ensures Lookup(Merge(root, parentName, parentRoot), ["history", "parent", "detail", k])
         == Lookup(Detail(parentName, parentRoot), [k])
  {
    var pg := ParentGroup(Detail(parentName, parentRoot), Grandparent(parentRoot));
    assert ["history", "parent", "detail", k] == ["history"] + ["parent", "detail", k];
    LookupCons(Merge(root, parentName, parentRoot), "history", ["parent", "detail", k]);
    assert ["parent", "detail", k] == ["parent"] + ["detail", k];
    LookupCons(map["parent" := Group(pg)], "parent", ["detail", k]);
    assert ["detail", k] == ["detail"] + [k];
    LookupCons(pg, "detail", [k]);
  }

  /**
    Every ordinary parent entry is deep-copied to `history/parent/detail/<k>`;
    the parent's `data` is never copied but linked to `/data` of the parent file;
    `history` is not put under `detail`, and nothing else is.
  */
  lemma DetailContents(root: map<string, Node>, parentName: string, parentRoot: map<string, Node>, k: string)
    ensures k in parentRoot && k != "history" && k != "data" ==>
      Lookup(Merge(root, parentName, parentRoot), ["history", "parent", "detail", k]) == Some(parentRoot[k])
    ensures k == "data" ==>
      Lookup(Merge(root, parentName, parentRoot), ["history", "parent", "detail", k])
        == if "data" in parentRoot then Some(ExternalLink(parentName, "/data")) else None
    ensures k !in parentRoot || k == "history" ==>
      Lookup(Merge(root, parentName, parentRoot), ["history", "parent", "detail", k]) == None
  {
    LookupDetail(root, parentName, parentRoot, k);
  }

  /** The parent's own `/history/parent`, when it has one, is nested at `history/parent/parent`. */
  lemma GrandparentNested(root: map<string, Node>, parentName: string, parentRoot: map<string, Node>)
    ensures Lookup(Merge(root, parentName, parentRoot), ["history", "parent", "parent"])
         == Lookup(parentRoot, ["history", "parent"])
  {
    var pg := ParentGroup(Detail(parentName, parentRoot), Grandparent(parentRoot));
    assert ["history", "parent", "parent"] == ["history"] + ["parent", "parent"];
    LookupCons(Merge(root, parentName, parentRoot), "history", ["parent", "parent"]);
    assert ["parent", "parent"] == ["parent"] + ["parent"];
    LookupCons(map["parent" := Group(pg)], "parent", ["parent"]);
  }

  /** Generations recorded in a file: the `parent` groups nested under its `history`. */
  function LineageDepth(root: map<string, Node>): nat
  {
    if "history" in root then ParentChain(root["history"]) else 0
  }

  /** The lineage is not flattened: each merge records exactly one generation more than the parent holds. */
  lemma LineageDepthGrows(root: map<string, Node>, parentName: string, parentRoot: map<string, Node>)
    ensures LineageDepth(Merge(root, parentName, parentRoot)) == 1 + LineageDepth(parentRoot)
  {
    var d := Detail(parentName, parentRoot);
    var h := MergedHistory(parentName, parentRoot);
    assert ParentChain(h) == 1 + ParentChain(Group(ParentGroup(d, Grandparent(parentRoot))));
    match Grandparent(parentRoot)
    case Some(g) =>
      assert ParentChain(Group(ParentGroup(d, Some(g)))) == 1 + ParentChain(g);
    case None =>
      assert ParentChain(Group(ParentGroup(d, None))) == 0;
  }
}
