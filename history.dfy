/**
  `add_history` of propagate.py: the single-level variant. Every top-level
  entry of the parent file is copied to `history/parent/<name>` (its own
  `history` included), except the bulk `data`, which becomes an external link.
*/
module History {
  import opened Wrappers
  import opened Hdf5

  /** The contents of `history/parent`: the whole parent, with `data` linked. */
  function ParentCopy(parentName: string, parentRoot: map<string, Node>): map<string, Node>
  {
    map k | k in parentRoot :: LinkedOrCopied(parentName, parentRoot, k)
  }

  /** The `history` branch holding `parent`. */
  function HistoryNode(parent: map<string, Node>): Node
  {
    Group(map["parent" := Group(parent)])
  }

  /** The output file's entries after the merge. */
  function Merge(root: map<string, Node>, parentName: string, parentRoot: map<string, Node>): (r: map<string, Node>)
    ensures r.Keys == root.Keys + {"history"}
    ensures forall k :: k in root && k != "history" ==> r[k] == root[k]
  {
    root["history" := HistoryNode(ParentCopy(parentName, parentRoot))]
  }

  /** Assigning into `history/parent` adds one entry. */
  lemma PutEntry(m: map<string, Node>, parent: map<string, Node>, k: string, v: Node)
    requires "history" in m && m["history"] == HistoryNode(parent)
    ensures Put(m, ["history", "parent", k], v) == m["history" := HistoryNode(parent[k := v])]
  {
    var hc := map["parent" := Group(parent)];
    var mid := Put(hc, ["parent", k], v);
    assert mid == map["parent" := Group(parent[k := v])] by {
      assert ["parent", k] == ["parent"] + [k];
      PutCons(hc, "parent", [k], v);
    }
    assert Put(m, ["history", "parent", k], v) == m["history" := Group(mid)] by {
      assert ["history", "parent", k] == ["history"] + ["parent", k];
      PutCons(m, "history", ["parent", k], v);
    }
  }

  /** Merging one more parent entry adds it to `history/parent`. */
  lemma RestrictAdd(parentName: string, parentRoot: map<string, Node>, done: set<string>, k: string)
    requires k in parentRoot && k !in done
    ensures ParentCopy(parentName, Restrict(parentRoot, done + {k}))
         == ParentCopy(parentName, Restrict(parentRoot, done))[k := LinkedOrCopied(parentName, parentRoot, k)]
  {
    var after := Restrict(parentRoot, done + {k});
    forall j | j in after
      ensures LinkedOrCopied(parentName, after, j) == LinkedOrCopied(parentName, parentRoot, j)
    {
    }
  }

  /** Adding one more parent entry to those already merged is one loop iteration. */
  lemma StepExtends(root: map<string, Node>, parentName: string, parentRoot: map<string, Node>, done: set<string>, k: string)
    requires k in parentRoot && k !in done
    ensures Put(Merge(root, parentName, Restrict(parentRoot, done)), ["history", "parent", k], LinkedOrCopied(parentName, parentRoot, k))
         == Merge(root, parentName, Restrict(parentRoot, done + {k}))
  {
    var m := Merge(root, parentName, Restrict(parentRoot, done));
    RestrictAdd(parentName, parentRoot, done, k);
    PutEntry(m, ParentCopy(parentName, Restrict(parentRoot, done)), k, LinkedOrCopied(parentName, parentRoot, k));
  }

  /** The `create_group` call leaves an empty `history/parent`, which is the merge of nothing. */
  lemma CreateGroup(m: map<string, Node>, parentName: string, parentRoot: map<string, Node>)
    requires "history" !in m
    ensures Put(m, ["history", "parent"], Group(map[])) == Merge(m, parentName, Restrict(parentRoot, {}))
  {
    assert ["history", "parent"] == ["history"] + ["parent"];
    PutCons(m, "history", ["parent"], Group(map[]));
    assert Restrict(parentRoot, {}) == map[];
    assert ParentCopy(parentName, map[]) == map[];
  }

  /** The body of the `for k in history_h5` loop for one parent entry `k`. */
  method MergeEntry(wf: HFile, parent: HFile, k: string)
    requires wf != parent && k in parent.root
    modifies wf
    ensures wf.root == Put(old(wf.root), ["history", "parent", k], LinkedOrCopied(parent.name, parent.root, k))
  {
    if k != "data" {
      wf.root := Put(wf.root, ["history", "parent", k], parent.root[k]);
    } else {
      wf.root := Put(wf.root, ["history", "parent", "data"], ExternalLink(parent.name, "/data"));
    }
  }

  /**
    `add_history(wf_file_name, history_file_name)` of propagate.py: `wf` is the
    output file, `parent` the file it was propagated from, visited in any order.
  */
  method AddHistory(wf: HFile, parent: HFile)
    requires wf != parent
    modifies wf
    ensures wf.root == Merge(old(wf.root), parent.name, parent.root)
  {
    ghost var start := wf.root;
    if "history" in wf.root {
      wf.root := wf.root - {"history"};
    }
    ghost var source := parent.root;
    CreateGroup(wf.root, parent.name, source);
    wf.root := Put(wf.root, ["history", "parent"], Group(map[]));
    assert wf.root == Merge(start, parent.name, Restrict(source, {}));
    ghost var done: set<string> := {};
    var pending := parent.root.Keys;
    while pending != {}
      invariant parent.root == source
      invariant done !! pending && done + pending == source.Keys
      invariant wf.root == Merge(start, parent.name, Restrict(source, done))
      decreases pending
    {
      var k :| k in pending;
      MergeEntry(wf, parent, k);
      StepExtends(start, parent.name, source, done, k);
      done, pending := done + {k}, pending - {k};
    }
    RestrictAll(source, done);
  }

  // Properties of the merge.

  /** Merging twice from the same parent leaves what merging once left. */
  lemma MergeIdempotent(root: map<string, Node>, parentName: string, parentRoot: map<string, Node>)
    ensures Merge(Merge(root, parentName, parentRoot), parentName, parentRoot) == Merge(root, parentName, parentRoot)
  {
  }

  /** Only `history` is written: every other entry of the output is kept as it was. */
  lemma MergeOnlyHistory(root: map<string, Node>, parentName: string, parentRoot: map<string, Node>)
    ensures Merge(root, parentName, parentRoot).Keys == root.Keys + {"history"}
    ensures forall k :: k in root && k != "history" ==> Merge(root, parentName, parentRoot)[k] == root[k]
  {
  }

  /**
    `history/parent/<k>` holds a deep copy of every parent entry but `data`
    (the parent's own `history` included), a link to `/data` of the parent
    file for `data`, and nothing for names the parent lacks.
  */
  lemma ParentContents(root: map<string, Node>, parentName: string, parentRoot: map<string, Node>, k: string)
    ensures Lookup(Merge(root, parentName, parentRoot), ["history", "parent", k])
         == if k !in parentRoot then None
            else if k == "data" then Some(ExternalLink(parentName, "/data"))
            else Some(parentRoot[k])
  {
    var pc := ParentCopy(parentName, parentRoot);
    assert ["history", "parent", k] == ["history"] + ["parent", k];
    LookupCons(Merge(root, parentName, parentRoot), "history", ["parent", k]);
    assert ["parent", k] == ["parent"] + [k];
    LookupCons(map["parent" := Group(pc)], "parent", [k]);
  }

  /** Generations along `history/parent/history/parent/...` starting at a `history` node. */
  function HistoryChain(n: Node): nat
  {
    if n.Group? && "parent" in n.children then
      var p := n.children["parent"];
      1 + (if p.Group? && "history" in p.children then HistoryChain(p.children["history"]) else 0)
    else 0
  }

  /** Generations recorded in a file. */
  function LineageDepth(root: map<string, Node>): nat
  {
    if "history" in root then HistoryChain(root["history"]) else 0
  }

  /** The lineage is not flattened: each merge records exactly one generation more than the parent holds. */
  lemma LineageDepthGrows(root: map<string, Node>, parentName: string, parentRoot: map<string, Node>)
    ensures LineageDepth(Merge(root, parentName, parentRoot)) == 1 + LineageDepth(parentRoot)
  {
    var pc := ParentCopy(parentName, parentRoot);
    assert "history" in pc <==> "history" in parentRoot;
    if "history" in parentRoot {
      assert pc["history"] == parentRoot["history"];
    }
  }
}
