/**
  The batch side of propagateS.py: which files a directory run picks up,
  the output path each one is written to, the job list handed to the worker
  pool, the default number of workers and the choice between directory mode
  and single-file mode made from the command-line options.
*/
module Batch {
  import opened Wrappers

  const InputPrefix: string := "FELsource_out"
  const OutputPrefix: string := "prop_out"
  const Extension: string := ".h5"

  /**
    Python's `s.replace(pat, rep)`: every non-overlapping occurrence, left to
    right. Replacing a pattern by itself changes nothing.
  */
  function ReplaceAll(s: string, pat: string, rep: string): (r: string)
    ensures pat != [] && rep == pat ==> r == s
    decreases |s|
  {
    if pat == [] then
      (if s == [] then rep else rep + [s[0]] + ReplaceAll(s[1..], pat, rep))
    else if |s| < |pat| then s
    else if s[..|pat|] == pat then
      assert s[..|pat|] + s[|pat|..] == s;
      rep + ReplaceAll(s[|pat|..], pat, rep)
    else
      assert [s[0]] + s[1..] == s;
      [s[0]] + ReplaceAll(s[1..], pat, rep)
  }

  /** No separator appears that neither the string nor the replacement holds. */
  lemma {:induction false} ReplaceNoSeparator(s: string, pat: string, rep: string)
    requires '/' !in s && '/' !in rep
    ensures '/' !in ReplaceAll(s, pat, rep)
    decreases |s|
  {
    if pat == [] {
      if s != [] {
        assert s == [s[0]] + s[1..];
        ReplaceNoSeparator(s[1..], pat, rep);
      }
    } else if |s| >= |pat| && s[..|pat|] == pat {
      assert s == s[..|pat|] + s[|pat|..];
      ReplaceNoSeparator(s[|pat|..], pat, rep);
    } else if |s| >= |pat| {
      assert s == [s[0]] + s[1..];
      ReplaceNoSeparator(s[1..], pat, rep);
    }
  }

  /** `pat` occurs in `s` starting at index `i`. */
  predicate OccursAt(s: string, pat: string, i: int)
  {
    0 <= i && i + |pat| <= |s| && s[i..i + |pat|] == pat
  }

  /** A string in which `pat` does not occur is left as it is. */
  lemma {:induction false} ReplaceAbsent(s: string, pat: string, rep: string)
    requires pat != []
    requires forall i :: !OccursAt(s, pat, i)
    ensures ReplaceAll(s, pat, rep) == s
  {
    if |s| >= |pat| {
      assert !OccursAt(s, pat, 0);
      forall i ensures !OccursAt(s[1..], pat, i) {
        if OccursAt(s[1..], pat, i) {
          assert s[1..][i..i + |pat|] == s[i + 1..i + 1 + |pat|];
          assert OccursAt(s, pat, i + 1);
        }
      }
      ReplaceAbsent(s[1..], pat, rep);
      assert [s[0]] + s[1..] == s;
    }
  }

  /** A string that starts with `pat` starts with `rep` once replaced. */
  lemma ReplaceLeading(pat: string, rest: string, rep: string)
    requires pat != []
    ensures ReplaceAll(pat + rest, pat, rep) == rep + ReplaceAll(rest, pat, rep)
  {
    var s := pat + rest;
    assert s[..|pat|] == pat;
    assert s[|pat|..] == rest;
  }

  /** `os.path.split(p)[-1]`: the part after the last `/`. */
  function Basename(p: string): (b: string)
    ensures '/' !in b
  {
    if p == [] || p[|p| - 1] == '/' then [] else Basename(p[..|p| - 1]) + [p[|p| - 1]]
  }

  /** The base name is the tail of the path, and the path has a separator just before it. */
  lemma {:induction false} BasenameIsTail(p: string)
    ensures var b := Basename(p);
      && |b| <= |p| && p[|p| - |b|..] == b
      && (|b| < |p| ==> p[|p| - |b| - 1] == '/')
  {
    if p != [] && p[|p| - 1] != '/' {
      var init := p[..|p| - 1];
      BasenameIsTail(init);
      var b := Basename(init);
      assert Basename(p) == b + [p[|p| - 1]];
      assert p[|p| - |b| - 1..] == init[|init| - |b|..] + [p[|p| - 1]];
    }
  }

  /**
    `os.path.join(a, b)` for two components: `b` always ends the result; an
    absolute `b` is the whole result, otherwise `a` starts it and, when `a`
    is not empty, a separator comes right before `b`.
  */
  function Join(a: string, b: string): (r: string)
    ensures |r| >= |b| && r[|r| - |b|..] == b
    ensures |b| > 0 && b[0] == '/' ==> r == b
    ensures !(|b| > 0 && b[0] == '/') ==> |r| >= |a| && r[..|a|] == a
    ensures !(|b| > 0 && b[0] == '/') && a != [] ==> |r| > |b| && r[|r| - |b| - 1] == '/'
  {
    if |b| > 0 && b[0] == '/' then b
    else if a == [] || a[|a| - 1] == '/' then a + b
    else a + "/" + b
  }

  /** The base name of a path ending in a separator followed by a plain name is that name. */
  lemma {:induction false} BasenameAfterSeparator(dir: string, name: string)
    requires dir == [] || dir[|dir| - 1] == '/'
    requires '/' !in name
    ensures Basename(dir + name) == name
  {
    if name != [] {
      var p := dir + name;
      var init := name[..|name| - 1];
      assert p[..|p| - 1] == dir + init;
      assert '/' !in init by {
        forall i | 0 <= i < |init| ensures init[i] != '/' {
          assert init[i] == name[i];
        }
      }
      BasenameAfterSeparator(dir, init);
      assert p[|p| - 1] == name[|name| - 1] && name[|name| - 1] != '/';
      assert Basename(p) == Basename(dir + init) + [name[|name| - 1]];
      assert init + [name[|name| - 1]] == name;
    } else {
      assert dir + name == dir;
    }
  }

  /** A directory joined with a plain name has that name as its base name. */
  lemma JoinBasename(dir: string, name: string)
    requires '/' !in name
    ensures Basename(Join(dir, name)) == name
  {
    if |name| > 0 && name[0] == '/' {
    } else if dir == [] || dir[|dir| - 1] == '/' {
      BasenameAfterSeparator(dir, name);
    } else {
      assert dir + "/" + name == (dir + "/") + name;
      BasenameAfterSeparator(dir + "/", name);
    }
  }

  /** `fnmatch` of a plain directory entry against `FELsource_out*.h5`. */
  predicate MatchesInputPattern(name: string)
    ensures MatchesInputPattern(name) ==>
      && |name| >= |InputPrefix| + |Extension|
      && name == InputPrefix + name[|InputPrefix|..|name| - |Extension|] + Extension
  {
    && |name| >= |InputPrefix| + |Extension|
    && name[..|InputPrefix|] == InputPrefix
    && name[|name| - |Extension|..] == Extension
  }

  /** The wildcard takes any middle part, the empty one included. */
  lemma MatchesAnyMiddle(mid: string)
    ensures MatchesInputPattern(InputPrefix + mid + Extension)
  {
    var name := InputPrefix + mid + Extension;
    assert name[..|InputPrefix|] == InputPrefix;
    assert name[|name| - |Extension|..] == Extension;
  }

  /** `glob(os.path.join(dir, 'FELsource_out*.h5'))` over the entries of `dir`, in listing order. */
  function Glob(dir: string, entries: seq<string>): (r: seq<string>)
    ensures |r| <= |entries|
  {
    if entries == [] then []
    else if MatchesInputPattern(entries[0]) then [Join(dir, entries[0])] + Glob(dir, entries[1..])
    else Glob(dir, entries[1..])
  }

  /** The output file for one input: its base name with the prefix rewritten, in the output directory. */
  function OutputPath(outDir: string, inPath: string): (o: string)
    ensures Basename(o) == ReplaceAll(Basename(inPath), InputPrefix, OutputPrefix)
    ensures |o| >= |outDir| && o[..|outDir|] == outDir
  {
    var name := ReplaceAll(Basename(inPath), InputPrefix, OutputPrefix);
    ReplaceNoSeparator(Basename(inPath), InputPrefix, OutputPrefix);
    JoinBasename(outDir, name);
    Join(outDir, name)
  }

  /** One job for the worker pool: `(in_fname, out_fname)`. */
  datatype Job = Job(input: string, output: string)

  /** `zip(inputs, outputs)` of two lists of the same length. */
  function Zip(inputs: seq<string>, outputs: seq<string>): (jobs: seq<Job>)
    requires |inputs| == |outputs|
    ensures |jobs| == |inputs|
    ensures forall i :: 0 <= i < |jobs| ==> jobs[i].input == inputs[i] && jobs[i].output == outputs[i]
  {
    seq(|inputs|, i requires 0 <= i < |inputs| => Job(inputs[i], outputs[i]))
  }

  /**
    The job list `zip(input_files, out_files)` that `directory_process` hands
    to `Pool.map`; the pool itself (and `cpu_number`, which only sizes it)
    is not part of this model.
  */
  method DirectoryJobs(inDir: string, outDir: string, entries: seq<string>) returns (jobs: seq<Job>)
    ensures var inputs := Glob(inDir, entries);
      && |jobs| == |inputs|
      && forall i :: 0 <= i < |jobs| ==> jobs[i] == Job(inputs[i], OutputPath(outDir, inputs[i]))
  {
    var inputFiles := Glob(inDir, entries);
    var outFiles: seq<string> := [];
    for n := 0 to |inputFiles|
      invariant |outFiles| == n
      invariant forall i :: 0 <= i < n ==> outFiles[i] == OutputPath(outDir, inputFiles[i])
    {
      var inFileName := Basename(inputFiles[n]);
      var outFileName := ReplaceAll(inFileName, InputPrefix, OutputPrefix);
      assert Join(outDir, outFileName) == OutputPath(outDir, inputFiles[n]);
      outFiles := outFiles + [Join(outDir, outFileName)];
    }
    jobs := Zip(inputFiles, outFiles);
  }

  /** Every file the glob picks up lies in the input directory under a name that matches the pattern. */
  lemma {:induction false} GlobMatches(dir: string, entries: seq<string>, k: int)
    requires 0 <= k < |Glob(dir, entries)|
    ensures exists e :: e in entries && MatchesInputPattern(e) && Glob(dir, entries)[k] == Join(dir, e)
  {
    var first := entries[0];
    if MatchesInputPattern(first) && k == 0 {
      assert Glob(dir, entries)[0] == Join(dir, first);
      assert first in entries;
    } else {
      var j := if MatchesInputPattern(first) then k - 1 else k;
      assert Glob(dir, entries)[k] == Glob(dir, entries[1..])[j];
      GlobMatches(dir, entries[1..], j);
      var e :| e in entries[1..] && MatchesInputPattern(e) && Glob(dir, entries[1..])[j] == Join(dir, e);
      assert e in entries;
    }
  }

  /** Every entry that matches the pattern is picked up by the glob. */
  lemma {:induction false} GlobComplete(dir: string, entries: seq<string>, e: string)
    requires e in entries && MatchesInputPattern(e)
    ensures Join(dir, e) in Glob(dir, entries)
  {
    if entries[0] != e {
      GlobComplete(dir, entries[1..], e);
    }
  }

  /** The glob keeps the listing order: a listing split in two globs as the two parts, one after the other. */
  lemma {:induction false} GlobAppend(dir: string, a: seq<string>, b: seq<string>)
    ensures Glob(dir, a + b) == Glob(dir, a) + Glob(dir, b)
  {
    if a != [] {
      assert (a + b)[1..] == a[1..] + b;
      GlobAppend(dir, a[1..], b);
    } else {
      assert a + b == b;
    }
  }

  /** A single entry globs to its joined path when it matches and to nothing otherwise. */
  lemma GlobSingle(dir: string, e: string)
    ensures Glob(dir, [e]) == if MatchesInputPattern(e) then [Join(dir, e)] else []
  {
    assert [e][1..] == [];
  }

  /** An input path in any directory, for a plain entry name, is written under the rewritten name. */
  lemma OutputOfPlainName(inDir: string, outDir: string, name: string)
    requires '/' !in name
    ensures OutputPath(outDir, Join(inDir, name)) == Join(outDir, ReplaceAll(name, InputPrefix, OutputPrefix))
  {
    JoinBasename(inDir, name);
  }

  /** A name that matches the pattern has its leading `FELsource_out` rewritten to `prop_out`. */
  lemma RewriteMatchedName(entry: string)
    requires MatchesInputPattern(entry)
    ensures ReplaceAll(entry, InputPrefix, OutputPrefix)
         == OutputPrefix + ReplaceAll(entry[|InputPrefix|..], InputPrefix, OutputPrefix)
  {
    var rest := entry[|InputPrefix|..];
    assert entry == InputPrefix + rest;
    ReplaceLeading(InputPrefix, rest, OutputPrefix);
  }

  /** An input picked up by the glob is written to a `prop_out` file in the output directory. */
  lemma OutputOfMatchedEntry(inDir: string, outDir: string, entry: string)
    requires '/' !in entry && MatchesInputPattern(entry)
    ensures var rest := entry[|InputPrefix|..];
      OutputPath(outDir, Join(inDir, entry)) == Join(outDir, OutputPrefix + ReplaceAll(rest, InputPrefix, OutputPrefix))
  {
    OutputOfPlainName(inDir, outDir, entry);
    RewriteMatchedName(entry);
  }

  /**
    Two different input names that end up with the same output name: the
    replacement rewrites every occurrence of the prefix, not only the leading one.
  */
  lemma OutputNamesCollide()
    ensures MatchesInputPattern("FELsource_outprop_out.h5") && MatchesInputPattern("FELsource_outFELsource_out.h5")
    ensures ReplaceAll("FELsource_outprop_out.h5", InputPrefix, OutputPrefix)
         == ReplaceAll("FELsource_outFELsource_out.h5", InputPrefix, OutputPrefix)
         == "prop_outprop_out.h5"
  {
    assert "FELsource_outprop_out.h5" == InputPrefix + "prop_out.h5";
    assert "FELsource_outFELsource_out.h5" == InputPrefix + (InputPrefix + ".h5");
    ReplaceLeading(InputPrefix, "prop_out.h5", OutputPrefix);
    ReplaceLeading(InputPrefix, InputPrefix + ".h5", OutputPrefix);
    ReplaceLeading(InputPrefix, ".h5", OutputPrefix);
  }

  /** The default of `--cpu-number`: `int((cpu_count + 1) / 2)`. */
  function DefaultWorkers(cpuCount: nat): (n: nat)
    ensures 2 * n >= cpuCount && 2 * n <= cpuCount + 1
    ensures cpuCount >= 1 ==> 1 <= n <= cpuCount
  {
    (cpuCount + 1) / 2
  }

  /** The options `main` reads; an absent option is `None`. */
  datatype Options = Options(
    inFile: Option<string>, outFile: Option<string>,
    inDir: Option<string>, outDir: Option<string>,
    cpuNumber: Option<int>)

  /** What `main` does with its options. */
  datatype Action =
    | InputMissing
    | OutputMissing
    | ProcessDirectory(inDir: string, outDir: string, workers: int)
    | PropagateFile(inFile: string, outFile: string)
    | Nothing

  /** Python truthiness of an option value: present and not the empty string. */
  predicate Given(o: Option<string>)
  {
    o.Some? && o.value != ""
  }

  /** The decision made by `main` from the parsed options and the machine's CPU count. */
  function Dispatch(opts: Options, cpuCount: nat): (a: Action)
    ensures a == InputMissing <==> !Given(opts.inFile) && !Given(opts.inDir)
    ensures a == OutputMissing <==>
      (Given(opts.inFile) || Given(opts.inDir)) && !Given(opts.outFile) && !Given(opts.outDir)
    ensures a.ProcessDirectory? <==> Given(opts.inDir) && Given(opts.outDir)
    ensures a.ProcessDirectory? ==>
      a == ProcessDirectory(opts.inDir.value, opts.outDir.value,
                            if opts.cpuNumber.Some? then opts.cpuNumber.value else DefaultWorkers(cpuCount))
    ensures a.PropagateFile? <==>
      Given(opts.inFile) && Given(opts.outFile) && !(Given(opts.inDir) && Given(opts.outDir))
    ensures a.PropagateFile? ==> a == PropagateFile(opts.inFile.value, opts.outFile.value)
    ensures a == Nothing <==>
      && (Given(opts.inFile) || Given(opts.inDir))
      && (Given(opts.outFile) || Given(opts.outDir))
      && !(Given(opts.inDir) && Given(opts.outDir))
      && !(Given(opts.inFile) && Given(opts.outFile))
  {
    var workers := if opts.cpuNumber.Some? then opts.cpuNumber.value else DefaultWorkers(cpuCount);
    if !(Given(opts.inFile) || Given(opts.inDir)) then InputMissing
    else if !(Given(opts.outFile) || Given(opts.outDir)) then OutputMissing
    else if Given(opts.inDir) && Given(opts.outDir) then ProcessDirectory(opts.inDir.value, opts.outDir.value, workers)
    else if Given(opts.inFile) && Given(opts.outFile) then PropagateFile(opts.inFile.value, opts.outFile.value)
    else Nothing
  }
}
