# Propagation scripts of the SPB start-to-end simulation, modelled in Dafny

The scripts take wavefront records written by the FEL source stage (HDF5 files
named `FELsource_out*.h5`), push each one through a beamline with the WPG/SRW
wave-optics engine, and write `prop_out*.h5` records. The engine does the
physics. This project models the bookkeeping the scripts do around it and
proves properties of that bookkeeping:

- **Lineage merge.** `add_history` exists in two variants. Both rewrite the
  `history` branch of the output file from the top-level entries of its parent
  file (modules `HistoryS` and `History`). A file is an `Hdf5.HFile`: an object
  whose `root` map from names to `Group | Dataset | ExternalLink` nodes is
  updated in place. The loop over the parent's entries takes them in any
  order, so the proofs hold whatever order h5py iterates in.
- **Beam width.** `calculate_fwhm` of propagateS.py counts the samples of the
  centre row and centre column that lie strictly above half of the slice
  maximum, times the mesh spacing (module `Fwhm`).
- **Batch jobs.** `directory_process` picks input files and derives their
  output paths. `main` chooses the default worker count and the mode
  (module `Batch`).
- **Single propagation.** `propagate` of propagate.py runs a one-stage
  beamline between two representation switches, converts mesh and field units
  in place, stores the result and merges the lineage (module `Propagate`). The
  engine enters only as function parameters: `load`, `engine` and `store`.
  The wavefront (module `Wavefronts`) holds the mesh and `arrEver`, which the
  script assigns, and also `arrEhor` and the remaining stored fields as a map,
  which the engine produces and the script passes on unchanged.
- **Beamlines.** `wpg.Beamline` is a class whose `stages` sequence grows by
  `Append` (module `Optics`). `get_beamline` of my_beamline.py builds a
  drift–lens–drift line whose last distance is the thin-lens image distance
  (module `MyBeamline`).

Two facts about the code are worth stating up front:

- **Lineage depth grows.** Neither variant flattens ancestry.
  - propagateS.py copies the parent's `/history/parent` to
    `history/parent/parent`, because h5py's `copy` of a group into a group
    keeps its base name.
  - propagate.py copies the parent's whole `history` to
    `history/parent/history`.
  - Each generation therefore adds one level of nesting. This is stated by
    `HistoryS.LineageDepthGrows` and `History.LineageDepthGrows`.
- **Output names are not one-to-one.** `str.replace` rewrites every
  occurrence of `FELsource_out` in a base name, so two input names can share
  one output name. This is stated by `Batch.OutputNamesCollide`.

## Model

| member | source | states |
|---|---|---|
| Hdf5.Lookup | propagateS.py:73 | a path that resolves starts with a name present at the top, and a one-name path resolves to that entry exactly when it is present |
| Hdf5.Put | propagateS.py:67-68 | stores a node at a path, creating the missing groups on the way; its contract is stated by `Hdf5.PutFrame` and `Hdf5.LookupPut` |
| Hdf5.PutFrame | propagate.py:41 | storing at a path adds only the path's first name at the top and leaves every other top-level entry unchanged |
| Hdf5.LookupPut | propagateS.py:67-80 | looking up the path just stored at finds the stored node |
| HistoryS.Merge | propagateS.py:62-80 | the merged tree has the old names plus `history`, and every entry other than `history` is the old one |
| HistoryS.AddHistory | propagateS.py:55-80 | the output's new tree is `Merge` of its old tree and the parent, whatever order the parent's entries are visited in |
| HistoryS.MergeEntry | propagateS.py:70-80 | one loop step: `history` nests the parent's `/history/parent` (or nothing if absent), `data` becomes an external link, any other entry is copied under `history/parent/detail` |
| HistoryS.Grandparent | propagateS.py:71-75 | the node copied for the parent's `history` is exactly what `/history/parent` resolves to in the parent, and is absent when that path is missing |
| HistoryS.CreateGroups | propagateS.py:67-68 | creating `/history/parent/` and `/history/parent/detail` in a file without `history` yields exactly those two empty nested groups |
| HistoryS.MergeIdempotent | propagateS.py:64-68 | merging the same parent twice gives the same tree as merging once |
| HistoryS.MergeOnlyHistory | propagateS.py:62-80 | the merged tree has the old names plus `history`, and every entry other than `history` is unchanged |
| HistoryS.MergeForgetsOldHistory | propagateS.py:64-68 | the merged `history` is the same whatever `history` the output held before |
| HistoryS.DetailContents | propagateS.py:70-80 | `history/parent/detail/<k>` holds a copy of each parent entry other than `history` and `data`, a link to (parent file, `/data`) for `data`, and nothing for `history` or absent names |
| HistoryS.GrandparentNested | propagateS.py:71-75 | `history/parent/parent` of the output is what `/history/parent` is in the parent, absent when the parent has none |
| HistoryS.LineageDepthGrows | propagateS.py:67-75 | the number of nested `parent` groups under the output's `history` is one more than the parent's |
| History.Merge | propagate.py:38-47 | the merged tree has the old names plus `history`, and every entry other than `history` is the old one |
| History.AddHistory | propagate.py:35-47 | the output's new tree is `Merge` of its old tree and the parent, whatever order the parent's entries are visited in |
| History.MergeEntry | propagate.py:43-47 | one loop step: `data` becomes an external link at `history/parent/data`, any other entry (the parent's `history` included) is copied to `history/parent/<k>` |
| History.CreateGroup | propagate.py:38-41 | deleting `history` and creating `/history/parent` yields one empty nested group |
| History.MergeIdempotent | propagate.py:38-47 | merging the same parent twice gives the same tree as merging once |
| History.MergeOnlyHistory | propagate.py:36-47 | the merged tree has the old names plus `history`, and every entry other than `history` is unchanged |
| History.ParentContents | propagate.py:43-47 | `history/parent/<k>` holds a copy of each parent entry other than `data` (its `history` included), a link to (parent file, `/data`) for `data`, and nothing for absent names |
| History.LineageDepthGrows | propagate.py:41-45 | the number of nested `history/parent` levels in the output is one more than in the parent |
| Fwhm.SumLastAxis | propagateS.py:93 | the summed image has the shape of the first two axes and each pixel is the sum of its last-axis samples |
| Fwhm.Column | propagateS.py:103 | column `j` has one sample per row, the `j`-th of that row |
| Fwhm.Max | propagateS.py:101 | the maximum is one of the samples and no sample exceeds it |
| Fwhm.CountAbove | propagateS.py:101 | the count of samples above a threshold never exceeds the slice length |
| Fwhm.CountAboveWitness | propagateS.py:101 | a sample above the threshold makes the count at least one |
| Fwhm.CountAboveAppend | propagateS.py:101 | the count over a concatenation is the sum of the counts |
| Fwhm.PositiveMaxCountsOne | propagateS.py:101 | a slice with positive maximum has at least one sample above half of it |
| Fwhm.ZeroSliceCountsNothing | propagateS.py:101 | an all-zero slice has half-maximum count 0 |
| Fwhm.HalfMaxCount | propagateS.py:101 | the number of samples above half the maximum is at most the slice length, and at least 1 when the maximum is positive |
| Fwhm.CentreRow | propagateS.py:100 | the centre row `intens[intens.shape[0]//2, :]` is a full row with as many rows after it as before it, or one fewer |
| Fwhm.CentreColumn | propagateS.py:103 | the centre column `intens[:, intens.shape[1]//2]` is a full column with as many columns after it as before it, or one fewer |
| Fwhm.ImageFwhm | propagateS.py:96-105 | on a valid mesh both widths are non-negative, and each is at least one spacing of its axis when its centre slice has a positive maximum |
| Fwhm.SliceWidth | propagateS.py:101-104 | with a non-negative spacing the width lies between 0 and the slice length times the spacing, and is at least one spacing when the maximum is positive |
| Fwhm.CalculateFwhm | propagateS.py:85-105 | on a valid mesh with one pixel per sample, `fwhm_x` lies between 0 and `xMax - xMin` and `fwhm_y` between 0 and `yMax - yMin` |
| Fwhm.WidthsWithinMesh | propagateS.py:97-104 | both widths of a summed image lie within the mesh extent of their axis |
| Fwhm.SliceWithinSpan | propagateS.py:97-104 | a slice sampled evenly over `[lo, hi]` is at most `hi - lo` wide |
| Fwhm.FlatTopCount | propagateS.py:101 | a run of `w` equal positive samples between zeros has half-maximum count exactly `w` |
| Fwhm.FlatTopSliceWidth | propagateS.py:101-104 | a flat top of `w` samples is exactly `w` spacings wide |
| Fwhm.FlatTopWidth | propagateS.py:97-101 | an image whose centre row is a flat top of `w` samples has `fwhm_x` equal to `w` times `(xMax-xMin)/nx` |
| Fwhm.FlatTopHeight | propagateS.py:98-104 | an image whose centre column is a flat top of `w` samples has `fwhm_y` equal to `w` times `(yMax-yMin)/ny` |
| Fwhm.CalculateFwhmFlatTop | propagateS.py:93-101 | an intensity array whose centre row, summed over its last (slice) axis, is a flat top of `w` pixels has `fwhm_x` equal to `w` times the horizontal spacing |
| Wavefronts.XStep | propagateS.py:97 | the horizontal spacing is positive on a mesh with increasing bounds and positive count |
| Wavefronts.YStep | propagateS.py:98 | the vertical spacing is positive on a mesh with increasing bounds and positive count |
| Batch.ReplaceAll | propagateS.py:226 | replacing a non-empty pattern by itself leaves the name unchanged |
| Batch.ReplaceNoSeparator | propagateS.py:226 | replacing in a name without a separator, by a replacement without one, gives a name without a separator |
| Batch.ReplaceAbsent | propagateS.py:226 | a name without `FELsource_out` is left unchanged by the replacement |
| Batch.ReplaceLeading | propagateS.py:226 | a name starting with the pattern starts with the replacement afterwards |
| Batch.Basename | propagateS.py:225 | the base name contains no separator |
| Batch.BasenameIsTail | propagateS.py:225 | the base name is a suffix of the path and is preceded by a separator when shorter than the path |
| Batch.Join | propagateS.py:222-228 | `os.path.join(a, b)`: ends with `b`; is `b` when `b` is absolute; otherwise starts with `a` and puts a separator before `b` when `a` is non-empty |
| Batch.JoinBasename | propagateS.py:222-228 | the base name of a directory joined with a plain name is that name |
| Batch.MatchesInputPattern | propagateS.py:222 | a matching name is `FELsource_out`, any middle, then `.h5` |
| Batch.MatchesAnyMiddle | propagateS.py:222 | every name `FELsource_out<middle>.h5` matches, whatever the middle |
| Batch.Glob | propagateS.py:222 | the glob returns at most one path per directory entry |
| Batch.GlobMatches | propagateS.py:222 | every globbed path is the directory joined with an entry matching `FELsource_out*.h5` |
| Batch.GlobComplete | propagateS.py:222 | every directory entry matching `FELsource_out*.h5` is globbed |
| Batch.GlobAppend | propagateS.py:222 | globbing a listing is globbing its parts in order, so the glob is the matching entries in listing order |
| Batch.GlobSingle | propagateS.py:222 | one entry is globbed exactly when it matches the pattern |
| Batch.OutputPath | propagateS.py:225-228 | the output path starts with the output directory and its base name is the input's base name with every `FELsource_out` replaced by `prop_out` |
| Batch.Zip | propagateS.py:231-232 | one job per input, each pairing the input with the output at the same position |
| Batch.DirectoryJobs | propagateS.py:221-232 | one job per globbed input, in glob order, each paired with `join(out_dname, basename(in).replace(...))`; no input gives no job |
| Batch.OutputOfPlainName | propagateS.py:224-228 | an input `join(in_dname, name)` with a plain `name` is written to `join(out_dname, name.replace(...))`, whatever the input directory |
| Batch.RewriteMatchedName | propagateS.py:226 | a name matching `FELsource_out*.h5` starts with `prop_out` after the replacement, followed by the rest rewritten the same way |
| Batch.OutputOfMatchedEntry | propagateS.py:222-228 | a matched input is written to `out_dname/prop_out<rest>` with the rest of its name rewritten the same way |
| Batch.OutputNamesCollide | propagateS.py:226 | `FELsource_outprop_out.h5` and `FELsource_outFELsource_out.h5` are both matched and both map to `prop_outprop_out.h5` |
| Batch.DefaultWorkers | propagateS.py:251 | the default worker count is the ceiling of half the CPU count, and at least 1 and at most the CPU count when there is a CPU |
| Batch.Dispatch | propagateS.py:257-274 | missing input is an error, then missing output; both directories select directory mode with the given or default worker count; otherwise both files select single-file mode; any other combination does nothing |
| Optics.Beamline.constructor | my_beamline.py:14 | a new beamline has no stages |
| Optics.Beamline.Append | my_beamline.py:15-17 | appending adds exactly one stage at the end and keeps the earlier ones |
| MyBeamline.Stages | my_beamline.py:6-17 | a drift, a lens and a drift, all of positive length, whose two drifts satisfy the thin-lens equation of the lens |
| MyBeamline.ImageDistance | my_beamline.py:10 | the drift `1/(1/f - 1/d)` is positive and satisfies the thin-lens relation `1/d + 1/r = 1/f` |
| MyBeamline.GetBeamline | my_beamline.py:1-19 | a fresh beamline holding the three stages in the order they are appended |
| MyBeamline.StagesShape | my_beamline.py:6-17 | three stages: `Drift(300)` with (1, 0.5, 8), `Lens(2, 2)` with default treatment, then a drift with (1, 4.2, 0.5) |
| MyBeamline.LastDriftImagesSource | my_beamline.py:10 | the last drift is positive, satisfies `1/300 + 1/d = 1/2` and equals 300/149 |
| MyBeamline.KnobsPositive | my_beamline.py:15-17 | every explicit zoom and sampling factor is positive |
| Propagate.RescaledMesh | propagate.py:67-70 | bounds are scaled by 1e-4: counts are unchanged, a valid mesh stays valid and the reverse, and each width shrinks by 1e-4 |
| Propagate.RescaledSpacing | propagate.py:67-70 | the sample spacing shrinks by the same factor as the bounds |
| Propagate.ScaledField | propagate.py:71 | the field keeps its length |
| Propagate.ScaledFieldInverse | propagate.py:71 | each sample is multiplied by 1e4 and multiplying by 1e-4 restores it |
| Propagate.ScaledFieldAboveHalf | propagate.py:71 | after scaling `arrEver` by 1e4, a sample lies above half the maximum exactly when it did before |
| Propagate.ScaledFieldHalfMaxCount | propagate.py:71 | scaling `arrEver` by 1e4 keeps which of its samples lie above half its maximum, and so their number; this concerns the field samples only, since propagate.py computes no width |
| Propagate.Rescaled | propagate.py:67-71 | the rescaled wavefront has the rescaled mesh and scaled `arrEver`, and the same `arrEhor` and other stored fields |
| Propagate.Apply | propagate.py:63-65 | the wavefront after an engine call is what the engine returns for its state before |
| Propagate.RunEngine | propagate.py:55-65 | the engine sees exactly the switch to `'f'`, the beamline and the switch to `'t'`, in that order, and the wavefront is their result |
| Propagate.ConvertUnits | propagate.py:67-71 | assigning the four bounds and `arrEver` in place rescales the mesh and scales `arrEver`, leaves `arrEhor` and every other stored field unchanged, and so gives the rescaled wavefront |
| Propagate.Propagate | propagate.py:52-75 | the output holds the input's lineage merged into the stored, rescaled result of the engine calls, and the calls are the three expected ones |
| Propagate.PropagateStages | propagate.py:55-61 | the beamline is one drift of positive length with positive zoom and sampling |
| Propagate.EngineCalls | propagate.py:63-65 | three calls: the switch to frequency first, the switch to time last, and the beamline run exactly in the middle |
| Propagate.PropagateStagesShape | propagate.py:55-61 | the beamline is one `Drift(100)` with (1, 0.1, 4), all knobs positive |
| Propagate.EngineCallsOrder | propagate.py:63-65 | the beamline runs between the switch to frequency and the switch back to time |
| Propagate.StoredBeforeMerge | propagate.py:74-75 | every stored entry other than `history` survives the merge, and `history` holds the input's lineage whatever the store wrote there |

## Left out

- The wave-optics engine is not modelled: `load_hdf5`, `store_hdf5`, `SetRepresElecField`, `Beamline.propagate` and `get_intensity`. These are calls into WPG/SRW. They appear as function parameters of `Propagate.Propagate` and as the intensity argument of `Fwhm.CalculateFwhm`.
- `propagate` of propagateS.py is not modelled. It builds mirror elements with `cos`/`sin`, which that file never imports. Around the beamline run it stores the on-axis spectra `get_intensity_on_axis` gives before and after as the `/misc/spectrum0` and `/misc/spectrum1` custom fields. After switching back to time it shrinks the horizontal and vertical range with `ResizeElecField`, runs `calculate_fwhm` (modelled as `Fwhm.CalculateFwhm`), and writes its two widths as `/misc/xFWHM` and `/misc/yFWHM`. It then writes `/params/beamline/printout` and the `/info/*` custom fields, calls `mkdir_p` and `store_hdf5`, and calls `add_history` (modelled as `HistoryS.AddHistory`). The spectra and the resize are engine output and engine calls; the printout and `/info/*` fields are constant metadata.
- `get_intensity_on_axis` is not modelled. It is a sampling and normalisation of engine output with nothing of the scripts' own to state.
- `mkdir_p`, `optparse` parsing, the `print` logging and the notebook branch of propagateS.py are not modelled. They are file system, user interface and I/O concerns.
- `main` of propagate.py is not modelled. It only checks that both file options are given and calls `propagate`.
- The `multiprocessing.Pool` fan-out is not modelled, because its purpose is concurrency. `Batch.DirectoryJobs` returns the job list the pool receives, and `cpu_number` only sizes the pool.
- Batch.Dispatch: `cpu_number` is taken as an already converted integer. The string-to-integer conversion of a user-supplied `-n` value, and its failure, are not modelled.
- Batch.Glob: the entries are returned in the order of the directory listing. `glob` gives no ordering guarantee, so the model fixes the listing order as a parameter. Wildcard characters inside the directory name are not interpreted.
- HistoryS.AddHistory: requires the output and the parent to be different files. Opening one HDF5 file twice is outside the model.
- History.AddHistory: requires the output and the parent to be different files, for the same reason.
- h5py details are not modelled: open modes, link resolution, attributes, and the exception an unresolvable `/history/parent` raises. An absent or non-group path is treated as the `KeyError` case the code skips.
- Floating point is not modelled. Spacings, distances and scale factors are Dafny `real`, so `1e-4` and `1e4` are exact inverses here, which they are not in IEEE arithmetic.
- Fwhm.CalculateFwhm: requires `nx` and `ny` to be non-zero and the image to be non-empty. With `nx` or `ny` zero the source raises `ZeroDivisionError` (propagateS.py:97-98), and on an empty slice `.max()` raises (propagateS.py:101); these error paths are not modelled. Its extent bound assumes one pixel per mesh sample, which the wavefront guarantees but the function does not check.
- Batch.Join, Batch.Basename: paths follow POSIX `posixpath` semantics. `glob` strips trailing separators from the directory (`"d//"`), which the model does not; the directory is joined as given.
