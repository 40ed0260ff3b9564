/**
  `calculate_fwhm` of propagateS.py: the beam width along each axis, estimated
  by counting the samples of the centre row (resp. column) of the intensity
  image that are strictly above half of that slice's maximum, times the
  sample spacing.
*/
module Fwhm {
  import opened Wavefronts

  function Sum(s: seq<real>): real
  {
    if s == [] then 0.0 else s[0] + Sum(s[1..])
  }

  /** `intensity.sum(axis=-1)`: adds up the last axis of a three-dimensional array. */
  function SumLastAxis(a: seq<seq<seq<real>>>): (r: seq<seq<real>>)
    ensures |r| == |a|
    ensures forall i :: 0 <= i < |a| ==> |r[i]| == |a[i]|
    ensures forall i, j :: 0 <= i < |a| && 0 <= j < |a[i]| ==> r[i][j] == Sum(a[i][j])
  {
    seq(|a|, i requires 0 <= i < |a| => seq(|a[i]|, j requires 0 <= j < |a[i]| => Sum(a[i][j])))
  }

  /** A non-empty rectangular image: every row has the length of the first. */
  predicate IsImage(g: seq<seq<real>>)
  {
    |g| > 0 && |g[0]| > 0 && forall i :: 0 <= i < |g| ==> |g[i]| == |g[0]|
  }

  /** `g[:, j]`: column `j` of the image. */
  function Column(g: seq<seq<real>>, j: int): (c: seq<real>)
    requires IsImage(g) && 0 <= j < |g[0]|
    ensures |c| == |g| && forall i :: 0 <= i < |g| ==> c[i] == g[i][j]
  {
    seq(|g|, i requires 0 <= i < |g| => g[i][j])
  }

  /** `s.max()`: the largest sample, one of the samples. */
  function Max(s: seq<real>): (m: real)
    requires |s| > 0
    ensures exists i :: 0 <= i < |s| && s[i] == m
    ensures forall i :: 0 <= i < |s| ==> s[i] <= m
  {
    if |s| == 1 then s[0]
    else
      var rest := Max(s[1..]);
      assert forall i :: 1 <= i < |s| ==> s[i] == s[1..][i - 1];
      if s[0] >= rest then s[0] else rest
  }

  /** `len(s[s > t])`: how many samples are strictly above `t`. */
  function CountAbove(s: seq<real>, t: real): (c: nat)
    ensures c <= |s|
  {
    if s == [] then 0 else (if s[0] > t then 1 else 0) + CountAbove(s[1..], t)
  }

  /**
    The number of samples of a slice strictly above half of its maximum:
    at most the whole slice, and at least one sample when the maximum is
    positive.
  */
  function HalfMaxCount(s: seq<real>): (c: nat)
    requires |s| > 0
    ensures c <= |s|
    ensures Max(s) > 0.0 ==> c >= 1
  {
    if Max(s) > 0.0 then PositiveMaxCountsOne(s); CountAbove(s, Max(s) / 2.0)
    else CountAbove(s, Max(s) / 2.0)
  }

  /** The result dictionary `{'fwhm_x': ..., 'fwhm_y': ...}`. */
  datatype Widths = Widths(fwhmX: real, fwhmY: real)

  /**
    The centre row `intens[shape[0] // 2, :]`: a full row with as many rows
    after it as before it, or one fewer when the number of rows is even.
  */
  function CentreRow(g: seq<seq<real>>): (r: seq<real>)
    requires IsImage(g)
    ensures |r| == |g[0]|
    ensures exists i :: 0 <= i < |g| && g[i] == r && (|g| - 1 - i == i || |g| - 1 - i == i - 1)
  {
    var i := |g| / 2;
    // `i` witnesses the existential in the postcondition.
    assert g[i] == g[i];
    g[i]
  }

  /**
    The centre column `intens[:, shape[1] // 2]`: a full column with as many
    columns after it as before it, or one fewer when the number of columns
    is even.
  */
  function CentreColumn(g: seq<seq<real>>): (c: seq<real>)
    requires IsImage(g)
    ensures |c| == |g|
    ensures exists j :: 0 <= j < |g[0]| && Column(g, j) == c && (|g[0]| - 1 - j == j || |g[0]| - 1 - j == j - 1)
  {
    var j := |g[0]| / 2;
    // `j` witnesses the existential in the postcondition.
    assert Column(g, j) == Column(g, j);
    Column(g, j)
  }

  /**
    `calculate_fwhm(wfr)`, given the total-polarisation intensity of the
    wavefront (its last, slice axis is summed away) and its mesh.
  */
  function CalculateFwhm(intensity: seq<seq<seq<real>>>, mesh: Mesh): (r: Widths)
    requires IsImage(SumLastAxis(intensity))
    requires mesh.nx != 0 && mesh.ny != 0
    ensures ValidMesh(mesh) && |intensity[0]| == mesh.nx ==> 0.0 <= r.fwhmX <= mesh.xMax - mesh.xMin
    ensures ValidMesh(mesh) && |intensity| == mesh.ny ==> 0.0 <= r.fwhmY <= mesh.yMax - mesh.yMin
  {
    var image := SumLastAxis(intensity);
    WidthsWithinMesh(image, mesh);
    ImageFwhm(image, mesh)
  }

  /**
    The widths of an already summed intensity image. On a valid mesh both are
    non-negative, and each is at least one spacing when its slice has a
    positive maximum.
  */
  function ImageFwhm(image: seq<seq<real>>, mesh: Mesh): (r: Widths)
    requires IsImage(image)
    requires mesh.nx != 0 && mesh.ny != 0
    ensures ValidMesh(mesh) ==> 0.0 <= r.fwhmX && 0.0 <= r.fwhmY
    ensures ValidMesh(mesh) && Max(CentreRow(image)) > 0.0 ==> XStep(mesh) <= r.fwhmX
    ensures ValidMesh(mesh) && Max(CentreColumn(image)) > 0.0 ==> YStep(mesh) <= r.fwhmY
  {
    Widths(SliceWidth(CentreRow(image), XStep(mesh)), SliceWidth(CentreColumn(image), YStep(mesh)))
  }

  /** On a valid mesh with one sample per pixel, neither width exceeds the mesh extent. */
  lemma WidthsWithinMesh(image: seq<seq<real>>, mesh: Mesh)
    requires IsImage(image) && mesh.nx != 0 && mesh.ny != 0
    ensures ValidMesh(mesh) && |image[0]| == mesh.nx ==> 0.0 <= ImageFwhm(image, mesh).fwhmX <= mesh.xMax - mesh.xMin
    ensures ValidMesh(mesh) && |image| == mesh.ny ==> 0.0 <= ImageFwhm(image, mesh).fwhmY <= mesh.yMax - mesh.yMin
  {
    if ValidMesh(mesh) && |image[0]| == mesh.nx {
      SliceWithinSpan(CentreRow(image), mesh.xMin, mesh.xMax);
    }
    if ValidMesh(mesh) && |image| == mesh.ny {
      SliceWithinSpan(CentreColumn(image), mesh.yMin, mesh.yMax);
    }
  }

  /** A slice sampled evenly over `[lo, hi]` is at most `hi - lo` wide. */
  lemma SliceWithinSpan(s: seq<real>, lo: real, hi: real)
    requires |s| > 0 && lo < hi
    ensures 0.0 <= SliceWidth(s, (hi - lo) / (|s| as real)) <= hi - lo
  {
    var step := (hi - lo) / (|s| as real);
    assert step > 0.0;
    FullSpan(|s|, lo, hi);
  }

  /** `n` samples of spacing `(hi - lo) / n` span the whole interval. */
  lemma FullSpan(n: nat, lo: real, hi: real)
    requires n > 0
    ensures (n as real) * ((hi - lo) / (n as real)) == hi - lo
  {
  }

  /**
    `len(s[s > s.max() / 2]) * step`: the width of one slice. With a
    non-negative spacing it lies between none and all of the slice, and it
    is at least one step when the maximum is positive.
  */
  function SliceWidth(s: seq<real>, step: real): (width: real)
    requires |s| > 0
    ensures step >= 0.0 ==> 0.0 <= width <= (|s| as real) * step
    ensures step >= 0.0 && Max(s) > 0.0 ==> step <= width
  {
    var c := HalfMaxCount(s);
    var width := (c as real) * step;
    ScaledCount(c, |s|, step, width);
    width
  }

  /** A count of at most `n`, times a non-negative step, lies between none and `n` steps. */
  lemma ScaledCount(c: nat, n: nat, step: real, width: real)
    requires c <= n && width == (c as real) * step
    ensures step >= 0.0 ==> 0.0 <= width <= (n as real) * step
    ensures step >= 0.0 && c >= 1 ==> step <= width
  {
    assert (n as real) * step - (c as real) * step == ((n - c) as real) * step;
    if c >= 1 && step >= 0.0 {
      assert (c as real) * step - step == ((c - 1) as real) * step;
    }
  }

  // Properties of the count.

  /** Any sample above the threshold is counted. */
  lemma {:induction false} CountAboveWitness(s: seq<real>, t: real, i: int)
    requires 0 <= i < |s| && s[i] > t
    ensures CountAbove(s, t) >= 1
  {
    if i > 0 {
      CountAboveWitness(s[1..], t, i - 1);
    }
  }

  /** No sample above the threshold, nothing counted. */
  lemma {:induction false} CountAboveNone(s: seq<real>, t: real)
    requires forall i :: 0 <= i < |s| ==> s[i] <= t
    ensures CountAbove(s, t) == 0
  {
    if s != [] {
      CountAboveNone(s[1..], t);
    }
  }

  /** Every sample above the threshold, all counted. */
  lemma {:induction false} CountAboveAll(s: seq<real>, t: real)
    requires forall i :: 0 <= i < |s| ==> s[i] > t
    ensures CountAbove(s, t) == |s|
  {
    if s != [] {
      CountAboveAll(s[1..], t);
    }
  }

  /** Counting distributes over concatenation. */
  lemma {:induction false} CountAboveAppend(a: seq<real>, b: seq<real>, t: real)
    ensures CountAbove(a + b, t) == CountAbove(a, t) + CountAbove(b, t)
  {
    if a == [] {
      assert a + b == b;
    } else {
      assert (a + b)[1..] == a[1..] + b;
      CountAboveAppend(a[1..], b, t);
    }
  }

  /** A slice whose maximum is positive has a width of at least one sample. */
  lemma PositiveMaxCountsOne(s: seq<real>)
    requires |s| > 0 && Max(s) > 0.0
    ensures 1 <= CountAbove(s, Max(s) / 2.0)
  {
    var i :| 0 <= i < |s| && s[i] == Max(s);
    CountAboveWitness(s, Max(s) / 2.0, i);
  }

  /** An all-zero slice has width zero. */
  lemma ZeroSliceCountsNothing(s: seq<real>)
    requires |s| > 0 && forall i :: 0 <= i < |s| ==> s[i] == 0.0
    ensures HalfMaxCount(s) == 0
  {
    CountAboveNone(s, Max(s) / 2.0);
  }

  function Constant(n: nat, v: real): (s: seq<real>)
    ensures |s| == n && forall i :: 0 <= i < n ==> s[i] == v
  {
    seq(n, _ => v)
  }

  /**
    A flat top of `w` equal positive samples surrounded by zeros counts
    exactly `w` samples (and an all-zero slice, `w == 0`, counts none).
  */
  lemma FlatTopCount(before: nat, w: nat, after: nat, v: real)
    requires v > 0.0 && before + w + after > 0
    ensures HalfMaxCount(Constant(before, 0.0) + Constant(w, v) + Constant(after, 0.0)) == w
  {
    var s := Constant(before, 0.0) + Constant(w, v) + Constant(after, 0.0);
    var t := Max(s) / 2.0;
    if w == 0 {
      assert s == Constant(before + after, 0.0);
      ZeroSliceCountsNothing(s);
    } else {
      assert s[before] == v;
      assert Max(s) == v;
      CountAboveAppend(Constant(before, 0.0) + Constant(w, v), Constant(after, 0.0), t);
      CountAboveAppend(Constant(before, 0.0), Constant(w, v), t);
      CountAboveNone(Constant(before, 0.0), t);
      CountAboveAll(Constant(w, v), t);
      CountAboveNone(Constant(after, 0.0), t);
    }
  }

  // Properties of the widths.

  /** A flat top of `w` samples is `w` steps wide. */
  lemma FlatTopSliceWidth(s: seq<real>, step: real, before: nat, w: nat, after: nat, v: real)
    requires v > 0.0 && s == Constant(before, 0.0) + Constant(w, v) + Constant(after, 0.0) && |s| > 0
    ensures SliceWidth(s, step) == (w as real) * step
  {
    FlatTopCount(before, w, after, v);
  }

  /** A flat-top centre row gives a horizontal width of exactly its length times the spacing. */
  lemma FlatTopWidth(image: seq<seq<real>>, mesh: Mesh, before: nat, w: nat, after: nat, v: real)
    requires IsImage(image) && mesh.nx != 0 && mesh.ny != 0
    requires v > 0.0
    requires CentreRow(image) == Constant(before, 0.0) + Constant(w, v) + Constant(after, 0.0)
    ensures ImageFwhm(image, mesh).fwhmX == (w as real) * XStep(mesh)
  {
    var row := CentreRow(image);
    assert ImageFwhm(image, mesh).fwhmX == SliceWidth(row, XStep(mesh));
    FlatTopSliceWidth(row, XStep(mesh), before, w, after, v);
  }

  /** A flat-top centre column gives a vertical width of exactly its length times the spacing. */
  lemma FlatTopHeight(image: seq<seq<real>>, mesh: Mesh, before: nat, w: nat, after: nat, v: real)
    requires IsImage(image) && mesh.nx != 0 && mesh.ny != 0
    requires v > 0.0
    requires CentreColumn(image) == Constant(before, 0.0) + Constant(w, v) + Constant(after, 0.0)
    ensures ImageFwhm(image, mesh).fwhmY == (w as real) * YStep(mesh)
  {
    var column := CentreColumn(image);
    assert ImageFwhm(image, mesh).fwhmY == SliceWidth(column, YStep(mesh));
    FlatTopSliceWidth(column, YStep(mesh), before, w, after, v);
  }

  /**
    `calculate_fwhm` on an intensity array whose centre row, once its last
    axis is summed, is `w` equal positive pixels between zeros: `fwhm_x` is
    `w` times the horizontal spacing.
  */
  lemma CalculateFwhmFlatTop(intensity: seq<seq<seq<real>>>, mesh: Mesh, before: nat, w: nat, after: nat, v: real)
    requires IsImage(SumLastAxis(intensity)) && mesh.nx != 0 && mesh.ny != 0
    requires v > 0.0
    requires |intensity[|intensity| / 2]| == before + w + after
    requires forall j :: 0 <= j < before + w + after ==>
      Sum(intensity[|intensity| / 2][j]) == if before <= j < before + w then v else 0.0
    ensures CalculateFwhm(intensity, mesh).fwhmX == (w as real) * XStep(mesh)
  {
    var image := SumLastAxis(intensity);
    var flat := Constant(before, 0.0) + Constant(w, v) + Constant(after, 0.0);
    assert CentreRow(image) == flat by {
      var row := image[|image| / 2];
      assert |row| == |flat|;
      forall j | 0 <= j < |flat| ensures row[j] == flat[j] {
        assert row[j] == Sum(intensity[|intensity| / 2][j]);
        if j < before {
          assert flat[j] == Constant(before, 0.0)[j];
        } else if j < before + w {
          assert flat[j] == Constant(w, v)[j - before];
        } else {
          assert flat[j] == Constant(after, 0.0)[j - before - w];
        }
      }
    }
    FlatTopWidth(image, mesh, before, w, after, v);
  }
}
