/** The mesh pipeline of include/irg/generic_mesh.hpp with `simple_vertex_policy`:
    parsing the vertex and face lines of an OBJ-like file, rebasing the 1-based
    face indices, rescaling the vertices (per axis into [-1, 1], or keeping the
    aspect ratio with the widest axis onto [-1, 1]), splitting each face into a
    fan of triangles tagged with their plane, and the inside test against those
    planes. Floats are real numbers; character-level number parsing is a
    parameter. */
module GenericMesh {
  import opened Primitive

  /** The largest `unsigned` (32 bits). */
  const UintMax: nat := 0xFFFF_FFFF
  /** `numeric_limits<float>::max()`. */
  const FltMax: real := 340282346638528859811704183484516925440.0
  /** `numeric_limits<float>::min()`: the smallest positive normal float, 2^-126. */
  const FltMin: real := 0.000000000000000000000000000000000000011754943508222875079687365372222456778186655567720875215087517062784172594547271728515625

  // ---------------------------------------------------------------------------
  // Index rebasing

  /** `--j` on an `unsigned`: one less, with 0 wrapping to the largest value. */
  function Decrement(j: nat): nat {
    if j == 0 then UintMax else j - 1
  }

  /** Every face index decremented. */
  function Rebased(faces: seq<seq<nat>>): seq<seq<nat>> {
    seq(|faces|, i requires 0 <= i < |faces| =>
      seq(|faces[i]|, j requires 0 <= j < |faces[i]| => Decrement(faces[i][j])))
  }

  /** The first loop of `normalize_data`: every index of every face, in place.
      Faces keep their number and sizes, and each index from 1 up becomes its
      0-based form. */
  method RebaseIndices(indices: seq<seq<nat>>) returns (r: seq<seq<nat>>)
    ensures r == Rebased(indices)
    ensures |r| == |indices|
    ensures forall i :: 0 <= i < |r| ==> |r[i]| == |indices[i]|
    ensures forall i, j :: 0 <= i < |r| && 0 <= j < |r[i]| && indices[i][j] >= 1 ==>
              r[i][j] == indices[i][j] - 1
  {
    r := indices;
    for i := 0 to |r|
      invariant |r| == |indices|
      invariant forall k :: 0 <= k < i ==> r[k] == Rebased(indices)[k]
      invariant forall k :: i <= k < |r| ==> r[k] == indices[k]
    {
      var face := r[i];
      for j := 0 to |face|
        invariant |face| == |indices[i]|
        invariant forall l :: 0 <= l < j ==> face[l] == Decrement(indices[i][l])
        invariant forall l :: j <= l < |face| ==> face[l] == indices[i][l]
      {
        face := face[j := if face[j] == 0 then UintMax else face[j] - 1];
      }
      r := r[i := face];
    }
    assert r == Rebased(indices);
  }

  // ---------------------------------------------------------------------------
  // Extremes

  /** Component `a` of a vector (`v[i]`). */
  function Coord(v: Vec3, a: nat): real
    requires a < 3
  {
    if a == 0 then v.x else if a == 1 then v.y else v.z
  }

  /** `std::min(a, b)` and `std::max(a, b)`: the first argument unless the second
      is strictly smaller (larger). */
  function Min(a: real, b: real): real {
    if b < a then b else a
  }

  function Max(a: real, b: real): real {
    if a < b then b else a
  }

  /** The running minimum of axis `a`, which starts at the largest float: the
      smallest coordinate, or that start when there is none below it. */
  function AxisMin(vs: seq<Vec3>, a: nat): (m: real)
    requires a < 3
    ensures m <= FltMax
    ensures forall k :: 0 <= k < |vs| ==> m <= Coord(vs[k], a)
    decreases |vs|
  {
    if vs == [] then FltMax
    else Min(AxisMin(vs[..|vs| - 1], a), Coord(vs[|vs| - 1], a))
  }

  /** The running maximum of axis `a`, which starts at `numeric_limits<float>::min()`,
      the smallest POSITIVE float: the largest coordinate, or that start when no
      coordinate exceeds it. */
  function AxisMax(vs: seq<Vec3>, a: nat): (m: real)
    requires a < 3
    ensures m >= FltMin
    ensures forall k :: 0 <= k < |vs| ==> Coord(vs[k], a) <= m
    decreases |vs|
  {
    if vs == [] then FltMin
    else Max(AxisMax(vs[..|vs| - 1], a), Coord(vs[|vs| - 1], a))
  }

  /** The computed minimum is a coordinate of the axis unless it is still the
      starting value, and likewise the maximum. */
  lemma {:induction false} ExtremesAttained(vs: seq<Vec3>, a: nat)
    requires a < 3
    ensures AxisMin(vs, a) == FltMax || exists k :: 0 <= k < |vs| && AxisMin(vs, a) == Coord(vs[k], a)
    ensures AxisMax(vs, a) == FltMin || exists k :: 0 <= k < |vs| && AxisMax(vs, a) == Coord(vs[k], a)
    decreases |vs|
  {
    if vs != [] {
      var init := vs[..|vs| - 1];
      ExtremesAttained(init, a);
      if AxisMin(vs, a) != Coord(vs[|vs| - 1], a) && AxisMin(vs, a) != FltMax {
        var k :| 0 <= k < |init| && AxisMin(init, a) == Coord(init[k], a);
        assert AxisMin(vs, a) == Coord(vs[k], a);
      }
      if AxisMax(vs, a) != Coord(vs[|vs| - 1], a) && AxisMax(vs, a) != FltMin {
        var k :| 0 <= k < |init| && AxisMax(init, a) == Coord(init[k], a);
        assert AxisMax(vs, a) == Coord(vs[k], a);
      }
    }
  }

  /** One more vertex updates each running extreme with its coordinate. */
  lemma ExtremesStep(vs: seq<Vec3>, k: nat, a: nat)
    requires k < |vs| && a < 3
    ensures AxisMin(vs[..k + 1], a) == Min(AxisMin(vs[..k], a), Coord(vs[k], a))
    ensures AxisMax(vs[..k + 1], a) == Max(AxisMax(vs[..k], a), Coord(vs[k], a))
  {
    assert vs[..k + 1][..k] == vs[..k];
  }

  /** Because the maximum starts at a positive value, an axis on which no
      coordinate is positive gets that value as its maximum, which is no
      coordinate's: such a mesh is stretched as if it reached just above 0. */
  lemma {:induction false} NonPositiveAxisMax(vs: seq<Vec3>, a: nat)
    requires a < 3
    requires forall k :: 0 <= k < |vs| ==> Coord(vs[k], a) <= 0.0
    ensures AxisMax(vs, a) == FltMin
    ensures forall k :: 0 <= k < |vs| ==> Coord(vs[k], a) < AxisMax(vs, a)
    decreases |vs|
  {
    if vs != [] {
      NonPositiveAxisMax(vs[..|vs| - 1], a);
    }
  }

  /** Component `a` replaced by `x`. */
  function WithCoord(v: Vec3, a: nat, x: real): (r: Vec3)
    requires a < 3
    ensures Coord(r, a) == x
    ensures forall b :: 0 <= b < 3 && b != a ==> Coord(r, b) == Coord(v, b)
  {
    if a == 0 then v.(x := x) else if a == 1 then v.(y := x) else v.(z := x)
  }

  function Mins(vs: seq<Vec3>): (r: Vec3)
    ensures forall a :: 0 <= a < 3 ==> Coord(r, a) == AxisMin(vs, a)
  {
    Vec3(AxisMin(vs, 0), AxisMin(vs, 1), AxisMin(vs, 2))
  }

  function Maxs(vs: seq<Vec3>): (r: Vec3)
    ensures forall a :: 0 <= a < 3 ==> Coord(r, a) == AxisMax(vs, a)
  {
    Vec3(AxisMax(vs, 0), AxisMax(vs, 1), AxisMax(vs, 2))
  }

  /** The second loop of `normalize_data`: the per-axis extremes. */
  method Extremes(vs: seq<Vec3>) returns (mins: Vec3, maxs: Vec3)
    ensures mins == Mins(vs) && maxs == Maxs(vs)
  {
    mins, maxs := Vec3(FltMax, FltMax, FltMax), Vec3(FltMin, FltMin, FltMin);
    for k := 0 to |vs|
      invariant forall a :: 0 <= a < 3 ==> Coord(mins, a) == AxisMin(vs[..k], a) && Coord(maxs, a) == AxisMax(vs[..k], a)
    {
      var v := vs[k];
      for a := 0 to 3
        invariant forall b :: 0 <= b < a ==>
                    Coord(mins, b) == AxisMin(vs[..k + 1], b) && Coord(maxs, b) == AxisMax(vs[..k + 1], b)
        invariant forall b :: a <= b < 3 ==>
                    Coord(mins, b) == AxisMin(vs[..k], b) && Coord(maxs, b) == AxisMax(vs[..k], b)
      {
        ExtremesStep(vs, k, a);
        mins := WithCoord(mins, a, Min(Coord(mins, a), Coord(v, a)));
        maxs := WithCoord(maxs, a, Max(Coord(maxs, a), Coord(v, a)));
      }
    }
    assert vs[..|vs|] == vs;
  }

  // ---------------------------------------------------------------------------
  // Rescaling: each axis into [-1, 1], or every axis by the widest one

  /** The range of axis `a`. */
  function Range(mins: Vec3, maxs: Vec3, a: nat): real
    requires a < 3
  {
    Coord(maxs, a) - Coord(mins, a)
  }

  /** The aspect-preserving scan's `scaling` and `lower_bound`. */
  datatype Choice = Choice(scaling: real, bound: real)

  /** The aspect-preserving loop after its first k axes: the largest range seen,
      starting from 0 and replaced only by a strictly larger one, and the minimum
      of the first axis that has it. */
  function Widest(mins: Vec3, maxs: Vec3, k: nat): (r: Choice)
    requires k <= 3
    ensures r.scaling >= 0.0
    ensures forall a :: 0 <= a < k ==> Range(mins, maxs, a) <= r.scaling
    ensures r.scaling == 0.0 ==> r.bound == 0.0
    decreases k
  {
    if k == 0 then Choice(0.0, 0.0)
    else
      var p := Widest(mins, maxs, k - 1);
      var diff := Range(mins, maxs, k - 1);
      if p.scaling < diff then Choice(diff, Coord(mins, k - 1)) else p
  }

  /** A positive result of the scan comes from an axis: the first one with the
      largest range, whose minimum is the bound. */
  lemma {:induction false} WidestPicksAxis(mins: Vec3, maxs: Vec3, k: nat)
    requires k <= 3 && Widest(mins, maxs, k).scaling > 0.0
    ensures var r := Widest(mins, maxs, k);
            exists a :: 0 <= a < k && r.scaling == Range(mins, maxs, a) && r.bound == Coord(mins, a)
                        && forall b :: 0 <= b < a ==> Range(mins, maxs, b) < r.scaling
    decreases k
  {
    var p := Widest(mins, maxs, k - 1);
    if p.scaling >= Range(mins, maxs, k - 1) {
      WidestPicksAxis(mins, maxs, k - 1);
    }
  }

  /** When the divisions of `normalize_data` are by a non-zero number: with
      aspect preservation the widest range must be positive once there is a
      vertex, without it every range must be non-zero. The source computes
      infinities and NaNs otherwise. */
  predicate Normalizable(vs: seq<Vec3>, preserve: bool) {
    if preserve then |vs| > 0 ==> Widest(Mins(vs), Maxs(vs), 3).scaling > 0.0
    else forall a :: 0 <= a < 3 ==> AxisMax(vs, a) != AxisMin(vs, a)
  }

  /** Per axis, the lower bound subtracted and the factor applied. */
  datatype Fit = Fit(low: Vec3, factor: Vec3)

  /** q is the factor that maps a range of the given width onto [-1, 1]. */
  predicate Spans(q: real, width: real) {
    q * width == 2.0
  }

  /** The factor 2/d. */
  function Span(d: real): (q: real)
    requires d != 0.0
    ensures Spans(q, d)
  {
    2.0 / d
  }

  /** With aspect preservation one bound and one factor 2/range, both from the
      widest axis, serve every axis; with no positive range the source's factor is
      an unused infinity, 0 here. */
  function PreservingFit(scaling: real, lowerBound: real): (f: Fit)
    ensures f.low == Vec3(lowerBound, lowerBound, lowerBound)
    ensures f.factor.y == f.factor.x && f.factor.z == f.factor.x
    ensures scaling != 0.0 ==> Spans(f.factor.x, scaling)
  {
    var s := if scaling == 0.0 then 0.0 else Span(scaling);
    Fit(Vec3(lowerBound, lowerBound, lowerBound), Vec3(s, s, s))
  }

  /** Without it each axis has its own minimum and its own factor 2/range. */
  function PerAxisFit(mins: Vec3, maxs: Vec3): (f: Fit)
    requires maxs.x != mins.x && maxs.y != mins.y && maxs.z != mins.z
    ensures f.low == mins
    ensures Spans(f.factor.x, maxs.x - mins.x)
    ensures Spans(f.factor.y, maxs.y - mins.y)
    ensures Spans(f.factor.z, maxs.z - mins.z)
  {
    Fit(mins, Vec3(Span(maxs.x - mins.x), Span(maxs.y - mins.y), Span(maxs.z - mins.z)))
  }

  /** The bounds and factors `normalize_data` derives from the extremes. */
  function FitFrom(mins: Vec3, maxs: Vec3, preserve: bool): Fit
    requires !preserve ==> maxs.x != mins.x && maxs.y != mins.y && maxs.z != mins.z
  {
    if preserve then
      var w := Widest(mins, maxs, 3);
      PreservingFit(w.scaling, w.bound)
    else PerAxisFit(mins, maxs)
  }

  function FitOf(vs: seq<Vec3>, preserve: bool): Fit
    requires Normalizable(vs, preserve)
  {
    FitFrom(Mins(vs), Maxs(vs), preserve)
  }

  /** `v[i] = -1 + (v[i] - low) * factor` on every axis. */
  function FitVertex(v: Vec3, f: Fit): (r: Vec3)
    ensures forall a :: 0 <= a < 3 ==>
              Coord(r, a) == -1.0 + (Coord(v, a) - Coord(f.low, a)) * Coord(f.factor, a)
  {
    Vec3(-1.0 + (v.x - f.low.x) * f.factor.x,
         -1.0 + (v.y - f.low.y) * f.factor.y,
         -1.0 + (v.z - f.low.z) * f.factor.z)
  }

  function FitAll(vs: seq<Vec3>, f: Fit): (r: seq<Vec3>)
    ensures |r| == |vs|
  {
    seq(|vs|, k requires 0 <= k < |vs| => FitVertex(vs[k], f))
  }

  /** The vertices as `normalize_data` leaves them. */
  function Fitted(vs: seq<Vec3>, preserve: bool): (r: seq<Vec3>)
    requires Normalizable(vs, preserve)
    ensures |r| == |vs|
  {
    FitAll(vs, FitOf(vs, preserve))
  }

  /** x mapped by the affine map that sends lo to -1 and lo + width to 1 lies in
      [-1, 1] when lo <= x <= lo + width. */
  lemma UnitInterval(x: real, lo: real, width: real, q: real)
    requires lo <= x <= lo + width && 0.0 < width && Spans(q, width)
    ensures -1.0 <= -1.0 + (x - lo) * q <= 1.0
    ensures x == lo ==> -1.0 + (x - lo) * q == -1.0
    ensures x == lo + width ==> -1.0 + (x - lo) * q == 1.0
  {
    PositiveFactor(q, width);
    ScaleBetween(x - lo, width, q);
    if x == lo {
      ScaledAtLow(x, lo, q);
    }
    if x == lo + width {
      ScaledAtHigh(x, lo, width, q);
    }
  }

  /** lo itself has offset 0. */
  lemma ScaledAtLow(x: real, lo: real, q: real)
    requires x == lo
    ensures (x - lo) * q == 0.0
  {
  }

  /** lo + width has offset 2. */
  lemma ScaledAtHigh(x: real, lo: real, width: real, q: real)
    requires x == lo + width && Spans(q, width)
    ensures (x - lo) * q == 2.0
  {
    assert x - lo == width;
  }

  /** The factor of a positive width is positive. */
  lemma PositiveFactor(q: real, width: real)
    requires 0.0 < width && Spans(q, width)
    ensures 0.0 < q
  {
  }

  /** Scaling an offset in [0, width] by the factor that sends width to 2 lands in
      [0, 2]. */
  lemma ScaleBetween(d: real, width: real, q: real)
    requires 0.0 <= d <= width && 0.0 < q && Spans(q, width)
    ensures 0.0 <= d * q <= 2.0
  {
    assert d * q <= width * q;
    assert width * q == q * width;
  }

  /** On an axis whose coordinates lie in [lo, lo + width], a fit with bound lo
      and factor 2/width puts every coordinate in [-1, 1], lo at -1 and lo + width
      at 1. */
  lemma AxisFitted(vs: seq<Vec3>, f: Fit, a: nat, lo: real, width: real, q: real)
    requires a < 3 && 0.0 < width
    requires forall k :: 0 <= k < |vs| ==> lo <= Coord(vs[k], a) <= lo + width
    requires Coord(f.low, a) == lo && Coord(f.factor, a) == q && Spans(q, width)
    ensures forall k :: 0 <= k < |vs| ==> -1.0 <= Coord(FitAll(vs, f)[k], a) <= 1.0
    ensures forall k :: 0 <= k < |vs| && Coord(vs[k], a) == lo ==> Coord(FitAll(vs, f)[k], a) == -1.0
    ensures forall k :: 0 <= k < |vs| && Coord(vs[k], a) == lo + width ==> Coord(FitAll(vs, f)[k], a) == 1.0
  {
    forall k | 0 <= k < |vs|
      ensures -1.0 <= Coord(FitAll(vs, f)[k], a) <= 1.0
      ensures Coord(vs[k], a) == lo ==> Coord(FitAll(vs, f)[k], a) == -1.0
      ensures Coord(vs[k], a) == lo + width ==> Coord(FitAll(vs, f)[k], a) == 1.0
    {
      assert FitAll(vs, f)[k] == FitVertex(vs[k], f);
      UnitInterval(Coord(vs[k], a), lo, width, q);
    }
  }

  /** A difference d stretched by the factor s. */
  function Stretch(d: real, s: real): real {
    d * s
  }

  /** A fit with one bound and one factor s on every axis scales every difference
      between two vertices by s. */
  lemma UniformFit(vs: seq<Vec3>, f: Fit, r: seq<Vec3>)
    requires f.low.y == f.low.x && f.low.z == f.low.x
    requires f.factor.y == f.factor.x && f.factor.z == f.factor.x
    requires r == FitAll(vs, f)
    ensures forall k, l, a :: 0 <= k < |vs| && 0 <= l < |vs| && 0 <= a < 3 ==>
              Coord(r[k], a) - Coord(r[l], a) == Stretch(Coord(vs[k], a) - Coord(vs[l], a), f.factor.x)
  {
    forall k, l, a | 0 <= k < |vs| && 0 <= l < |vs| && 0 <= a < 3
      ensures Coord(r[k], a) - Coord(r[l], a) == Stretch(Coord(vs[k], a) - Coord(vs[l], a), f.factor.x)
    {
      assert r[k] == FitVertex(vs[k], f) && r[l] == FitVertex(vs[l], f);
    }
  }

  /** The per-axis factor of each axis times that axis's range is 2. */
  lemma PerAxisFactor(mins: Vec3, maxs: Vec3, a: nat)
    requires a < 3 && maxs.x != mins.x && maxs.y != mins.y && maxs.z != mins.z
    ensures Coord(PerAxisFit(mins, maxs).low, a) == Coord(mins, a)
    ensures Spans(Coord(PerAxisFit(mins, maxs).factor, a), Range(mins, maxs, a))
  {
  }

  /** Without aspect preservation every axis is fitted on its own: all normalised
      coordinates lie in [-1, 1], and the vertices holding an axis's computed
      minimum (maximum) land on -1 (1). */
  lemma FitPerAxis(vs: seq<Vec3>, a: nat)
    requires a < 3 && |vs| > 0 && Normalizable(vs, false)
    ensures forall k :: 0 <= k < |vs| ==> -1.0 <= Coord(Fitted(vs, false)[k], a) <= 1.0
    ensures forall k :: 0 <= k < |vs| && Coord(vs[k], a) == AxisMin(vs, a) ==> Coord(Fitted(vs, false)[k], a) == -1.0
    ensures forall k :: 0 <= k < |vs| && Coord(vs[k], a) == AxisMax(vs, a) ==> Coord(Fitted(vs, false)[k], a) == 1.0
  {
    var mins, maxs := Mins(vs), Maxs(vs);
    var f := PerAxisFit(mins, maxs);
    assert Fitted(vs, false) == FitAll(vs, f);
    var lo, width := Coord(mins, a), Range(mins, maxs, a);
    assert lo == AxisMin(vs, a) && lo + width == AxisMax(vs, a);
    assert lo <= Coord(vs[0], a) <= lo + width;
    PerAxisFactor(mins, maxs, a);
    AxisFitted(vs, f, a, lo, width, Coord(f.factor, a));
  }

  /** With aspect preservation all three axes share one bound and one factor s
      (PreservingFit: s times the widest range is 2): every difference between
      two vertices is scaled by the same s on every axis, so the mesh keeps its
      proportions. */
  lemma FitPreservesAspect(vs: seq<Vec3>)
    requires Normalizable(vs, true)
    ensures FitOf(vs, true) == PreservingFit(Widest(Mins(vs), Maxs(vs), 3).scaling, Widest(Mins(vs), Maxs(vs), 3).bound)
    ensures forall k, l, a :: 0 <= k < |vs| && 0 <= l < |vs| && 0 <= a < 3 ==>
              Coord(Fitted(vs, true)[k], a) - Coord(Fitted(vs, true)[l], a)
              == Stretch(Coord(vs[k], a) - Coord(vs[l], a), FitOf(vs, true).factor.x)
  {
    UniformFit(vs, FitOf(vs, true), Fitted(vs, true));
  }

  /** The axis the aspect-preserving scan picks (Widest says there is one) spans
      exactly [-1, 1]: its computed minimum goes to -1 and its maximum to 1. */
  lemma WidestAxisFitted(vs: seq<Vec3>, a: nat)
    requires |vs| > 0 && Normalizable(vs, true) && a < 3
    requires AxisMax(vs, a) - AxisMin(vs, a) == Widest(Mins(vs), Maxs(vs), 3).scaling
    requires AxisMin(vs, a) == Widest(Mins(vs), Maxs(vs), 3).bound
    ensures forall k :: 0 <= k < |vs| ==> -1.0 <= Coord(Fitted(vs, true)[k], a) <= 1.0
    ensures forall k :: 0 <= k < |vs| && Coord(vs[k], a) == AxisMin(vs, a) ==> Coord(Fitted(vs, true)[k], a) == -1.0
    ensures forall k :: 0 <= k < |vs| && Coord(vs[k], a) == AxisMax(vs, a) ==> Coord(Fitted(vs, true)[k], a) == 1.0
  {
    var w := Widest(Mins(vs), Maxs(vs), 3);
    var f := PreservingFit(w.scaling, w.bound);
    assert Fitted(vs, true) == FitAll(vs, f);
    var lo := AxisMin(vs, a);
    assert lo <= Coord(vs[0], a) <= lo + w.scaling;
    assert Coord(f.low, a) == lo && Coord(f.factor, a) == f.factor.x;
    AxisFitted(vs, f, a, lo, w.scaling, f.factor.x);
  }

  /** The running extremes over two vertices. */
  lemma AxisOfTwo(vs: seq<Vec3>, a: nat)
    requires |vs| == 2 && a < 3
    ensures AxisMin(vs, a) == Min(Min(FltMax, Coord(vs[0], a)), Coord(vs[1], a))
    ensures AxisMax(vs, a) == Max(Max(FltMin, Coord(vs[0], a)), Coord(vs[1], a))
  {
    assert vs[..1] == [vs[0]];
    assert vs[..1][..0] == [];
    assert AxisMin(vs[..1], a) == Min(FltMax, Coord(vs[0], a));
    assert AxisMax(vs[..1], a) == Max(FltMin, Coord(vs[0], a));
  }

  /** Only the widest axis is sure to land in [-1, 1] with aspect preservation:
      the others share its factor and its minimum as their bound. Here x is the
      widest axis (range 10, minimum 0, factor 1/5), and y, whose values lie
      around 20, lands at 3 and 3.2. */
  lemma AspectFitLeavesRange(vs: seq<Vec3>)
    requires vs == [Vec3(0.0, 20.0, 0.0), Vec3(10.0, 21.0, 0.0)]
    ensures Normalizable(vs, true)
    ensures Fitted(vs, true)[0].y == 3.0 && Fitted(vs, true)[1].y == 3.2
    ensures Fitted(vs, true)[0].x == -1.0 && Fitted(vs, true)[1].x == 1.0
  {
    forall a | 0 <= a < 3
      ensures AxisMin(vs, a) == Min(Min(FltMax, Coord(vs[0], a)), Coord(vs[1], a))
      ensures AxisMax(vs, a) == Max(Max(FltMin, Coord(vs[0], a)), Coord(vs[1], a))
    {
      AxisOfTwo(vs, a);
    }
    var mins, maxs := Mins(vs), Maxs(vs);
    assert mins == Vec3(0.0, 20.0, 0.0);
    assert maxs.x == 10.0 && maxs.y == 21.0 && maxs.z == FltMin;
    assert Widest(mins, maxs, 3) == Choice(10.0, 0.0);
    var f := FitOf(vs, true);
    assert f == Fit(Vec3(0.0, 0.0, 0.0), Vec3(0.2, 0.2, 0.2));
  }

  // ---------------------------------------------------------------------------
  // simple_vertex_policy: fan triangulation and planes

  /** A buffer entry: a triangle corner and the plane of its triangle. */
  datatype Entry = Entry(vertex: Vec3, plane: Vec4)

  /** `normal(a, b, c)`: cross(b - a, c - a). */
  function Normal(a: Vec3, b: Vec3, c: Vec3): Vec3 {
    Cross(Sub(b, a), Sub(c, a))
  }

  /** `r = (n, -dot(a, n))`. */
  function Plane(a: Vec3, b: Vec3, c: Vec3): Vec4 {
    var n := Normal(a, b, c);
    Vec4(n.x, n.y, n.z, -Dot(a, n))
  }

  /** `{v, 1.0}`. */
  function Extend(v: Vec3): Vec4 {
    Vec4(v.x, v.y, v.z, 1.0)
  }

  lemma DotSub(p: Vec3, a: Vec3, n: Vec3)
    ensures Dot(p, n) - Dot(a, n) == Dot(Sub(p, a), n)
  {
  }

  /** All three corners of a triangle lie on its plane. */
  lemma PlaneHoldsCorners(a: Vec3, b: Vec3, c: Vec3)
    ensures Dot4(Plane(a, b, c), Extend(a)) == 0.0
    ensures Dot4(Plane(a, b, c), Extend(b)) == 0.0
    ensures Dot4(Plane(a, b, c), Extend(c)) == 0.0
  {
    var n := Normal(a, b, c);
    DotSub(b, a, n);
    DotSub(c, a, n);
    CrossPerpendicular(Sub(b, a), Sub(c, a));
    assert Dot4(Plane(a, b, c), Extend(b)) == Dot(b, n) - Dot(a, n);
    assert Dot4(Plane(a, b, c), Extend(c)) == Dot(c, n) - Dot(a, n);
  }

  /** A face the loop can triangulate: non-empty (the source's `size() - 1` on an
      unsigned size wraps for an empty face) and indexing existing vertices. */
  predicate ValidFace(face: seq<nat>, count: nat) {
    |face| > 0 && forall j :: 0 <= j < |face| ==> face[j] < count
  }

  /** The three entries of fan triangle j: (v0, vj, vj+1) with their plane. */
  function Triangle(vs: seq<Vec3>, face: seq<nat>, j: nat): seq<Entry>
    requires ValidFace(face, |vs|) && 1 <= j && j + 1 < |face|
  {
    var a, b, c := vs[face[0]], vs[face[j]], vs[face[j + 1]];
    var p := Plane(a, b, c);
    [Entry(a, p), Entry(b, p), Entry(c, p)]
  }

  /** The first t triangles of the fan of `face`. */
  function Triangles(vs: seq<Vec3>, face: seq<nat>, t: nat): (r: seq<Entry>)
    requires t == 0 || t + 1 < |face|
    requires ValidFace(face, |vs|)
    decreases t
  {
    if t == 0 then [] else Triangles(vs, face, t - 1) + Triangle(vs, face, t)
  }

  /** The fan of a face of k corners: k - 2 triangles, none for k < 3. */
  function Fan(vs: seq<Vec3>, face: seq<nat>): seq<Entry>
    requires ValidFace(face, |vs|)
  {
    Triangles(vs, face, if |face| >= 2 then |face| - 2 else 0)
  }

  /** Triangle t (counting from 0) of a fan takes up entries 3t, 3t+1 and 3t+2:
      the fan's first corner, corner t+1 and corner t+2, all with their plane. */
  lemma {:induction false} TrianglesLayout(vs: seq<Vec3>, face: seq<nat>, t: nat)
    requires t == 0 || t + 1 < |face|
    requires ValidFace(face, |vs|)
    ensures |Triangles(vs, face, t)| == 3 * t
    ensures forall u :: 0 <= u < t ==>
              var p := Plane(vs[face[0]], vs[face[u + 1]], vs[face[u + 2]]);
              && Triangles(vs, face, t)[3 * u] == Entry(vs[face[0]], p)
              && Triangles(vs, face, t)[3 * u + 1] == Entry(vs[face[u + 1]], p)
              && Triangles(vs, face, t)[3 * u + 2] == Entry(vs[face[u + 2]], p)
    decreases t
  {
    if t > 0 {
      TrianglesLayout(vs, face, t - 1);
      var before, last := Triangles(vs, face, t - 1), Triangle(vs, face, t);
      assert Triangles(vs, face, t) == before + last;
      forall u | 0 <= u < t
        ensures var p := Plane(vs[face[0]], vs[face[u + 1]], vs[face[u + 2]]);
                && (before + last)[3 * u] == Entry(vs[face[0]], p)
                && (before + last)[3 * u + 1] == Entry(vs[face[u + 1]], p)
                && (before + last)[3 * u + 2] == Entry(vs[face[u + 2]], p)
      {
        if u == t - 1 {
          assert (before + last)[3 * u] == last[0];
          assert (before + last)[3 * u + 1] == last[1];
          assert (before + last)[3 * u + 2] == last[2];
        } else {
          assert (before + last)[3 * u] == before[3 * u];
          assert (before + last)[3 * u + 1] == before[3 * u + 1];
          assert (before + last)[3 * u + 2] == before[3 * u + 2];
        }
      }
    }
  }

  /** A face of k >= 2 corners yields 3(k - 2) entries laid out as above. */
  lemma FanLayout(vs: seq<Vec3>, face: seq<nat>)
    requires ValidFace(face, |vs|)
    ensures |Fan(vs, face)| == if |face| >= 2 then 3 * (|face| - 2) else 0
    ensures forall u :: 0 <= u && u + 2 < |face| ==>
              var p := Plane(vs[face[0]], vs[face[u + 1]], vs[face[u + 2]]);
              && Fan(vs, face)[3 * u] == Entry(vs[face[0]], p)
              && Fan(vs, face)[3 * u + 1] == Entry(vs[face[u + 1]], p)
              && Fan(vs, face)[3 * u + 2] == Entry(vs[face[u + 2]], p)
  {
    var t := if |face| >= 2 then |face| - 2 else 0;
    TrianglesLayout(vs, face, t);
    var fan := Triangles(vs, face, t);
    assert Fan(vs, face) == fan;
    forall u | 0 <= u && u + 2 < |face|
      ensures var p := Plane(vs[face[0]], vs[face[u + 1]], vs[face[u + 2]]);
              && fan[3 * u] == Entry(vs[face[0]], p)
              && fan[3 * u + 1] == Entry(vs[face[u + 1]], p)
              && fan[3 * u + 2] == Entry(vs[face[u + 2]], p)
    {
      assert u < t;
    }
  }

  /** Every entry of a fan lies on its own plane. */
  lemma {:induction false} FanOnPlanes(vs: seq<Vec3>, face: seq<nat>, t: nat)
    requires t == 0 || t + 1 < |face|
    requires ValidFace(face, |vs|)
    ensures forall e :: e in Triangles(vs, face, t) ==> Dot4(e.plane, Extend(e.vertex)) == 0.0
    decreases t
  {
    if t > 0 {
      FanOnPlanes(vs, face, t - 1);
      PlaneHoldsCorners(vs[face[0]], vs[face[t]], vs[face[t + 1]]);
    }
  }

  function BufferData(vs: seq<Vec3>, faces: seq<seq<nat>>): seq<Entry>
    requires forall i :: 0 <= i < |faces| ==> ValidFace(faces[i], |vs|)
    decreases |faces|
  {
    if faces == [] then []
    else BufferData(vs, faces[..|faces| - 1]) + Fan(vs, faces[|faces| - 1])
  }

  /** The inner loop of `compute_buffer_data`: the fan of one face. */
  method TriangulateFace(vs: seq<Vec3>, face: seq<nat>) returns (entries: seq<Entry>)
    requires ValidFace(face, |vs|)
    ensures entries == Fan(vs, face)
  {
    entries := [];
    var j := 1;
    while j < |face| - 1
      invariant 1 <= j && (j <= |face| - 1 || j == 1)
      invariant entries == Triangles(vs, face, j - 1)
      decreases |face| - j
    {
      var a, b, c := vs[face[0]], vs[face[j]], vs[face[j + 1]];
      var n := Cross(Sub(b, a), Sub(c, a));
      var r := Vec4(n.x, n.y, n.z, -Dot(a, n));
      entries := entries + [Entry(a, r), Entry(b, r), Entry(c, r)];
      j := j + 1;
    }
  }

  /** `compute_buffer_data`: the fans of all faces, in face order. */
  method ComputeBufferData(vs: seq<Vec3>, faces: seq<seq<nat>>) returns (data: seq<Entry>)
    requires forall i :: 0 <= i < |faces| ==> ValidFace(faces[i], |vs|)
    ensures data == BufferData(vs, faces)
  {
    data := [];
    for i := 0 to |faces|
      invariant data == BufferData(vs, faces[..i])
    {
      assert faces[..i + 1][..i] == faces[..i];
      var entries := TriangulateFace(vs, faces[i]);
      data := data + entries;
    }
    assert faces[..|faces|] == faces;
  }

  /** Every entry of the buffer lies on its own plane. */
  lemma {:induction false} BufferOnPlanes(vs: seq<Vec3>, faces: seq<seq<nat>>)
    requires forall i :: 0 <= i < |faces| ==> ValidFace(faces[i], |vs|)
    ensures forall e :: e in BufferData(vs, faces) ==> Dot4(e.plane, Extend(e.vertex)) == 0.0
    decreases |faces|
  {
    if faces != [] {
      BufferOnPlanes(vs, faces[..|faces| - 1]);
      var face := faces[|faces| - 1];
      FanOnPlanes(vs, face, if |face| >= 2 then |face| - 2 else 0);
    }
  }

  /** `is_inside` from entry i on. */
  function InsideFrom(v: Vec3, data: seq<Entry>, i: nat): (r: bool)
    requires i <= |data|
    ensures r <==> forall j :: i <= j < |data| ==> Dot4(data[j].plane, Extend(v)) <= 0.0
    decreases |data| - i
  {
    if i == |data| then true
    else if Dot4(data[i].plane, Extend(v)) > 0.0 then false
    else InsideFrom(v, data, i + 1)
  }

  /** `simple_vertex_policy::is_inside`: no entry's plane has the point strictly on
      its positive side. */
  function IsInside(v: Vec3, data: seq<Entry>): (r: bool)
    ensures !r <==> exists i :: 0 <= i < |data| && Dot4(data[i].plane, Extend(v)) > 0.0
  {
    InsideFrom(v, data, 0)
  }

  /** No corner of the mesh is outside the plane of its own triangle: the test of
      a buffer entry's vertex against that entry's plane always passes. */
  lemma CornerOnOwnPlane(vs: seq<Vec3>, faces: seq<seq<nat>>, i: nat)
    requires forall f :: 0 <= f < |faces| ==> ValidFace(faces[f], |vs|)
    requires i < |BufferData(vs, faces)|
    ensures var e := BufferData(vs, faces)[i];
            IsInside(e.vertex, [e])
  {
    BufferOnPlanes(vs, faces);
    var e := BufferData(vs, faces)[i];
    assert e in BufferData(vs, faces);
  }

  // ---------------------------------------------------------------------------
  // normalize_data and the mesh

  /** The third step of `normalize_data`: the bound and factors, with the
      aspect-preserving scan over the three axes. */
  method ComputeFit(mins: Vec3, maxs: Vec3, preserve: bool) returns (f: Fit)
    requires !preserve ==> maxs.x != mins.x && maxs.y != mins.y && maxs.z != mins.z
    ensures f == FitFrom(mins, maxs, preserve)
  {
    if preserve {
      var scaling, lowerBound := 0.0, 0.0;
      for a := 0 to 3
        invariant Choice(scaling, lowerBound) == Widest(mins, maxs, a)
      {
        var diff := Coord(maxs, a) - Coord(mins, a);
        if scaling < diff {
          scaling, lowerBound := diff, Coord(mins, a);
        }
      }
      f := PreservingFit(scaling, lowerBound);
    } else {
      f := PerAxisFit(mins, maxs);
    }
  }

  /** The last loop of `normalize_data`: every vertex fitted in place. */
  method FitVertices(vertices: seq<Vec3>, f: Fit) returns (vs: seq<Vec3>)
    ensures vs == FitAll(vertices, f)
  {
    vs := vertices;
    for k := 0 to |vs|
      invariant |vs| == |vertices|
      invariant forall l :: 0 <= l < k ==> vs[l] == FitVertex(vertices[l], f)
      invariant forall l :: k <= l < |vs| ==> vs[l] == vertices[l]
    {
      vs := vs[k := FitVertex(vs[k], f)];
    }
  }

  /** `normalize_data`: rebase the indices, find the extremes, fit the vertices and
      triangulate. The source indexes vertices with the rebased indices without a
      bounds test, so they must be in range and every face non-empty. */
  method NormalizeData(vertices: seq<Vec3>, indices: seq<seq<nat>>, preserve: bool) returns (data: seq<Entry>)
    requires Normalizable(vertices, preserve)
    requires forall i :: 0 <= i < |indices| ==> ValidFace(Rebased(indices)[i], |vertices|)
    ensures data == BufferData(Fitted(vertices, preserve), Rebased(indices))
  {
    var idx := RebaseIndices(indices);
    var mins, maxs := Extremes(vertices);
    var f := ComputeFit(mins, maxs, preserve);
    var vs := FitVertices(vertices, f);
    data := ComputeBufferData(vs, idx);
  }

  /** `generic_mesh<simple_vertex_policy>` without its GPU buffers: the entry buffer
      its constructor computes. */
  class Mesh {
    var data: seq<Entry>

    constructor (vertices: seq<Vec3>, indices: seq<seq<nat>>, preserve: bool)
      requires Normalizable(vertices, preserve)
      requires forall i :: 0 <= i < |indices| ==> ValidFace(Rebased(indices)[i], |vertices|)
      ensures data == BufferData(Fitted(vertices, preserve), Rebased(indices))
    {
      var d := NormalizeData(vertices, indices, preserve);
      data := d;
    }

    /** `generic_mesh::is_inside`, the policy's loop over the buffer: it stops at
        the first entry whose plane has the point strictly on its positive side. */
    method Contains(v: Vec3) returns (r: bool)
      ensures r == IsInside(v, data)
    {
      for i := 0 to |data|
        invariant InsideFrom(v, data, 0) == InsideFrom(v, data, i)
      {
        if Dot4(data[i].plane, Extend(v)) > 0.0 {
          return false;
        }
      }
      return true;
    }
  }

  // ---------------------------------------------------------------------------
  // from_file

  /** What the reading loop collects. */
  datatype Parsed = Parsed(vertices: seq<Vec3>, faces: seq<seq<nat>>)

  /** Two stretches of the file read one after the other. */
  function Then(a: Parsed, b: Parsed): Parsed {
    Parsed(a.vertices + b.vertices, a.faces + b.faces)
  }

  lemma ThenAssoc(a: Parsed, b: Parsed, c: Parsed)
    ensures Then(Then(a, b), c) == Then(a, Then(b, c))
  {
  }

  predicate IsDigit(c: char) {
    '0' <= c <= '9'
  }

  /** `std::stoi` on a token that starts with a digit: the value of its leading
      digits (it stops at the first other character, such as the '/' of "3/1/2"). */
  function LeadingInt(s: string, acc: nat): nat
    decreases |s|
  {
    if s == [] || !IsDigit(s[0]) then acc
    else LeadingInt(s[1..], acc * 10 + (s[0] as int - '0' as int))
  }

  lemma LeadingIntExample()
    ensures LeadingInt("12/7/3", 0) == 12
  {
    assert "12/7/3"[1..] == "2/7/3";
    assert "2/7/3"[1..] == "/7/3";
  }

  /** A token as `>>` extracts it from the file: a run of non-whitespace
      characters. `spaced` says that the whitespace after it holds a ' ' before
      any line break, `breaks` that it holds a line break or that the file ends
      there. */
  datatype Token = Token(text: string, spaced: bool, breaks: bool)

  predicate NonEmptyTexts(ts: seq<Token>) {
    forall k :: 0 <= k < |ts| ==> |ts[k].text| > 0
  }

  /** Whether the whitespace after t holds the delimiter an `ignore` looks for:
      ' ' when `space`, '\n' otherwise. */
  predicate Stops(t: Token, space: bool) {
    if space then t.spaced else t.breaks
  }

  /** Where an `ignore(max, ' ')` (when `space`) or an `ignore(max, '\n')` or
      `getline` (otherwise) that starts at token i leaves the stream: just past
      the first token from i on that is followed by the delimiter, or at the end. */
  function PastFrom(ts: seq<Token>, i: nat, space: bool): (j: nat)
    requires i <= |ts|
    ensures i <= j <= |ts| && (i < |ts| ==> i < j)
    ensures forall k :: i <= k < j - 1 ==> !Stops(ts[k], space)
    ensures j < |ts| ==> i < j && Stops(ts[j - 1], space)
    decreases |ts| - i
  {
    if i == |ts| then i else if Stops(ts[i], space) then i + 1 else PastFrom(ts, i + 1, space)
  }

  /** The indices of an "f" line whose tokens are separated by single spaces: the
      leading integer of each token that starts with a digit, in order; other
      tokens give nothing. */
  function DigitIndices(line: seq<Token>): (r: seq<nat>)
    requires NonEmptyTexts(line)
    ensures |r| <= |line|
    ensures (forall k :: 0 <= k < |line| ==> IsDigit(line[k].text[0])) ==>
              |r| == |line| && forall k :: 0 <= k < |r| ==> r[k] == LeadingInt(line[k].text, 0)
    ensures (forall k :: 0 <= k < |line| ==> !IsDigit(line[k].text[0])) ==> r == []
    decreases |line|
  {
    if line == [] then []
    else (if IsDigit(line[0].text[0]) then [LeadingInt(line[0].text, 0)] else []) + DigitIndices(line[1..])
  }

  /** The indices the inner loop reads from token i of the rest of an "f" line on:
      the leading integer of each token that starts with a digit. After such a
      token `ignore(max, ' ')` runs: when the token is not followed by a space it
      drops the next tokens up to and including the first one that is. */
  function FaceFrom(line: seq<Token>, i: nat): (r: seq<nat>)
    requires NonEmptyTexts(line) && i <= |line|
    ensures |r| <= |line| - i
    decreases |line| - i
  {
    if i == |line| then []
    else if IsDigit(line[i].text[0]) then
      [LeadingInt(line[i].text, 0)] + FaceFrom(line, if line[i].spaced then i + 1 else PastFrom(line, i + 1, true))
    else FaceFrom(line, i + 1)
  }

  /** The face the inner loop reads from the rest of an "f" line. */
  function FaceIndices(line: seq<Token>): (r: seq<nat>)
    requires NonEmptyTexts(line)
    ensures |r| <= |line|
  {
    FaceFrom(line, 0)
  }

  /** With a space after every token but the last, the `ignore` drops nothing and
      the face holds the leading integer of every token that starts with a digit. */
  lemma {:induction false} SpacedFaceIndices(line: seq<Token>)
    requires NonEmptyTexts(line)
    requires forall k :: 0 <= k < |line| - 1 ==> line[k].spaced
    ensures FaceIndices(line) == DigitIndices(line)
  {
    SpacedFaceFrom(line, 0);
    assert line[0..] == line;
  }

  lemma {:induction false} SpacedFaceFrom(line: seq<Token>, i: nat)
    requires NonEmptyTexts(line) && i <= |line|
    requires forall k :: 0 <= k < |line| - 1 ==> line[k].spaced
    ensures FaceFrom(line, i) == DigitIndices(line[i..])
    decreases |line| - i
  {
    if i < |line| {
      assert line[i..][1..] == line[i + 1..];
      SpacedFaceFrom(line, i + 1);
    }
  }

  /** The tokens of "f 1\t2\t3" give the face [1]: the `ignore` after "1" skips to
      the end of the line for want of a space. Separated by spaces the same tokens
      give [1, 2, 3]. */
  lemma TabSeparatedFace()
    ensures FaceIndices([Token("1", false, false), Token("2", false, false), Token("3", false, true)]) == [1]
    ensures DigitIndices([Token("1", false, false), Token("2", false, false), Token("3", false, true)]) == [1, 2, 3]
  {
    var line := [Token("1", false, false), Token("2", false, false), Token("3", false, true)];
    assert PastFrom(line, 1, true) == 3;
    assert LeadingInt("1", 0) == 1 && LeadingInt("2", 0) == 2 && LeadingInt("3", 0) == 3 by {
      assert "1"[1..] == [] && "2"[1..] == [] && "3"[1..] == [];
    }
    assert line[1..][1..] == [Token("3", false, true)];
  }

  /** `in >> v[0] >> v[1] >> v[2]` on the tokens from `at` on, where `coord` is the
      float a whole token reads as, if any. An extraction that fails (no token
      left, or one that is not a number) leaves 0 in its component and the stream
      failed, so the later ones leave theirs at the value-initialised 0 too. */
  function ReadVertex(ts: seq<Token>, at: nat, coord: string -> Option<real>): (r: (Vec3, bool))
    ensures r.1 <==> at + 3 <= |ts| && coord(ts[at].text).Some? && coord(ts[at + 1].text).Some?
                                   && coord(ts[at + 2].text).Some?
    ensures r.1 ==> r.0 == Vec3(coord(ts[at].text).value, coord(ts[at + 1].text).value,
                                coord(ts[at + 2].text).value)
    ensures (at >= |ts| || coord(ts[at].text).None?) ==> r.0 == Vec3(0.0, 0.0, 0.0)
  {
    var ok0 := at < |ts| && coord(ts[at].text).Some?;
    var ok1 := ok0 && at + 1 < |ts| && coord(ts[at + 1].text).Some?;
    var ok2 := ok1 && at + 2 < |ts| && coord(ts[at + 2].text).Some?;
    (Vec3(if ok0 then coord(ts[at].text).value else 0.0,
          if ok1 then coord(ts[at + 1].text).value else 0.0,
          if ok2 then coord(ts[at + 2].text).value else 0.0), ok2)
  }

  /** `from_file`'s reading loop from token i on. "v" pushes a vertex read from
      the next three tokens, wherever they are; if a read fails the stream is
      failed and the loop stops. "f" pushes a face read from the rest of its line.
      Any other token is skipped with the rest of its line. */
  function ParseFrom(ts: seq<Token>, i: nat, coord: string -> Option<real>): (r: Parsed)
    requires NonEmptyTexts(ts) && i <= |ts|
    decreases |ts| - i
  {
    if i == |ts| then Parsed([], [])
    else if ts[i].text == "v" then
      var r := ReadVertex(ts, i + 1, coord);
      if r.1 then Then(Parsed([r.0], []), ParseFrom(ts, i + 4, coord)) else Parsed([r.0], [])
    else
      var j := if ts[i].breaks then i + 1 else PastFrom(ts, i + 1, false);
      if ts[i].text == "f" then Then(Parsed([], [FaceIndices(ts[i + 1..j])]), ParseFrom(ts, j, coord))
      else ParseFrom(ts, j, coord)
  }

  /** What `from_file` reads from the tokens of a file. */
  function Parse(ts: seq<Token>, coord: string -> Option<real>): Parsed
    requires NonEmptyTexts(ts)
  {
    ParseFrom(ts, 0, coord)
  }

  /** Every vertex and every face read consumes at least its own command token. */
  lemma {:induction false} ParseBound(ts: seq<Token>, i: nat, coord: string -> Option<real>)
    requires NonEmptyTexts(ts) && i <= |ts|
    ensures |ParseFrom(ts, i, coord).vertices| + |ParseFrom(ts, i, coord).faces| <= |ts| - i
    decreases |ts| - i
  {
    if i < |ts| {
      if ts[i].text == "v" {
        if ReadVertex(ts, i + 1, coord).1 {
          ParseBound(ts, i + 4, coord);
        }
      } else {
        var j := if ts[i].breaks then i + 1 else PastFrom(ts, i + 1, false);
        ParseBound(ts, j, coord);
      }
    }
  }

  /** One turn of the reading loop on a "v" at token i. */
  lemma VertexStep(ts: seq<Token>, i: nat, coord: string -> Option<real>)
    requires NonEmptyTexts(ts) && i < |ts| && ts[i].text == "v"
    ensures var r := ReadVertex(ts, i + 1, coord);
            ParseFrom(ts, i, coord)
              == if r.1 then Then(Parsed([r.0], []), ParseFrom(ts, i + 4, coord)) else Parsed([r.0], [])
  {
  }

  /** One turn of the reading loop on any other command at token i, whose line
      ends just before token j. */
  lemma LineStep(ts: seq<Token>, i: nat, j: nat, coord: string -> Option<real>)
    requires NonEmptyTexts(ts) && i < |ts| && ts[i].text != "v"
    requires j == if ts[i].breaks then i + 1 else PastFrom(ts, i + 1, false)
    ensures ts[i].text == "f" ==>
              ParseFrom(ts, i, coord) == Then(Parsed([], [FaceIndices(ts[i + 1..j])]), ParseFrom(ts, j, coord))
    ensures ts[i].text != "f" ==> ParseFrom(ts, i, coord) == ParseFrom(ts, j, coord)
  {
  }

  // The same file read as one command per line.

  /** A line in the shape the reader expects: one command with its arguments,
      single spaces between them, a line break after the last, and a "v" with
      three coordinates that read as numbers. */
  predicate CommandLine(line: seq<Token>, coord: string -> Option<real>) {
    && |line| > 0 && NonEmptyTexts(line)
    && line[|line| - 1].breaks
    && (forall k :: 0 <= k < |line| - 1 ==> line[k].spaced && !line[k].breaks)
    && (line[0].text == "v" ==> |line| == 4 && ReadVertex(line, 1, coord).1)
  }

  /** What one such line contributes: "v" a vertex from its three numbers, "f" a
      face from the digit tokens of its rest, anything else nothing. */
  function LineParse(line: seq<Token>, coord: string -> Option<real>): (r: Parsed)
    requires CommandLine(line, coord)
    ensures line[0].text == "v" ==>
              r == Parsed([Vec3(coord(line[1].text).value, coord(line[2].text).value,
                                coord(line[3].text).value)], [])
    ensures line[0].text == "f" ==> r == Parsed([], [DigitIndices(line[1..])])
    ensures line[0].text != "v" && line[0].text != "f" ==> r == Parsed([], [])
  {
    if line[0].text == "v" then Parsed([ReadVertex(line, 1, coord).0], [])
    else if line[0].text == "f" then Parsed([], [DigitIndices(line[1..])])
    else Parsed([], [])
  }

  function ParseLines(lines: seq<seq<Token>>, coord: string -> Option<real>): Parsed
    requires forall i :: 0 <= i < |lines| ==> CommandLine(lines[i], coord)
    decreases |lines|
  {
    if lines == [] then Parsed([], []) else Then(LineParse(lines[0], coord), ParseLines(lines[1..], coord))
  }

  /** The tokens of the lines, one line after the other. */
  function Flatten(lines: seq<seq<Token>>): seq<Token>
    decreases |lines|
  {
    if lines == [] then [] else lines[0] + Flatten(lines[1..])
  }

  /** How many lines start with `cmd`. */
  function CountCommand(lines: seq<seq<Token>>, cmd: string): nat
    decreases |lines|
  {
    if lines == [] then 0
    else (if |lines[0]| > 0 && lines[0][0].text == cmd then 1 else 0) + CountCommand(lines[1..], cmd)
  }

  /** One vertex per "v" line and one face per "f" line. */
  lemma {:induction false} ParseCounts(lines: seq<seq<Token>>, coord: string -> Option<real>)
    requires forall i :: 0 <= i < |lines| ==> CommandLine(lines[i], coord)
    ensures |ParseLines(lines, coord).vertices| == CountCommand(lines, "v")
    ensures |ParseLines(lines, coord).faces| == CountCommand(lines, "f")
    decreases |lines|
  {
    if lines != [] {
      ParseCounts(lines[1..], coord);
    }
  }

  /** `getline` (or `ignore(max, '\n')`) from token i stops just past the first
      token followed by a line break. */
  lemma {:induction false} PastLine(ts: seq<Token>, i: nat, end: nat)
    requires i < end <= |ts| && ts[end - 1].breaks
    requires forall k :: i <= k < end - 1 ==> !ts[k].breaks
    ensures PastFrom(ts, i, false) == end
    decreases end - i
  {
    if i < end - 1 {
      PastLine(ts, i + 1, end);
    }
  }

  /** The reading loop from token i, under a name of its own for the lemmas
      below: their statements about it then match without unfolding it. */
  function At(ts: seq<Token>, i: nat, coord: string -> Option<real>): Parsed
    requires NonEmptyTexts(ts) && i <= |ts|
  {
    ParseFrom(ts, i, coord)
  }

  /** The command line at token i ends where the reader's skip to the line's end
      stops. */
  lemma LineEnd(ts: seq<Token>, i: nat, line: seq<Token>, coord: string -> Option<real>)
    requires i + |line| <= |ts| && ts[i..i + |line|] == line && CommandLine(line, coord)
    ensures (if ts[i].breaks then i + 1 else PastFrom(ts, i + 1, false)) == i + |line|
  {
    var n := |line|;
    assert ts[i] == line[0];
    if n == 1 {
      assert line[0].breaks;
    } else {
      assert !line[0].breaks;
      forall k | i + 1 <= k < i + n - 1 ensures !ts[k].breaks {
        assert ts[k] == line[k - i];
      }
      assert ts[i + n - 1] == line[n - 1];
      PastLine(ts, i + 1, i + n);
    }
  }

  lemma VertexLineAt(ts: seq<Token>, i: nat, line: seq<Token>, coord: string -> Option<real>)
    requires NonEmptyTexts(ts) && i + |line| <= |ts| && ts[i..i + |line|] == line && CommandLine(line, coord)
    requires line[0].text == "v"
    ensures At(ts, i, coord) == Then(LineParse(line, coord), At(ts, i + |line|, coord))
  {
    assert ts[i] == line[0];
    assert ts[i + 1] == line[1] && ts[i + 2] == line[2] && ts[i + 3] == line[3];
    assert ReadVertex(ts, i + 1, coord) == ReadVertex(line, 1, coord);
    VertexStep(ts, i, coord);
  }

  lemma FaceStepAt(ts: seq<Token>, i: nat, n: nat, coord: string -> Option<real>)
    requires NonEmptyTexts(ts) && 0 < n && i + n <= |ts| && ts[i].text == "f"
    requires (if ts[i].breaks then i + 1 else PastFrom(ts, i + 1, false)) == i + n
    ensures At(ts, i, coord) == Then(Parsed([], [FaceIndices(ts[i + 1..i + n])]), At(ts, i + n, coord))
  {
  }

  lemma FaceOfLine(ts: seq<Token>, i: nat, line: seq<Token>, coord: string -> Option<real>)
    requires NonEmptyTexts(ts) && i + |line| <= |ts| && ts[i..i + |line|] == line && CommandLine(line, coord)
    requires line[0].text == "f"
    ensures NonEmptyTexts(ts[i + 1..i + |line|])
    ensures LineParse(line, coord) == Parsed([], [FaceIndices(ts[i + 1..i + |line|])])
  {
    assert ts[i + 1..i + |line|] == line[1..];
    SpacedFaceIndices(line[1..]);
  }

  lemma FaceLineAt(ts: seq<Token>, i: nat, line: seq<Token>, coord: string -> Option<real>)
    requires NonEmptyTexts(ts) && i + |line| <= |ts| && ts[i..i + |line|] == line && CommandLine(line, coord)
    requires line[0].text == "f"
    ensures At(ts, i, coord) == Then(LineParse(line, coord), At(ts, i + |line|, coord))
  {
    assert ts[i] == line[0];
    LineEnd(ts, i, line, coord);
    FaceOfLine(ts, i, line, coord);
    FaceStepAt(ts, i, |line|, coord);
  }

  lemma OtherLineAt(ts: seq<Token>, i: nat, line: seq<Token>, coord: string -> Option<real>)
    requires NonEmptyTexts(ts) && i + |line| <= |ts| && ts[i..i + |line|] == line && CommandLine(line, coord)
    requires line[0].text != "v" && line[0].text != "f"
    ensures At(ts, i, coord) == Then(LineParse(line, coord), At(ts, i + |line|, coord))
  {
    assert ts[i] == line[0];
    LineEnd(ts, i, line, coord);
    LineStep(ts, i, i + |line|, coord);
  }

  /** Reading from a token that starts a command line is reading the line's
      contribution and then what follows the line. */
  lemma LineAt(ts: seq<Token>, i: nat, line: seq<Token>, coord: string -> Option<real>)
    requires NonEmptyTexts(ts) && i + |line| <= |ts| && ts[i..i + |line|] == line && CommandLine(line, coord)
    ensures At(ts, i, coord) == Then(LineParse(line, coord), At(ts, i + |line|, coord))
  {
    if line[0].text == "v" {
      VertexLineAt(ts, i, line, coord);
    } else if line[0].text == "f" {
      FaceLineAt(ts, i, line, coord);
    } else {
      OtherLineAt(ts, i, line, coord);
    }
  }

  lemma {:induction false} FlattenTexts(lines: seq<seq<Token>>, coord: string -> Option<real>)
    requires forall i :: 0 <= i < |lines| ==> CommandLine(lines[i], coord)
    ensures NonEmptyTexts(Flatten(lines))
    decreases |lines|
  {
    if lines != [] {
      FlattenTexts(lines[1..], coord);
      var f := Flatten(lines);
      forall k | 0 <= k < |f| ensures |f[k].text| > 0 {
        if k < |lines[0]| {
          assert f[k] == lines[0][k];
        } else {
          assert f[k] == Flatten(lines[1..])[k - |lines[0]|];
        }
      }
    }
  }

  lemma FlattenSplit(ts: seq<Token>, p: nat, lines: seq<seq<Token>>)
    requires p <= |ts| && ts[p..] == Flatten(lines) && lines != []
    ensures p + |lines[0]| <= |ts|
    ensures ts[p..p + |lines[0]|] == lines[0] && ts[p + |lines[0]|..] == Flatten(lines[1..])
  {
    var n := |lines[0]|;
    assert ts[p..] == lines[0] + Flatten(lines[1..]);
    assert ts[p..p + n] == ts[p..][..n];
    assert ts[p + n..] == ts[p..][n..];
  }

  /** Reading from token p, where the tokens of the lines run to the end, is
      reading the lines one by one. */
  lemma {:induction false} LinesAt(ts: seq<Token>, p: nat, lines: seq<seq<Token>>, coord: string -> Option<real>)
    requires NonEmptyTexts(ts) && p <= |ts| && ts[p..] == Flatten(lines)
    requires forall i :: 0 <= i < |lines| ==> CommandLine(lines[i], coord)
    ensures At(ts, p, coord) == ParseLines(lines, coord)
    decreases |lines|
  {
    if lines == [] {
      assert |ts[p..]| == 0;
    } else {
      var n := |lines[0]|;
      FlattenSplit(ts, p, lines);
      LineAt(ts, p, lines[0], coord);
      LinesAt(ts, p + n, lines[1..], coord);
    }
  }

  /** A file of command lines, each holding one command with its arguments
      separated by single spaces, is read line by line. */
  lemma ParseByLines(lines: seq<seq<Token>>, coord: string -> Option<real>)
    requires forall i :: 0 <= i < |lines| ==> CommandLine(lines[i], coord)
    ensures NonEmptyTexts(Flatten(lines))
    ensures Parse(Flatten(lines), coord) == ParseLines(lines, coord)
  {
    FlattenTexts(lines, coord);
    var ts := Flatten(lines);
    assert ts[0..] == ts;
    LinesAt(ts, 0, lines, coord);
  }

  /** "v 1 2 3 f 1 2 3" on one line: the vertex is read, and the "f" after it is a
      command too and reads the rest of the line as a face. Read as one command
      per line, the line would give the vertex only. */
  lemma InlineCommands(coord: string -> Option<real>)
    requires coord("1") == Some(1.0) && coord("2") == Some(2.0) && coord("3") == Some(3.0)
    ensures var line := [Token("v", true, false), Token("1", true, false), Token("2", true, false),
                         Token("3", true, false), Token("f", true, false), Token("1", true, false),
                         Token("2", true, false), Token("3", false, true)];
            Parse(line, coord) == Parsed([Vec3(1.0, 2.0, 3.0)], [[1, 2, 3]])
  {
    var line := [Token("v", true, false), Token("1", true, false), Token("2", true, false),
                 Token("3", true, false), Token("f", true, false), Token("1", true, false),
                 Token("2", true, false), Token("3", false, true)];
    var face := line[5..8];
    assert PastFrom(line, 5, false) == 8;
    assert LeadingInt("1", 0) == 1 && LeadingInt("2", 0) == 2 && LeadingInt("3", 0) == 3 by {
      assert "1"[1..] == [] && "2"[1..] == [] && "3"[1..] == [];
    }
    assert FaceIndices(face) == [1, 2, 3] by {
      SpacedFaceIndices(face);
      assert face[1..][1..] == [Token("3", false, true)];
    }
  }

  /** "v 1 2" with its third coordinate missing: the extraction goes on into the
      next line, meets the "f" there, fails, and the file is read no further. The
      vertex keeps the two numbers it got and 0 for the third. */
  lemma ShortVertex(coord: string -> Option<real>)
    requires coord("1") == Some(1.0) && coord("2") == Some(2.0) && coord("f").None?
    ensures var ts := [Token("v", true, false), Token("1", true, false), Token("2", false, true),
                       Token("f", true, false), Token("1", true, false), Token("2", false, true)];
            Parse(ts, coord) == Parsed([Vec3(1.0, 2.0, 0.0)], [])
  {
    var ts := [Token("v", true, false), Token("1", true, false), Token("2", false, true),
               Token("f", true, false), Token("1", true, false), Token("2", false, true)];
    assert !ReadVertex(ts, 1, coord).1;
  }

  /** `ignore(max, delim)` from token `from` on. */
  method SkipPast(ts: seq<Token>, from: nat, space: bool) returns (j: nat)
    requires from <= |ts|
    ensures j == PastFrom(ts, from, space)
  {
    j := from;
    while j < |ts| && !Stops(ts[j], space)
      invariant from <= j <= |ts| && PastFrom(ts, from, space) == PastFrom(ts, j, space)
    {
      j := j + 1;
    }
    if j < |ts| {
      j := j + 1;
    }
  }

  /** The inner loop over the rest of an "f" line. */
  method ReadFace(line: seq<Token>) returns (face: seq<nat>)
    requires NonEmptyTexts(line)
    ensures face == FaceIndices(line)
  {
    face := [];
    var i := 0;
    while i < |line|
      invariant i <= |line| && face + FaceFrom(line, i) == FaceFrom(line, 0)
      decreases |line| - i
    {
      var t := line[i];
      if !IsDigit(t.text[0]) {
        i := i + 1;
      } else {
        var next := i + 1;
        if !t.spaced {
          // ss.ignore(max, ' ')
          next := SkipPast(line, i + 1, true);
        }
        var x := LeadingInt(t.text, 0);
        assert FaceFrom(line, i) == [x] + FaceFrom(line, next);
        assert (face + [x]) + FaceFrom(line, next) == face + ([x] + FaceFrom(line, next));
        face := face + [x];
        i := next;
      }
    }
  }

  /** One turn of `from_file`'s reading loop, on the command at token i: what it
      adds and where the next command starts. A failed stream reads nothing more,
      so after a failed coordinate the next turn starts at the end. */
  method ReadCommand(ts: seq<Token>, i: nat, coord: string -> Option<real>) returns (add: Parsed, next: nat)
    requires NonEmptyTexts(ts) && i < |ts|
    ensures i < next <= |ts|
    ensures ParseFrom(ts, i, coord) == Then(add, ParseFrom(ts, next, coord))
  {
    var c := ts[i].text;
    if c == "v" {
      // vertices.push_back({}); in >> v[0] >> v[1] >> v[2];
      var (v, ok) := ReadVertex(ts, i + 1, coord);
      VertexStep(ts, i, coord);
      add := Parsed([v], []);
      if ok {
        next := i + 4;
      } else {
        next := |ts|;
        assert Then(add, ParseFrom(ts, next, coord)) == add;
      }
    } else {
      next := i + 1;
      if !ts[i].breaks {
        // getline, or in.ignore(max, '\n')
        next := SkipPast(ts, i + 1, false);
      }
      LineStep(ts, i, next, coord);
      add := Parsed([], []);
      if c == "f" {
        var face := ReadFace(ts[i + 1..next]);
        add := Parsed([], [face]);
      } else {
        assert Then(add, ParseFrom(ts, next, coord)) == ParseFrom(ts, next, coord);
      }
    }
  }

  /** `from_file`'s reading loop over the tokens of the file. */
  method FromFile(ts: seq<Token>, coord: string -> Option<real>) returns (m: Parsed)
    requires NonEmptyTexts(ts)
    ensures m == Parse(ts, coord)
  {
    m := Parsed([], []);
    var i := 0;
    while i < |ts|
      invariant i <= |ts| && Then(m, ParseFrom(ts, i, coord)) == ParseFrom(ts, 0, coord)
      decreases |ts| - i
    {
      var add, next := ReadCommand(ts, i, coord);
      ThenAssoc(m, add, ParseFrom(ts, next, coord));
      m, i := Then(m, add), next;
    }
    assert Then(m, ParseFrom(ts, i, coord)) == m;
  }
}
