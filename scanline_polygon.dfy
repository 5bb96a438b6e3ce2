/** `scanline_polygon` (include/irg/shape.hpp:144-173, src/irg/shape.cpp:123-215):
    a polygon of unbounded size built by the drag gesture, locked by the F key,
    whose `finalize` orients the contour clockwise and splits it into the left and
    right edge chains the scanline fill walks. The geometry it computes is
    specified in module Scanline. */
module ScanlineShape {
  import opened Primitive
  import opened ObModel
  import opened Scanline
  import Shape
  import Glfw

  /** How the outline is drawn: a closed loop once locked, an open strip before. */
  datatype Outline = LineLoop | LineStrip

  class ScanlinePolygon {
    const core: Shape.ShapeCore
    var vertices: seq<Vec3>
    var filled: bool
    var deltaMultiplier: real
    /** `edges[0]` and `edges[1]`. */
    var left: seq<Edge>
    var right: seq<Edge>

    /** The gesture starts the contour with two vertices and no listener removes one,
        so there is always an open vertex behind a fixed one. */
    ghost predicate Valid()
      reads this
    {
      |vertices| >= 2
    }

    /** Two copies of the start point in homogeneous form, unfilled, multiplier 1,
        no edges. */
    constructor (p: Point)
      ensures Valid()
      ensures fresh(core) && core.colour == Shape.White && !core.locked
      ensures vertices == [Homogenous(p), Homogenous(p)]
      ensures !filled && deltaMultiplier == 1.0 && left == [] && right == []
    {
      core := new Shape.ShapeCore();
      vertices := [Homogenous(p), Homogenous(p)];
      filled := false;
      deltaMultiplier := 1.0;
      left, right := [], [];
    }

    /** The `moved` listener: while unlocked the open vertex follows the gesture. */
    method Moved(ls: LineSegment)
      requires Valid()
      modifies this`vertices
      ensures Valid()
      ensures core.locked ==> vertices == old(vertices)
      ensures !core.locked ==> vertices == old(vertices)[|old(vertices)| - 1 := Homogenous(ls.end)]
    {
      if !core.locked {
        vertices := vertices[|vertices| - 1 := Homogenous(ls.end)];
      }
    }

    /** The `finalized` listener: while unlocked the leg's end closes the open vertex
        and a copy of it is pushed as the next one. It never detaches, so the tracker
        keeps rebasing legs for as long as the program runs. */
    method Finalized(ls: LineSegment) returns (a: Action)
      requires Valid()
      modifies this`vertices
      ensures Valid()
      ensures a == Remain
      ensures core.locked ==> vertices == old(vertices)
      ensures !core.locked ==>
                vertices == old(vertices)[..|old(vertices)| - 1] + [Homogenous(ls.end), Homogenous(ls.end)]
    {
      if core.locked {
        return Remain;
      }
      vertices := vertices[|vertices| - 1 := Homogenous(ls.end)];
      vertices := vertices + [vertices[|vertices| - 1]];
      a := Remain;
    }

    /** The key listener: F on an unlocked polygon locks and finalizes it (so
        `finalize` runs at most once), DOWN doubles and UP halves the fill density
        multiplier. `released` is not looked at, so a release acts like a press. */
    method OnKey(key: int, released: bool) returns (a: Action)
      requires Valid()
      modifies this`vertices, this`left, this`right, this`deltaMultiplier, core`locked
      ensures Valid()
      ensures a == Remain
      ensures key == Glfw.KeyF && !old(core.locked) ==>
                && core.locked && deltaMultiplier == old(deltaMultiplier)
                && var f := Finalize(old(vertices));
                   vertices == f.vertices && left == f.left + old(left) && right == old(right) + f.right
      ensures key != Glfw.KeyF || old(core.locked) ==>
                && core.locked == old(core.locked)
                && vertices == old(vertices) && left == old(left) && right == old(right)
                && deltaMultiplier == (if key == Glfw.KeyDown then 2.0 * old(deltaMultiplier)
                                       else if key == Glfw.KeyUp then old(deltaMultiplier) / 2.0
                                       else old(deltaMultiplier))
    {
      if key == Glfw.KeyF && !core.locked {
        core.locked := true;
        FinalizeEdges();
      } else if key == Glfw.KeyDown {
        deltaMultiplier := deltaMultiplier * 2.0;
      } else if key == Glfw.KeyUp {
        deltaMultiplier := deltaMultiplier / 2.0;
      }
      a := Remain;
    }

    /** `std::reverse` on the vertex list, swapping from both ends inwards. */
    method ReverseVertices()
      modifies this`vertices
      ensures vertices == Reversed(old(vertices))
    {
      ghost var original := vertices;
      var n := |vertices|;
      var i := 0;
      while i < n / 2
        invariant 0 <= i <= n / 2 && |vertices| == n
        invariant forall k :: 0 <= k < i ==> vertices[k] == original[n - 1 - k]
        invariant forall k :: n - i <= k < n ==> vertices[k] == original[n - 1 - k]
        invariant forall k :: i <= k < n - i ==> vertices[k] == original[k]
      {
        var low, high := vertices[i], vertices[n - 1 - i];
        vertices := vertices[i := high][n - 1 - i := low];
        i := i + 1;
      }
      forall k | 0 <= k < n
        ensures vertices[k] == Reversed(original)[k]
      {
        if i <= k < n - i {
          assert k == n - 1 - k;
        }
      }
    }

    /** The first loop of `finalize`: `clockwise` ends false as soon as one cyclic
        triple turns positively (the source's `(i + 1) % n` and `(i + 2) % n` are
        `Succ`, lemma SuccIsMod), and `ymin_idx` is the first vertex of strictly
        smallest y below the starting bound 1.5. */
    method ScanOrientation() returns (clockwise: bool, yminIdx: nat)
      requires |vertices| > 0
      ensures clockwise == Clockwise(vertices)
      ensures yminIdx == YMinIndex(vertices)
    {
      clockwise := true;
      var n := |vertices|;
      var ymin := 1.5;
      yminIdx := 0;
      for i := 0 to n
        invariant clockwise <==> forall j :: 0 <= j < i ==> Turn(vertices, j) <= 0.0
        invariant (ymin, yminIdx) == YMinScan(vertices, i)
      {
        var next := Succ(i, n);
        assert Turn(vertices, i) == Dot(vertices[Succ(next, n)], Cross(vertices[i], vertices[next]));
        if clockwise && Dot(vertices[Succ(next, n)], Cross(vertices[i], vertices[next])) > 0.0 {
          clockwise := false;
        }
        if vertices[i].y < ymin {
          ymin, yminIdx := vertices[i].y, i;
        }
      }
    }

    /** The second loop of `finalize`: the walk from `start` visits each of the n
        cyclic pairs once, stopping when the successor is `start` again, and puts a
        rising edge in front of `edges[0]` and any other edge at the back of
        `edges[1]`. */
    method WalkEdges(start: nat)
      requires start < |vertices|
      modifies this`left, this`right
      ensures left == Chains(vertices, start, |vertices|).0 + old(left)
      ensures right == old(right) + Chains(vertices, start, |vertices|).1
    {
      var n := |vertices|;
      var i := start;
      ghost var k := 0;
      while true
        invariant 0 <= k < n && i == Pos(start, k, n)
        invariant left == Chains(vertices, start, k).0 + old(left)
        invariant right == old(right) + Chains(vertices, start, k).1
        decreases n - k
      {
        var a, b := vertices[i], vertices[Succ(i, n)];
        WalkStep(vertices, start, k, i);
        var e := MakeEdge(a, b);
        if a.y < b.y {
          left := [e] + left;
        } else {
          right := right + [e];
        }
        assert left == Chains(vertices, start, k + 1).0 + old(left);
        assert right == old(right) + Chains(vertices, start, k + 1).1;
        WalkStops(start, k, n);
        if Succ(i, n) == start {
          assert k + 1 == n;
          break;
        }
        i := Succ(i, n);
        k := k + 1;
      }
    }

    /** The first part of `finalize`: decide the orientation, reverse an
        anticlockwise contour and remap the lowest vertex's index. */
    method Orient() returns (start: nat)
      requires Valid()
      modifies this`vertices
      ensures var f := Finalize(old(vertices));
              vertices == f.vertices && start == f.start
    {
      ghost var original := vertices;
      var n := |vertices|;
      var clockwise, yminIdx := ScanOrientation();
      FinalizeFrom(original, clockwise, yminIdx);
      if !clockwise {
        ReverseVertices();
        yminIdx := n - 1 - yminIdx;
      }
      start := yminIdx;
    }

    /** `finalize`: orient the contour, then build the edge chains from the lowest
        vertex. */
    method FinalizeEdges()
      requires Valid()
      modifies this`vertices, this`left, this`right
      ensures var f := Finalize(old(vertices));
              vertices == f.vertices && left == f.left + old(left) && right == old(right) + f.right
    {
      ghost var original := vertices;
      var start := Orient();
      FinalizeChains(original);
      WalkEdges(start);
    }

    /** `is_inside`: the loop over the edges, which answers false at the first edge
        whose line has the point strictly outside. */
    method IsInside(p: Point) returns (r: bool)
      ensures r == Scanline.IsInside(vertices, p)
    {
      var n := |vertices|;
      var hp := Homogenous(p);
      for i := 0 to n
        invariant InsideFrom(vertices, p, 0) == InsideFrom(vertices, p, i)
      {
        if Dot(hp, Cross(vertices[i], vertices[Succ(i, n)])) > 0.0 {
          assert EdgeSide(vertices, p, i) > 0.0;
          return false;
        }
      }
      return true;
    }

    /** `is_final`. */
    method IsFinal() returns (r: bool)
      ensures r == core.locked
    {
      r := core.locked;
    }

    /** `set_filled`. */
    method SetFilled(filled: bool)
      modifies this`filled
      ensures this.filled == filled
    {
      this.filled := filled;
    }

    /** The outline primitive `draw` chooses. */
    function OutlineMode(): (m: Outline)
      reads core
      ensures m == LineLoop <==> core.locked
    {
      if core.locked then LineLoop else LineStrip
    }
  }
}
