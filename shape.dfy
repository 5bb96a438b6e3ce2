/** The shapes of include/irg/shape.hpp and src/irg/shape.cpp other than the
    scanline polygon: the colour key listener every shape registers, the free line,
    the Bresenham line and the N-gon, each with its drag-gesture listener.

    A listener lambda that captures `this` and mutates the shape is a method of the
    shape's class here; the pure transitions beside the classes are what those
    methods are proved against and what the lemmas about whole constructions use.
    The `shape` base class is a `ShapeCore` object each shape holds. */
module Shape {
  import opened Primitive
  import opened ObModel
  import Glfw

  /** `colors::red`, `colors::blue`, `colors::green`, `colors::white`; their RGB
      values are defined outside this model. */
  datatype Colour = Red | Blue | Green | White

  /** The keys the colour listener reacts to. */
  predicate IsColourKey(key: int) {
    key == Glfw.KeyR || key == Glfw.KeyB || key == Glfw.KeyG || key == Glfw.KeyW
  }

  /** The colour listener of `shape` as a transition on (colour, locked): while
      unlocked R, B, G and W pick a colour and other keys keep it; the vote is
      `Detach` exactly when the shape is locked, and then the colour is kept. */
  function ColourKey(c: Colour, locked: bool, key: int): (r: (Colour, Action))
    ensures r.1 == Detach <==> locked
    ensures locked || !IsColourKey(key) ==> r.0 == c
    ensures !locked && key == Glfw.KeyR ==> r.0 == Red
    ensures !locked && key == Glfw.KeyB ==> r.0 == Blue
    ensures !locked && key == Glfw.KeyG ==> r.0 == Green
    ensures !locked && key == Glfw.KeyW ==> r.0 == White
  {
    var next :=
      if locked then c
      else if key == Glfw.KeyR then Red
      else if key == Glfw.KeyB then Blue
      else if key == Glfw.KeyG then Green
      else if key == Glfw.KeyW then White
      else c;
    (next, if locked then Detach else Remain)
  }

  /** The part of every shape the `shape` base class holds: its colour and its lock. */
  class ShapeCore {
    var colour: Colour
    var locked: bool

    /** A new shape is white and unlocked. */
    constructor ()
      ensures colour == White && !locked
    {
      colour := White;
      locked := false;
    }

    /** The key listener the `shape` constructor registers; `released` is ignored. */
    method OnKey(key: int, released: bool) returns (a: Action)
      modifies this`colour
      ensures (colour, a) == ColourKey(old(colour), locked, key)
    {
      if !locked {
        colour :=
          if key == Glfw.KeyR then Red
          else if key == Glfw.KeyB then Blue
          else if key == Glfw.KeyG then Green
          else if key == Glfw.KeyW then White
          else colour;
      }
      a := if locked then Detach else Remain;
    }
  }

  // ---------------------------------------------------------------------------
  // line

  /** `line`: the segment in its vertex buffer. */
  class Line {
    const core: ShapeCore
    var buffer: LineSegment

    /** The buffer starts as the degenerate segment at the start point. */
    constructor (start: Point)
      ensures fresh(core) && core.colour == White && !core.locked
      ensures buffer == LineSegment(start, start)
    {
      core := new ShapeCore();
      buffer := LineSegment(start, start);
    }

    /** `moved`: the buffer follows the gesture's segment. */
    method Moved(ls: LineSegment)
      modifies this
      ensures buffer == ls
    {
      buffer := ls;
    }

    /** `finalized`: lock, keep the final segment, and leave the tracker. */
    method Finalized(ls: LineSegment) returns (a: Action)
      modifies this, core`locked
      ensures core.locked && buffer == ls && a == Detach
    {
      core.locked := true;
      buffer := ls;
      a := Detach;
    }
  }

  // ---------------------------------------------------------------------------
  // bresenham_line

  /** `bresenham_line::adjust`: both ends moved 0.02 down; the direction and the
      x coordinates are kept. */
  function Adjust(ls: LineSegment): (r: LineSegment)
    ensures r.start.x == ls.start.x && r.end.x == ls.end.x
    ensures r.start.y == ls.start.y - 0.02 && r.end.y == ls.end.y - 0.02
    ensures r.end.x - r.start.x == ls.end.x - ls.start.x && r.end.y - r.start.y == ls.end.y - ls.start.y
  {
    LineSegment(Point(ls.start.x, ls.start.y - 0.02), Point(ls.end.x, ls.end.y - 0.02))
  }

  /** `bresenham_line`: the adjusted segment it rasterises at draw time. */
  class BresenhamLine {
    const core: ShapeCore
    var ls: LineSegment

    constructor (start: Point)
      ensures fresh(core) && core.colour == White && !core.locked
      ensures ls == Adjust(LineSegment(start, start))
    {
      core := new ShapeCore();
      ls := Adjust(LineSegment(start, start));
    }

    method Moved(seg: LineSegment)
      modifies this
      ensures ls == Adjust(seg)
    {
      ls := Adjust(seg);
    }

    method Finalized(seg: LineSegment) returns (a: Action)
      modifies this, core`locked
      ensures core.locked && ls == Adjust(seg) && a == Detach
    {
      core.locked := true;
      ls := Adjust(seg);
      a := Detach;
    }
  }

  // ---------------------------------------------------------------------------
  // polygon<N>

  /** The state a `polygon<N>` listener changes: its vertices and its lock. */
  datatype PolygonState = PolygonState(vertices: seq<Point>, locked: bool)

  /** What the gesture constructor starts with: two copies of the start point. */
  function PolygonStart(start: Point): PolygonState {
    PolygonState([start, start], false)
  }

  /** `moved`: the last (open) vertex follows the gesture; nothing else changes. */
  function PolygonMoved(s: PolygonState, ls: LineSegment): (r: PolygonState)
    requires |s.vertices| > 0
    ensures |r.vertices| == |s.vertices| && r.locked == s.locked
    ensures r.vertices[..|s.vertices| - 1] == s.vertices[..|s.vertices| - 1]
    ensures r.vertices[|s.vertices| - 1] == ls.end
  {
    s.(vertices := s.vertices[|s.vertices| - 1 := ls.end])
  }

  /** `finalized` of `polygon<n>`: the leg's end closes the open vertex; with n
      vertices the polygon locks and leaves the tracker, otherwise a new open vertex
      (a copy of the closed one) is pushed and the listener remains. */
  function PolygonFinalized(n: nat, s: PolygonState, ls: LineSegment): (r: (PolygonState, Action))
    requires |s.vertices| > 0
    ensures r.1 == Detach <==> |s.vertices| == n
    ensures r.0.locked == (s.locked || |s.vertices| == n)
    ensures |s.vertices| == n ==> r.0.vertices == s.vertices[..n - 1] + [ls.end]
    ensures |s.vertices| != n ==> r.0.vertices == s.vertices[..|s.vertices| - 1] + [ls.end, ls.end]
  {
    var closed := s.vertices[|s.vertices| - 1 := ls.end];
    assert closed == s.vertices[..|s.vertices| - 1] + [ls.end];
    if |closed| == n then (PolygonState(closed, true), Detach)
    else (PolygonState(closed + [ls.end], s.locked), Remain)
  }

  /** Finalizing the legs that end at `ends`, one after another, while the listener
      stays registered; each leg starts where the tracker rebased it, at the last
      vertex. The result is the state and the vote of the last leg dispatched. */
  function FinalizeLegs(n: nat, s: PolygonState, ends: seq<Point>): (PolygonState, Action)
    requires |s.vertices| > 0
    decreases |ends|
  {
    if ends == [] then (s, Remain)
    else
      var r := PolygonFinalized(n, s, LineSegment(s.vertices[|s.vertices| - 1], ends[0]));
      if r.1 == Detach || |ends| == 1 then r else FinalizeLegs(n, r.0, ends[1..])
  }

  /** Along a construction from between 2 and n vertices, each finalize adds one
      vertex at the leg's end: the size never exceeds n, the polygon is locked
      exactly when its listener detached, and that happens on the leg that brings
      it to n vertices. */
  lemma {:induction false} LegsBuildPolygon(n: nat, s: PolygonState, ends: seq<Point>)
    requires 2 <= |s.vertices| <= n && !s.locked
    requires 0 < |ends| <= n - |s.vertices| + 1
    ensures var r := FinalizeLegs(n, s, ends);
            && (r.1 == Detach <==> |ends| == n - |s.vertices| + 1)
            && (r.0.locked <==> r.1 == Detach)
            && |r.0.vertices| == (if r.1 == Detach then n else |s.vertices| + |ends|)
            && |r.0.vertices| <= n
            && r.0.vertices[..|s.vertices| - 1 + |ends|] == s.vertices[..|s.vertices| - 1] + ends
    decreases |ends|
  {
    var m := |s.vertices|;
    var r := PolygonFinalized(n, s, LineSegment(s.vertices[m - 1], ends[0]));
    if r.1 == Detach {
      assert |ends| == 1;
      assert r.0.vertices[..m] == r.0.vertices;
    } else if |ends| == 1 {
      assert r.0.vertices[..m] == s.vertices[..m - 1] + ends;
    } else {
      LegsBuildPolygon(n, r.0, ends[1..]);
      var t := FinalizeLegs(n, r.0, ends[1..]);
      assert FinalizeLegs(n, s, ends) == t;
      calc {
        t.0.vertices[..m - 1 + |ends|];
        r.0.vertices[..m] + ends[1..];
        s.vertices[..m - 1] + [ends[0]] + ends[1..];
        { assert [ends[0]] + ends[1..] == ends; }
        s.vertices[..m - 1] + ends;
      }
    }
  }

  /** A polygon started by a click at `start` locks on its (n-1)-th finalize, and its
      n vertices are the start point and the ends of the n - 1 legs. */
  lemma PolygonLocksOnLastLeg(n: nat, start: Point, ends: seq<Point>)
    requires n > 2 && |ends| == n - 1
    ensures FinalizeLegs(n, PolygonStart(start), ends) == (PolygonState([start] + ends, true), Detach)
  {
    var s := PolygonStart(start);
    LegsBuildPolygon(n, s, ends);
    var r := FinalizeLegs(n, s, ends);
    assert s.vertices[..1] == [start];
    assert r.0.vertices[..n] == r.0.vertices;
    assert r.0 == PolygonState([start] + ends, true);
  }

  /** How `polygon<N>::draw` passes its vertices to the GPU. */
  datatype DrawMode = Lines | TriangleFan

  /** Lines while there are fewer than three vertices or the second and third
      coincide (they are compared only when both exist), a triangle fan otherwise. */
  function PolygonDrawMode(v: seq<Point>): (m: DrawMode)
    ensures |v| < 3 ==> m == Lines
    ensures |v| >= 3 ==> (m == Lines <==> SamePoint(v[1], v[2]))
  {
    if |v| < 3 || SamePoint(v[1], v[2]) then Lines else TriangleFan
  }

  /** A polygon whose first leg did not end where the second did is drawn filled
      once it is complete; until its first leg it is drawn as lines. */
  lemma PolygonDrawnFilled(n: nat, start: Point, ends: seq<Point>)
    requires n > 2 && |ends| == n - 1 && ends[0] != ends[1]
    ensures PolygonDrawMode(PolygonStart(start).vertices) == Lines
    ensures PolygonDrawMode(FinalizeLegs(n, PolygonStart(start), ends).0.vertices) == TriangleFan
  {
    PolygonLocksOnLastLeg(n, start, ends);
    var v := [start] + ends;
    assert v[1] == ends[0] && v[2] == ends[1];
  }

  /** `polygon<N>`. */
  class Polygon {
    const n: nat
    const core: ShapeCore
    var vertices: seq<Point>

    function State(): PolygonState
      reads this, core
    {
      PolygonState(vertices, core.locked)
    }

    /** The gesture constructor: two copies of the start point, unlocked. */
    constructor (n: nat, start: Point)
      requires n > 2
      ensures this.n == n && fresh(core) && core.colour == White
      ensures State() == PolygonStart(start)
    {
      this.n := n;
      core := new ShapeCore();
      vertices := [start, start];
    }

    /** The vector constructor keeps the first n of the given vertices; it reads n
        of them, so it needs at least n. */
    constructor FromVertices(n: nat, vs: seq<Point>)
      requires n > 2 && |vs| >= n
      ensures this.n == n && fresh(core) && core.colour == White && !core.locked
      ensures |vertices| == n && vertices == vs[..n]
    {
      this.n := n;
      core := new ShapeCore();
      vertices := vs[..n];
    }

    /** The `moved` listener. */
    method Moved(ls: LineSegment)
      requires |vertices| > 0
      modifies this`vertices
      ensures State() == PolygonMoved(old(State()), ls)
    {
      vertices := vertices[|vertices| - 1 := ls.end];
    }

    /** The `finalized` listener. */
    method Finalized(ls: LineSegment) returns (a: Action)
      requires |vertices| > 0
      modifies this`vertices, core`locked
      ensures (State(), a) == PolygonFinalized(n, old(State()), ls)
    {
      vertices := vertices[|vertices| - 1 := ls.end];
      if |vertices| == n {
        core.locked := true;
        a := Detach;
      } else {
        vertices := vertices + [vertices[|vertices| - 1]];
        a := Remain;
      }
    }

    /** The primitive kind `draw` chooses. */
    method DrawMode() returns (m: DrawMode)
      ensures m == PolygonDrawMode(vertices)
    {
      var sz := |vertices|;
      m := if sz < 3 || vertices[1] == vertices[2] then Lines else TriangleFan;
    }
  }
}
