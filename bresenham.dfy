/** Bresenham sampling of a segment, as `bresenham_line::draw` runs it
    (src/irg/shape.cpp:67-100): the segment is scaled to window pixels, the axes
    are exchanged for steep segments, the endpoints ordered by x, and an error
    accumulator picks the minor coordinate of one point per unit step of x.

    Points are worked out in the frame where the major axis is x ("working frame")
    and turned back when emitted. */
module Bresenham {
  import opened Primitive

  /** Everything the loop needs: whether the axes were exchanged, the ordered
      endpoints in the working frame, the slope `db` and the minor step `ydelta`. */
  datatype Setup = Setup(swapped: bool, start: Point, end: Point, slope: real, step: real)

  function Abs(r: real): real {
    if r < 0.0 then -r else r
  }

  /** A point with its axes exchanged when `swapped`; its own inverse. */
  function Frame(swapped: bool, p: Point): Point {
    if swapped then Point(p.y, p.x) else p
  }

  /** Whether the source's `abs(db) >= 1.0` holds. With dx == 0 IEEE division
      gives an infinite slope (steep) when dy != 0, and NaN (not steep) when the
      segment is a single point. */
  predicate Steep(n: LineSegment) {
    var dx, dy := n.end.x - n.start.x, n.end.y - n.start.y;
    if dx == 0.0 then dy != 0.0 else Abs(dy / dx) >= 1.0
  }

  /** `db` after the optional exchange: the reciprocal for a steep segment (0 for
      a vertical one, the reciprocal of an infinity). For a single point the source
      has NaN here; no point is emitted then, so the value chosen is immaterial. */
  function WorkingSlope(n: LineSegment): real {
    var dx, dy := n.end.x - n.start.x, n.end.y - n.start.y;
    if dx == 0.0 then 0.0
    else if Abs(dy / dx) >= 1.0 then 1.0 / (dy / dx)
    else dy / dx
  }

  /** Lines 76-90: the set-up of the loop. */
  function SetUp(n: LineSegment): (s: Setup)
    ensures s.swapped == Steep(n)
    ensures -1.0 <= s.slope <= 1.0
    ensures s.step == (if s.slope >= 0.0 then 1.0 else -1.0)
    ensures s.start.x <= s.end.x
    ensures (s.start == Frame(s.swapped, n.start) && s.end == Frame(s.swapped, n.end))
         || (s.start == Frame(s.swapped, n.end) && s.end == Frame(s.swapped, n.start))
  {
    var swapped := Steep(n);
    var db := WorkingSlope(n);
    SlopeBounded(n);
    var a, b := Frame(swapped, n.start), Frame(swapped, n.end);
    var ends := if a.x > b.x then Swap(a, b) else (a, b);
    Setup(swapped, ends.0, ends.1, db, if db >= 0.0 then 1.0 else -1.0)
  }

  lemma SlopeBounded(n: LineSegment)
    ensures -1.0 <= WorkingSlope(n) <= 1.0
  {
    var dx, dy := n.end.x - n.start.x, n.end.y - n.start.y;
    if dx != 0.0 {
      var db := dy / dx;
      if Abs(db) >= 1.0 {
        assert db * (1.0 / db) == 1.0;
        if db > 0.0 {
          assert 0.0 < 1.0 / db;
        } else {
          assert 1.0 / db < 0.0;
        }
      }
    }
  }

  lemma Reciprocal(a: real, b: real)
    requires a != 0.0 && b != 0.0
    ensures 1.0 / (a / b) == b / a
  {
    var q := a / b;
    assert q * b == a;
    assert q * (b / a) == 1.0;
  }

  lemma QuotientNegated(a: real, b: real)
    requires b != 0.0
    ensures (-a) / (-b) == a / b
  {
    var q := a / b;
    assert q * b == a;
    assert q * (-b) == -a;
  }

  /** In the working frame the slope is the rise of the minor coordinate over the
      run of the major one, whichever axis that is. */
  lemma SlopeIsRiseOverRun(n: LineSegment)
    requires SetUp(n).start.x != SetUp(n).end.x
    ensures var s := SetUp(n);
            s.slope == (s.end.y - s.start.y) / (s.end.x - s.start.x)
  {
    var s := SetUp(n);
    var dx, dy := n.end.x - n.start.x, n.end.y - n.start.y;
    var rise, run := s.end.y - s.start.y, s.end.x - s.start.x;
    if s.swapped {
      assert (run == dy && rise == dx) || (run == -dy && rise == -dx);
      if dx == 0.0 {
        assert rise == 0.0;
      } else {
        assert dy != 0.0;
        Reciprocal(dy, dx);
        assert s.slope == dx / dy;
        QuotientNegated(dx, dy);
      }
    } else {
      assert (run == dx && rise == dy) || (run == -dx && rise == -dy);
      assert dx != 0.0;
      assert s.slope == dy / dx;
      QuotientNegated(dy, dx);
    }
  }

  /** One step of the recurrence: the minor coordinate moves by `step` exactly when
      `step * d >= 0`, and `d` is corrected by what was taken and grows by `db`. */
  function Advance(s: Setup, y: real, d: real): (r: (real, real)) {
    if s.step * d >= 0.0 then (y + s.step, d - s.step + s.slope) else (y, d + s.slope)
  }

  /** Lines 91-100: the points of the loop `for (x = start.x; x < end.x; x += 1)`,
      in the working frame, from the loop state (x, y, d). */
  function Walk(s: Setup, x: real, y: real, d: real): seq<Point>
    decreases if x < s.end.x then (s.end.x - x).Floor + 1 else 0
  {
    if x < s.end.x then
      var next := Advance(s, y, d);
      [Point(x, y)] + Walk(s, x + 1.0, next.0, next.1)
    else []
  }

  /** The initial decision variable `d = db - ydelta / 2`. */
  function InitialDecision(s: Setup): real {
    s.slope - s.step / 2.0
  }

  /** Every point the loop produces for segment `n` (window pixels), working frame. */
  function Raster(n: LineSegment): seq<Point> {
    var s := SetUp(n);
    Walk(s, s.start.x, s.start.y, InitialDecision(s))
  }

  /** Point k of a walk has major coordinate x + k; points exist exactly for the k
      with x + k < end.x, so the end's own x is never reached. */
  lemma {:induction false} WalkMajor(s: Setup, x: real, y: real, d: real)
    ensures var w := Walk(s, x, y, d);
            && (forall k :: 0 <= k < |w| ==> w[k].x == x + k as real && x + k as real < s.end.x)
            && x + |w| as real >= s.end.x
    decreases if x < s.end.x then (s.end.x - x).Floor + 1 else 0
  {
    if x < s.end.x {
      var next := Advance(s, y, d);
      WalkMajor(s, x + 1.0, next.0, next.1);
      var w := Walk(s, x, y, d);
      var tail := Walk(s, x + 1.0, next.0, next.1);
      assert w == [Point(x, y)] + tail;
      forall k | 1 <= k < |w| ensures w[k].x == x + k as real {
        assert w[k] == tail[k - 1];
      }
    }
  }

  /** Between consecutive points the minor coordinate moves by `step` or not at
      all, and it moves exactly when `step * d >= 0` for the decision variable of
      that point, which is d + k * db minus how far the minor coordinate has moved. */
  lemma {:induction false} WalkMinorSteps(s: Setup, x: real, y: real, d: real, k: nat)
    requires k + 1 < |Walk(s, x, y, d)|
    ensures var w := Walk(s, x, y, d);
            var dk := d + k as real * s.slope - (w[k].y - y);
            w[k + 1].y - w[k].y == (if s.step * dk >= 0.0 then s.step else 0.0)
    decreases k
  {
    var next := Advance(s, y, d);
    var w := Walk(s, x, y, d);
    var tail := Walk(s, x + 1.0, next.0, next.1);
    assert w == [Point(x, y)] + tail;
    if k == 0 {
      assert tail[0] == Point(x + 1.0, next.0);
    } else {
      WalkMinorSteps(s, x + 1.0, next.0, next.1, k - 1);
      assert w[k] == tail[k - 1] && w[k + 1] == tail[k];
      var dk := d + k as real * s.slope - (w[k].y - y);
      var dt := next.1 + (k - 1) as real * s.slope - (tail[k - 1].y - next.0);
      assert k as real * s.slope == (k - 1) as real * s.slope + s.slope;
      assert dt == dk;
    }
  }

  /** The defining property of the algorithm: when |db| <= 1 and `step` is the sign
      of db, starting from a point whose deviation `e` from the ideal line is at
      most 1/2 (with d = db - step/2 - e), every point stays within 1/2 of the
      ideal line through the start with slope db. */
  lemma {:induction false} WalkNearLine(s: Setup, x: real, y: real, d: real, k: nat)
    requires -1.0 <= s.slope <= 1.0
    requires s.step == (if s.slope >= 0.0 then 1.0 else -1.0)
    requires -0.5 <= s.slope - s.step / 2.0 - d <= 0.5
    requires k < |Walk(s, x, y, d)|
    ensures var e := s.slope - s.step / 2.0 - d;
            var ideal := y - e + s.slope * k as real;
            -0.5 <= Walk(s, x, y, d)[k].y - ideal <= 0.5
    decreases k
  {
    var next := Advance(s, y, d);
    var w := Walk(s, x, y, d);
    var tail := Walk(s, x + 1.0, next.0, next.1);
    assert w == [Point(x, y)] + tail;
    if k > 0 {
      var e := s.slope - s.step / 2.0 - d;
      var e' := s.slope - s.step / 2.0 - next.1;
      // the deviation after one step is e - db, plus step when the minor moved
      assert -0.5 <= e' <= 0.5;
      assert next.0 - e' == y - e + s.slope;
      WalkNearLine(s, x + 1.0, next.0, next.1, k - 1);
      assert w[k] == tail[k - 1];
      assert s.slope * k as real == s.slope + s.slope * (k - 1) as real;
    }
  }

  /** A walk from the start of a set-up with the source's initial decision value. */
  lemma WalkFromStart(s: Setup)
    requires -1.0 <= s.slope <= 1.0
    requires s.step == (if s.slope >= 0.0 then 1.0 else -1.0)
    ensures var w := Walk(s, s.start.x, s.start.y, InitialDecision(s));
            && (|w| > 0 ==> w[0] == s.start)
            && (forall k :: 0 <= k < |w| ==> w[k].x == s.start.x + k as real)
            && s.start.x + |w| as real >= s.end.x
            && (forall k :: 0 <= k < |w| ==> -0.5 <= w[k].y - (s.start.y + s.slope * k as real) <= 0.5)
  {
    var d := InitialDecision(s);
    WalkMajor(s, s.start.x, s.start.y, d);
    var w := Walk(s, s.start.x, s.start.y, d);
    forall k | 0 <= k < |w|
      ensures -0.5 <= w[k].y - (s.start.y + s.slope * k as real) <= 0.5
    {
      WalkNearLine(s, s.start.x, s.start.y, d, k);
    }
  }

  /** Emitted raster of segment `n`: the first point is the ordered start, point k
      lies k pixels further along the major axis, the end's own x is not reached,
      and every minor coordinate is within 1/2 of the exact line. */
  lemma RasterNearLine(n: LineSegment)
    ensures var s := SetUp(n);
            var w := Raster(n);
            && (|w| > 0 ==> w[0] == s.start)
            && (forall k :: 0 <= k < |w| ==> w[k].x == s.start.x + k as real)
            && s.start.x + |w| as real >= s.end.x
            && (forall k :: 0 <= k < |w| ==> -0.5 <= w[k].y - (s.start.y + s.slope * k as real) <= 0.5)
  {
    WalkFromStart(SetUp(n));
  }

  /** The points of the segment from (0, 0) to (5, 2), as the recurrence gives them. */
  lemma RasterExample()
    ensures Raster(LineSegment(Point(0.0, 0.0), Point(5.0, 2.0)))
              == [Point(0.0, 0.0), Point(1.0, 0.0), Point(2.0, 1.0), Point(3.0, 1.0), Point(4.0, 2.0)]
  {
    var n := LineSegment(Point(0.0, 0.0), Point(5.0, 2.0));
    var s := SetUp(n);
    assert s == Setup(false, Point(0.0, 0.0), Point(5.0, 2.0), 0.4, 1.0);
    assert Walk(s, 5.0, 2.0, -0.1) == [];
    assert Walk(s, 4.0, 2.0, -0.5) == [Point(4.0, 2.0)];
    assert Walk(s, 3.0, 1.0, 0.1) == [Point(3.0, 1.0), Point(4.0, 2.0)];
    assert Walk(s, 2.0, 1.0, -0.3) == [Point(2.0, 1.0), Point(3.0, 1.0), Point(4.0, 2.0)];
    assert Walk(s, 1.0, 0.0, 0.3) == [Point(1.0, 0.0), Point(2.0, 1.0), Point(3.0, 1.0), Point(4.0, 2.0)];
  }

  /** The segment scaled to window pixels, as the draw call starts. */
  function InPixels(ls: LineSegment, dim: Point): LineSegment {
    LineSegment(Scale(ls.start, dim), Scale(ls.end, dim))
  }

  /** `bresenham_line::draw` without its GL calls: the device-space points it
      uploads. Each is a raster point turned back to (x, y) and normalised. */
  method Draw(ls: LineSegment, dim: Point) returns (points: seq<Point>)
    requires ValidDim(dim)
    ensures var n := InPixels(ls, dim);
            var w := Raster(n);
            && |points| == |w|
            && forall k :: 0 <= k < |w| ==> points[k] == Normalize(Frame(SetUp(n).swapped, w[k]), dim)
  {
    var n := InPixels(ls, dim);
    var s := SetUp(n);
    var ydelta := s.step;
    var d := s.slope - ydelta / 2.0;
    var y := s.start.y;
    var x := s.start.x;
    ghost var raw: seq<Point> := [];
    points := [];
    while x < s.end.x
      invariant raw + Walk(s, x, y, d) == Raster(n)
      invariant |points| == |raw|
      invariant forall k :: 0 <= k < |raw| ==> points[k] == Normalize(Frame(s.swapped, raw[k]), dim)
      decreases (s.end.x - x).Floor + 1
    {
      var p := if s.swapped then Point(y, x) else Point(x, y);
      points := points + [Normalize(p, dim)];
      raw := raw + [Point(x, y)];
      var next := Advance(s, y, d);
      assert Walk(s, x, y, d) == [Point(x, y)] + Walk(s, x + 1.0, next.0, next.1);
      if ydelta * d >= 0.0 {
        y, d := y + ydelta, d - ydelta;
      }
      d := d + s.slope;
      x := x + 1.0;
    }
    assert raw == Raster(n);
  }
}
