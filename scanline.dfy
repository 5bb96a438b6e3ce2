/** The geometry of `scanline_polygon` (src/irg/shape.cpp:159-226): the orientation
    test of `finalize`, the minimum-y vertex, the reversal of anticlockwise input,
    the split of the boundary into a left and a right chain of edges, and the
    half-plane hit test. Vertices are homogeneous (x, y, 1). */
module Scanline {
  import opened Primitive

  /** The cyclic successor `(i + 1) % n` of a vertex index. */
  function Succ(i: nat, n: nat): (j: nat)
    requires i < n
    ensures j < n
  {
    if i + 1 < n then i + 1 else 0
  }

  lemma ModSmall(x: int, n: int)
    requires 0 <= x < n
    ensures x % n == x
  {
  }

  lemma ModWrap(x: int, n: int)
    requires 0 < n <= x < 2 * n
    ensures x % n == x - n
  {
    assert x == 1 * n + (x - n);
  }

  /** `Succ` is the source's `(i + 1) % n`, and applied twice its `(i + 2) % n`. */
  lemma SuccIsMod(i: nat, n: nat)
    requires i < n
    ensures Succ(i, n) == (i + 1) % n
    ensures Succ(Succ(i, n), n) == (i + 2) % n
  {
    if i + 1 < n { ModSmall(i + 1, n); } else { ModWrap(i + 1, n); }
    if i + 2 < n {
      ModSmall(i + 2, n);
    } else if i + 2 < 2 * n {
      ModWrap(i + 2, n);
    } else {
      assert n == 1 && i == 0;
    }
  }

  /** The triple product the orientation loop tests at vertex i:
      dot(v[i+2], cross(v[i], v[i+1])), indices modulo n. */
  function Turn(v: seq<Vec3>, i: nat): real
    requires i < |v|
  {
    Dot(v[Succ(Succ(i, |v|), |v|)], Cross(v[i], v[Succ(i, |v|)]))
  }

  /** What `clockwise` ends up as: no cyclic triple turns positively. */
  predicate Clockwise(v: seq<Vec3>) {
    forall i :: 0 <= i < |v| ==> Turn(v, i) <= 0.0
  }

  /** Every cyclic triple turns non-negatively: an anticlockwise convex polygon. */
  predicate Anticlockwise(v: seq<Vec3>) {
    forall i :: 0 <= i < |v| ==> Turn(v, i) >= 0.0
  }

  /** (ymin, ymin_idx) after the first k iterations of the orientation loop, which
      start from (1.5, 0) and take a vertex whenever its y is strictly smaller. */
  function YMinScan(v: seq<Vec3>, k: nat): (r: (real, nat))
    requires k <= |v|
    ensures r.0 <= 1.5
    ensures r.0 < 1.5 ==> r.1 < k && r.0 == v[r.1].y
    ensures r.0 == 1.5 ==> r.1 == 0
    ensures forall j :: 0 <= j < k ==> v[j].y >= r.0
    ensures forall j :: 0 <= j < r.1 ==> v[j].y > r.0
    decreases k
  {
    if k == 0 then (1.5, 0)
    else
      var p := YMinScan(v, k - 1);
      if v[k - 1].y < p.0 then (v[k - 1].y, k - 1) else p
  }

  /** `ymin_idx`: the first vertex of strictly smallest y, or 0 when no vertex lies
      below 1.5. */
  function YMinIndex(v: seq<Vec3>): (r: nat)
    requires |v| > 0
    ensures r < |v|
    ensures (exists j :: 0 <= j < |v| && v[j].y < 1.5) ==>
              (forall j :: 0 <= j < |v| ==> v[j].y >= v[r].y)
              && (forall j :: 0 <= j < r ==> v[j].y > v[r].y)
    ensures (forall j :: 0 <= j < |v| ==> v[j].y >= 1.5) ==> r == 0
  {
    YMinScan(v, |v|).1
  }

  /** `std::reverse` of the vertex list. */
  function Reversed<T>(v: seq<T>): (r: seq<T>)
    ensures |r| == |v|
    ensures forall i :: 0 <= i < |v| ==> r[i] == v[|v| - 1 - i]
    decreases |v|
  {
    if v == [] then [] else [v[|v| - 1]] + Reversed(v[..|v| - 1])
  }

  lemma ReversedTwice<T>(v: seq<T>)
    ensures Reversed(Reversed(v)) == v
  {
  }

  /** The remap `ymin_idx := n - 1 - ymin_idx` names the same vertex in the reversed
      list, which is again a lowest one. */
  lemma RemapSameVertex(v: seq<Vec3>)
    requires |v| > 0
    requires exists j :: 0 <= j < |v| && v[j].y < 1.5
    ensures Reversed(v)[|v| - 1 - YMinIndex(v)] == v[YMinIndex(v)]
    ensures forall j :: 0 <= j < |v| ==> Reversed(v)[j].y >= Reversed(v)[|v| - 1 - YMinIndex(v)].y
  {
    var r := Reversed(v);
    forall j | 0 <= j < |v| ensures r[j].y >= r[|v| - 1 - YMinIndex(v)].y {
      assert r[j] == v[|v| - 1 - j];
    }
  }

  /** The cyclic predecessor. */
  function Pred(i: nat, n: nat): (j: nat)
    requires i < n
    ensures j < n
  {
    if i == 0 then n - 1 else i - 1
  }

  lemma ReversedTripleIndices(n: nat, i: nat)
    requires n >= 3 && i < n
    ensures var a := n - 1 - i;
            && n - 1 - Succ(i, n) == Pred(a, n)
            && n - 1 - Succ(Succ(i, n), n) == Pred(Pred(a, n), n)
            && Succ(Pred(Pred(a, n), n), n) == Pred(a, n)
            && Succ(Succ(Pred(Pred(a, n), n), n), n) == a
  {
  }

  /** Turn at i from the three vertices it reads. */
  lemma TurnOf(v: seq<Vec3>, i: nat, p: Vec3, q: Vec3, s: Vec3)
    requires i < |v| && v[i] == p && v[Succ(i, |v|)] == q && v[Succ(Succ(i, |v|), |v|)] == s
    ensures Turn(v, i) == Dot(s, Cross(p, q))
  {
  }

  lemma TripleExchange(x: Vec3, y: Vec3, z: Vec3)
    ensures Dot(x, Cross(y, z)) == -Dot(y, Cross(x, z))
  {
    TripleRotate(y, x, z);
    TripleSwap(x, y, z);
  }

  /** Reversing the list negates every turn: the turn of the reversed list at i is
      minus the turn of the original at the mirrored triple, which starts two
      places before vertex n - 1 - i. */
  lemma TurnReversed(v: seq<Vec3>, i: nat)
    requires |v| >= 3 && i < |v|
    ensures Turn(Reversed(v), i) == -Turn(v, Pred(Pred(|v| - 1 - i, |v|), |v|))
  {
    var n := |v|;
    var a := n - 1 - i;
    ReversedTurnAt(v, i);
    MirroredTurnAt(v, i);
    TripleExchange(v[Pred(Pred(a, n), n)], v[a], v[Pred(a, n)]);
  }

  lemma ReversedTurnAt(v: seq<Vec3>, i: nat)
    requires |v| >= 3 && i < |v|
    ensures var n, a := |v|, |v| - 1 - i;
            Turn(Reversed(v), i) == Dot(v[Pred(Pred(a, n), n)], Cross(v[a], v[Pred(a, n)]))
  {
    var n := |v|;
    var a := n - 1 - i;
    ReversedTriple(v, i);
    TurnOf(Reversed(v), i, v[a], v[Pred(a, n)], v[Pred(Pred(a, n), n)]);
  }

  /** The triple the turn at i of the reversed list reads, in the original list. */
  lemma ReversedTriple(v: seq<Vec3>, i: nat)
    requires |v| >= 3 && i < |v|
    ensures var n, a, r := |v|, |v| - 1 - i, Reversed(v);
            && r[i] == v[a]
            && r[Succ(i, n)] == v[Pred(a, n)]
            && r[Succ(Succ(i, n), n)] == v[Pred(Pred(a, n), n)]
  {
    ReversedTripleIndices(|v|, i);
  }

  lemma MirroredTurnAt(v: seq<Vec3>, i: nat)
    requires |v| >= 3 && i < |v|
    ensures var n, a := |v|, |v| - 1 - i;
            Turn(v, Pred(Pred(a, n), n)) == Dot(v[a], Cross(v[Pred(Pred(a, n), n)], v[Pred(a, n)]))
  {
    var n, a := |v|, |v| - 1 - i;
    ReversedTripleIndices(n, i);
    TurnOf(v, Pred(Pred(a, n), n), v[Pred(Pred(a, n), n)], v[Pred(a, n)], v[a]);
  }

  /** An anticlockwise polygon becomes clockwise once reversed, which is what the
      reversal in `finalize` is for. */
  lemma AnticlockwiseReversed(v: seq<Vec3>)
    requires |v| >= 3 && Anticlockwise(v)
    ensures Clockwise(Reversed(v))
  {
    forall i | 0 <= i < |v| ensures Turn(Reversed(v), i) <= 0.0 {
      TurnReversed(v, i);
    }
  }

  /** The captured `r = (a.x - b.x) / (a.y - b.y)`; a horizontal edge divides by zero
      in the source (an infinity or NaN) and has no ratio here. */
  datatype Slope = Horizontal | Ratio(r: real)

  /** `edge`: the y range (upper, lower) and the line through the edge as x of y,
      `(y - anchor.y) * ratio + anchor.x`. */
  datatype Edge = Edge(yCords: Point, anchor: Point, ratio: Slope)

  /** The edge's line function, for an edge that is not horizontal. */
  function EdgeX(e: Edge, y: real): real
    requires e.ratio.Ratio?
  {
    (y - e.anchor.y) * e.ratio.r + e.anchor.x
  }

  /** The edge the chain walk builds for the pair (a, b), anchored at the upper
      endpoint, with ratio dx/dy. */
  function MakeEdge(a: Vec3, b: Vec3): (e: Edge)
    ensures e.yCords.x >= e.yCords.y
    ensures (e.yCords.x, e.yCords.y) == (if a.y < b.y then (b.y, a.y) else (a.y, b.y))
    ensures e.ratio.Horizontal? <==> a.y == b.y
    ensures a.y != b.y ==> EdgeX(e, a.y) == a.x && EdgeX(e, b.y) == b.x
  {
    var ratio := if a.y == b.y then Horizontal else Ratio((a.x - b.x) / (a.y - b.y));
    var e := if a.y < b.y then Edge(Point(b.y, a.y), Point(b.x, b.y), ratio)
             else Edge(Point(a.y, b.y), Point(a.x, a.y), ratio);
    if a.y != b.y then
      DivMul(a.x - b.x, a.y - b.y);
      EdgeThroughEnds(a, b, e, (a.x - b.x) / (a.y - b.y));
      e
    else e
  }

  lemma DivMul(n: real, d: real)
    requires d != 0.0
    ensures (n / d) * d == n
  {
  }

  /** The line through an edge with ratio q = dx/dy passes through both ends. */
  lemma EdgeThroughEnds(a: Vec3, b: Vec3, e: Edge, q: real)
    requires q * (a.y - b.y) == a.x - b.x
    requires e.ratio == Ratio(q)
    requires e.anchor == Point(a.x, a.y) || e.anchor == Point(b.x, b.y)
    ensures EdgeX(e, a.y) == a.x && EdgeX(e, b.y) == b.x
  {
  }

  /** The vertex index the walk from `start` stands on after k steps of
      `i = (i + 1) % n`. */
  function Pos(start: nat, k: nat, n: nat): (i: nat)
    requires start < n
    ensures i < n
    decreases k
  {
    if k == 0 then start else Succ(Pos(start, k - 1, n), n)
  }

  /** Within one lap the walk stands on start + k, wrapped once. */
  lemma {:induction false} PosInLap(start: nat, k: nat, n: nat)
    requires start < n && k <= n
    ensures Pos(start, k, n) == if start + k < n then start + k else start + k - n
    decreases k
  {
    if k > 0 {
      PosInLap(start, k - 1, n);
    }
  }

  /** The walk's stopping test `(i + 1) % n == ymin_idx` first holds on its n-th
      pair: the walk visits every cyclic pair exactly once. */
  lemma WalkStops(start: nat, k: nat, n: nat)
    requires start < n && k < n
    ensures Succ(Pos(start, k, n), n) == start <==> k == n - 1
  {
    PosInLap(start, k + 1, n);
  }

  /** The k-th pair of the walk that starts at vertex `start`. */
  function PairAt(v: seq<Vec3>, start: nat, k: nat): (p: (Vec3, Vec3))
    requires start < |v|
  {
    var i := Pos(start, k, |v|);
    (v[i], v[Succ(i, |v|)])
  }

  predicate Rises(v: seq<Vec3>, start: nat, k: nat)
    requires start < |v|
  {
    PairAt(v, start, k).0.y < PairAt(v, start, k).1.y
  }

  function WalkEdge(v: seq<Vec3>, start: nat, k: nat): Edge
    requires start < |v|
  {
    MakeEdge(PairAt(v, start, k).0, PairAt(v, start, k).1)
  }

  /** Iteration k of the walk, standing on vertex i, looks at the pair (v[i], v[i + 1])
      and files the edge by whether it rises; the chains grow by that edge. */
  lemma WalkStep(v: seq<Vec3>, start: nat, k: nat, i: nat)
    requires start < |v| && i == Pos(start, k, |v|)
    ensures Rises(v, start, k) <==> v[i].y < v[Succ(i, |v|)].y
    ensures WalkEdge(v, start, k) == MakeEdge(v[i], v[Succ(i, |v|)])
    ensures var c := Chains(v, start, k);
            Chains(v, start, k + 1) ==
              if v[i].y < v[Succ(i, |v|)].y then ([MakeEdge(v[i], v[Succ(i, |v|)])] + c.0, c.1)
              else (c.0, c.1 + [MakeEdge(v[i], v[Succ(i, |v|)])])
  {
  }

  /** The chains after k iterations of the walk from `start`: a rising edge is put in
      front of the left chain, any other edge at the back of the right chain. */
  function Chains(v: seq<Vec3>, start: nat, k: nat): (c: (seq<Edge>, seq<Edge>))
    requires start < |v|
    ensures |c.0| + |c.1| == k
    decreases k
  {
    if k == 0 then ([], [])
    else
      var p := Chains(v, start, k - 1);
      var e := WalkEdge(v, start, k - 1);
      if Rises(v, start, k - 1) then ([e] + p.0, p.1) else (p.0, p.1 + [e])
  }

  /** Every rising edge of the first k pairs is in the left chain, and the left
      chain holds nothing else. */
  lemma {:induction false} LeftChainHoldsRising(v: seq<Vec3>, start: nat, k: nat)
    requires start < |v|
    ensures forall j :: 0 <= j < k && Rises(v, start, j) ==> WalkEdge(v, start, j) in Chains(v, start, k).0
    ensures forall e :: e in Chains(v, start, k).0 ==>
              exists j :: 0 <= j < k && Rises(v, start, j) && e == WalkEdge(v, start, j)
    decreases k
  {
    if k > 0 {
      LeftChainHoldsRising(v, start, k - 1);
      var left := Chains(v, start, k - 1).0;
      if Rises(v, start, k - 1) {
        assert Chains(v, start, k).0 == [WalkEdge(v, start, k - 1)] + left;
      } else {
        assert Chains(v, start, k).0 == left;
      }
    }
  }

  /** Every other edge of the first k pairs is in the right chain, and the right
      chain holds nothing else. */
  lemma {:induction false} RightChainHoldsRest(v: seq<Vec3>, start: nat, k: nat)
    requires start < |v|
    ensures forall j :: 0 <= j < k && !Rises(v, start, j) ==> WalkEdge(v, start, j) in Chains(v, start, k).1
    ensures forall e :: e in Chains(v, start, k).1 ==>
              exists j :: 0 <= j < k && !Rises(v, start, j) && e == WalkEdge(v, start, j)
    decreases k
  {
    if k > 0 {
      RightChainHoldsRest(v, start, k - 1);
      var right := Chains(v, start, k - 1).1;
      if Rises(v, start, k - 1) {
        assert Chains(v, start, k).1 == right;
      } else {
        assert Chains(v, start, k).1 == right + [WalkEdge(v, start, k - 1)];
      }
    }
  }

  /** The edges of the first k pairs of the walk, in walk order. */
  function WalkOrder(v: seq<Vec3>, start: nat, k: nat): (es: seq<Edge>)
    requires start < |v|
    ensures |es| == k && forall j :: 0 <= j < k ==> es[j] == WalkEdge(v, start, j)
    decreases k
  {
    if k == 0 then [] else WalkOrder(v, start, k - 1) + [WalkEdge(v, start, k - 1)]
  }

  /** Whether each of the first k pairs of the walk rises. */
  function RiseFlags(v: seq<Vec3>, start: nat, k: nat): (fs: seq<bool>)
    requires start < |v|
    ensures |fs| == k && forall j :: 0 <= j < k ==> fs[j] == Rises(v, start, j)
    decreases k
  {
    if k == 0 then [] else RiseFlags(v, start, k - 1) + [Rises(v, start, k - 1)]
  }

  /** The elements of s whose flag is `want`, in their order in s. */
  function Select<T>(s: seq<T>, flags: seq<bool>, want: bool): (r: seq<T>)
    requires |flags| == |s|
    ensures |r| <= |s|
    decreases |s|
  {
    if s == [] then [] else (if flags[0] == want then [s[0]] else []) + Select(s[1..], flags[1..], want)
  }

  lemma {:induction false} SelectSnoc<T>(s: seq<T>, flags: seq<bool>, want: bool, x: T, b: bool)
    requires |flags| == |s|
    ensures Select(s + [x], flags + [b], want) == Select(s, flags, want) + (if b == want then [x] else [])
    decreases |s|
  {
    if s != [] {
      assert (s + [x])[1..] == s[1..] + [x];
      assert (flags + [b])[1..] == flags[1..] + [b];
      SelectSnoc(s[1..], flags[1..], want, x, b);
    }
  }

  lemma ReversedSnoc<T>(s: seq<T>, x: T)
    ensures Reversed(s + [x]) == [x] + Reversed(s)
  {
    assert (s + [x])[..|s|] == s;
  }

  /** The right chain is the walk's edges that do not rise, in walk order: each is
      put at the back. */
  lemma {:induction false} RightChainOrder(v: seq<Vec3>, start: nat, k: nat)
    requires start < |v|
    ensures Chains(v, start, k).1 == Select(WalkOrder(v, start, k), RiseFlags(v, start, k), false)
    decreases k
  {
    if k > 0 {
      RightChainOrder(v, start, k - 1);
      var es, fs := WalkOrder(v, start, k - 1), RiseFlags(v, start, k - 1);
      var e, b := WalkEdge(v, start, k - 1), Rises(v, start, k - 1);
      SelectSnoc(es, fs, false, e, b);
      assert Chains(v, start, k).1 == Chains(v, start, k - 1).1 + (if b then [] else [e]);
    }
  }

  /** The left chain is the walk's rising edges in reverse walk order: each is put
      in front. */
  lemma {:induction false} LeftChainOrder(v: seq<Vec3>, start: nat, k: nat)
    requires start < |v|
    ensures Chains(v, start, k).0 == Reversed(Select(WalkOrder(v, start, k), RiseFlags(v, start, k), true))
    decreases k
  {
    if k > 0 {
      LeftChainOrder(v, start, k - 1);
      var es, fs := WalkOrder(v, start, k - 1), RiseFlags(v, start, k - 1);
      var e, b := WalkEdge(v, start, k - 1), Rises(v, start, k - 1);
      var sel := Select(es, fs, true);
      SelectSnoc(es, fs, true, e, b);
      if b {
        ReversedSnoc(sel, e);
        assert Chains(v, start, k).0 == [e] + Chains(v, start, k - 1).0;
      } else {
        assert sel + [] == sel;
        assert Chains(v, start, k).0 == Chains(v, start, k - 1).0;
      }
    }
  }

  /** What `finalize` leaves: the (possibly reversed) vertices, the index the walk
      started from, and the two chains. */
  datatype Finalized = Finalized(vertices: seq<Vec3>, start: nat, left: seq<Edge>, right: seq<Edge>)

  /** `finalize` as a value: reverse anticlockwise input, remap the lowest vertex,
      then walk all n pairs from it. */
  function Finalize(v: seq<Vec3>): (f: Finalized)
    requires |v| > 0
    ensures |f.vertices| == |v| && f.start < |v|
    ensures f.vertices == (if Clockwise(v) then v else Reversed(v))
    ensures f.vertices[f.start] == v[YMinIndex(v)]
    ensures |f.left| + |f.right| == |v|
  {
    var ymin := YMinIndex(v);
    var w := if Clockwise(v) then v else Reversed(v);
    var idx := if Clockwise(v) then ymin else |v| - 1 - ymin;
    assert w[idx] == v[ymin];
    var c := Chains(w, idx, |v|);
    Finalized(w, idx, c.0, c.1)
  }

  /** `Finalize` in terms of the orientation flag and the lowest index the first
      loop of `finalize` computes. */
  lemma FinalizeFrom(v: seq<Vec3>, clockwise: bool, ymin: nat)
    requires |v| > 0 && clockwise == Clockwise(v) && ymin == YMinIndex(v)
    ensures var w := if clockwise then v else Reversed(v);
            var idx := if clockwise then ymin else |v| - 1 - ymin;
            var c := Chains(w, idx, |v|);
            Finalize(v) == Finalized(w, idx, c.0, c.1)
  {
  }

  /** The chains of `Finalize` are the walk's chains over the final vertices. */
  lemma FinalizeChains(v: seq<Vec3>)
    requires |v| > 0
    ensures var f := Finalize(v);
            f.left == Chains(f.vertices, f.start, |v|).0 && f.right == Chains(f.vertices, f.start, |v|).1
  {
  }

  /** Once finalised, a convex polygon given in either orientation is clockwise. */
  lemma FinalizeClockwise(v: seq<Vec3>)
    requires |v| >= 3 && (Clockwise(v) || Anticlockwise(v))
    ensures Clockwise(Finalize(v).vertices)
  {
    if !Clockwise(v) {
      AnticlockwiseReversed(v);
    }
  }

  /** The walk in `finalize` starts at a lowest vertex of the final list. */
  lemma FinalizeStartsLowest(v: seq<Vec3>)
    requires |v| > 0
    requires exists j :: 0 <= j < |v| && v[j].y < 1.5
    ensures var f := Finalize(v);
            forall j :: 0 <= j < |v| ==> f.vertices[j].y >= f.vertices[f.start].y
  {
    if !Clockwise(v) {
      RemapSameVertex(v);
    }
  }

  /** With a single lowest vertex below the 1.5 start, the scan over the reversed
      list finds that same vertex at its mirrored index. */
  lemma YMinReversed(v: seq<Vec3>)
    requires |v| > 0
    requires exists j :: 0 <= j < |v| && v[j].y < 1.5
    requires forall j :: 0 <= j < |v| && j != YMinIndex(v) ==> v[j].y > v[YMinIndex(v)].y
    ensures YMinIndex(Reversed(v)) == |v| - 1 - YMinIndex(v)
  {
    var m, r := YMinIndex(v), Reversed(v);
    var j :| 0 <= j < |v| && v[j].y < 1.5;
    assert r[|v| - 1 - m].y < 1.5;
    MirroredLowest(v, r, m, YMinIndex(r));
  }

  /** A vertex strictly below all others, seen in the mirrored list, is the one
      any lowest index of the mirror names. */
  lemma MirroredLowest(v: seq<Vec3>, r: seq<Vec3>, m: nat, i: nat)
    requires |r| == |v| && m < |v| && i < |v|
    requires forall k :: 0 <= k < |v| ==> r[k] == v[|v| - 1 - k]
    requires forall j :: 0 <= j < |v| && j != m ==> v[j].y > v[m].y
    requires forall j :: 0 <= j < |v| ==> r[j].y >= r[i].y
    ensures i == |v| - 1 - m
  {
    assert r[|v| - 1 - m] == v[m];
    assert r[i] == v[|v| - 1 - i];
  }

  /** The orientation correction settles the contour: a convex polygon given
      anticlockwise finalises to the same vertices, start and chains as the same
      polygon given clockwise, when one vertex is strictly the lowest. */
  lemma FinalizeReversedSame(v: seq<Vec3>)
    requires |v| >= 3 && Anticlockwise(v) && !Clockwise(v)
    requires exists j :: 0 <= j < |v| && v[j].y < 1.5
    requires forall j :: 0 <= j < |v| && j != YMinIndex(v) ==> v[j].y > v[YMinIndex(v)].y
    ensures Finalize(v) == Finalize(Reversed(v))
  {
    AnticlockwiseReversed(v);
    YMinReversed(v);
  }

  /** Which side of the line through edge j the point lies on: positive outside. */
  function EdgeSide(v: seq<Vec3>, p: Point, j: nat): real
    requires j < |v|
  {
    Dot(Homogenous(p), Cross(v[j], v[Succ(j, |v|)]))
  }

  /** is_inside scanned from pair i on. */
  function InsideFrom(v: seq<Vec3>, p: Point, i: nat): (r: bool)
    requires i <= |v|
    ensures r <==> forall j :: i <= j < |v| ==> EdgeSide(v, p, j) <= 0.0
    decreases |v| - i
  {
    if i == |v| then true
    else if EdgeSide(v, p, i) > 0.0 then false
    else InsideFrom(v, p, i + 1)
  }

  /** `is_inside`: the point lies on the inner side of, or on, every edge's line. */
  function IsInside(v: seq<Vec3>, p: Point): (r: bool)
    ensures !r <==> exists i :: 0 <= i < |v| && EdgeSide(v, p, i) > 0.0
  {
    InsideFrom(v, p, 0)
  }

  /** The half-plane test and the orientation test agree: every corner of a clockwise
      triangle in homogeneous form passes the test. */
  lemma ClockwiseTriangleHoldsCorners(v: seq<Vec3>, k: nat)
    requires |v| == 3 && k < 3
    requires forall i :: 0 <= i < 3 ==> v[i].z == 1.0
    requires Clockwise(v)
    ensures IsInside(v, NonHomogenous(v[k]))
  {
    var h := Homogenous(NonHomogenous(v[k]));
    assert h == v[k];
    forall i | 0 <= i < 3 ensures EdgeSide(v, NonHomogenous(v[k]), i) <= 0.0 {
      CrossPerpendicular(v[i], v[Succ(i, 3)]);
      if k != i && k != Succ(i, 3) {
        assert k == Succ(Succ(i, 3), 3);
        assert Turn(v, i) <= 0.0;
      }
    }
  }

  /** The unit right triangle with a right angle at the origin, entered anticlockwise. */
  function Triangle(): seq<Vec3> {
    [Vec3(0.0, 0.0, 1.0), Vec3(1.0, 0.0, 1.0), Vec3(0.0, 1.0, 1.0)]
  }

  /** The same triangle reversed. */
  function TriangleReversed(): seq<Vec3> {
    [Vec3(0.0, 1.0, 1.0), Vec3(1.0, 0.0, 1.0), Vec3(0.0, 0.0, 1.0)]
  }

  /** The triangle as entered is not clockwise. */
  lemma TriangleNotClockwise(v: seq<Vec3>)
    requires v == Triangle()
    ensures !Clockwise(v)
  {
    TriangleTurn0(v);
  }

  lemma TriangleTurn0(v: seq<Vec3>)
    requires v == Triangle()
    ensures Turn(v, 0) == 1.0
  {
    var p, q, s := Vec3(0.0, 0.0, 1.0), Vec3(1.0, 0.0, 1.0), Vec3(0.0, 1.0, 1.0);
    TurnOf(v, 0, p, q, s);
    assert Cross(p, q) == Vec3(0.0, 1.0, 0.0);
  }

  /** Reversed, it is. */
  lemma TriangleReversedClockwise(w: seq<Vec3>)
    requires w == TriangleReversed()
    ensures Clockwise(w)
  {
    TriangleReversedTurn0(w);
    TriangleReversedTurn1(w);
    TriangleReversedTurn2(w);
  }

  lemma TriangleReversedTurn0(w: seq<Vec3>)
    requires w == TriangleReversed()
    ensures Turn(w, 0) == -1.0
  {
    var p, q, s := Vec3(0.0, 1.0, 1.0), Vec3(1.0, 0.0, 1.0), Vec3(0.0, 0.0, 1.0);
    TurnOf(w, 0, p, q, s);
    assert Cross(p, q) == Vec3(1.0, 1.0, -1.0);
  }

  lemma TriangleReversedTurn1(w: seq<Vec3>)
    requires w == TriangleReversed()
    ensures Turn(w, 1) == -1.0
  {
    var p, q, s := Vec3(1.0, 0.0, 1.0), Vec3(0.0, 0.0, 1.0), Vec3(0.0, 1.0, 1.0);
    TurnOf(w, 1, p, q, s);
    assert Cross(p, q) == Vec3(0.0, -1.0, 0.0);
  }

  lemma TriangleReversedTurn2(w: seq<Vec3>)
    requires w == TriangleReversed()
    ensures Turn(w, 2) == -1.0
  {
    var p, q, s := Vec3(0.0, 0.0, 1.0), Vec3(0.0, 1.0, 1.0), Vec3(1.0, 0.0, 1.0);
    TurnOf(w, 2, p, q, s);
    assert Cross(p, q) == Vec3(-1.0, 0.0, 0.0);
  }

  /** The unit square entered clockwise from the origin: its bottom edge, from
      (1, 0) back to (0, 0), is horizontal, so two vertices share the lowest y. */
  function Square(): seq<Vec3> {
    [Vec3(0.0, 0.0, 1.0), Vec3(0.0, 1.0, 1.0), Vec3(1.0, 1.0, 1.0), Vec3(1.0, 0.0, 1.0)]
  }

  lemma SquareClockwise(v: seq<Vec3>)
    requires v == Square()
    ensures Clockwise(v)
  {
    SquareTurn0(v);
    SquareTurn1(v);
    SquareTurn2(v);
    SquareTurn3(v);
  }

  lemma SquareTurn0(v: seq<Vec3>)
    requires v == Square()
    ensures Turn(v, 0) == -1.0
  {
    var p, q, s := Vec3(0.0, 0.0, 1.0), Vec3(0.0, 1.0, 1.0), Vec3(1.0, 1.0, 1.0);
    TurnOf(v, 0, p, q, s);
    assert Cross(p, q) == Vec3(-1.0, 0.0, 0.0);
  }

  lemma SquareTurn1(v: seq<Vec3>)
    requires v == Square()
    ensures Turn(v, 1) == -1.0
  {
    var p, q, s := Vec3(0.0, 1.0, 1.0), Vec3(1.0, 1.0, 1.0), Vec3(1.0, 0.0, 1.0);
    TurnOf(v, 1, p, q, s);
    assert Cross(p, q) == Vec3(0.0, 1.0, -1.0);
  }

  lemma SquareTurn2(v: seq<Vec3>)
    requires v == Square()
    ensures Turn(v, 2) == -1.0
  {
    var p, q, s := Vec3(1.0, 1.0, 1.0), Vec3(1.0, 0.0, 1.0), Vec3(0.0, 0.0, 1.0);
    TurnOf(v, 2, p, q, s);
    assert Cross(p, q) == Vec3(1.0, 0.0, -1.0);
  }

  lemma SquareTurn3(v: seq<Vec3>)
    requires v == Square()
    ensures Turn(v, 3) == -1.0
  {
    var p, q, s := Vec3(1.0, 0.0, 1.0), Vec3(0.0, 0.0, 1.0), Vec3(0.0, 1.0, 1.0);
    TurnOf(v, 3, p, q, s);
    assert Cross(p, q) == Vec3(0.0, -1.0, 0.0);
  }

  lemma SquareReversedNotClockwise(w: seq<Vec3>)
    requires w == Reversed(Square())
    ensures !Clockwise(w)
  {
    var a, b, c := Vec3(1.0, 0.0, 1.0), Vec3(1.0, 1.0, 1.0), Vec3(0.0, 1.0, 1.0);
    assert w[0] == a && w[1] == b && w[2] == c;
    TurnOf(w, 0, a, b, c);
    assert Cross(a, b) == Vec3(-1.0, 0.0, 1.0);
  }

  /** Four vertices whose only rising pair is (v[0], v[1]): walked from 0, the other
      three edges reach the right chain in order. */
  lemma RightChainFrom0(v: seq<Vec3>)
    requires |v| == 4
    requires v[0].y < v[1].y && v[2].y <= v[1].y && v[3].y <= v[2].y && v[0].y <= v[3].y
    ensures Chains(v, 0, 4).1 == [MakeEdge(v[1], v[2]), MakeEdge(v[2], v[3]), MakeEdge(v[3], v[0])]
  {
    PosInLap(0, 1, 4);
    PosInLap(0, 2, 4);
    PosInLap(0, 3, 4);
    WalkStep(v, 0, 0, 0);
    WalkStep(v, 0, 1, 1);
    WalkStep(v, 0, 2, 2);
    WalkStep(v, 0, 3, 3);
  }

  /** The same four vertices walked from 3: the bottom edge (v[3], v[0]) comes first. */
  lemma RightChainFrom3(v: seq<Vec3>)
    requires |v| == 4
    requires v[0].y < v[1].y && v[2].y <= v[1].y && v[3].y <= v[2].y && v[0].y <= v[3].y
    ensures Chains(v, 3, 4).1 == [MakeEdge(v[3], v[0]), MakeEdge(v[1], v[2]), MakeEdge(v[2], v[3])]
  {
    PosInLap(3, 1, 4);
    PosInLap(3, 2, 4);
    PosInLap(3, 3, 4);
    WalkStep(v, 3, 0, 3);
    WalkStep(v, 3, 1, 0);
    WalkStep(v, 3, 2, 1);
    WalkStep(v, 3, 3, 2);
  }

  /** The lowest-vertex scan keeps the first of two equally low vertices, so the
      square and its reversal start their walks at different ends of the bottom
      edge: reversing the clockwise square and finalising gives back the square,
      but walked from (1, 0), and its right chain then begins with the bottom edge
      where the square's own ends with it. */
  lemma SquareTieStart(v: seq<Vec3>)
    requires v == Square()
    ensures Finalize(v).vertices == v && Finalize(Reversed(v)).vertices == v
    ensures Finalize(v).start == 0 && Finalize(Reversed(v)).start == 3
    ensures Finalize(v).right == [MakeEdge(v[1], v[2]), MakeEdge(v[2], v[3]), MakeEdge(v[3], v[0])]
    ensures Finalize(Reversed(v)).right == [MakeEdge(v[3], v[0]), MakeEdge(v[1], v[2]), MakeEdge(v[2], v[3])]
  {
    var w := Reversed(v);
    assert Clockwise(v) by { SquareClockwise(v); }
    assert !Clockwise(w) by { SquareReversedNotClockwise(w); }
    assert Reversed(w) == v by { ReversedTwice(v); }
    assert YMinIndex(v) == 0 && YMinIndex(w) == 0 by { SquareLowest(v); }
    FinalizeFrom(v, true, 0);
    FinalizeFrom(w, false, 0);
    assert v[0].y < v[1].y && v[2].y <= v[1].y && v[3].y <= v[2].y && v[0].y <= v[3].y;
    RightChainFrom0(v);
    RightChainFrom3(v);
  }

  /** Both the square and its reversal have their first lowest vertex at index 0. */
  lemma SquareLowest(v: seq<Vec3>)
    requires v == Square()
    ensures YMinIndex(v) == 0 && YMinIndex(Reversed(v)) == 0
  {
    var w := Reversed(v);
    assert w == [v[3], v[2], v[1], v[0]];
    FirstIsLowest(v);
    FirstIsLowest(w);
  }

  lemma FirstIsLowest(v: seq<Vec3>)
    requires |v| > 0 && v[0].y < 1.5
    requires forall j :: 0 <= j < |v| ==> v[j].y >= v[0].y
    ensures YMinIndex(v) == 0
  {
  }

  /** `finalize` reverses the anticlockwise triangle into a clockwise one. */
  lemma TriangleFinalized(v: seq<Vec3>)
    requires v == Triangle()
    ensures Finalize(v).vertices == TriangleReversed()
    ensures Clockwise(Finalize(v).vertices)
  {
    TriangleNotClockwise(v);
    TriangleReversedClockwise(TriangleReversed());
    assert Reversed(v) == TriangleReversed();
  }

  /** So every corner of the finalized triangle passes its hit test. */
  lemma TriangleFinalizedHoldsCorners(v: seq<Vec3>, k: nat)
    requires v == Triangle() && k < 3
    ensures IsInside(Finalize(v).vertices, NonHomogenous(Finalize(v).vertices[k]))
  {
    TriangleFinalized(v);
    var w := Finalize(v).vertices;
    assert forall i :: 0 <= i < 3 ==> w[i].z == 1.0;
    ClockwiseTriangleHoldsCorners(w, k);
  }
}
