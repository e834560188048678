/** Placing a new node on the first free cell of a grid (td/modules/mcp/services/node_layout.py).
    Coordinates are exact reals. */
module NodeLayout {
  import opened Options

  const DEFAULT_COLS: nat := 5
  const DEFAULT_GAP: real := 20.0
  const MAX_CELLS: nat := 100_000

  /** Lower-left corner and size. */
  datatype Box = Box(x: real, y: real, w: real, h: real)

  datatype Grid = Grid(w: real, h: real, cols: nat, gap: real, x0: real, y0: real)

  /** Closer than `margin` on both axes. */
  predicate BoxesOverlap(a: Box, b: Box, margin: real) {
    && a.x < b.x + b.w + margin
    && b.x < a.x + a.w + margin
    && a.y < b.y + b.h + margin
    && b.y < a.y + a.h + margin
  }

  function Row(k: nat, cols: nat): nat
    requires cols > 0
  {
    k / cols
  }

  function Col(k: nat, cols: nat): nat
    requires cols > 0
  {
    k % cols
  }

  lemma {:induction false} RowAndCol(k: nat, cols: nat)
    requires cols > 0
    ensures k == Row(k, cols) * cols + Col(k, cols)
  {
  }

  /** The `k`-th cell, row-major, rows going down. */
  function CellBox(k: nat, g: Grid): Box
    requires g.cols > 0
  {
    CellAt(Row(k, g.cols), Col(k, g.cols), g)
  }

  function CellAt(row: nat, col: nat, g: Grid): Box {
    Box(g.x0 + Along(col, g.w + g.gap), g.y0 - Along(row, g.h + g.gap), g.w, g.h)
  }

  /** `n` pitches. */
  function Along(n: int, pitch: real): real {
    n as real * pitch
  }

  predicate Free(k: nat, existing: seq<Box>, g: Grid)
    requires g.cols > 0
  {
    forall i :: 0 <= i < |existing| ==> !BoxesOverlap(CellBox(k, g), existing[i], g.gap)
  }

  /** The least free cell among the first `MAX_CELLS`, if any: the search, as a definition. */
  ghost predicate IsFirstFree(k: nat, existing: seq<Box>, g: Grid)
    requires g.cols > 0
  {
    k < MAX_CELLS && Free(k, existing, g) && forall j: nat :: j < k ==> !Free(j, existing, g)
  }

  /** The first cell is at the origin; the next one is one pitch to the right, or after a full row at its beginning
      one pitch further down. */
  lemma {:induction false} NextCell(k: nat, g: Grid)
    requires g.cols > 0
    ensures CellBox(0, g) == Box(g.x0, g.y0, g.w, g.h)
    ensures var here, next := CellBox(k, g), CellBox(k + 1, g);
      && next.w == g.w && next.h == g.h
      && if (k + 1) % g.cols != 0 then next.x == here.x + (g.w + g.gap) && next.y == here.y
         else next.x == g.x0 && next.y == here.y - (g.h + g.gap)
  {
    var r, c := Row(k, g.cols), Col(k, g.cols);
    RowAndCol(k, g.cols);
    if c + 1 < g.cols {
      DividesTo(k + 1, g.cols, r, c + 1);
    } else {
      DividesTo(k + 1, g.cols, r + 1, 0);
    }
    DividesTo(0, g.cols, 0, 0);
    NextAlong(c, g.w + g.gap);
    NextAlong(r, g.h + g.gap);
  }

  lemma {:induction false} NextAlong(n: nat, pitch: real)
    ensures Along(n + 1, pitch) == Along(n, pitch) + pitch && Along(0, pitch) == 0.0
  {
  }

  lemma {:induction false} DividesTo(k: nat, cols: nat, r: nat, c: nat)
    requires c < cols && k == r * cols + c
    ensures Row(k, cols) == r && Col(k, cols) == c
  {
    var d := k / cols - r;
    assert d * cols == c - k % cols;
    assert d >= 1 ==> (d - 1) * cols >= 0;
    assert d <= -1 ==> (-1 - d) * cols >= 0;
  }

  /** Two boxes overlap exactly if some point lies inside the one and inside the other grown by the margin. */
  lemma {:induction false} OverlapMeans(a: Box, b: Box, margin: real)
    requires a.w > 0.0 && a.h > 0.0 && b.w > 0.0 && b.h > 0.0 && margin >= 0.0
    ensures BoxesOverlap(a, b, margin) <==> exists x, y :: Inside(x, y, a) && Inside(x, y, Grown(b, margin))
  {
    if BoxesOverlap(a, b, margin) {
      var x := Common(a.x, a.x + a.w, b.x - margin, b.x + b.w + margin);
      var y := Common(a.y, a.y + a.h, b.y - margin, b.y + b.h + margin);
      assert Inside(x, y, a) && Inside(x, y, Grown(b, margin));
    }
  }

  predicate Inside(x: real, y: real, b: Box) {
    b.x < x < b.x + b.w && b.y < y < b.y + b.h
  }

  function Grown(b: Box, margin: real): Box {
    Box(b.x - margin, b.y - margin, b.w + 2.0 * margin, b.h + 2.0 * margin)
  }

  lemma {:induction false} Common(lo: real, hi: real, lo2: real, hi2: real) returns (x: real)
    requires lo < hi && lo2 < hi2 && lo < hi2 && lo2 < hi
    ensures lo < x < hi && lo2 < x < hi2
  {
    var low, high := if lo < lo2 then lo2 else lo, if hi < hi2 then hi else hi2;
    x := (low + high) / 2.0;
  }

  // ---------- the search ----------

  /** Where the search puts the node: the lower-left corner of the first free cell. */
  ghost predicate IsFirstPlace(at: (real, real), existing: seq<Box>, g: Grid, bound: nat)
    requires g.cols > 0
  {
    exists k: nat :: k <= bound && IsFirstFree(k, existing, g) && at == (CellBox(k, g).x, CellBox(k, g).y)
  }

  /** `None` stands for the `RuntimeError`. If no existing box is larger than the new one, the search
      ends within the first `4n + 1` cells, so that up to 24999 boxes never make it fail. */
  method FirstFreeCell(existing: seq<Box>, g: Grid) returns (at: Option<(real, real)>)
    requires g.cols > 0
    ensures at.Some? ==> IsFirstPlace(at.value, existing, g, MAX_CELLS)
    ensures at.None? <==> forall k: nat :: k < MAX_CELLS ==> !Free(k, existing, g)
    ensures Fits(existing, g) && |existing| <= 24_999
      ==> at.Some? && IsFirstPlace(at.value, existing, g, 4 * |existing|)
  {
    for k := 0 to MAX_CELLS
      invariant forall j: nat :: j < k ==> !Free(j, existing, g)
    {
      var box := CellBox(k, g);
      var clear := true;
      for i := 0 to |existing|
        invariant clear <==> forall j :: 0 <= j < i ==> !BoxesOverlap(box, existing[j], g.gap)
      {
        clear := clear && !BoxesOverlap(box, existing[i], g.gap);
      }
      if clear {
        if Fits(existing, g) && k > 4 * |existing| {
          SomeCellIsFree(existing, g);
        }
        assert IsFirstFree(k, existing, g);
        return Some((box.x, box.y));
      }
    }
    if Fits(existing, g) && |existing| <= 24_999 {
      SomeCellIsFree(existing, g);
    }
    at := None;
  }

  // ---------- a box blocks at most four cells ----------

  /** No existing box is wider or taller than the new one, and neighbouring cells do not coincide. */
  predicate Fits(existing: seq<Box>, g: Grid) {
    && g.cols > 0 && g.w + g.gap > 0.0 && g.h + g.gap > 0.0
    && forall i :: 0 <= i < |existing| ==> existing[i].w <= g.w && existing[i].h <= g.h
  }

  /** Multiples of a pitch inside an open interval of at most two pitches: neighbours at most. */
  lemma {:induction false} TwoAtMost(a: int, b: int, pitch: real, lo: real, hi: real)
    requires pitch > 0.0 && hi - lo <= 2.0 * pitch
    requires lo < Along(a, pitch) < hi && lo < Along(b, pitch) < hi
    ensures -1 <= a - b <= 1
  {
    hide Along;
    Spread(a, b, pitch);
    Spread(b, a, pitch);
  }

  lemma {:induction false} Spread(a: int, b: int, pitch: real)
    requires pitch > 0.0
    ensures a - b >= 2 ==> Along(a, pitch) - Along(b, pitch) >= 2.0 * pitch
  {
    var d := (a - b) as real;
    assert Along(a, pitch) - Along(b, pitch) == d * pitch;
  }

  lemma {:induction false} BlockedColumnsAreClose(e: Box, g: Grid, r1: nat, c1: nat, r2: nat, c2: nat)
    requires g.w + g.gap > 0.0 && e.w <= g.w
    requires BoxesOverlap(CellAt(r1, c1, g), e, g.gap) && BoxesOverlap(CellAt(r2, c2, g), e, g.gap)
    ensures -1 <= c1 - c2 <= 1
  {
    hide Along;
    var left, right := e.x - g.x0 - (g.w + g.gap), e.x + e.w + g.gap - g.x0;
    TwoAtMost(c1, c2, g.w + g.gap, left, right);
  }

  lemma {:induction false} BlockedRowsAreClose(e: Box, g: Grid, r1: nat, c1: nat, r2: nat, c2: nat)
    requires g.h + g.gap > 0.0 && e.h <= g.h
    requires BoxesOverlap(CellAt(r1, c1, g), e, g.gap) && BoxesOverlap(CellAt(r2, c2, g), e, g.gap)
    ensures -1 <= r1 - r2 <= 1
  {
    hide Along;
    var low, high := g.y0 - e.y - e.h - g.gap, g.y0 + (g.h + g.gap) - e.y;
    TwoAtMost(r1, r2, g.h + g.gap, low, high);
  }

  /** The cells below `n` that `e` blocks. */
  function Blocked(e: Box, g: Grid, n: nat): set<nat>
    requires g.cols > 0
  {
    set k: nat | k < n && BoxesOverlap(CellBox(k, g), e, g.gap)
  }

  /** The two rows and the two columns that a box can block. */
  function Corner(r: nat, c: nat, cols: nat): set<int> {
    {r * cols + c, r * cols + c + 1, (r + 1) * cols + c, (r + 1) * cols + c + 1}
  }

  lemma {:induction false} CornerIsSmall(r: nat, c: nat, cols: nat)
    ensures |Corner(r, c, cols)| <= 4
  {
    var a, b, d, e := r * cols + c, r * cols + c + 1, (r + 1) * cols + c, (r + 1) * cols + c + 1;
    assert Corner(r, c, cols) == {a} + {b} + {d} + {e};
  }

  /** The least row and the least column among the blocked cells, counted from `k` downwards. */
  lemma {:induction false} LeastRowAndColumn(s: set<nat>, cols: nat) returns (r: nat, c: nat)
    requires cols > 0 && s != {}
    ensures exists k :: k in s && Row(k, cols) == r
    ensures exists k :: k in s && Col(k, cols) == c
    ensures forall k :: k in s ==> r <= Row(k, cols) && c <= Col(k, cols)
    decreases |s|
  {
    hide Row, Col;
    var k :| k in s;
    r, c := Row(k, cols), Col(k, cols);
    var rest := s - {k};
    assert forall i :: i in s ==> i == k || i in rest;
    if rest != {} {
      var r', c' := LeastRowAndColumn(rest, cols);
      if r' < r {
        r := r';
      }
      if c' < c {
        c := c';
      }
    }
  }

  lemma {:induction false} BlocksAtMostFour(e: Box, g: Grid, n: nat)
    requires Fits([e], g)
    ensures |Blocked(e, g, n)| <= 4
  {
    hide Row, Col;
    var s := Blocked(e, g, n);
    if s != {} {
      var r, c := LeastRowAndColumn(s, g.cols);
      forall k | k in s
        ensures k in Corner(r, c, g.cols)
      {
        NearLeast(e, g, s, k, r, c);
        RowAndCol(k, g.cols);
        InCorner(Row(k, g.cols), Col(k, g.cols), r, c, g.cols);
      }
      CornerIsSmall(r, c, g.cols);
      SubsetIsSmaller(s, Corner(r, c, g.cols));
    }
  }

  lemma {:induction false} NearLeast(e: Box, g: Grid, s: set<nat>, k: nat, r: nat, c: nat)
    requires Fits([e], g) && k in s
    requires forall i :: i in s ==> BoxesOverlap(CellBox(i, g), e, g.gap) && r <= Row(i, g.cols) && c <= Col(i, g.cols)
    requires (exists i :: i in s && Row(i, g.cols) == r) && (exists j :: j in s && Col(j, g.cols) == c)
    ensures r <= Row(k, g.cols) <= r + 1 && c <= Col(k, g.cols) <= c + 1
  {
    hide Row, Col, BoxesOverlap, CellAt;
    var i :| i in s && Row(i, g.cols) == r;
    var j :| j in s && Col(j, g.cols) == c;
    assert [e][0] == e;
    BlockedRowsAreClose(e, g, Row(k, g.cols), Col(k, g.cols), Row(i, g.cols), Col(i, g.cols));
    BlockedColumnsAreClose(e, g, Row(k, g.cols), Col(k, g.cols), Row(j, g.cols), Col(j, g.cols));
  }

  lemma {:induction false} InCorner(row: nat, col: nat, r: nat, c: nat, cols: nat)
    requires r <= row <= r + 1 && c <= col <= c + 1
    ensures row * cols + col in Corner(r, c, cols)
  {
  }

  lemma {:induction false} SubsetIsSmaller<T>(a: set<T>, b: set<T>)
    requires a <= b
    ensures |a| <= |b|
  {
    if a != {} {
      var x :| x in a;
      SubsetIsSmaller(a - {x}, b - {x});
    }
  }

  // ---------- pigeonhole ----------

  function AllBlocked(existing: seq<Box>, g: Grid, n: nat): set<nat>
    requires g.cols > 0
  {
    if existing == [] then {} else Blocked(existing[0], g, n) + AllBlocked(existing[1..], g, n)
  }

  lemma {:induction false} AllBlockedIsSmall(existing: seq<Box>, g: Grid, n: nat)
    requires Fits(existing, g)
    ensures |AllBlocked(existing, g, n)| <= 4 * |existing|
    ensures forall k: nat :: k < n && !Free(k, existing, g) ==> k in AllBlocked(existing, g, n)
  {
    if existing != [] {
      var e, rest := existing[0], existing[1..];
      assert Fits([e], g);
      BlocksAtMostFour(e, g, n);
      AllBlockedIsSmall(rest, g, n);
      var a, b := Blocked(e, g, n), AllBlocked(rest, g, n);
      assert |a + b| <= |a| + |b|;
      forall k: nat | k < n && !Free(k, existing, g)
        ensures k in AllBlocked(existing, g, n)
      {
        var i :| 0 <= i < |existing| && BoxesOverlap(CellBox(k, g), existing[i], g.gap);
        if i > 0 {
          assert rest[i - 1] == existing[i];
        }
      }
    }
  }

  function FirstCells(n: nat): set<nat> {
    if n == 0 then {} else FirstCells(n - 1) + {n - 1}
  }

  lemma {:induction false} FirstCellsSize(n: nat)
    ensures |FirstCells(n)| == n
    ensures forall k: nat :: k in FirstCells(n) <==> k < n
  {
    if n > 0 {
      FirstCellsSize(n - 1);
    }
  }

  /** If no existing box is larger than the new one, one of the first `4n + 1` cells is free. */
  lemma {:induction false} SomeCellIsFree(existing: seq<Box>, g: Grid)
    requires Fits(existing, g)
    ensures exists k: nat :: k <= 4 * |existing| && Free(k, existing, g)
  {
    var n := 4 * |existing| + 1;
    if forall k: nat :: k < n ==> !Free(k, existing, g) {
      AllBlockedIsSmall(existing, g, n);
      FirstCellsSize(n);
      SubsetIsSmaller(FirstCells(n), AllBlocked(existing, g, n));
    }
  }

  // ---------- placing one node after the other ----------

  /** The grid that `_align_new_node` searches for a node of this size. */
  function DefaultGrid(w: real, h: real): Grid {
    Grid(w, h, DEFAULT_COLS, DEFAULT_GAP, 0.0, 0.0)
  }

  /** Its cells: five to a row, twenty apart, from the origin to the right and down. */
  lemma {:induction false} DefaultCells(k: nat, w: real, h: real)
    ensures CellBox(k, DefaultGrid(w, h))
      == Box((k % 5) as real * (w + 20.0), 0.0 - (k / 5) as real * (h + 20.0), w, h)
  {
  }

  /** The nodes from number `m` on were placed one after the other, each on the first place free of all nodes
      before it; the first `m` stood there already. */
  ghost predicate PlacedAfter(boxes: seq<Box>, m: nat) {
    forall i :: m <= i < |boxes| ==>
      IsFirstPlace((boxes[i].x, boxes[i].y), boxes[..i], DefaultGrid(boxes[i].w, boxes[i].h), MAX_CELLS)
  }

  predicate PairwiseClear(boxes: seq<Box>) {
    forall i, j :: 0 <= i < j < |boxes| ==> !BoxesOverlap(boxes[i], boxes[j], DEFAULT_GAP)
  }

  lemma {:induction false} OverlapIsMutual(a: Box, b: Box, margin: real)
    ensures BoxesOverlap(a, b, margin) <==> BoxesOverlap(b, a, margin)
  {
  }

  /** Whatever children a network has and whatever the sizes, automatic placement keeps all nodes pairwise
      clear by the gap exactly if the children it found were. */
  lemma {:induction false} PlacementsStayClear(boxes: seq<Box>, m: nat)
    requires m <= |boxes| && PlacedAfter(boxes, m)
    ensures PairwiseClear(boxes) <==> PairwiseClear(boxes[..m])
  {
    hide BoxesOverlap, IsFirstPlace;
    if PairwiseClear(boxes[..m]) {
      forall i, j | 0 <= i < j < |boxes|
        ensures !BoxesOverlap(boxes[i], boxes[j], DEFAULT_GAP)
      {
        if j < m {
          assert boxes[..m][i] == boxes[i] && boxes[..m][j] == boxes[j];
        } else {
          assert boxes[..j][i] == boxes[i];
          FirstPlaceIsClear(boxes[j], boxes[..j], DefaultGrid(boxes[j].w, boxes[j].h), i);
          OverlapIsMutual(boxes[i], boxes[j], DEFAULT_GAP);
        }
      }
    }
  }

  lemma {:induction false} FirstPlaceIsClear(box: Box, existing: seq<Box>, g: Grid, i: nat)
    requires g.cols > 0 && box.w == g.w && box.h == g.h && i < |existing|
    requires IsFirstPlace((box.x, box.y), existing, g, MAX_CELLS)
    ensures !BoxesOverlap(box, existing[i], g.gap)
  {
    hide BoxesOverlap;
    var k: nat :| IsFirstFree(k, existing, g) && (box.x, box.y) == (CellBox(k, g).x, CellBox(k, g).y);
    CellSize(k, g);
    assert Free(k, existing, g) && CellBox(k, g) == box;
  }

  lemma {:induction false} CellSize(k: nat, g: Grid)
    requires g.cols > 0
    ensures CellBox(k, g).w == g.w && CellBox(k, g).h == g.h
  {
  }

  /** Nodes of one size fill the grid without a hole: the n-th of them gets the n-th cell. */
  lemma {:induction false} EqualNodesFillTheGrid(existing: seq<Box>, g: Grid)
    requires g.cols > 0 && g.w > 0.0 && g.h > 0.0 && g.gap >= 0.0
    requires forall i :: 0 <= i < |existing| ==> existing[i] == CellBox(i, g)
    ensures forall k: nat :: Free(k, existing, g) <==> |existing| <= k
    ensures |existing| < MAX_CELLS ==> IsFirstFree(|existing|, existing, g)
  {
    forall k: nat
      ensures Free(k, existing, g) <==> |existing| <= k
    {
      if k < |existing| {
        assert BoxesOverlap(CellBox(k, g), existing[k], g.gap);
      } else {
        forall i | 0 <= i < |existing|
          ensures !BoxesOverlap(CellBox(k, g), existing[i], g.gap)
        {
          DistinctCellsAreClear(k, i, g);
        }
      }
    }
  }

  lemma {:induction false} DistinctCellsAreClear(k: nat, i: nat, g: Grid)
    requires g.cols > 0 && g.w + g.gap > 0.0 && g.h + g.gap > 0.0 && k != i
    ensures !BoxesOverlap(CellBox(k, g), CellBox(i, g), g.gap)
  {
    hide Row, Col;
    var r1, c1, r2, c2 := Row(k, g.cols), Col(k, g.cols), Row(i, g.cols), Col(i, g.cols);
    RowAndCol(k, g.cols);
    RowAndCol(i, g.cols);
    if c1 != c2 {
      Apart(c1, c2, g.w + g.gap);
    } else {
      assert r1 != r2;
      Apart(r1, r2, g.h + g.gap);
    }
    OneAxisIsEnough(r1, c1, r2, c2, g);
  }

  lemma {:induction false} OneAxisIsEnough(r1: nat, c1: nat, r2: nat, c2: nat, g: Grid)
    requires MultiplesApart(c1, c2, g.w + g.gap) || MultiplesApart(r1, r2, g.h + g.gap)
    ensures !BoxesOverlap(CellAt(r1, c1, g), CellAt(r2, c2, g), g.gap)
  {
    hide Along;
  }

  /** At least one pitch apart. */
  predicate MultiplesApart(a: int, b: int, pitch: real) {
    Along(a, pitch) >= Along(b, pitch) + pitch || Along(b, pitch) >= Along(a, pitch) + pitch
  }

  lemma {:induction false} Apart(a: int, b: int, pitch: real)
    requires pitch > 0.0 && a != b
    ensures MultiplesApart(a, b, pitch)
  {
    var d := (a - b) as real;
    assert Along(a, pitch) - Along(b, pitch) == d * pitch;
    assert d >= 1.0 || d <= -1.0;
  }
}
