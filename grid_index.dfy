/**
  The brush-window index mapper `getArea` (src/components/Scene/hooks/useHelpers.ts).

  For every (i, j) of the window [-radius, radius]², i outer and j inner, getArea hands
  its callback four numbers: a land row offset and column, and an overlay row offset and
  column.  The callback adds each pair to get a flat vertex index.  The land row term takes
  the absolute value of the row, the column term is not clamped at all; both quirks are
  kept and stated below.
 */
module GridIndex {
  import opened Config

  /** The four numbers the callback receives for one (i, j). */
  datatype AreaIndex = AreaIndex(zWorld: int, xWorld: int, zEditor: int, xEditor: int)
  {
    /** Flat index of the land vertex the callback reads (and writes while stroking). */
    function Base(): int { xWorld + zWorld }
    /** Flat index of the overlay vertex the callback writes. */
    function Overlay(): int { xEditor + zEditor }
  }

  /** Math.abs on integers. */
  function Abs(x: int): (r: nat)
    ensures r == x || r == -x
  {
    if x < 0 then -x else x
  }

  /** The loop range of getArea: -radius <= i <= radius. */
  predicate InWindow(radius: nat, i: int)
  {
    -(radius as int) <= i <= radius
  }

  /** Number of vertices along one side of the brush overlay: radius * 2 + 1. */
  function Width(radius: nat): nat { 2 * radius + 1 }

  /** The callback arguments for the pair (i, j) of a window centred on cell (x0, z0). */
  function IndexAt(radius: nat, x0: int, z0: int, i: int, j: int): (r: AreaIndex)
    ensures 0 <= r.zWorld && r.zWorld % (GridColumn + 1) == 0
    ensures 0 <= r.zEditor && r.zEditor % Width(radius) == 0
    ensures r.Base() - r.xWorld == r.zWorld && r.Overlay() - r.xEditor == r.zEditor
  {
    DivModOf(Abs(GridColumn / 2 + z0 + j), 0, GridColumn + 1);
    DivModOf(Abs(radius + j), 0, Width(radius));
    AreaIndex(
      Abs(GridColumn / 2 + z0 + j) * (GridColumn + 1),
      GridColumn / 2 + x0 + i,
      Abs(radius + j) * Width(radius),
      radius + i)
  }

  /**
    The sequence of callback arguments, in call order: call number k has
    i = k / width - radius (the outer loop) and j = k % width - radius (the inner loop).
   */
  function Area(radius: nat, x0: int, z0: int): (cells: seq<AreaIndex>)
    ensures |cells| == Width(radius) * Width(radius)
  {
    var w := Width(radius);
    seq(w * w, k requires 0 <= k < w * w => IndexAt(radius, x0, z0, k / w - radius, k % w - radius))
  }

  /** getArea: the nested loop, recording each callback invocation in order. */
  method GetArea(radius: nat, x0: int, z0: int) returns (calls: seq<AreaIndex>)
    ensures calls == Area(radius, x0, z0)
  {
    var w := Width(radius);
    ghost var cells := Area(radius, x0, z0);
    calls := [];
    var i: int := -(radius as int);
    while i <= radius
      invariant InWindow(radius, i) || i == radius + 1
      invariant |calls| == (i + radius) * w <= |cells|
      invariant calls == cells[..|calls|]
    {
      ghost var row := (i + radius) * w;
      var j: int := -(radius as int);
      while j <= radius
        invariant InWindow(radius, j) || j == radius + 1
        invariant |calls| == row + (j + radius) <= |cells|
        invariant calls == cells[..|calls|]
      {
        AreaAt(radius, x0, z0, i, j);
        assert cells[..|calls| + 1] == cells[..|calls|] + [cells[|calls|]];
        calls := calls + [IndexAt(radius, x0, z0, i, j)];
        j := j + 1;
      }
      assert row + w == (i + 1 + radius) * w;
      i := i + 1;
    }
  }

  // ---------------------------------------------------------------------------------------
  // Arithmetic helpers

  lemma MulMonotone(a: int, b: int, w: int)
    requires 0 <= a <= b && 0 <= w
    ensures a * w <= b * w
  {
  }

  /** a * w + b with 0 <= b < w determines a and b. */
  lemma {:induction false} DivModOf(a: int, b: int, w: int)
    requires 0 < w && 0 <= b < w
    ensures (a * w + b) / w == a && (a * w + b) % w == b
  {
    var n := a * w + b;
    var q, r := n / w, n % w;
    assert n == q * w + r && 0 <= r < w;
    assert (q - a) * w == b - r;
    if q > a {
      MulMonotone(1, q - a, w);
    } else if q < a {
      MulMonotone(1, a - q, w);
    }
  }

  /** Two pairs with coordinates in [0, w) and equal a + b * w are the same pair. */
  lemma PairInjective(a: int, b: int, a': int, b': int, w: int)
    requires 0 < w && 0 <= a < w && 0 <= a' < w
    requires a + b * w == a' + b' * w
    ensures a == a' && b == b'
  {
    DivModOf(b, a, w);
    DivModOf(b', a', w);
  }

  /** A pair with coordinates in [0, w) addresses an index in [0, w * w). */
  lemma PairInRange(a: int, b: int, w: int)
    requires 0 <= a < w && 0 <= b < w
    ensures 0 <= a + b * w < w * w
  {
    MulMonotone(0, b, w);
    MulMonotone(b, w - 1, w);
    assert (w - 1) * w == w * w - w;
  }

  // ---------------------------------------------------------------------------------------
  // Loop order

  /** Call (i + radius) * width + (j + radius) of getArea is the one for the pair (i, j). */
  lemma AreaAt(radius: nat, x0: int, z0: int, i: int, j: int)
    requires InWindow(radius, i) && InWindow(radius, j)
    ensures 0 <= (i + radius) * Width(radius) + (j + radius) < |Area(radius, x0, z0)|
    ensures Area(radius, x0, z0)[(i + radius) * Width(radius) + (j + radius)] == IndexAt(radius, x0, z0, i, j)
  {
    var w := Width(radius);
    PairInRange(j + radius, i + radius, w);
    DivModOf(i + radius, j + radius, w);
  }

  /** Every call of getArea has its (i, j) inside the window. */
  lemma AreaPair(radius: nat, x0: int, z0: int, k: int)
    requires 0 <= k < |Area(radius, x0, z0)|
    ensures InWindow(radius, k / Width(radius) - radius)
    ensures InWindow(radius, k % Width(radius) - radius)
    ensures Area(radius, x0, z0)[k] == IndexAt(radius, x0, z0, k / Width(radius) - radius, k % Width(radius) - radius)
  {
    var w := Width(radius);
    var q, r := k / w, k % w;
    assert k == q * w + r;
    if q >= w {
      MulMonotone(w, q, w);
    }
    if q < 0 {
      MulMonotone(1, -q, w);
    }
  }

  // ---------------------------------------------------------------------------------------
  // The overlay index

  /** The Math.abs in the overlay row term never changes its argument inside the window. */
  lemma OverlayAbsIsIdentity(radius: nat, j: int)
    requires InWindow(radius, j)
    ensures Abs(radius + j) == radius + j
  {
  }

  /** Every overlay index of the window lies in [0, (2 * radius + 1)²). */
  lemma OverlayInRange(radius: nat, x0: int, z0: int, i: int, j: int)
    requires InWindow(radius, i) && InWindow(radius, j)
    ensures 0 <= IndexAt(radius, x0, z0, i, j).Overlay() < Width(radius) * Width(radius)
  {
    PairInRange(radius + i, radius + j, Width(radius));
  }

  /** Distinct pairs of the window get distinct overlay indices. */
  lemma OverlayInjective(radius: nat, x0: int, z0: int, i: int, j: int, i': int, j': int)
    requires InWindow(radius, i) && InWindow(radius, j)
    requires InWindow(radius, i') && InWindow(radius, j')
    requires IndexAt(radius, x0, z0, i, j).Overlay() == IndexAt(radius, x0, z0, i', j').Overlay()
    ensures i == i' && j == j'
  {
    PairInjective(radius + i, radius + j, radius + i', radius + j', Width(radius));
  }

  ghost predicate OverlaysWithin(cells: seq<AreaIndex>, n: int)
  {
    forall k :: 0 <= k < |cells| ==> 0 <= cells[k].Overlay() < n
  }

  ghost predicate DistinctOverlays(cells: seq<AreaIndex>)
  {
    forall k, l :: 0 <= k < l < |cells| ==> cells[k].Overlay() != cells[l].Overlay()
  }

  /** k == (k / w) * w + k % w, with the remainder in [0, w). */
  lemma DivModSplit(k: int, w: int)
    requires 0 < w
    ensures k == (k / w) * w + k % w && 0 <= k % w < w
  {
  }

  /** Two different calls of getArea write two different overlay vertices. */
  lemma AreaOverlayDistinct(radius: nat, x0: int, z0: int, k: int, l: int)
    requires 0 <= k < l < |Area(radius, x0, z0)|
    ensures Area(radius, x0, z0)[k].Overlay() != Area(radius, x0, z0)[l].Overlay()
  {
    var w := Width(radius);
    var qk, rk, ql, rl := k / w, k % w, l / w, l % w;
    AreaPair(radius, x0, z0, k);
    AreaPair(radius, x0, z0, l);
    DivModSplit(k, w);
    DivModSplit(l, w);
    assert Area(radius, x0, z0)[k].Overlay() == qk + rk * w;
    assert Area(radius, x0, z0)[l].Overlay() == ql + rl * w;
    if qk + rk * w == ql + rl * w {
      PairInjective(qk, rk, ql, rl, w);
      assert false;
    }
  }

  /** The whole call sequence addresses each overlay vertex exactly once. */
  lemma AreaOverlays(radius: nat, x0: int, z0: int)
    ensures OverlaysWithin(Area(radius, x0, z0), Width(radius) * Width(radius))
    ensures DistinctOverlays(Area(radius, x0, z0))
  {
    var cells, w := Area(radius, x0, z0), Width(radius);
    forall k | 0 <= k < |cells|
      ensures 0 <= cells[k].Overlay() < w * w
    {
      AreaPair(radius, x0, z0, k);
      OverlayInRange(radius, x0, z0, k / w - radius, k % w - radius);
    }
    forall k, l | 0 <= k < l < |cells|
      ensures cells[k].Overlay() != cells[l].Overlay()
    {
      AreaOverlayDistinct(radius, x0, z0, k, l);
    }
  }

  // ---------------------------------------------------------------------------------------
  // The land (base) index

  /** Land column and row of the pair (i, j) both lie on the grid [0, gridColumn]. */
  predicate OnGrid(x0: int, z0: int, i: int, j: int)
  {
    && 0 <= GridColumn / 2 + x0 + i <= GridColumn
    && 0 <= GridColumn / 2 + z0 + j <= GridColumn
  }

  /** An on-grid pair addresses a vertex of the land: an index in [0, (gridColumn + 1)²). */
  lemma BaseInRange(radius: nat, x0: int, z0: int, i: int, j: int)
    requires OnGrid(x0, z0, i, j)
    ensures 0 <= IndexAt(radius, x0, z0, i, j).Base() < LandVertices
  {
  }

  /** On-grid pairs with the same land index are the same pair. */
  lemma BaseInjective(radius: nat, x0: int, z0: int, i: int, j: int, i': int, j': int)
    requires OnGrid(x0, z0, i, j) && OnGrid(x0, z0, i', j')
    requires IndexAt(radius, x0, z0, i, j).Base() == IndexAt(radius, x0, z0, i', j').Base()
    ensures i == i' && j == j'
  {
    PairInjective(GridColumn / 2 + x0 + i, GridColumn / 2 + z0 + j,
                  GridColumn / 2 + x0 + i', GridColumn / 2 + z0 + j', GridColumn + 1);
  }

  /**
    Because only the row term goes through Math.abs, the land rows -k and +k (relative to
    gridColumn / 2) are the same row: a window reaching below row 0 edits mirrored rows.
   */
  lemma BaseRowMirror(radius: nat, x0: int, z0: int, z0': int, i: int, j: int)
    requires GridColumn / 2 + z0' + j == -(GridColumn / 2 + z0 + j)
    ensures IndexAt(radius, x0, z0, i, j).Base() == IndexAt(radius, x0, z0', i, j).Base()
  {
  }

  /**
    The column term is not clamped: one column past the right edge of a row addresses
    column 0 of the next row, and one column before the left edge the last column of the
    previous row.
   */
  lemma BaseColumnSpill(radius: nat, x0: int, z0: int, i: int, j: int)
    requires 0 <= GridColumn / 2 + z0 + j
    ensures GridColumn / 2 + x0 + i == GridColumn + 1 ==>
      IndexAt(radius, x0, z0, i, j).Base() == 0 + (GridColumn / 2 + z0 + j + 1) * (GridColumn + 1)
    ensures GridColumn / 2 + x0 + i == -1 ==>
      IndexAt(radius, x0, z0, i, j).Base() == GridColumn + (GridColumn / 2 + z0 + j - 1) * (GridColumn + 1)
  {
  }

  /** The whole window lies on the land grid. */
  predicate WindowOnGrid(radius: nat, x0: int, z0: int)
  {
    && 0 <= GridColumn / 2 + x0 - radius && GridColumn / 2 + x0 + radius <= GridColumn
    && 0 <= GridColumn / 2 + z0 - radius && GridColumn / 2 + z0 + radius <= GridColumn
  }

  ghost predicate BasesWithin(cells: seq<AreaIndex>, n: int)
  {
    forall k :: 0 <= k < |cells| ==> 0 <= cells[k].Base() < n
  }

  ghost predicate DistinctBases(cells: seq<AreaIndex>)
  {
    forall k, l :: 0 <= k < l < |cells| ==> cells[k].Base() != cells[l].Base()
  }

  /** Two different calls of a window on the grid read two different land vertices. */
  lemma AreaBaseDistinct(radius: nat, x0: int, z0: int, k: int, l: int)
    requires WindowOnGrid(radius, x0, z0)
    requires 0 <= k < l < |Area(radius, x0, z0)|
    ensures Area(radius, x0, z0)[k].Base() != Area(radius, x0, z0)[l].Base()
  {
    var w := Width(radius);
    var qk, rk, ql, rl := k / w, k % w, l / w, l % w;
    AreaPair(radius, x0, z0, k);
    AreaPair(radius, x0, z0, l);
    DivModSplit(k, w);
    DivModSplit(l, w);
    var c := GridColumn / 2 - radius;
    assert Area(radius, x0, z0)[k].Base() == (c + x0 + qk) + (c + z0 + rk) * (GridColumn + 1);
    assert Area(radius, x0, z0)[l].Base() == (c + x0 + ql) + (c + z0 + rl) * (GridColumn + 1);
    if Area(radius, x0, z0)[k].Base() == Area(radius, x0, z0)[l].Base() {
      PairInjective(c + x0 + qk, c + z0 + rk, c + x0 + ql, c + z0 + rl, GridColumn + 1);
      assert false;
    }
  }

  /** A window on the grid addresses (2 * radius + 1)² distinct land vertices. */
  lemma AreaBases(radius: nat, x0: int, z0: int)
    requires WindowOnGrid(radius, x0, z0)
    ensures BasesWithin(Area(radius, x0, z0), LandVertices)
    ensures DistinctBases(Area(radius, x0, z0))
  {
    var cells, w := Area(radius, x0, z0), Width(radius);
    forall k | 0 <= k < |cells|
      ensures 0 <= cells[k].Base() < LandVertices
    {
      AreaPair(radius, x0, z0, k);
      BaseInRange(radius, x0, z0, k / w - radius, k % w - radius);
    }
    forall k, l | 0 <= k < l < |cells|
      ensures cells[k].Base() != cells[l].Base()
    {
      AreaBaseDistinct(radius, x0, z0, k, l);
    }
  }
}
