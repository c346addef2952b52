/**
  The terrain brush (src/components/Scene/hooks/useWorldEdit.ts).

  The brush is armed with a direction (UP or DOWN) and then owns an overlay mesh of
  (2 * radius + 1)² vertices.  Each pass over the window under the cursor reads the land
  height of every addressed vertex, writes height ± step back while the stroke button is
  held, and copies the value into the overlay; after a stroking pass, every placed object
  strictly inside the window is lifted or lowered by the same step.  While the button is
  held the pass is repeated on a timer: the `pending` field stands for that interval.
 */
module WorldEdit {
  import opened Wrappers
  import opened Config
  import opened GridIndex
  import opened Objects

  datatype Direction = Up | Down

  /**
    One component of a float position buffer.  Reading a land vertex that does not exist
    gives `undefined`, and `undefined ± step` is NaN, which the overlay then stores.
   */
  datatype Sample = Num(z: real) | NaN

  /** landPosition.getZ(n) */
  function ReadZ(land: seq<real>, n: int): (r: Sample)
    ensures r.Num? <==> 0 <= n < |land|
    ensures r.Num? ==> r.z == land[n]
  {
    if 0 <= n < |land| then Num(land[n]) else NaN
  }

  /** y ± step on a sample; NaN stays NaN. */
  function Raise(y: Sample, d: real): Sample
  {
    match y
    case Num(z) => Num(z + d)
    case NaN => NaN
  }

  /** The signed height change of one pass: -step for DOWN, +step otherwise. */
  function Delta(direction: Option<Direction>, step: real): (r: real)
    ensures r == step || r == -step
    ensures direction == Some(Down) ==> r == -step
    ensures direction != Some(Down) ==> r == step
  {
    if direction == Some(Down) then -step else step
  }

  // ---------------------------------------------------------------------------------------
  // One pass over the window, as a function of the buffers

  /** The two position buffers an edit pass writes. */
  datatype Buffers = Buffers(land: seq<real>, overlay: seq<Sample>)

  /**
    The callback of one getArea call: read the land vertex, add d when stroking, write it
    back when stroking, and write the value into the overlay.  Writes outside a buffer are
    dropped, as a typed array drops them.
   */
  function EditCell(b: Buffers, c: AreaIndex, stroke: bool, d: real): (r: Buffers)
    ensures |r.land| == |b.land| && |r.overlay| == |b.overlay|
    ensures forall m :: 0 <= m < |b.land| && (m != c.Base() || !stroke) ==> r.land[m] == b.land[m]
    ensures stroke && 0 <= c.Base() < |b.land| ==> r.land[c.Base()] == b.land[c.Base()] + d
    ensures forall m :: 0 <= m < |b.overlay| && m != c.Overlay() ==> r.overlay[m] == b.overlay[m]
    ensures 0 <= c.Overlay() < |b.overlay| ==>
      r.overlay[c.Overlay()] == (if stroke then Raise(ReadZ(b.land, c.Base()), d) else ReadZ(b.land, c.Base()))
  {
    var n, o := c.Base(), c.Overlay();
    var y := ReadZ(b.land, n);
    var y0 := if stroke then Raise(y, d) else y;
    Buffers(
      if stroke && 0 <= n < |b.land| then b.land[n := b.land[n] + d] else b.land,
      if 0 <= o < |b.overlay| then b.overlay[o := y0] else b.overlay)
  }

  /** The callback applied to the calls in order; later calls see earlier writes. */
  function EditArea(b: Buffers, cells: seq<AreaIndex>, stroke: bool, d: real): (r: Buffers)
    ensures |r.land| == |b.land| && |r.overlay| == |b.overlay|
    decreases |cells|
  {
    if cells == [] then b
    else EditCell(EditArea(b, cells[..|cells| - 1], stroke, d), cells[|cells| - 1], stroke, d)
  }

  ghost function BaseIndices(cells: seq<AreaIndex>): set<int>
  {
    set k | 0 <= k < |cells| :: cells[k].Base()
  }

  /** Without the stroke flag a pass never writes the land. */
  lemma {:induction false} PreviewKeepsLand(b: Buffers, cells: seq<AreaIndex>, d: real)
    ensures EditArea(b, cells, false, d).land == b.land
    decreases |cells|
  {
    if cells != [] {
      PreviewKeepsLand(b, cells[..|cells| - 1], d);
    }
  }

  /**
    Without the stroke flag every overlay vertex the pass addresses ends up holding the
    land value at its paired land index (NaN for an index off the land).
   */
  lemma {:induction false} PreviewMirrorsLand(b: Buffers, cells: seq<AreaIndex>, d: real)
    requires OverlaysWithin(cells, |b.overlay|) && DistinctOverlays(cells)
    ensures forall k :: 0 <= k < |cells| ==>
      EditArea(b, cells, false, d).overlay[cells[k].Overlay()] == ReadZ(b.land, cells[k].Base())
    decreases |cells|
  {
    if cells != [] {
      var front, last := cells[..|cells| - 1], cells[|cells| - 1];
      PreviewMirrorsLand(b, front, d);
      PreviewKeepsLand(b, front, d);
      var prev := EditArea(b, front, false, d);
      forall k | 0 <= k < |cells|
        ensures EditArea(b, cells, false, d).overlay[cells[k].Overlay()] == ReadZ(b.land, cells[k].Base())
      {
        if k < |cells| - 1 {
          assert cells[k] == front[k];
          assert cells[k].Overlay() != last.Overlay();
        }
      }
    }
  }

  /**
    With the stroke flag, and a window whose land indices are distinct and on the land,
    each addressed land vertex moves by exactly d, its overlay vertex receives the new
    height, and every other land vertex is unchanged.
   */
  lemma {:induction false} StrokeMovesLand(b: Buffers, cells: seq<AreaIndex>, d: real)
    requires BasesWithin(cells, |b.land|) && DistinctBases(cells)
    requires OverlaysWithin(cells, |b.overlay|) && DistinctOverlays(cells)
    ensures var r := EditArea(b, cells, true, d);
      && (forall k :: 0 <= k < |cells| ==> r.land[cells[k].Base()] == b.land[cells[k].Base()] + d)
      && (forall k :: 0 <= k < |cells| ==> r.overlay[cells[k].Overlay()] == Num(r.land[cells[k].Base()]))
      && (forall n :: 0 <= n < |b.land| && n !in BaseIndices(cells) ==> r.land[n] == b.land[n])
    decreases |cells|
  {
    if cells != [] {
      var front, last := cells[..|cells| - 1], cells[|cells| - 1];
      StrokeMovesLand(b, front, d);
      var prev := EditArea(b, front, true, d);
      var r := EditArea(b, cells, true, d);
      assert last.Base() !in BaseIndices(front) by {
        forall k | 0 <= k < |front| ensures front[k].Base() != last.Base() {
          assert front[k] == cells[k];
        }
      }
      assert prev.land[last.Base()] == b.land[last.Base()];
      forall k | 0 <= k < |cells|
        ensures r.land[cells[k].Base()] == b.land[cells[k].Base()] + d
        ensures r.overlay[cells[k].Overlay()] == Num(r.land[cells[k].Base()])
      {
        if k < |cells| - 1 {
          assert cells[k] == front[k];
          assert cells[k].Base() != last.Base();
          assert cells[k].Overlay() != last.Overlay();
        }
      }
      forall n | 0 <= n < |b.land| && n !in BaseIndices(cells)
        ensures r.land[n] == b.land[n]
      {
        assert n != last.Base();
        assert n !in BaseIndices(front) by {
          forall k | 0 <= k < |front| ensures front[k].Base() != n {
            assert front[k] == cells[k];
          }
        }
      }
    }
  }

  // ---------------------------------------------------------------------------------------
  // Objects riding the terrain

  /** The object's x and z lie strictly inside the window centred on (x0, z0). */
  predicate InsideWindow(o: SceneObject, x0: int, z0: int, radius: nat)
  {
    && (x0 - radius) as real < o.pose.x < (x0 + radius) as real
    && (z0 - radius) as real < o.pose.z < (z0 + radius) as real
  }

  function Follow(o: SceneObject, x0: int, z0: int, radius: nat, d: real): SceneObject
  {
    if InsideWindow(o, x0, z0, radius) then o.(pose := o.pose.(y := o.pose.y + d)) else o
  }

  /** objectsRef.current.map after a stroking pass. */
  function FollowTerrain(items: seq<SceneObject>, x0: int, z0: int, radius: nat, d: real): (r: seq<SceneObject>)
    ensures |r| == |items|
    ensures forall k :: 0 <= k < |items| ==>
      && r[k].shape == items[k].shape && r[k].startY == items[k].startY
      && r[k].pose.x == items[k].pose.x && r[k].pose.z == items[k].pose.z
      && r[k].pose.rotationY == items[k].pose.rotationY
      && r[k].pose.y == items[k].pose.y + (if InsideWindow(items[k], x0, z0, radius) then d else 0.0)
  {
    seq(|items|, k requires 0 <= k < |items| => Follow(items[k], x0, z0, radius, d))
  }

  /**
    Because lifting never moves an object across the window's edge, two lifts of the same
    window add up: the offset is the running sum of the terrain deltas.
   */
  lemma FollowTerrainAdds(items: seq<SceneObject>, x0: int, z0: int, radius: nat, d1: real, d2: real)
    ensures FollowTerrain(FollowTerrain(items, x0, z0, radius, d1), x0, z0, radius, d2)
         == FollowTerrain(items, x0, z0, radius, d1 + d2)
  {
  }

  // ---------------------------------------------------------------------------------------
  // A whole pass and a held stroke

  /** Everything an edit pass touches: the land, the overlay it writes, the objects. */
  datatype World = World(land: seq<real>, overlay: seq<Sample>, items: seq<SceneObject>)

  /** The `edit` closure over the window centred on (x0, z0). */
  function Pass(w: World, x0: int, z0: int, radius: nat, stroke: bool, d: real): (r: World)
    ensures |r.land| == |w.land| && |r.overlay| == |w.overlay| && |r.items| == |w.items|
  {
    var b := EditArea(Buffers(w.land, w.overlay), Area(radius, x0, z0), stroke, d);
    World(b.land, b.overlay, if stroke then FollowTerrain(w.items, x0, z0, radius, d) else w.items)
  }

  /** n stroking passes at a fixed cell, as the repeat produces while the cursor stays still. */
  function Passes(w: World, x0: int, z0: int, radius: nat, d: real, n: nat): (r: World)
    ensures |r.land| == |w.land| && |r.overlay| == |w.overlay| && |r.items| == |w.items|
  {
    if n == 0 then w else Pass(Passes(w, x0, z0, radius, d, n - 1), x0, z0, radius, true, d)
  }

  /** A preview pass (stroke flag clear) changes neither the land nor the objects. */
  lemma PreviewPass(w: World, x0: int, z0: int, radius: nat, d: real)
    requires |w.overlay| == Width(radius) * Width(radius)
    ensures var r := Pass(w, x0, z0, radius, false, d);
      && r.land == w.land && r.items == w.items
      && OverlaysWithin(Area(radius, x0, z0), |r.overlay|)
      && forall k :: 0 <= k < |Area(radius, x0, z0)| ==>
           r.overlay[Area(radius, x0, z0)[k].Overlay()] == ReadZ(w.land, Area(radius, x0, z0)[k].Base())
  {
    AreaOverlays(radius, x0, z0);
    PreviewKeepsLand(Buffers(w.land, w.overlay), Area(radius, x0, z0), d);
    PreviewMirrorsLand(Buffers(w.land, w.overlay), Area(radius, x0, z0), d);
  }

  /** d added n times: the accumulated change of n passes. */
  function Times(n: nat, d: real): real
  {
    if n == 0 then 0.0 else Times(n - 1, d) + d
  }

  /** Adding d n times is multiplying by n: no drift. */
  lemma {:induction false} TimesIsProduct(n: nat, d: real)
    ensures Times(n, d) == (n as real) * d
  {
    if n > 0 {
      TimesIsProduct(n - 1, d);
      assert (n as real) * d == ((n - 1) as real) * d + d;
    }
  }

  /** n stroking passes lift the objects inside the window by n * d: the offsets accumulate. */
  lemma {:induction false} HeldStrokeItems(w: World, x0: int, z0: int, radius: nat, d: real, n: nat)
    ensures Passes(w, x0, z0, radius, d, n).items == FollowTerrain(w.items, x0, z0, radius, Times(n, d))
  {
    if n == 0 {
      assert FollowTerrain(w.items, x0, z0, radius, 0.0) == w.items;
    } else {
      HeldStrokeItems(w, x0, z0, radius, d, n - 1);
      var prev := Passes(w, x0, z0, radius, d, n - 1);
      assert Passes(w, x0, z0, radius, d, n).items == FollowTerrain(prev.items, x0, z0, radius, d);
      FollowTerrainAdds(w.items, x0, z0, radius, Times(n - 1, d), d);
    }
  }

  /**
    n stroking passes over a window on the land move each addressed vertex by exactly
    Times(n, d), leave every other vertex alone, and leave each overlay vertex equal to its land
    vertex.
   */
  lemma {:induction false} HeldStrokeLand(w: World, x0: int, z0: int, radius: nat, d: real, n: nat)
    requires WindowOnGrid(radius, x0, z0)
    requires |w.land| == LandVertices && |w.overlay| == Width(radius) * Width(radius)
    ensures var r, cells := Passes(w, x0, z0, radius, d, n), Area(radius, x0, z0);
      && BasesWithin(cells, |r.land|) && OverlaysWithin(cells, |r.overlay|)
      && (forall k :: 0 <= k < |cells| ==> r.land[cells[k].Base()] == w.land[cells[k].Base()] + Times(n, d))
      && (forall m :: 0 <= m < |w.land| && m !in BaseIndices(cells) ==> r.land[m] == w.land[m])
      && (n > 0 ==> forall k :: 0 <= k < |cells| ==> r.overlay[cells[k].Overlay()] == Num(r.land[cells[k].Base()]))
  {
    var cells := Area(radius, x0, z0);
    AreaBases(radius, x0, z0);
    AreaOverlays(radius, x0, z0);
    if n > 0 {
      HeldStrokeLand(w, x0, z0, radius, d, n - 1);
      var prev := Passes(w, x0, z0, radius, d, n - 1);
      var r := Passes(w, x0, z0, radius, d, n);
      assert Buffers(r.land, r.overlay) == EditArea(Buffers(prev.land, prev.overlay), cells, true, d);
      StrokeMovesLand(Buffers(prev.land, prev.overlay), cells, d);
    }
  }

  /**
    Holding the button for n passes over a window on the land moves each addressed vertex
    by exactly Times(n, d) = n * d and nothing else on the land, lifts the objects inside
    the window by the same amount, and leaves each overlay vertex equal to its land vertex.
   */
  lemma HeldStroke(w: World, x0: int, z0: int, radius: nat, d: real, n: nat)
    requires WindowOnGrid(radius, x0, z0)
    requires |w.land| == LandVertices && |w.overlay| == Width(radius) * Width(radius)
    ensures var r, cells := Passes(w, x0, z0, radius, d, n), Area(radius, x0, z0);
      && BasesWithin(cells, |r.land|) && OverlaysWithin(cells, |r.overlay|)
      && (forall k :: 0 <= k < |cells| ==> r.land[cells[k].Base()] == w.land[cells[k].Base()] + Times(n, d))
      && (forall m :: 0 <= m < |w.land| && m !in BaseIndices(cells) ==> r.land[m] == w.land[m])
      && r.items == FollowTerrain(w.items, x0, z0, radius, Times(n, d))
      && (n > 0 ==> forall k :: 0 <= k < |cells| ==> r.overlay[cells[k].Overlay()] == Num(r.land[cells[k].Base()]))
  {
    HeldStrokeLand(w, x0, z0, radius, d, n);
    HeldStrokeItems(w, x0, z0, radius, d, n);
  }

  /** The held-stroke effect read off at one vertex of the window (the k-th cell of getArea). */
  lemma HeldStrokeCell(w: World, x0: int, z0: int, radius: nat, d: real, n: nat, k: nat)
    requires WindowOnGrid(radius, x0, z0) && n > 0 && k < |Area(radius, x0, z0)|
    requires |w.land| == LandVertices && |w.overlay| == Width(radius) * Width(radius)
    ensures var r, c := Passes(w, x0, z0, radius, d, n), Area(radius, x0, z0)[k];
      && 0 <= c.Base() < |r.land| && 0 <= c.Overlay() < |r.overlay|
      && r.land[c.Base()] == w.land[c.Base()] + Times(n, d)
      && r.overlay[c.Overlay()] == Num(r.land[c.Base()])
  {
    HeldStroke(w, x0, z0, radius, d, n);
  }

  /** Five repeated steps of 0.02 add up to 0.10. */
  lemma FiveSteps()
    ensures Times(5, Step) == 0.10
  {
  }

  /** In the 7 x 7 window of radius 3, the cell under the cursor is the 25th of getArea's order. */
  lemma CentreOfSeven(x0: int, z0: int)
    ensures |Area(Radius, x0, z0)| == 49 && Area(Radius, x0, z0)[24] == IndexAt(Radius, x0, z0, 0, 0)
    ensures IndexAt(Radius, x0, z0, 0, 0).Overlay() == 24
  {
    AreaAt(Radius, x0, z0, 0, 0);
  }

  /**
    With radius 3, step 0.02 and UP, five passes at a fixed cell raise the cell under the
    cursor by 0.10, and the overlay's centre vertex (index 24) shows it.
   */
  lemma FivePassesRaiseByTenth(w: World, x0: int, z0: int)
    requires WindowOnGrid(Radius, x0, z0)
    requires |w.land| == LandVertices && |w.overlay| == Width(Radius) * Width(Radius)
    ensures var r, centre := Passes(w, x0, z0, Radius, Delta(Some(Up), Step), 5), IndexAt(Radius, x0, z0, 0, 0);
      && 0 <= centre.Base() < |r.land| && centre.Overlay() == 24 && |r.overlay| == 49
      && r.land[centre.Base()] == w.land[centre.Base()] + 0.10
      && r.overlay[24] == Num(r.land[centre.Base()])
  {
    CentreOfSeven(x0, z0);
    HeldStrokeCell(w, x0, z0, Radius, Step, 5, 24);
    FiveSteps();
  }

  // ---------------------------------------------------------------------------------------
  // Arming the brush

  /** The abstract brush mode: is there an overlay, and which direction is armed. */
  datatype Mode = Mode(hasOverlay: bool, direction: Option<Direction>)

  /** The overlay exists exactly while a direction is armed. */
  predicate Consistent(m: Mode)
  {
    m.hasOverlay <==> m.direction.Some?
  }

  /** onActivateUp / onActivateDown: the same direction twice disarms, anything else arms. */
  function Activated(m: Mode, d: Direction): (r: Mode)
    ensures Consistent(r)
    ensures r.hasOverlay <==> !(m.hasOverlay && m.direction == Some(d))
    ensures r.hasOverlay ==> r.direction == Some(d)
  {
    if m.hasOverlay && m.direction == Some(d) then Mode(false, None) else Mode(true, Some(d))
  }

  /** Pressing the same button twice from the disarmed state disarms again. */
  lemma ActivateTwiceDisarms(d: Direction)
    ensures Activated(Activated(Mode(false, None), d), d) == Mode(false, None)
  {
  }

  /** Switching UP to DOWN (or back) keeps the overlay and changes only the direction. */
  lemma SwitchKeepsOverlay(m: Mode, d: Direction)
    requires m.hasOverlay && m.direction.Some? && m.direction != Some(d)
    ensures Activated(m, d) == m.(direction := Some(d))
  {
  }

  // ---------------------------------------------------------------------------------------
  // The hook's state

  /** A brush cell (the overlay mesh's x and z). */
  datatype Cell = Cell(x: int, z: int)

  /** The grid cell under a picked world point: floor(p / gridSize) on x and z. */
  function BrushCell(p: Point): (r: Cell)
    ensures r.x as real <= p.x < r.x as real + 1.0
    ensures r.z as real <= p.z < r.z as real + 1.0
  {
    Cell((p.x / GridSize).Floor, (p.z / GridSize).Floor)
  }

  /** A running interval: the cell of the move that started it and the overlay buffer it captured. */
  datatype Repeat = Repeat(cell: Cell, buffer: array<Sample>)

  class WorldEditor {
    /** The land mesh's position buffer (z components). */
    const land: array<real>
    /** objectsRef, shared with the drag controller. */
    const objects: ObjectList
    const radius: nat
    /** landEditCoefficient */
    const step: real

    /** wordEditorRadius: the overlay's position buffer, or null. */
    var overlay: array?<Sample>
    /** wordEditorRadius.position (x, z). */
    var overlayCell: Cell
    /** wordEditorVector */
    var direction: Option<Direction>
    /** isWordEditorActive: the stroke button is held. */
    var stroking: bool
    /** intervalRef: the repeating edit, if one runs. */
    var pending: Option<Repeat>

    function OverlaySize(): nat
    {
      Width(radius) * Width(radius)
    }

    ghost predicate Valid()
      reads this
    {
      && land.Length == LandVertices
      && Consistent(CurrentMode())
      && (overlay != null ==> overlay.Length == OverlaySize())
      && (pending.Some? ==> pending.value.buffer.Length == OverlaySize() && stroking)
    }

    function CurrentMode(): Mode
      reads this
    {
      Mode(overlay != null, direction)
    }

    /** The arrays and the object list the brush may write. */
    function Writable(): set<object>
      reads this
    {
      {land, objects}
        + (if overlay != null then {overlay} else {})
        + (if pending.Some? then {pending.value.buffer} else {})
    }

    constructor (land: array<real>, objects: ObjectList, radius: nat, step: real)
      requires land.Length == LandVertices
      ensures Valid()
      ensures this.land == land && this.objects == objects && this.radius == radius && this.step == step
      ensures overlay == null && direction == None && !stroking && pending == None
    {
      this.land := land;
      this.objects := objects;
      this.radius := radius;
      this.step := step;
      overlay := null;
      overlayCell := Cell(0, 0);
      direction := None;
      stroking := false;
      pending := None;
    }

    /** The `edit` closure: one pass at `cell`, writing the overlay buffer it captured. */
    method Edit(cell: Cell, buffer: array<Sample>)
      requires Valid() && buffer.Length == OverlaySize()
      modifies land, buffer, objects
      ensures old(overlay) == null ==>
        land[..] == old(land[..]) && buffer[..] == old(buffer[..]) && objects.items == old(objects.items)
      ensures old(overlay) != null ==>
        World(land[..], buffer[..], objects.items)
          == Pass(World(old(land[..]), old(buffer[..]), old(objects.items)), cell.x, cell.z, radius, stroking, Delta(direction, step))
    {
      if overlay == null {
        return;
      }
      var cells := GetArea(radius, cell.x, cell.z);
      var d := Delta(direction, step);
      ghost var start := Buffers(land[..], buffer[..]);
      for k := 0 to |cells|
        invariant land[..] == EditArea(start, cells[..k], stroking, d).land
        invariant buffer[..] == EditArea(start, cells[..k], stroking, d).overlay
        invariant objects.items == old(objects.items)
      {
        assert cells[..k + 1][..k] == cells[..k];
        EditVertex(cells[k], buffer, d);
      }
      assert cells[..|cells|] == cells;
      if stroking {
        FollowObjects(cell, d);
      }
    }

    /** The getArea callback of `edit` for one call: read, maybe write back, mirror into the overlay. */
    method EditVertex(c: AreaIndex, buffer: array<Sample>, d: real)
      modifies land, buffer
      ensures Buffers(land[..], buffer[..]) == EditCell(Buffers(old(land[..]), old(buffer[..])), c, stroking, d)
    {
      var n, o := c.Base(), c.Overlay();
      var y := if 0 <= n < land.Length then Num(land[n]) else NaN;
      var y0 := if stroking then Raise(y, d) else y;
      if stroking && 0 <= n < land.Length {
        land[n] := land[n] + d;
      }
      // Overlay indices always lie in the buffer (AreaOverlays); a typed array would drop the write otherwise.
      if 0 <= o < buffer.Length {
        buffer[o] := y0;
      }
    }

    /** The objectsRef.current.map step of a stroking pass: lift what lies inside the window. */
    method FollowObjects(cell: Cell, d: real)
      modifies objects
      ensures objects.items == FollowTerrain(old(objects.items), cell.x, cell.z, radius, d)
    {
      var items := objects.items;
      var k := 0;
      while k < |items|
        invariant 0 <= k <= |items| && |objects.items| == |items|
        invariant forall m :: 0 <= m < k ==> objects.items[m] == Follow(items[m], cell.x, cell.z, radius, d)
        invariant forall m :: k <= m < |items| ==> objects.items[m] == items[m]
      {
        var o := objects.items[k];
        if InsideWindow(o, cell.x, cell.z, radius) {
          objects.items := objects.items[k := o.(pose := o.pose.(y := o.pose.y + d))];
        }
        k := k + 1;
      }
      assert objects.items == FollowTerrain(items, cell.x, cell.z, radius, d);
    }

    /**
      One firing of the interval; while one runs the stroke flag is set, so it always strokes.
      It writes the land, the objects and the buffer the interval captured, and nothing else.
     */
    method Tick()
      requires Valid()
      modifies land, objects, if pending.Some? then {pending.value.buffer} else {}
      ensures Valid()
      ensures pending.None? || overlay == null ==>
        && land[..] == old(land[..]) && objects.items == old(objects.items)
        && (pending.Some? ==> pending.value.buffer[..] == old(pending.value.buffer[..]))
      ensures pending.Some? && overlay != null ==>
        World(land[..], pending.value.buffer[..], objects.items)
          == Pass(World(old(land[..]), old(pending.value.buffer[..]), old(objects.items)),
                  pending.value.cell.x, pending.value.cell.z, radius, true, Delta(direction, step))
    {
      if pending.Some? {
        Edit(pending.value.cell, pending.value.buffer);
      }
    }

    /**
      n firings of the interval while the cursor stays still: n stroking passes at the
      captured cell into the captured buffer (see HeldStroke for what they do to the land).
     */
    method HoldStill(n: nat)
      requires Valid()
      modifies land, objects, if pending.Some? then {pending.value.buffer} else {}
      ensures Valid()
      ensures pending.None? || overlay == null ==>
        && land[..] == old(land[..]) && objects.items == old(objects.items)
        && (pending.Some? ==> pending.value.buffer[..] == old(pending.value.buffer[..]))
      ensures pending.Some? && overlay != null ==>
        World(land[..], pending.value.buffer[..], objects.items)
          == Passes(World(old(land[..]), old(pending.value.buffer[..]), old(objects.items)),
                    pending.value.cell.x, pending.value.cell.z, radius, Delta(direction, step), n)
    {
      ghost var start := World(land[..], if pending.Some? then pending.value.buffer[..] else [], objects.items);
      for k := 0 to n
        invariant Valid()
        invariant pending.None? || overlay == null ==>
          && land[..] == old(land[..]) && objects.items == old(objects.items)
          && (pending.Some? ==> pending.value.buffer[..] == old(pending.value.buffer[..]))
        invariant pending.Some? && overlay != null ==>
          World(land[..], pending.value.buffer[..], objects.items)
            == Passes(start, pending.value.cell.x, pending.value.cell.z, radius, Delta(direction, step), k)
      {
        Tick();
      }
    }

    /** mousemove: pick the land, move the overlay to the cell, run one pass, restart the repeat. */
    method MouseMove(hit: Option<Point>)
      requires Valid()
      modifies this, land, objects, if overlay != null then {overlay} else {}
      ensures Valid()
      ensures old(overlay) == null || hit.None? ==>
        && overlay == old(overlay) && overlayCell == old(overlayCell) && direction == old(direction)
        && stroking == old(stroking) && pending == old(pending)
        && land[..] == old(land[..]) && objects.items == old(objects.items)
        && (overlay != null ==> overlay[..] == old(overlay[..]))
      ensures old(overlay) != null && hit.Some? ==>
        && overlay == old(overlay) && direction == old(direction) && stroking == old(stroking)
        && overlayCell == BrushCell(hit.value)
        && pending == (if stroking then Some(Repeat(BrushCell(hit.value), overlay)) else None)
        && World(land[..], overlay[..], objects.items)
             == Pass(World(old(land[..]), old(overlay[..]), old(objects.items)),
                     overlayCell.x, overlayCell.z, radius, stroking, Delta(direction, step))
    {
      if overlay == null {
        return;
      }
      if hit.None? {
        return;
      }
      var cell := BrushCell(hit.value);
      overlayCell := cell;
      var buffer := overlay;
      Edit(cell, buffer);
      pending := None;
      if stroking {
        pending := Some(Repeat(cell, buffer));
      }
    }

    /** mouseup: release the stroke button and cancel the repeat. */
    method MouseUp()
      requires Valid()
      modifies this
      ensures Valid()
      ensures !stroking && pending == None
      ensures overlay == old(overlay) && overlayCell == old(overlayCell) && direction == old(direction)
    {
      stroking := false;
      pending := None;
    }

    /** mousedown: press the stroke button, only while the brush is armed. */
    method MouseDown()
      requires Valid()
      modifies this
      ensures Valid()
      ensures stroking == (old(overlay) != null || old(stroking))
      ensures overlay == old(overlay) && overlayCell == old(overlayCell) && direction == old(direction)
      ensures pending == old(pending)
    {
      if overlay == null {
        return;
      }
      stroking := true;
    }

    /**
      onActivateUp (d = Up) and onActivateDown (d = Down); arming without an overlay runs
      createWorldEditor, which makes a flat (2 * radius + 1)² plane at the origin.
     */
    method Activate(d: Direction)
      requires Valid()
      modifies this
      ensures Valid()
      ensures CurrentMode() == Activated(old(CurrentMode()), d)
      ensures old(overlay) != null && overlay != null ==> overlay == old(overlay) && overlayCell == old(overlayCell)
      ensures old(overlay) == null && overlay != null ==>
        fresh(overlay) && overlayCell == Cell(0, 0) && forall k :: 0 <= k < overlay.Length ==> overlay[k] == Num(0.0)
      ensures stroking == old(stroking) && pending == old(pending)
    {
      if overlay != null && direction == Some(d) {
        overlay := null;
        direction := None;
        return;
      }
      direction := Some(d);
      if overlay == null {
        overlay := new Sample[OverlaySize()](_ => Num(0.0));
        overlayCell := Cell(0, 0);
      }
    }
  }

  /**
    A repeat outlives the overlay it was started for: pressing on the land, moving and
    releasing off the canvas leaves the interval running; disarming makes its ticks no-ops, but
    once the brush is armed again they edit the land at the old cell through the old,
    detached overlay buffer, and the overlay now shown never reflects them.
   */
  method OrphanedRepeatScenario(land: array<real>, hit: Point) returns (e: WorldEditor, first: array<Sample>)
    requires land.Length == LandVertices
    modifies land
    ensures e.land == land && e.direction == Some(Up) && e.stroking
    ensures e.overlay != null && e.overlay != first
    ensures e.pending == Some(Repeat(BrushCell(hit), first))
  {
    var objects := new ObjectList([]);
    e := new WorldEditor(land, objects, Radius, Step);
    e.Activate(Up);
    e.MouseDown();
    first := e.overlay;
    e.MouseMove(Some(hit));
    assert e.pending == Some(Repeat(BrushCell(hit), first));
    e.Activate(Up);
    assert e.overlay == null && e.direction == None && e.stroking && e.pending.Some?;
    ghost var before := land[..];
    e.Tick();
    assert land[..] == before;
    e.Activate(Up);
    var current := e.overlay;
    ghost var shown := current[..];
    e.Tick();
    assert current[..] == shown;
  }
}
