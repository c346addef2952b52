/**
  The pointer-event router of the Scene component: every canvas mouse event goes to the
  drag controller or to the terrain brush depending on isDragActive and wordEditorVector,
  and the camera controls are switched off while a drag or a stroke is under way.
 */
module Scene {
  import opened Wrappers
  import opened Config
  import opened Objects
  import opened WorldEdit
  import opened Drag

  /** Which of the two handler sets one event reached. */
  datatype Routed = Routed(drag: bool, edit: bool)

  /**
    The guard every handler of the router shares: drag handlers run while drag is enabled
    and no brush direction is chosen, brush handlers whenever one is.
   */
  function Route(isDragActive: bool, direction: Option<Direction>): (r: Routed)
    ensures !(r.drag && r.edit)
    ensures r.drag ==> isDragActive
    ensures r.edit || r.drag || !isDragActive
    ensures r.edit <==> direction.Some?
  {
    Routed(isDragActive && direction.None?, direction.Some?)
  }

  class SceneEditor {
    /** The useDrag handlers and their refs. */
    const drag: DragController
    /** The useWorldEdit handlers and their refs. */
    const edit: WorldEditor
    /** isDragActive, flipped by the "off drag" button. */
    var isDragActive: bool
    /** cameraControlRef.current.enabled */
    var cameraEnabled: bool

    ghost predicate Valid()
      reads this, drag, drag.objects, edit
    {
      && drag.objects == edit.objects
      && drag.Valid()
      && edit.Valid()
    }

    /** The Scene as it mounts: both hooks over one object list, drag on, camera on. */
    constructor (land: array<real>, objects: ObjectList)
      requires land.Length == LandVertices
      ensures Valid() && fresh(drag) && fresh(edit)
      ensures isDragActive && cameraEnabled
      ensures drag.objects == objects && drag.dragged == None && !drag.rotationActive
      ensures edit.land == land && edit.objects == objects && edit.radius == Radius && edit.step == Step
      ensures edit.overlay == null && edit.direction == None && !edit.stroking && edit.pending == None
    {
      drag := new DragController(objects);
      edit := new WorldEditor(land, objects, Radius, Step);
      isDragActive := true;
      cameraEnabled := true;
    }

    /** mousemove: onDrag and/or onWorldEdit, both with the same pick against the land. */
    method MouseMove(landHit: Option<Point>, yaw: real) returns (r: Routed)
      requires Valid()
      modifies edit, edit.land, drag.objects, if edit.overlay != null then {edit.overlay} else {}
      ensures Valid()
      ensures r == Route(old(isDragActive), old(edit.direction))
      ensures isDragActive == old(isDragActive) && cameraEnabled == old(cameraEnabled)
      ensures drag.dragged == old(drag.dragged) && drag.rotationActive == old(drag.rotationActive)
      ensures edit.overlay == old(edit.overlay) && edit.direction == old(edit.direction)
      ensures edit.stroking == old(edit.stroking)
      ensures !r.edit ==>
        && edit.land[..] == old(edit.land[..]) && edit.overlayCell == old(edit.overlayCell)
        && edit.pending == old(edit.pending)
      ensures !r.drag && !r.edit ==> drag.objects.items == old(drag.objects.items)
      ensures r.drag && drag.dragged.Some? && landHit.Some? && !drag.rotationActive ==>
        drag.objects.items == old(drag.objects.items)[drag.dragged.value := Translated(old(drag.objects.items)[drag.dragged.value], landHit.value)]
      ensures r.edit && landHit.Some? ==>
        && edit.overlayCell == BrushCell(landHit.value)
        && edit.pending == (if edit.stroking then Some(Repeat(BrushCell(landHit.value), edit.overlay)) else None)
    {
      r := Route(isDragActive, edit.direction);
      if r.drag {
        drag.MouseMove(landHit, yaw);
      }
      if r.edit {
        edit.MouseMove(landHit);
      }
    }

    /** mouseup: onDragDeselect or stopWorldEdit, then the camera is always switched back on. */
    method MouseUp() returns (r: Routed)
      requires Valid()
      modifies this, drag, drag.objects, edit
      ensures Valid()
      ensures r == Route(old(isDragActive), old(edit.direction))
      ensures cameraEnabled && isDragActive == old(isDragActive)
      ensures drag.rotationActive == old(drag.rotationActive)
      ensures edit.overlay == old(edit.overlay) && edit.direction == old(edit.direction)
      ensures edit.overlayCell == old(edit.overlayCell)
      ensures r.drag ==> drag.dragged == None
      ensures r.drag && old(drag.dragged).None? ==> drag.objects.items == old(drag.objects.items)
      ensures r.drag && old(drag.dragged).Some? ==>
        var t := old(drag.dragged).value;
        drag.objects.items == old(drag.objects.items)[t := Highlight(old(drag.objects.items)[t], false)]
      ensures !r.drag ==> drag.dragged == old(drag.dragged) && drag.objects.items == old(drag.objects.items)
      ensures r.edit ==> !edit.stroking && edit.pending == None
      ensures !r.edit ==> edit.stroking == old(edit.stroking) && edit.pending == old(edit.pending)
    {
      r := Route(isDragActive, edit.direction);
      if r.drag {
        drag.MouseUp();
      }
      if r.edit {
        edit.MouseUp();
      }
      cameraEnabled := true;
    }

    /**
      mousedown: onDragSelect with a callback that switches the camera off, or, with a brush
      direction chosen, the camera goes off and startWorldEdit presses the stroke button.
     */
    method MouseDown(objectHit: Option<NodeRef>) returns (r: Routed)
      requires Valid()
      requires objectHit.Some? ==> ValidNode(drag.objects.items, objectHit.value)
      modifies this, drag, drag.objects, edit
      ensures Valid()
      ensures r == Route(old(isDragActive), old(edit.direction))
      ensures isDragActive == old(isDragActive) && drag.rotationActive == old(drag.rotationActive)
      ensures cameraEnabled == (if r.edit || (r.drag && objectHit.Some?) then false else old(cameraEnabled))
      ensures edit.overlay == old(edit.overlay) && edit.direction == old(edit.direction)
      ensures edit.overlayCell == old(edit.overlayCell) && edit.pending == old(edit.pending)
      ensures edit.stroking == (r.edit || old(edit.stroking))
      ensures !r.drag || objectHit.None? ==>
        drag.dragged == old(drag.dragged) && drag.objects.items == old(drag.objects.items)
      ensures r.drag && objectHit.Some? ==>
        && drag.dragged == Some(objectHit.value.index)
        && drag.objects.items == old(drag.objects.items)[objectHit.value.index := Highlight(old(drag.objects.items)[objectHit.value.index], true)]
    {
      r := Route(isDragActive, edit.direction);
      if r.drag {
        var callback := drag.MouseDown(objectHit);
        if callback {
          cameraEnabled := false;
        }
      }
      if r.edit {
        cameraEnabled := false;
        edit.MouseDown();
      }
    }

    /** The "off drag" button. */
    method ToggleDrag()
      modifies this
      ensures isDragActive == !old(isDragActive) && cameraEnabled == old(cameraEnabled)
    {
      isDragActive := !isDragActive;
    }
  }

  /** Pressing "off drag" twice gives back the original setting. */
  method ToggleDragTwice(s: SceneEditor)
    modifies s
    ensures s.isDragActive == old(s.isDragActive)
  {
    s.ToggleDrag();
    s.ToggleDrag();
  }

  /**
    Picking the placed cube and dropping it on the land point (2.3, 0.25, -1.7): it is held
    and highlighted, lands on the centre of cell (2, -2) at startY + 0.25, and is released
    plain again.
   */
  method DragCubeScenario(land: array<real>) returns (dropped: SceneObject, cameraBackOn: bool)
    requires land.Length == LandVertices
    modifies land
    ensures dropped == Cube.(pose := Pose(2.5, 0.75, -1.5, 0.0)) && cameraBackOn
  {
    var objects := new ObjectList([Cube]);
    var s := new SceneEditor(land, objects);
    var down := s.MouseDown(Some(Whole(0)));
    assert down == Routed(true, false) && !s.cameraEnabled;
    assert s.drag.dragged == Some(0);
    assert objects.items[0].shape == Mesh(Material(true));
    var moved := s.MouseMove(Some(Point(2.3, 0.25, -1.7)), 0.0);
    assert moved.drag;
    assert objects.items[0].pose == Pose(2.5, 0.75, -1.5, 0.0);
    var up := s.MouseUp();
    assert s.drag.dragged == None;
    dropped, cameraBackOn := objects.items[0], s.cameraEnabled;
  }

  /**
    With the brush armed (Up), a mousedown starts a stroke instead of a drag and switches the
    camera off; mouseup ends the stroke and switches it back on; pressing Up again disarms.
   */
  method StrokeScenario(land: array<real>) returns (down: Routed, cameraDuringStroke: bool, cameraAfter: bool, armedAfter: bool)
    requires land.Length == LandVertices
    ensures down == Routed(false, true) && !cameraDuringStroke && cameraAfter && !armedAfter
  {
    var objects := new ObjectList([Cube]);
    var s := new SceneEditor(land, objects);
    s.edit.Activate(Up);
    assert s.edit.overlay != null && s.edit.direction == Some(Up);
    down := s.MouseDown(Some(Whole(0)));
    assert s.edit.stroking && s.drag.dragged == None;
    cameraDuringStroke := s.cameraEnabled;
    var up := s.MouseUp();
    assert !s.edit.stroking && s.edit.pending == None;
    cameraAfter := s.cameraEnabled;
    s.edit.Activate(Up);
    armedAfter := s.edit.overlay != null || s.edit.direction.Some?;
  }
}
