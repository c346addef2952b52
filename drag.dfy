/**
  The drag controller (useDrag): picking an object resolves its drag target, a wireframe
  highlight marks the held target, and moving the pointer over the land snaps the target
  to the centre of a grid cell or turns it about the vertical axis.
 */
module Drag {
  import opened Wrappers
  import opened Config
  import opened Objects

  /** setValues({ wireframe }) on a node that may carry a material. */
  function SetWire(m: Material, flag: bool): Material
  {
    if m.Material? then Material(flag) else m
  }

  /**
    The highlight part of getDraggableTarget on a resolved target: every material-bearing
    part of a group, or the object's own material, gets `wireframe = flag`.
   */
  function Highlight(o: SceneObject, flag: bool): (r: SceneObject)
    ensures r.pose == o.pose && r.startY == o.startY
    ensures r.shape.Group? == o.shape.Group?
    ensures r.shape.Group? ==>
      && |r.shape.children| == |o.shape.children|
      && forall k :: 0 <= k < |r.shape.children| ==>
           && r.shape.children[k].Material? == o.shape.children[k].Material?
           && (r.shape.children[k].Material? ==> r.shape.children[k].wireframe == flag)
    ensures r.shape.Mesh? ==>
      && r.shape.material.Material? == o.shape.material.Material?
      && (r.shape.material.Material? ==> r.shape.material.wireframe == flag)
  {
    match o.shape
    case Group(children) => o.(shape := Group(seq(|children|, k requires 0 <= k < |children| => SetWire(children[k], flag))))
    case Mesh(m) => o.(shape := Mesh(SetWire(m, flag)))
  }

  /** No material of the object is drawn as wireframe: the look of a freshly placed object. */
  predicate Plain(o: SceneObject)
  {
    match o.shape
    case Group(children) => forall k :: 0 <= k < |children| ==> children[k] != Material(true)
    case Mesh(m) => m != Material(true)
  }

  /** Only the last highlight matters: setting the flag twice is setting it once. */
  lemma HighlightLastWins(o: SceneObject, a: bool, b: bool)
    ensures Highlight(Highlight(o, a), b) == Highlight(o, b)
  {
  }

  /** Picking and then dropping a plain object gives it back exactly as it was. */
  lemma HighlightRoundTrip(o: SceneObject)
    requires Plain(o)
    ensures Highlight(Highlight(o, true), false) == o
  {
  }

  /**
    Math.floor(p / gridSize) + gridSize / 2: the centre of the grid cell holding p.
    With gridSize = 1 the result sits half a unit above an integer, within half a unit of p.
   */
  function Snap(p: real): (r: real)
    ensures (r - 0.5).Floor as real == r - 0.5
    ensures r.Floor == p.Floor
    ensures p - 0.5 < r <= p + 0.5
  {
    (p / GridSize).Floor as real + GridSize / 2.0
  }

  /** A snapped coordinate is already a cell centre: snapping it again changes nothing. */
  lemma SnapIdempotent(p: real)
    ensures Snap(Snap(p)) == Snap(p)
  {
  }

  /** The translate branch of mousemove: x and z snap to the cell centre, y follows the land. */
  function Translated(o: SceneObject, p: Point): (r: SceneObject)
    ensures r.shape == o.shape && r.startY == o.startY && r.pose.rotationY == o.pose.rotationY
    ensures (r.pose.x - 0.5).Floor as real == r.pose.x - 0.5 && (r.pose.z - 0.5).Floor as real == r.pose.z - 0.5
    ensures r.pose.x - 0.5 <= p.x < r.pose.x + 0.5 && r.pose.z - 0.5 <= p.z < r.pose.z + 0.5
    ensures r.pose.y - o.startY == p.y
  {
    o.(pose := Pose(Snap(p.x), o.startY + p.y, Snap(p.z), o.pose.rotationY))
  }

  /** Dropping the target again where it already sits (on the same land point) moves nothing. */
  lemma TranslateIdempotent(o: SceneObject, p: Point)
    ensures Translated(Translated(o, p), p) == Translated(o, p)
  {
  }

  /** Two points in the same grid cell at the same height put the target in the same place. */
  lemma TranslateSameCell(o: SceneObject, p: Point, q: Point)
    requires p.x.Floor == q.x.Floor && p.z.Floor == q.z.Floor && p.y == q.y
    ensures Translated(o, p) == Translated(o, q)
  {
  }

  class DragController {
    /** objectsRef: the placed objects a mousedown picks from. */
    const objects: ObjectList
    /** draggableRef: the index of the held target, if any. */
    var dragged: Option<nat>
    /** isRotationActive: ShiftLeft is held. */
    var rotationActive: bool

    ghost predicate Valid()
      reads this, objects
    {
      dragged.Some? ==> dragged.value < |objects.items|
    }

    constructor (objects: ObjectList)
      ensures Valid()
      ensures this.objects == objects && dragged == None && !rotationActive
    {
      this.objects := objects;
      dragged := None;
      rotationActive := false;
    }

    /**
      getDraggableTarget: a part of a group resolves to the group (its parent), anything
      else to itself; the resolved target is then highlighted with `flag`, part by part
      for a group.
     */
    method GetDraggableTarget(node: NodeRef, flag: bool) returns (target: nat)
      requires ValidNode(objects.items, node)
      modifies objects
      ensures target == node.index && target < |objects.items|
      ensures node.Child? ==> objects.items[target].shape.Group?
      ensures objects.items == old(objects.items)[target := Highlight(old(objects.items)[target], flag)]
    {
      target := node.index;
      var o := objects.items[target];
      match o.shape {
        case Group(children) =>
          var parts := children;
          var k := 0;
          while k < |children|
            invariant 0 <= k <= |children| && |parts| == |children|
            invariant forall m :: 0 <= m < k ==> parts[m] == SetWire(children[m], flag)
            invariant forall m :: k <= m < |children| ==> parts[m] == children[m]
          {
            parts := parts[k := SetWire(parts[k], flag)];
            k := k + 1;
          }
          assert Highlight(o, flag).shape.children == parts;
          objects.items := objects.items[target := o.(shape := Group(parts))];
        case Mesh(m) =>
          objects.items := objects.items[target := o.(shape := Mesh(SetWire(m, flag)))];
      }
    }

    /** mouseup: drop the held target, clearing its highlight; without one, nothing happens. */
    method MouseUp()
      requires Valid()
      modifies this, objects
      ensures Valid()
      ensures dragged == None && rotationActive == old(rotationActive)
      ensures old(dragged).None? ==> objects.items == old(objects.items)
      ensures old(dragged).Some? ==>
        objects.items == old(objects.items)[old(dragged).value := Highlight(old(objects.items)[old(dragged).value], false)]
    {
      if dragged.Some? {
        var _ := GetDraggableTarget(Whole(dragged.value), false);
        dragged := None;
      }
    }

    /**
      mousedown with the pick against objectsRef: on a hit the resolved target is highlighted,
      the callback runs once and the target is held; on a miss nothing happens.
     */
    method MouseDown(hit: Option<NodeRef>) returns (callbackRan: bool)
      requires Valid()
      requires hit.Some? ==> ValidNode(objects.items, hit.value)
      modifies this, objects
      ensures Valid()
      ensures callbackRan == hit.Some? && rotationActive == old(rotationActive)
      ensures hit.None? ==> dragged == old(dragged) && objects.items == old(objects.items)
      ensures hit.Some? ==>
        && dragged == Some(hit.value.index)
        && objects.items == old(objects.items)[hit.value.index := Highlight(old(objects.items)[hit.value.index], true)]
    {
      callbackRan := false;
      if hit.None? {
        return;
      }
      var target := GetDraggableTarget(hit.value, true);
      callbackRan := true;
      dragged := Some(target);
    }

    /**
      mousemove with the pick against the land: with a held target and a hit, rotation mode
      writes only the yaw (`yaw`, computed from the hit by the caller) and translate mode
      snaps x/z and sets y = startY + hit height.
     */
    method MouseMove(landHit: Option<Point>, yaw: real)
      requires Valid()
      modifies objects
      ensures Valid()
      ensures dragged.None? || landHit.None? ==> objects.items == old(objects.items)
      ensures dragged.Some? && landHit.Some? && rotationActive ==>
        var o := old(objects.items)[dragged.value];
        objects.items == old(objects.items)[dragged.value := o.(pose := o.pose.(rotationY := yaw))]
      ensures dragged.Some? && landHit.Some? && !rotationActive ==>
        objects.items == old(objects.items)[dragged.value := Translated(old(objects.items)[dragged.value], landHit.value)]
    {
      if dragged.None? || landHit.None? {
        return;
      }
      var t := dragged.value;
      var o := objects.items[t];
      if rotationActive {
        objects.items := objects.items[t := o.(pose := o.pose.(rotationY := yaw))];
      } else {
        var p := landHit.value;
        var pose := o.pose.(x := Snap(p.x), z := Snap(p.z));
        pose := pose.(y := o.startY + p.y);
        objects.items := objects.items[t := o.(pose := pose)];
      }
    }

    /** keydown: ShiftLeft turns rotation mode on; other keys do nothing. */
    method KeyDown(code: string)
      modifies this
      ensures rotationActive == (code == "ShiftLeft" || old(rotationActive))
      ensures dragged == old(dragged)
    {
      if code == "ShiftLeft" {
        rotationActive := true;
      }
    }

    /** keyup: releasing ShiftLeft turns rotation mode off; other keys do nothing. */
    method KeyUp(code: string)
      modifies this
      ensures rotationActive == (code != "ShiftLeft" && old(rotationActive))
      ensures dragged == old(dragged)
    {
      if code == "ShiftLeft" {
        rotationActive := false;
      }
    }
  }
}
