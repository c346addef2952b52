/**
  The placed objects the editor picks, drags and lifts with the terrain, and the list
  (`objectsRef`) that the drag controller and the terrain brush share.
 */
module Objects {
  /** A world point, as the pick oracle returns it. */
  datatype Point = Point(x: real, y: real, z: real)

  /** Position and yaw of an object (position.x/y/z and rotation.y). */
  datatype Pose = Pose(x: real, y: real, z: real, rotationY: real)

  /** What `"material" in node` finds: no material, or one with its wireframe flag. */
  datatype Material = NoMaterial | Material(wireframe: bool)

  /**
    A top-level object is either a Group of parts (only the parts' materials matter
    here) or a single mesh with its own material.
   */
  datatype Shape = Group(children: seq<Material>) | Mesh(material: Material)

  /** An entry of objectsRef; startY is the userData.startY recorded when it was placed. */
  datatype SceneObject = SceneObject(shape: Shape, pose: Pose, startY: real)

  /**
    The node a pick against objectsRef hit: a top-level object, or part `child` of the
    group at `index` (its parent is then that group).
   */
  datatype NodeRef = Whole(index: nat) | Child(index: nat, child: nat)

  /** The node exists in the list, and a Child is a part of a group. */
  predicate ValidNode(items: seq<SceneObject>, node: NodeRef)
  {
    && node.index < |items|
    && (node.Child? ==> items[node.index].shape.Group? && node.child < |items[node.index].shape.children|)
  }

  /** The shared, growable list of placed objects (objectsRef). */
  class ObjectList {
    var items: seq<SceneObject>

    constructor (items: seq<SceneObject>)
      ensures this.items == items
    {
      this.items := items;
    }
  }

  /** The cube renderCube places: a green mesh at (1/2, 1/2, 1/2) with startY = 1/2. */
  const Cube: SceneObject := SceneObject(Mesh(Material(false)), Pose(0.5, 0.5, 0.5, 0.0), 0.5)
}
