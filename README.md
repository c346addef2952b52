# wordEditor grid logic in Dafny

This project models the grid logic of the wordEditor Three.js scene editor. Three parts are covered:

- **Terrain brush.** It raises or lowers a 101 × 101 heightfield under the cursor.
- **Drag controller.** It picks placed objects, highlights them and snaps them to grid cells.
- **Pointer-event router.** It sends each canvas mouse event to one of the two, and switches the camera controls off and on.

Modules, one per source file, plus two shared ones:

| module | file | models |
|---|---|---|
| `Config` | config.dfy | the scene constants: gridColumn = gridRow = 100, gridSize = 1, 50 `positions`, radius 3, step 0.02, 101² land vertices |
| `GridIndex` | grid_index.dfy | `getArea` |
| `Objects` | objects.dfy | the placed objects and the shared `objectsRef` list (class `ObjectList`) |
| `WorldEdit` | world_edit.dfy | `useWorldEdit` |
| `Drag` | drag.dfy | `useDrag` |
| `Scene` | scene.dfy | the event router and the "off drag" button of `Scene` |
| `Wrappers` | wrappers.dfy | `Option` |

### GridIndex

`getArea` is a nested loop that hands one record of four indices to a callback for every pair (i, j) of the window.

- `GetArea` returns the sequence of those records, in call order.
- It is proved equal to the closed form `Area`.
- Lemmas state:
  - how many calls there are and in what order;
  - that overlay indices are in range and distinct;
  - that land indices are in range and distinct while the window lies on the land;
  - what the one-sided `Math.abs` does: z rows mirror, x spills into the neighbouring row.

### WorldEdit

`WorldEditor` is a class. Its fields are the hook's refs:

- the land position buffer, an `array<real>`;
- the overlay buffer, an `array?<Sample>`; `null` means no overlay;
- the direction;
- the stroke flag;
- the pending repeat.

The `setInterval` repeat is the `pending` field, which holds the cell and the overlay buffer captured by the move that started it. `Tick` fires it once.

One pass of the `edit` closure is specified by the function `Pass` on values. The lemmas about `Pass` and `Passes` state what a preview pass and a stroking pass do, and what n ticks at a fixed cell do.

### Drag

`DragController` holds:

- the index of the dragged object (`draggableRef`);
- the ShiftLeft rotation flag.

A pick hit is a `NodeRef`: a whole top-level object, or one part of a group.

### Scene

`SceneEditor` owns one brush and one drag controller over the same object list. Its mouse methods return which handlers ran.

The model follows the code as written:

- The land index keeps the absolute value on the z term only (`BaseRowMirror`, `BaseColumnSpill`).
- Disarming the brush does not stop a running repeat (`OrphanedRepeatScenario`).

The pick oracle is a parameter of the mouse methods:

- `Option<Point>` for a hit on the land;
- `Option<NodeRef>` for a hit among the placed objects.

The rotation angle is also a parameter.

## Model

| member | source | states |
|---|---|---|
| Config.ConstantValues | src/components/Scene/Scene.tsx:18-23 | gridSize is 1, `positions` has 50 entries, radius is 3 and the step is 0.02 |
| Config.LandVertexCount | src/components/Scene/hooks/useScene.ts:28 | the land plane of gridColumn × gridColumn segments has 101² = 10201 vertices |
| Objects.ObjectList.constructor | src/components/Scene/hooks/useDrag.ts:23 | the objectsRef list starts with exactly the objects it is given (the Scene hands one such list to both hooks) |
| GridIndex.IndexAt | src/components/Scene/hooks/useHelpers.ts:41-45 | the four indices of one call: both row terms are non-negative whole rows (multiples of gridColumn+1 and of 2·radius+1), and each sum index is its row term plus its column term |
| GridIndex.Area | src/components/Scene/hooks/useHelpers.ts:39-52 | the callback receives exactly (2·radius+1)² index records |
| GridIndex.GetArea | src/components/Scene/hooks/useHelpers.ts:39-52 | the nested loop makes exactly the calls of `Area`, in order, with i outer and j inner, each running from −radius to radius |
| GridIndex.AreaAt | src/components/Scene/hooks/useHelpers.ts:39-45 | the pair (i, j) of the window is call number (i+radius)·(2·radius+1) + (j+radius) |
| GridIndex.AreaPair | src/components/Scene/hooks/useHelpers.ts:39-45 | every call comes from a pair (i, j) with both coordinates in [−radius, radius] |
| GridIndex.OverlayAbsIsIdentity | src/components/Scene/hooks/useHelpers.ts:44 | over the loop range, the `Math.abs` in the overlay row term returns its argument unchanged |
| GridIndex.OverlayInRange | src/components/Scene/hooks/useHelpers.ts:44-45 | every overlay index lies in [0, (2·radius+1)²) |
| GridIndex.OverlayInjective | src/components/Scene/hooks/useHelpers.ts:44-45 | distinct pairs (i, j) get distinct overlay indices |
| GridIndex.AreaOverlayDistinct | src/components/Scene/hooks/useHelpers.ts:39-45 | two different calls of one getArea carry different overlay indices |
| GridIndex.AreaOverlays | src/components/Scene/hooks/useHelpers.ts:39-45 | all overlay indices of a getArea call lie inside the overlay buffer and are pairwise distinct |
| GridIndex.BaseInRange | src/components/Scene/hooks/useHelpers.ts:41-43 | when both land coordinates are in [0, gridColumn], the land index lies in [0, (gridColumn+1)²) |
| GridIndex.BaseInjective | src/components/Scene/hooks/useHelpers.ts:41-43 | under the same condition, distinct pairs (i, j) get distinct land indices |
| GridIndex.BaseRowMirror | src/components/Scene/hooks/useHelpers.ts:41-42 | land rows −k and +k address the same land row, because only the z term has an absolute value |
| GridIndex.BaseColumnSpill | src/components/Scene/hooks/useHelpers.ts:41-43 | the x term is not clamped: column gridColumn+1 is column 0 of the next row, and column −1 is the last column of the previous row |
| GridIndex.AreaBaseDistinct | src/components/Scene/hooks/useHelpers.ts:39-43 | while the whole window lies on the land, two different calls carry different land indices |
| GridIndex.AreaBases | src/components/Scene/hooks/useHelpers.ts:39-43 | while the whole window lies on the land, all land indices of a getArea call are inside the land buffer and pairwise distinct |
| WorldEdit.ReadZ | src/components/Scene/hooks/useWorldEdit.ts:100 | getZ returns the stored height for an index inside the land buffer and undefined (NaN once used) outside it |
| WorldEdit.Delta | src/components/Scene/hooks/useWorldEdit.ts:102-106 | the signed change is −step for DOWN and +step otherwise, a null direction included |
| WorldEdit.EditCell | src/components/Scene/hooks/useWorldEdit.ts:99-112 | one callback: when stroking, only the addressed land vertex changes, by exactly d; only the addressed overlay vertex changes, to the (possibly raised) land value; without stroking the land is untouched |
| WorldEdit.EditArea | src/components/Scene/hooks/useWorldEdit.ts:90-113 | running the callback over a sequence of calls never changes the size of either buffer |
| WorldEdit.PreviewKeepsLand | src/components/Scene/hooks/useWorldEdit.ts:100-110 | with the stroke flag clear, the callbacks never change the land |
| WorldEdit.PreviewMirrorsLand | src/components/Scene/hooks/useWorldEdit.ts:100-111 | with the stroke flag clear, each addressed overlay vertex ends up holding the land value at its paired land index (NaN off the land) |
| WorldEdit.StrokeMovesLand | src/components/Scene/hooks/useWorldEdit.ts:100-111 | with the stroke flag set and distinct in-range land indices, each addressed land vertex changes by exactly the signed step, its overlay vertex receives the new value, and every other land vertex is unchanged |
| WorldEdit.FollowTerrain | src/components/Scene/hooks/useWorldEdit.ts:126-143 | objects strictly inside the window get y shifted by the signed step; x, z, yaw, shape and startY never change; objects outside are untouched; no object is added or removed |
| WorldEdit.FollowTerrainAdds | src/components/Scene/hooks/useWorldEdit.ts:126-143 | two shifts of the same window add up, because shifting y never moves an object across the window's edge |
| WorldEdit.Pass | src/components/Scene/hooks/useWorldEdit.ts:88-147 | one `edit` run keeps the sizes of the land buffer, the overlay buffer and the object list |
| WorldEdit.Passes | src/components/Scene/hooks/useWorldEdit.ts:149-156 | n repeated stroking runs keep the sizes of the land buffer, the overlay buffer and the object list |
| WorldEdit.PreviewPass | src/components/Scene/hooks/useWorldEdit.ts:100-144 | a pass with the stroke flag clear leaves the land and all objects unchanged, and copies the land value into every addressed overlay vertex |
| WorldEdit.HeldStrokeItems | src/components/Scene/hooks/useWorldEdit.ts:126-156 | after n ticks at a fixed cell, the objects inside the window have moved by n times the signed step |
| WorldEdit.HeldStrokeLand | src/components/Scene/hooks/useWorldEdit.ts:88-156 | after n ticks at a fixed cell, with the window on the land, each addressed land vertex has moved by exactly n times the signed step, every other vertex is unchanged, and the overlay shows the new heights |
| WorldEdit.TimesIsProduct | src/components/Scene/hooks/useWorldEdit.ts:102-106 | the repeated step addition of n ticks equals n·step exactly; heights are real numbers, so there is no drift |
| WorldEdit.HeldStroke | src/components/Scene/hooks/useWorldEdit.ts:88-156 | n ticks at a fixed cell move the addressed land vertices and the objects inside the window by n·step, and change nothing else on the land |
| WorldEdit.HeldStrokeCell | src/components/Scene/hooks/useWorldEdit.ts:100-111 | after n > 0 ticks at a fixed cell, the k-th vertex of the window has risen by n·step on the land and the overlay at that vertex shows its new height |
| WorldEdit.CentreOfSeven | src/components/Scene/hooks/useHelpers.ts:39-45 | with radius 3 the window has 49 vertices and the one under the cursor is the 25th, at overlay index 24 |
| WorldEdit.FivePassesRaiseByTenth | src/components/Scene/hooks/useWorldEdit.ts:100-111 | with radius 3, step 0.02 and UP, five ticks raise the cell under the cursor by 0.10, and the overlay's centre vertex (index 24) shows the same height |
| WorldEdit.Activated | src/components/Scene/hooks/useWorldEdit.ts:192-230 | activating keeps "overlay present ⇔ direction chosen"; the same direction twice removes the overlay, and any other activation arms that direction |
| WorldEdit.ActivateTwiceDisarms | src/components/Scene/hooks/useWorldEdit.ts:192-209 | two presses of the same button from the inactive state leave no overlay and no direction |
| WorldEdit.SwitchKeepsOverlay | src/components/Scene/hooks/useWorldEdit.ts:211-229 | switching between UP and DOWN only changes the direction and keeps the existing overlay |
| WorldEdit.WorldEditor.constructor | src/components/Scene/hooks/useWorldEdit.ts:54-60 | the hook starts with no overlay, no direction, the stroke flag clear and no repeat |
| WorldEdit.WorldEditor.Edit | src/components/Scene/hooks/useWorldEdit.ts:88-147 | the `edit` closure, writing the buffers in place, produces exactly `Pass`; with no overlay it does nothing |
| WorldEdit.WorldEditor.EditVertex | src/components/Scene/hooks/useWorldEdit.ts:99-112 | one callback reads the land vertex, writes back h ± step when stroking, and writes the value into the overlay |
| WorldEdit.WorldEditor.FollowObjects | src/components/Scene/hooks/useWorldEdit.ts:126-143 | the in-place `map` over the objects produces exactly `FollowTerrain` |
| WorldEdit.WorldEditor.Tick | src/components/Scene/hooks/useWorldEdit.ts:149-156 | one firing of the repeat is a stroking pass at the captured cell into the captured buffer and writes nothing else (not the overlay now shown, if that is another buffer); with no repeat, or after the overlay is removed, it changes nothing |
| WorldEdit.WorldEditor.HoldStill | src/components/Scene/hooks/useWorldEdit.ts:149-156 | n firings of the repeat are exactly `Passes` for n, so `HeldStroke` applies to the object: each addressed vertex moves by n·step |
| WorldEdit.BrushCell | src/components/Scene/hooks/useWorldEdit.ts:79-80 | the brush cell is the unit cell holding the hit: floor of x and z at gridSize 1 |
| WorldEdit.WorldEditor.MouseMove | src/components/Scene/hooks/useWorldEdit.ts:70-157 | with no overlay or no hit nothing changes; otherwise the overlay moves to the cell (floor(x), floor(z)), one pass runs there, and a repeat is pending exactly when the stroke flag is set, targeting that cell |
| WorldEdit.WorldEditor.MouseUp | src/components/Scene/hooks/useWorldEdit.ts:158-164 | clears the stroke flag and cancels any repeat |
| WorldEdit.WorldEditor.MouseDown | src/components/Scene/hooks/useWorldEdit.ts:165-168 | sets the stroke flag only when an overlay exists |
| WorldEdit.OrphanedRepeatScenario | src/components/Scene/hooks/useWorldEdit.ts:151-230 | a repeat started by a stroke survives disarming (ticks are then no-ops) and, after re-arming, still targets the old cell and the old overlay buffer, while a new overlay is shown |
| WorldEdit.WorldEditor.Activate | src/components/Scene/hooks/useWorldEdit.ts:170-230 | onActivateUp/onActivateDown follow `Activated` and keep the object's invariant; a new overlay is a fresh flat buffer of (2·radius+1)² zeros at cell (0, 0); switching direction keeps the overlay |
| Drag.Highlight | src/components/Scene/hooks/useDrag.ts:46-59 | every material-bearing part of a group target, or the target's own material, gets wireframe = flag; position, yaw, startY and the set of parts do not change |
| Drag.HighlightLastWins | src/components/Scene/hooks/useDrag.ts:46-59 | highlighting twice is highlighting once with the last flag |
| Drag.HighlightRoundTrip | src/components/Scene/hooks/useDrag.ts:65-92 | picking and then dropping an object with no wireframe gives it back unchanged |
| Drag.Snap | src/components/Scene/hooks/useDrag.ts:114-119 | the snapped coordinate minus ½ is an integer, it lies in the same unit cell as the input, and it is within ½ of the input |
| Drag.SnapIdempotent | src/components/Scene/hooks/useDrag.ts:114-119 | snapping an already snapped coordinate returns it unchanged |
| Drag.Translated | src/components/Scene/hooks/useDrag.ts:113-121 | in translate mode x and z move to a cell centre (half above an integer) of the cell holding the hit, y becomes startY plus the hit height, and yaw, shape and startY are kept |
| Drag.TranslateIdempotent | src/components/Scene/hooks/useDrag.ts:113-121 | moving twice to the same land point is moving once |
| Drag.TranslateSameCell | src/components/Scene/hooks/useDrag.ts:113-121 | two hits in the same grid cell at the same height put the target in the same place |
| Drag.DragController.constructor | src/components/Scene/hooks/useDrag.ts:22-25 | no target is held and rotation mode is off |
| Drag.DragController.GetDraggableTarget | src/components/Scene/hooks/useDrag.ts:31-63 | a part of a group resolves to the group, anything else to itself; only that target's highlight changes |
| Drag.DragController.MouseUp | src/components/Scene/hooks/useDrag.ts:65-76 | with a target held, its highlight is cleared and it is released; with none, nothing changes |
| Drag.DragController.MouseDown | src/components/Scene/hooks/useDrag.ts:77-93 | with no hit, nothing changes and the callback does not run; with a hit, the resolved target is highlighted and held, and the callback runs once |
| Drag.DragController.MouseMove | src/components/Scene/hooks/useDrag.ts:94-126 | with no target or no land hit, nothing changes; rotation mode writes only the target's yaw; translate mode moves the target as `Translated` says; other objects are untouched |
| Drag.DragController.KeyDown | src/components/Scene/hooks/useDrag.ts:129-133 | ShiftLeft turns rotation mode on; any other key leaves it as it was |
| Drag.DragController.KeyUp | src/components/Scene/hooks/useDrag.ts:134-138 | releasing ShiftLeft turns rotation mode off; any other key leaves it as it was |
| Scene.Route | src/components/Scene/Scene.tsx:108-137 | drag handlers run only while drag is enabled and no direction is chosen, edit handlers exactly when a direction is chosen, and never both |
| Scene.SceneEditor.constructor | src/components/Scene/Scene.tsx:34-99 | both hooks share one object list; drag is on, the camera is on and the brush is disarmed |
| Scene.SceneEditor.MouseMove | src/components/Scene/Scene.tsx:108-115 | the event goes where `Route` says; a handler that does not run leaves its own state untouched; the camera flag and the modes are unchanged |
| Scene.SceneEditor.MouseUp | src/components/Scene/Scene.tsx:116-125 | the event goes where `Route` says, and the camera controls always end enabled |
| Scene.SceneEditor.MouseDown | src/components/Scene/Scene.tsx:126-137 | the camera is disabled in edit mode always, and in drag mode only on a pick hit; edit mode always starts a stroke |
| Scene.SceneEditor.ToggleDrag | src/components/Scene/Scene.tsx:341 | the "off drag" button flips isDragActive |
| Scene.ToggleDragTwice | src/components/Scene/Scene.tsx:341 | pressing the button twice restores the original isDragActive |
| Scene.DragCubeScenario | src/components/Scene/Scene.tsx:108-137 | picking the cube, moving over the land point (2.3, 0.25, −1.7) and releasing leaves the cube at (2.5, 0.75, −1.5), un-highlighted, with the camera back on |
| Scene.StrokeScenario | src/components/Scene/Scene.tsx:126-137 | with the brush armed, mousedown goes to the brush and turns the camera off, mouseup turns it back on, and pressing Up again disarms |

## Left out

- The Three.js raycast in `getObject` (useHelpers.ts:13-21) is a foreign library call. So is the conversion of the pointer position to normalised coordinates. Both are replaced by pick-oracle parameters: `Option<Point>` for the land and `Option<NodeRef>` for the placed objects. A hit among the objects is required to name an existing node.
- The rotation angle (`Math.asin` of the offset, useDrag.ts:104-111) is floating-point trigonometry. It is the `yaw` parameter of `MouseMove`, so its NaN for a zero offset is not modelled.
- Rendering is not modelled: `render()`, `needsUpdate`, `updateMatrix`, `computeBoundingBox`/`Sphere` and the animation loop.
- Scene, light, resize and camera-panning setup is not modelled (`useScene`, `useLight`, `useResizeObserver`, `useCamera`).
- Fullscreen, scrolling and the JSX layout are not modelled.
- The activate-up and activate-down buttons are `WorldEditor.Activate`.
- Asset loading (the GLTF loader and `renderGrass`) is asynchronous and not modelled. The object list changes only through the modelled operations. `renderCube` appears only as the constant `Cube`.
- `useRotation` is not part of this model, because its handlers are never registered.
- Timer semantics are not modelled:
  - the 16 ms period, and the interleaving of ticks with events;
  - the `clearInterval` on unmount (useWorldEdit.ts:62-68).

  A running interval is the `pending` field, and one firing is `Tick`.
- The camera controls are assumed always present. The `if (cameraControlRef.current)` null checks are not modelled.
- Heights and positions are real numbers, so IEEE rounding is not modelled. Real numbers make n·step exact.
- The scene graph is limited:
  - it holds top-level objects and the direct parts of groups;
  - a part's material is all that is kept of it;
  - deeper nesting, and hits on children of non-group objects, are not modelled.
- The overlay mesh is its vertex buffer and its cell. Its material, its rotation and its scene membership are not modelled.
- Scene.SceneEditor.MouseMove: its contract states the routing, the untouched side, and the new cell and repeat of the brush. The full effect of the handler that runs is that handler's own contract (`WorldEditor.MouseMove`, `DragController.MouseMove`); the router does not repeat it.
- Drag.DragController.GetDraggableTarget: materials are values owned by each object, so highlighting changes the target only. In the program, `clone()` shares one material between all copies (every grass instance is a clone of one mesh), so highlighting one copy shows the wireframe on all of them, and mouseup clears it on all of them. The model does not capture this aliasing of materials; the same holds for `DragController.MouseDown`/`MouseUp` and the router methods that call them.
- Drag.Snap: its contract states the cell-centre properties for gridSize = 1, the value the scene uses. It does not cover other grid sizes.
