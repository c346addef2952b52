/**
  The editor's module-level constants (src/components/Scene/Scene.tsx, lines 17-23).
 */
module Config {
  /** Number of land cells along x (and z: the land is square). */
  const GridColumn: int := 100
  const GridRow: int := 100
  /** Edge length of one grid cell: gridColumn / gridRow. */
  const GridSize: real := GridColumn as real / GridRow as real
  /** Length of the `positions` array: gridColumn / gridSize / 2. */
  const PositionsLength: real := GridColumn as real / GridSize / 2.0
  /** Brush radius, in cells. */
  const Radius: nat := 3
  /** Height change of one brush pass (landEditCoefficient). */
  const Step: real := 0.02

  /** Vertices of the land plane: (gridColumn + 1) per row, (gridColumn + 1) rows. */
  const LandVertices: nat := (GridColumn + 1) * (GridColumn + 1)

  lemma ConstantValues()
    ensures GridSize == 1.0
    ensures PositionsLength == 50.0
    ensures Radius == 3 && Step == 0.02
  {
  }

  /** The land is PlaneGeometry(gridColumn, gridColumn, gridColumn, gridColumn): 101 × 101 vertices. */
  lemma LandVertexCount()
    ensures LandVertices == 10201
  {
  }
}
