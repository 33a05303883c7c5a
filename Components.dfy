/** Plain component records of the flow-field showcase and the two small
    vector types of Unity.Mathematics that the core uses. */
module Components {

  /** An unsigned 8-bit value used as a number (terrain cost, agent count). */
  type Byte = b: int | 0 <= b < 256

  /** Integer tile coordinates (int2). */
  datatype Int2 = Int2(x: int, y: int)

  /** A 2D steering vector (float2); components are modelled as reals. */
  datatype Float2 = Float2(x: real, y: real)

  const Zero2 := Float2(0.0, 0.0)

  /** One cell of the grid. A moveCost of WallCost marks a wall; bit i of
      availableDirectionsCode set means the neighbour in direction i may not
      be entered. */
  datatype MapTile = MapTile(moveCost: Byte, agents: Byte, availableDirectionsCode: bv8)

  /** The terrain cost reserved for walls. */
  const WallCost := 8

  /** The tile a freshly allocated (zero-filled) tile array holds. */
  const EmptyTile := MapTile(0, 0, 0)

  /** The grid coordinates of an entity. */
  datatype Sector = Sector(coordinates: Int2)
}
