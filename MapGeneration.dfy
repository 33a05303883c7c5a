/** The map generation jobs: copying a tile into the grid, and computing a
    tile's neighbour code, the byte whose bit i is set when the neighbour in
    direction i may not be entered. */
module MapGeneration {
  import opened Components
  import opened DirectionTable
  import opened Grid

  /** The cell one step from t in direction d. */
  function Neighbour(t: Int2, d: Direction): Int2 {
    Int2(t.x + MoveDirection(d).x, t.y + MoveDirection(d).y)
  }

  /** Direction d is closed from t: its neighbour is off the map or a
      wall. */
  predicate Closed(grid: MapData, t: Int2, d: Direction)
    reads grid.tiles
    requires grid.Shaped()
  {
    !grid.IsInsideMap(Neighbour(t, d)) || grid.IsWall(Neighbour(t, d))
  }

  /** The bits of the closed directions below k. */
  function ClosedBelow(grid: MapData, t: Int2, k: nat): bv8
    reads grid.tiles
    requires grid.Shaped() && k <= 8
  {
    if k == 0 then 0
    else ClosedBelow(grid, t, k - 1) | (if Closed(grid, t, k - 1) then Bit(k - 1) else 0)
  }

  /** The neighbour code of a cell that is not a wall. */
  function NeighbourCode(grid: MapData, t: Int2): bv8
    reads grid.tiles
    requires grid.Shaped()
  {
    ClosedBelow(grid, t, 8)
  }

  /** The code GenerateDirectionsJob gives the tile at t: every bit for a
      wall, the neighbour code otherwise. */
  function TileCode(grid: MapData, t: Int2): bv8
    reads grid.tiles
    requires grid.Shaped()
  {
    if grid.IsWall(t) then 255 else NeighbourCode(grid, t)
  }

  /** A wall gets every bit; any other cell gets bit i set exactly when
      its neighbour in direction i is off the map or a wall. */
  lemma TileCodeSpec(grid: MapData, t: Int2)
    requires grid.Shaped()
    ensures grid.IsWall(t) ==> TileCode(grid, t) == 255
    ensures !grid.IsWall(t) ==> forall d: Direction :: IsBlocked(TileCode(grid, t), d) <==> Closed(grid, t, d)
  {
    NeighbourCodeSpec(grid, t);
  }

  /** Bit d of a code: the bit masks of two directions meet only when
      the directions are equal. */
  lemma BitsMeet(d: Direction, e: Direction)
    ensures IsBlocked(Bit(e), d) <==> d == e
  {
  }

  /** Among the low k bits exactly the closed directions are set; the
      others are clear. */
  lemma {:induction false} ClosedBelowSpec(grid: MapData, t: Int2, k: nat)
    requires grid.Shaped() && k <= 8
    ensures forall d: Direction :: IsBlocked(ClosedBelow(grid, t, k), d) <==> d < k && Closed(grid, t, d)
  {
    if k > 0 {
      ClosedBelowSpec(grid, t, k - 1);
      forall d: Direction
        ensures IsBlocked(ClosedBelow(grid, t, k), d) <==> d < k && Closed(grid, t, d)
      {
        BitsMeet(d, k - 1);
      }
    }
  }

  /** Bit i of the neighbour code is set iff the neighbour in direction i
      is off the map or a wall. */
  lemma NeighbourCodeSpec(grid: MapData, t: Int2)
    requires grid.Shaped()
    ensures forall d: Direction :: IsBlocked(NeighbourCode(grid, t), d) <==> Closed(grid, t, d)
  {
    ClosedBelowSpec(grid, t, 8);
  }

  /** Adding the bit of a direction that is still clear sets just that bit:
      no carry, so the byte sum is the bitwise OR and stays below 256. */
  lemma AddIsOr(code: bv8, d: Direction)
    requires !IsBlocked(code, d)
    ensures code + Bit(d) == code | Bit(d)
    ensures code as int + Bit(d) as int < 256
  {
  }

  /** The bit of direction d is 1 shifted left d times. */
  lemma BitIsShift(d: Direction)
    ensures Bit(d) == (1 as bv8) << d
  {
  }

  /** Taking in direction k adds its bit exactly when it is closed; the
      byte addition then sets that bit without a carry. */
  lemma ClosedBelowStep(grid: MapData, t: Int2, k: nat)
    requires grid.Shaped() && k < 8
    ensures ClosedBelow(grid, t, k + 1) ==
      if Closed(grid, t, k) then ClosedBelow(grid, t, k) + Bit(k) else ClosedBelow(grid, t, k)
  {
    ClosedBelowSpec(grid, t, k);
    AddIsOr(ClosedBelow(grid, t, k), k);
  }

  /** GenerateDirectionsJob.Execute: the tile of the entity at the sector's
      cell gets that cell's code; nothing else of the tile changes. */
  method GenerateDirections(grid: MapData, mapTile: MapTile, sector: Sector) returns (updated: MapTile)
    requires grid.Shaped() && grid.mapDataBlob.MovesListed()
    ensures updated == mapTile.(availableDirectionsCode := TileCode(grid, sector.coordinates))
  {
    var x := sector.coordinates.x;
    var y := sector.coordinates.y;
    var code: bv8 := 0;
    if grid.IsWall(sector.coordinates) {
      return mapTile.(availableDirectionsCode := 255);
    }
    ghost var t := sector.coordinates;
    for i := 0 to 8
      invariant code == ClosedBelow(grid, t, i)
    {
      var moveDir := grid.mapDataBlob.moveDirections[i];
      assert moveDir == MoveDirection(i);
      var newTile := Int2(x + moveDir.x, y + moveDir.y);
      assert newTile == Neighbour(t, i);
      ClosedBelowStep(grid, t, i);
      if !grid.IsInsideMap(newTile) || grid.IsWall(newTile) {
        code := code + Bit(i);
      }
    }
    updated := mapTile.(availableDirectionsCode := code);
  }

  /** A cell in the leftmost column has its three westward directions
      closed; one in the bottom row its three southward ones. */
  lemma EdgeCodes(grid: MapData, t: Int2)
    requires grid.Shaped()
    ensures t.x == 0 ==> IsBlocked(TileCode(grid, t), 5) && IsBlocked(TileCode(grid, t), 6) && IsBlocked(TileCode(grid, t), 7)
    ensures t.y == 0 ==> IsBlocked(TileCode(grid, t), 3) && IsBlocked(TileCode(grid, t), 4) && IsBlocked(TileCode(grid, t), 5)
  {
    NeighbourCodeSpec(grid, t);
  }

  /** Every tile of the grid carries the code GenerateDirectionsJob
      computes for its cell. */
  ghost predicate CodesGenerated(grid: MapData)
    reads grid.tiles
    requires grid.Shaped()
  {
    forall k :: 0 <= k < grid.tiles.Length && 0 < grid.width ==>
      grid.tiles[k].availableDirectionsCode == TileCode(grid, grid.Coords(k))
  }

  /** Every direction left open by the code of a tile leads to a tile of
      the array, found by adding the direction's index offset. */
  ghost predicate SafeCodes(tiles: seq<MapTile>, width: int) {
    forall k, d: Direction :: 0 <= k < |tiles| && !IsBlocked(tiles[k].availableDirectionsCode, d) ==>
      0 <= k + DirectionOffset(width, d) < |tiles|
  }

  /** Stepping from the cell of index k in direction d moves the row-major
      index by the direction's offset. */
  lemma NeighbourIndex(grid: MapData, k: int, d: Direction)
    requires 0 < grid.width
    ensures grid.Index(Neighbour(grid.Coords(k), d)) == k + DirectionOffset(grid.width, d)
  {
    var t, m := grid.Coords(k), MoveDirection(d);
    OffsetMatchesMove(grid.width, d);
    assert k == t.x + t.y * grid.width;
    assert (t.y + m.y) * grid.width == t.y * grid.width + m.y * grid.width;
  }

  /** With generated codes, a tile with an open direction is not a wall,
      and that direction leads to an in-map cell that is not a wall. */
  lemma OpenNeighbour(grid: MapData, k: int, d: Direction)
    requires grid.Shaped() && CodesGenerated(grid) && 0 <= k < grid.tiles.Length
    requires !IsBlocked(grid.tiles[k].availableDirectionsCode, d)
    ensures 0 < grid.width && !grid.IsWallIndex(k)
    ensures grid.IsInsideMap(Neighbour(grid.Coords(k), d)) && !grid.IsWall(Neighbour(grid.Coords(k), d))
  {
    grid.IndexInside(k);
    var t := grid.Coords(k);
    grid.WallTestsAgree(t);
    assert !grid.IsWall(t);
    NeighbourCodeSpec(grid, t);
    assert !Closed(grid, t, d);
  }

  /** With generated codes, a direction left open from the tile at index k
      leads to an in-map cell that is not a wall, and the tile of that cell
      sits at index k plus the direction's offset; a tile with an open
      direction is not a wall itself. */
  lemma FreeNeighbour(grid: MapData, k: int, d: Direction)
    requires grid.Shaped() && CodesGenerated(grid) && 0 <= k < grid.tiles.Length
    requires !IsBlocked(grid.tiles[k].availableDirectionsCode, d)
    ensures 0 < grid.width && !grid.IsWallIndex(k)
    ensures var n := Neighbour(grid.Coords(k), d);
      && grid.IsInsideMap(n) && !grid.IsWall(n)
      && grid.Index(n) == k + DirectionOffset(grid.width, d)
    ensures 0 <= k + DirectionOffset(grid.width, d) < grid.tiles.Length
    ensures !grid.IsWallIndex(k + DirectionOffset(grid.width, d))
  {
    OpenNeighbour(grid, k, d);
    var n := Neighbour(grid.Coords(k), d);
    NeighbourIndex(grid, k, d);
    grid.InsideIndex(n);
    grid.WallTestsAgree(n);
  }

  /** Generated codes are safe: the propagation may step through any open
      direction without a bounds check. */
  lemma GeneratedCodesSafe(grid: MapData)
    requires grid.Shaped() && CodesGenerated(grid)
    ensures SafeCodes(grid.tiles[..], grid.width)
  {
    forall k, d: Direction | 0 <= k < grid.tiles.Length && !IsBlocked(grid.tiles[k].availableDirectionsCode, d)
      ensures 0 <= k + DirectionOffset(grid.width, d) < grid.tiles.Length
    {
      FreeNeighbour(grid, k, d);
    }
  }

  /** No direction left open by any tile's code leads to index k. */
  ghost predicate Unentered(tiles: seq<MapTile>, width: int, k: int) {
    forall j, d: Direction :: 0 <= j < |tiles| && !IsBlocked(tiles[j].availableDirectionsCode, d) ==>
      j + DirectionOffset(width, d) != k
  }

  /** With generated codes, no open direction of any tile leads into a
      wall: the codes of a wall's neighbours close the direction towards
      it. */
  lemma GeneratedWallsUnentered(grid: MapData)
    requires grid.Shaped() && CodesGenerated(grid)
    ensures forall k :: 0 <= k < grid.tiles.Length && grid.IsWallIndex(k) ==> Unentered(grid.tiles[..], grid.width, k)
  {
    forall j, d: Direction | 0 <= j < grid.tiles.Length && !IsBlocked(grid.tiles[j].availableDirectionsCode, d)
      ensures !grid.IsWallIndex(j + DirectionOffset(grid.width, d))
    {
      FreeNeighbour(grid, j, d);
    }
  }

  /** GenerateMapJob.Execute: copy an entity's tile into the grid array at
      the row-major index of its sector. */
  method GenerateMap(mapTiles: array<MapTile>, width: int, c0: MapTile, c1: Sector)
    requires 0 <= c1.coordinates.x + c1.coordinates.y * width < mapTiles.Length
    modifies mapTiles
    ensures mapTiles[..] == old(mapTiles[..])[c1.coordinates.x + c1.coordinates.y * width := c0]
  {
    mapTiles[c1.coordinates.x + c1.coordinates.y * width] := c0;
  }
}
