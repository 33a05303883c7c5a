/** The tile grid (MapData): a width * height array of tiles stored row by
    row, its bounds and wall queries, and in-place tile writes. */
module Grid {
  import opened Components
  import opened DirectionTable

  /** a <= b scales to a * c <= b * c for a non-negative factor. */
  lemma MulMono(a: int, b: int, c: int)
    requires a <= b && 0 <= c
    ensures a * c <= b * c
  {
    assert b * c - a * c == (b - a) * c;
  }

  /** Euclidean division by a positive divisor is determined by any
      quotient/remainder pair. */
  lemma DivModUnique(k: int, w: int, q: int, r: int)
    requires 0 < w && 0 <= r < w && k == q * w + r
    ensures k / w == q && k % w == r
  {
    var q', r' := k / w, k % w;
    assert k == q' * w + r' && 0 <= r' < w;
    if q' < q {
      MulMono(q' + 1, q, w);
      assert false;
    } else if q < q' {
      MulMono(q + 1, q', w);
      assert false;
    }
  }

  class MapData {
    const width: int
    const height: int
    const tiles: array<MapTile>
    const mapDataBlob: MapDataBlob

    /** The grid holds one tile per cell. */
    predicate Shaped() {
      0 <= width && 0 <= height && tiles.Length == width * height
    }

    /** The grid is shaped and carries the direction table built for its
        width, separate from its tiles. */
    ghost predicate Valid()
      reads tiles, mapDataBlob.Repr
    {
      && Shaped()
      && tiles !in mapDataBlob.Repr
      && mapDataBlob.Valid(width)
    }

    /** Allocate a zero-filled grid and its direction table. */
    constructor (width: int, height: int)
      requires 0 <= width && 0 <= height
      ensures this.width == width && this.height == height
      ensures Valid() && fresh(tiles) && fresh(mapDataBlob.Repr)
      ensures tiles.Length == width * height
      ensures forall k :: 0 <= k < tiles.Length ==> tiles[k] == EmptyTile
    {
      this.width := width;
      this.height := height;
      tiles := new MapTile[width * height](_ => EmptyTile);
      var blob := Generate(width);
      mapDataBlob := blob;
    }

    /** The row-major linear index of a cell. */
    function Index(t: Int2): int {
      t.x + t.y * width
    }

    /** The cell stored at linear index k. */
    function Coords(k: int): Int2
      requires 0 < width
    {
      Int2(k % width, k / width)
    }

    /** The indexer this[int2]. */
    function At(t: Int2): MapTile
      reads tiles
      requires 0 <= Index(t) < tiles.Length
    {
      tiles[Index(t)]
    }

    predicate IsInsideMap(t: Int2) {
      if t.x < 0 || t.x >= width then false
      else t.y >= 0 && t.y < height
    }

    /** IsWall(int2): off-map cells count as walls. */
    predicate IsWall(t: Int2)
      reads tiles
      requires Shaped()
    {
      if t.x < 0 || t.x >= width || t.y < 0 || t.y >= height then true
      else InsideIndex(t); tiles[Index(t)].moveCost == WallCost
    }

    /** IsWall(int): indices outside the array count as walls. */
    predicate IsWallIndex(index: int)
      reads tiles
    {
      if index < 0 || index >= tiles.Length then true
      else tiles[index].moveCost == WallCost
    }

    /** Every in-map cell has an index inside the tile array, and that index
        leads back to the cell. */
    lemma InsideIndex(t: Int2)
      requires Shaped() && IsInsideMap(t)
      ensures 0 <= Index(t) < tiles.Length
      ensures 0 < width && Coords(Index(t)) == t
    {
      MulMono(t.y + 1, height, width);
      MulMono(0, t.y, width);
      DivModUnique(Index(t), width, t.y, t.x);
    }

    /** Every index of the tile array is the index of an in-map cell. */
    lemma IndexInside(k: int)
      requires Shaped() && 0 <= k < tiles.Length
      ensures 0 < width && IsInsideMap(Coords(k)) && Index(Coords(k)) == k
    {
      if width == 0 {
        assert false;
      }
      var q, r := k / width, k % width;
      assert k == q * width + r;
      if q >= height {
        MulMono(height, q, width);
        assert false;
      }
      if q < 0 {
        MulMono(q, -1, width);
        assert false;
      }
    }

    /** Inside the map both wall tests agree; outside it IsWall(int2)
        always reports a wall. */
    lemma WallTestsAgree(t: Int2)
      requires Shaped()
      ensures IsInsideMap(t) ==> IsWall(t) == IsWallIndex(Index(t))
      ensures !IsInsideMap(t) ==> IsWall(t)
    {
      if IsInsideMap(t) {
        InsideIndex(t);
      }
    }

    /** Write one tile in place. */
    method SetMapTile(position: Int2, tile: MapTile)
      requires 0 <= Index(position) < tiles.Length
      modifies tiles
      ensures tiles[..] == old(tiles[..])[Index(position) := tile]
      ensures At(position) == tile
    {
      tiles[position.x + position.y * width] := tile;
    }
  }
}
