/** The state of one flow field: its target, the cost and vector arrays over
    the grid, and the two frontier lists the propagation swaps between. */
module FlowFieldData {
  import opened Components
  import opened Grid

  /** A frontier entry: a tile index and the directions to mask out when
      expanding it (the code modification of the step that reached it). */
  datatype NextIndex = NextIndex(index: int, codeModifier: bv8)

  class FlowField {
    var targetTile: Int2
    var isValid: bool
    const stepField: array<real>
    const flowField: array<Float2>
    var openSet: seq<NextIndex>
    var nextSet: seq<NextIndex>
    const mapData: MapData

    /** Both field arrays cover the grid of the field's map. */
    predicate Covers() {
      && stepField.Length == mapData.tiles.Length
      && flowField.Length == mapData.tiles.Length
    }

    /** A field over the given grid with zero-filled arrays and empty
        frontier lists. */
    constructor (target: Int2, grid: MapData)
      requires grid.Shaped()
      ensures mapData == grid && targetTile == target && isValid
      ensures openSet == [] && nextSet == []
      ensures Covers() && stepField.Length == grid.width * grid.height
      ensures fresh(stepField) && fresh(flowField)
      ensures forall k :: 0 <= k < stepField.Length ==> stepField[k] == 0.0
      ensures forall k :: 0 <= k < flowField.Length ==> flowField[k] == Zero2
    {
      mapData := grid;
      targetTile := target;
      nextSet := [];
      openSet := [];
      stepField := new real[grid.width * grid.height](_ => 0.0);
      flowField := new Float2[grid.width * grid.height](_ => Zero2);
      isValid := true;
    }

    /** Retarget the field: the frontier restarts from the target tile alone,
        with nothing masked. */
    method SetTarget(target: Int2)
      modifies this
      ensures targetTile == target && isValid == old(isValid)
      ensures openSet == [NextIndex(target.x + mapData.width * target.y, 0)] && nextSet == []
    {
      targetTile := target;
      ClearSets();
      openSet := openSet + [NextIndex(target.x + mapData.width * target.y, 0)];
    }

    /** Empty both frontier lists. */
    method ClearSets()
      modifies this
      ensures openSet == [] && nextSet == []
      ensures targetTile == old(targetTile) && isValid == old(isValid)
    {
      openSet := [];
      nextSet := [];
    }

    /** The flow vector stored for a cell. */
    function GetFlowField(tile: Int2): Float2
      reads flowField
      requires 0 <= mapData.Index(tile) < flowField.Length
    {
      flowField[tile.x + tile.y * mapData.width]
    }

    /** Every cell of the map has its flow vector in the array, read at the
        cell's row-major index, and distinct cells read distinct slots. */
    lemma FlowFieldSlot(tile: Int2, other: Int2)
      requires mapData.Shaped() && Covers() && mapData.IsInsideMap(tile) && mapData.IsInsideMap(other)
      ensures 0 <= mapData.Index(tile) < flowField.Length
      ensures GetFlowField(tile) == flowField[mapData.Index(tile)]
      ensures tile != other ==> mapData.Index(tile) != mapData.Index(other)
    {
      mapData.InsideIndex(tile);
      mapData.InsideIndex(other);
    }

    /** Release the field: only the validity flag is modelled. */
    method Dispose()
      modifies this
      ensures !isValid
      ensures targetTile == old(targetTile) && openSet == old(openSet) && nextSet == old(nextSet)
    {
      isValid := false;
    }
  }
}
