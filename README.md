# Flow-field pathfinding core, in Dafny

This project models the pathfinding kernel of a Unity flow-field crowd
showcase and proves properties of it. The model has four parts:

- **The tile grid (`MapData`).** A `width * height` array of tiles stored
  row by row. It supports bounds and wall queries and writes one tile in
  place.
- **The direction lookup table (`MapDataBlob` and its factory).** For every
  8-bit neighbour code there is a contiguous run, in one shared 1024-entry
  pool, listing the directions whose bit is clear. Each entry carries the
  direction's index offset, its step length (1 or √2), its unit vector and
  its corner-cutting code modification.
- **The map generation jobs.** One copies an entity's tile into the grid.
  The other computes a tile's neighbour code: bit `i` is set when the
  neighbour in direction `i` is off the map or a wall, and a wall gets 255.
- **The flow field and its jobs.** A flow field holds a target, a cost
  array, a vector array and two frontier lists. Its jobs are:
  - the reset of both arrays;
  - the double-buffered, multi-round wavefront cost propagation with the
    0.98 hysteresis;
  - the per-tile choice of a steering vector towards the first strictly
    cheaper minimal neighbour.

Modules follow the source files:
- `Components` holds `MapTile`, `Sector` and the `int2`/`float2` values.
- `Grid` models `MapData`.
- `DirectionTable` models `MapDataBlob`.
- `MapGeneration` models `MapGenerationSystem`.
- `FlowFieldData` models `FlowField`.
- `FlowFieldSystem` models the jobs of `FlowFieldSystem`.

Classes with fields stand where the source mutates state in place:
- The grid's tile array and the table's arrays are Dafny `array`s.
- The flow field's frontier lists are `seq` fields that its methods reassign.
- The job bodies are methods with loops.

Each job method is proved against a specification function, and the
properties of those functions are proved as lemmas. The specification
functions are:
- `TileCode` for the neighbour codes;
- `FreeDirections` and `RunStart` for the run table;
- `Relax`, `ExpandDirs`, `Expand`, `Sweep`, `Round` and `Propagate` for the
  cost propagation;
- `FlowVector` for the steering vectors.

Costs are `real`s. The constants 0.1 (agent weight), 0.98 (hysteresis) and
`float.MaxValue` are named. √2 is an abstract positive constant.

## Model

| member | source | states |
|---|---|---|
| Grid.MapData.constructor | Assets/Scripts/Data/MapData.cs:19-25 | the grid has the given width and height and exactly width*height tiles, all zero, and carries a direction table valid for its width |
| Grid.MapData.At | Assets/Scripts/Data/MapData.cs:27 | the indexer returns the tile stored at the position's row-major index x + y * width; InsideIndex and IndexInside show that this index is in the array exactly for in-map cells, and SetMapTile that it reads back what was written |
| Grid.MapData.IsInsideMap | Assets/Scripts/Data/MapData.cs:30-36 | a position is inside the map when 0 <= x < width and 0 <= y < height; InsideIndex and IndexInside relate it to the indices of the tile array |
| Grid.MapData.IsWall | Assets/Scripts/Data/MapData.cs:39-45 | a position is a wall when it lies outside the map or its tile has the wall cost 8; WallTestsAgree relates it to the index form |
| Grid.MapData.IsWallIndex | Assets/Scripts/Data/MapData.cs:48-54 | an index is a wall when it lies outside the tile array or its tile has the wall cost 8; WallTestsAgree relates it to the position form |
| Grid.MapData.InsideIndex | Assets/Scripts/Data/MapData.cs:27-36 | a cell inside the map has a row-major index inside the tile array, and that index decodes back to the cell |
| Grid.MapData.IndexInside | Assets/Scripts/Data/MapData.cs:27-36 | every index of the tile array is the row-major index of a cell inside the map |
| Grid.MapData.WallTestsAgree | Assets/Scripts/Data/MapData.cs:39-54 | inside the map IsWall(int2) and IsWall(int) at the cell's index agree; outside it IsWall(int2) reports a wall |
| Grid.MapData.SetMapTile | Assets/Scripts/Data/MapData.cs:57-60 | the tile array changes at the position's index only, and the indexer then returns the written tile |
| DirectionTable.MoveDirectionSpec | Assets/Scripts/Data/MapDataBlob.cs:38-46 | every move is a non-zero unit grid step; even directions are orthogonal and odd ones diagonal |
| DirectionTable.MoveDirectionsDistinct | Assets/Scripts/Data/MapDataBlob.cs:99-106 | the eight move vectors are pairwise different |
| DirectionTable.OppositeReverses | Assets/Scripts/Data/MapDataBlob.cs:99-106 | direction (d + 4) mod 8 is the reverse step of d, and taking the opposite twice gives d back |
| DirectionTable.OffsetMatchesMove | Assets/Scripts/Data/MapDataBlob.cs:48-56 | each literal index offset equals dx + dy * width of the direction's move vector |
| DirectionTable.ShortOffsetExact | Assets/Scripts/Data/MapDataBlob.cs:70 | for widths up to 32766 the (short) cast of an offset is exact |
| DirectionTable.ShortOffsetWraps | Assets/Scripts/Data/MapDataBlob.cs:70 | at width 32767 the north-east offset 32768 wraps to -32768 under the (short) cast |
| DirectionTable.DirectionLengthSpec | Assets/Scripts/Data/MapDataBlob.cs:29-37 | step lengths are positive: 1 for orthogonal moves and √2 for diagonal ones |
| DirectionTable.UnitVectorSigns | Assets/Scripts/Data/MapDataBlob.cs:71-72 | the normalised move vector is non-zero, and each of its components has the sign of the grid step's component |
| DirectionTable.CodeModificationSpec | Assets/Scripts/Data/MapDataBlob.cs:128-184 | the masks for directions 0..7 are 124, 112, 241, 193, 199, 7, 31 and 28; each blocks the opposite direction and never its own; any other argument gives 0 |
| DirectionTable.CodeModification | Assets/Scripts/Data/MapDataBlob.cs:128-184 | the corner-cutting mask of a direction, OR-ed together from the source's literal bits; CodeModificationSpec states its values and that it blocks the reverse direction |
| DirectionTable.Entry | Assets/Scripts/Data/MapDataBlob.cs:66-73 | the data the factory writes for a direction: its (short) index offset, step length, code modification and normalised move vector; ShortOffsetExact, DirectionLengthSpec, CodeModificationSpec and UnitVectorSigns state each field |
| DirectionTable.FreeBelowSpec | Assets/Scripts/Data/MapDataBlob.cs:63-77 | the directions listed below k are exactly those below k whose bit is clear, each once, in strictly increasing order |
| DirectionTable.FreeDirectionsSpec | Assets/Scripts/Data/MapDataBlob.cs:63-77 | a code's run lists exactly its clear directions, in strictly increasing order |
| DirectionTable.RunLength | Assets/Scripts/Data/MapDataBlob.cs:63-77 | a run has 8 - popcount(code) entries, which is the popcount of the complement |
| DirectionTable.FreeUnderMask | Assets/Scripts/Data/MapDataBlob.cs:65 | OR-ing a mask into a code removes exactly the directions the mask blocks and never adds one |
| DirectionTable.CodeValue | Assets/Scripts/Data/MapDataBlob.cs:59 | below 256, the byte reached by counting up n times from 0 has value n |
| DirectionTable.ComplementRuns | Assets/Scripts/Data/MapDataBlob.cs:63-77 | the runs of code c and code 255 - c have 8 entries together |
| DirectionTable.PairedRuns | Assets/Scripts/Data/MapDataBlob.cs:58-80 | the first n runs and the last n runs have 8n entries together |
| DirectionTable.PoolSize | Assets/Scripts/Data/MapDataBlob.cs:26-28 | the runs of all 256 codes fill the 1024-entry pool exactly |
| DirectionTable.RunStartBound | Assets/Scripts/Data/MapDataBlob.cs:58-80 | no prefix of the code order overruns the 1024-entry pool |
| DirectionTable.RunStartMono | Assets/Scripts/Data/MapDataBlob.cs:58-80 | run start positions never decrease along the code order |
| DirectionTable.RunFits | Assets/Scripts/Data/MapDataBlob.cs:58-80 | each run starts where the previous ones end, and it fits in the pool |
| DirectionTable.RunInCover | Assets/Scripts/Data/MapDataBlob.cs:58-80 | in a layout the first run starts at 0, each run ends where the next starts, and each run holds its code's entries |
| DirectionTable.CoverTotal | Assets/Scripts/Data/MapDataBlob.cs:58-80 | a layout of the first codes ends exactly where the next code's run starts |
| DirectionTable.LaidOutStep | Assets/Scripts/Data/MapDataBlob.cs:61-79 | appending the next code's run right after the laid-out pool keeps the layout |
| DirectionTable.RunEntries | Assets/Scripts/Data/MapDataBlob.cs:58-80 | in a layout, the run of code c has 8 - popcount(c) entries, and its i-th position holds the i-th clear direction of c |
| DirectionTable.MapDataBlob.Run | Assets/Scripts/Data/MapDataBlob.cs:58-80 | in the finished table, every code's start/end pair bounds its clear directions in order, and each entry carries the data of its direction |
| DirectionTable.MapDataBlob.ListedRun | Assets/Scripts/Data/MapDataBlob.cs:58-80 | the start/end pair of a code frames the data entries of its clear directions |
| DirectionTable.MapDataBlob.ListedRuns | Assets/Scripts/Data/MapDataBlob.cs:58-80 | the finished table frames the run of every code, which is all the propagation and the flow pass read |
| DirectionTable.Generate | Assets/Scripts/Data/MapDataBlob.cs:9-22 | the factory returns a fresh table that is valid for the width: runs laid out, entries matching, and per-direction tables filled |
| DirectionTable.AllocateCodeIndexes | Assets/Scripts/Data/MapDataBlob.cs:24-81 | the run of every code is laid out in code order and fills the 1024-entry pool, and each entry holds its direction's data |
| DirectionTable.AllocateRun | Assets/Scripts/Data/MapDataBlob.cs:61-79 | the inner loop appends exactly the code's clear directions after the current position, each with its data, returns the position after them, and leaves every later slot of both arrays as it was |
| DirectionTable.RunStateStep | Assets/Scripts/Data/MapDataBlob.cs:63-77 | one iteration of the inner loop writes a clear direction with its data at the next position, passes over a blocked one, and leaves every later slot as it was |
| DirectionTable.AllocateEntry | Assets/Scripts/Data/MapDataBlob.cs:66-73 | the direction index and its data are written at one slot of each pool array, and no other slot changes |
| DirectionTable.RunPrefix | Assets/Scripts/Data/MapDataBlob.cs:63-77 | a partly built run is never longer than the whole run |
| DirectionTable.AllocateDirectionOffset | Assets/Scripts/Data/MapDataBlob.cs:109-120 | slot d holds the index offset of direction d |
| DirectionTable.AllocateMoveDirections | Assets/Scripts/Data/MapDataBlob.cs:96-107 | slot d holds the move vector of direction d |
| DirectionTable.AllocateMoveDirectionsLengths | Assets/Scripts/Data/MapDataBlob.cs:83-94 | slot d holds the step length of direction d |
| DirectionTable.AllocateCodeModifications | Assets/Scripts/Data/MapDataBlob.cs:122-126 | slot d holds the code modification of direction d |
| MapGeneration.GenerateDirections | Assets/Scripts/Systems/MapGenerationSystem.cs:83-104 | the tile gets its cell's code: 255 for a wall, otherwise the neighbour code; nothing else of the tile changes |
| MapGeneration.TileCode | Assets/Scripts/Systems/MapGenerationSystem.cs:90-101 | the code the job computes for a cell: 255 for a wall, otherwise the neighbour code; TileCodeSpec states which bits are set |
| MapGeneration.TileCodeSpec | Assets/Scripts/Systems/MapGenerationSystem.cs:90-103 | a wall's code is 255; for any other cell bit i is set exactly when the neighbour in direction i is off the map or a wall |
| MapGeneration.NeighbourCodeSpec | Assets/Scripts/Systems/MapGenerationSystem.cs:96-101 | bit i of the neighbour code is set exactly when the neighbour in direction i is off the map or a wall |
| MapGeneration.ClosedBelowSpec | Assets/Scripts/Systems/MapGenerationSystem.cs:96-101 | after k iterations exactly the closed directions below k are set |
| MapGeneration.ClosedBelowStep | Assets/Scripts/Systems/MapGenerationSystem.cs:100 | iteration k adds bit k exactly when direction k is closed, and the byte addition acts as a bitwise OR |
| MapGeneration.AddIsOr | Assets/Scripts/Systems/MapGenerationSystem.cs:100 | adding a bit that is still clear carries nothing: the sum equals the OR and stays below 256 |
| MapGeneration.BitIsShift | Assets/Scripts/Systems/MapGenerationSystem.cs:100 | the bit of direction i is one shifted left i times |
| MapGeneration.BitsMeet | Assets/Scripts/Systems/MapGenerationSystem.cs:100 | the bits of two directions overlap exactly when the directions are equal |
| MapGeneration.EdgeCodes | Assets/Scripts/Systems/MapGenerationSystem.cs:96-101 | a cell in column 0 has bits 5, 6 and 7 set; a cell in row 0 has bits 3, 4 and 5 set |
| MapGeneration.NeighbourIndex | Assets/Scripts/Systems/MapGenerationSystem.cs:98-99 | stepping from the cell of index k in direction d moves the row-major index by d's offset |
| MapGeneration.OpenNeighbour | Assets/Scripts/Systems/MapGenerationSystem.cs:96-103 | with generated codes, a tile with an open direction is no wall, and that direction leads to an in-map cell that is no wall |
| MapGeneration.FreeNeighbour | Assets/Scripts/Systems/MapGenerationSystem.cs:96-103 | with generated codes, every clear direction of a tile leads to an in-map cell that is no wall, found at the tile's index plus the direction's offset |
| MapGeneration.GeneratedCodesSafe | Assets/Scripts/Systems/MapGenerationSystem.cs:96-103 | with generated codes, every open direction from every tile stays inside the tile array, so the propagation needs no bounds check |
| MapGeneration.GeneratedWallsUnentered | Assets/Scripts/Systems/MapGenerationSystem.cs:90-101 | with generated codes, no open direction of any tile leads into a wall, because a wall closes the direction towards it in each neighbour's code |
| MapGeneration.GenerateMap | Assets/Scripts/Systems/MapGenerationSystem.cs:115-118 | the tile is written at the sector's row-major index and nothing else changes |
| FlowFieldData.FlowField.constructor | Assets/Scripts/Data/FlowField.cs:19-29 | both arrays have width*height entries and start zeroed, both lists are empty, the target is set and the field is valid |
| FlowFieldData.FlowField.SetTarget | Assets/Scripts/Data/FlowField.cs:32-37 | the target is set, the next set is empty, and the open set is exactly the target's index with no modifier |
| FlowFieldData.FlowField.ClearSets | Assets/Scripts/Data/FlowField.cs:40-44 | both lists are empty, and the target and validity flag are unchanged |
| FlowFieldData.FlowField.FlowFieldSlot | Assets/Scripts/Data/FlowField.cs:47-50 | every in-map cell's vector is read at its row-major index inside the array, and different cells read different slots |
| FlowFieldData.FlowField.GetFlowField | Assets/Scripts/Data/FlowField.cs:47-50 | the vector stored at the cell's row-major index; FlowFieldSlot shows that index is in the array for every in-map cell and distinct for distinct cells |
| FlowFieldData.FlowField.Dispose | Assets/Scripts/Data/FlowField.cs:52-59 | the field becomes invalid, and the target and lists are unchanged |
| FlowFieldSystem.StepCost | Assets/Scripts/Systems/FlowFieldSystem.cs:165 | a tile's entry cost is at least its terrain cost, and it equals the terrain cost exactly when no agent stands on the tile |
| FlowFieldSystem.InitialCosts | Assets/Scripts/Systems/FlowFieldSystem.cs:133 | the reset costs cover every tile and lie between 0 and float.MaxValue |
| FlowFieldSystem.InitializeField | Assets/Scripts/Systems/FlowFieldSystem.cs:131-135 | every cost is 0 at the target and float.MaxValue elsewhere, and every vector is zero |
| FlowFieldSystem.MaskKeepsBlocked | Assets/Scripts/Systems/FlowFieldSystem.cs:157 | a direction is blocked in tileCode OR modifier exactly when either of them blocks it |
| FlowFieldSystem.EntryRunSafe | Assets/Scripts/Systems/FlowFieldSystem.cs:157-164 | with safe codes, every direction a frontier entry expands leads to a tile of the grid |
| FlowFieldSystem.Relax | Assets/Scripts/Systems/FlowFieldSystem.cs:162-170 | one step: the neighbour takes the candidate cost and joins the next set only when that cost is below 0.98 times its stored cost; RelaxImproves and RelaxSteps state what it changes and appends |
| FlowFieldSystem.ExpandDirs | Assets/Scripts/Systems/FlowFieldSystem.cs:160-171 | the steps along a run, in order; ExpandDirsImproves, ExpandDirsSteps and ExpandDirsKeeps state what they change |
| FlowFieldSystem.Expand | Assets/Scripts/Systems/FlowFieldSystem.cs:154-171 | the expansion of one frontier entry with the cost read when it starts; ExpandImproves and ExpandSteps state its effect |
| FlowFieldSystem.Sweep | Assets/Scripts/Systems/FlowFieldSystem.cs:152-172 | the expansions of the open set in order; SweepImproves, SweepGrows and SweepKeeps state its effect |
| FlowFieldSystem.Round | Assets/Scripts/Systems/FlowFieldSystem.cs:152-177 | a sweep followed by the swap, so the next set is empty and keeps the length of the costs; RoundImproves states what a round changes |
| FlowFieldSystem.Propagate | Assets/Scripts/Systems/FlowFieldSystem.cs:149-178 | rounds until the open set is empty or the rounds run out; PropagateLowers, TargetKeepsZeroCost and WallsKeepMaxCost state what it preserves |
| FlowFieldSystem.RelaxGrows | Assets/Scripts/Systems/FlowFieldSystem.cs:167-170 | a step only appends to the next set, and what it appends names a tile of the grid |
| FlowFieldSystem.RelaxImproves | Assets/Scripts/Systems/FlowFieldSystem.cs:163-170 | a step never raises a cost or makes it negative; it lowers one only below 0.98 times the stored cost and then appends that tile |
| FlowFieldSystem.RelaxSteps | Assets/Scripts/Systems/FlowFieldSystem.cs:167-170 | what a step appends is the neighbour's index together with the direction's code modification |
| FlowFieldSystem.ExpandDirsGrows | Assets/Scripts/Systems/FlowFieldSystem.cs:160-171 | expanding along a run only appends entries that name tiles of the grid |
| FlowFieldSystem.ExpandDirsImproves | Assets/Scripts/Systems/FlowFieldSystem.cs:160-171 | expanding along a run lowers costs only through appended entries, each below 0.98 times its cost before |
| FlowFieldSystem.ExpandDirsSteps | Assets/Scripts/Systems/FlowFieldSystem.cs:160-171 | expanding along a run appends only steps in directions of the run |
| FlowFieldSystem.ExpandGrows | Assets/Scripts/Systems/FlowFieldSystem.cs:154-171 | expanding an entry only appends entries that name tiles of the grid |
| FlowFieldSystem.ExpandImproves | Assets/Scripts/Systems/FlowFieldSystem.cs:154-171 | expanding an entry never raises a cost, and every lowered cost is named by an appended entry |
| FlowFieldSystem.ExpandSteps | Assets/Scripts/Systems/FlowFieldSystem.cs:157-170 | expanding an entry tries only directions clear in both the tile's code and the entry's modifier; each appended entry is the step in such a direction, with that direction's code modification |
| FlowFieldSystem.SweepGrows | Assets/Scripts/Systems/FlowFieldSystem.cs:152-172 | a sweep only appends to the next set; started from in-range lists, every list stays in range |
| FlowFieldSystem.SweepImproves | Assets/Scripts/Systems/FlowFieldSystem.cs:152-172 | a sweep over the open set never raises a cost, and the tiles whose cost fell are exactly those named by appended entries |
| FlowFieldSystem.ImprovementTrans | Assets/Scripts/Systems/FlowFieldSystem.cs:152-172 | two successive improvements compose into one whose appended entries are the two lists joined |
| FlowFieldSystem.RoundImproves | Assets/Scripts/Systems/FlowFieldSystem.cs:152-177 | after a round the next set is empty, and the open set holds exactly the entries appended that round; they name exactly the tiles whose cost fell, each below 0.98 times its cost before |
| FlowFieldSystem.PropagateLowers | Assets/Scripts/Systems/FlowFieldSystem.cs:149-178 | over any number of rounds no cost rises or turns negative |
| FlowFieldSystem.TargetKeepsZeroCost | Assets/Scripts/Systems/FlowFieldSystem.cs:167-168 | started from the reset, the target keeps cost 0, and every cost stays between 0 and float.MaxValue |
| FlowFieldSystem.ExpandDirsKeeps | Assets/Scripts/Systems/FlowFieldSystem.cs:160-171 | steps along a run leave the cost of every tile none of them reaches as it was |
| FlowFieldSystem.SweepKeeps | Assets/Scripts/Systems/FlowFieldSystem.cs:152-172 | a sweep leaves the cost of a tile that no open direction enters as it was, since an entry's modifier only closes directions |
| FlowFieldSystem.PropagateKeeps | Assets/Scripts/Systems/FlowFieldSystem.cs:149-178 | over any number of rounds the cost of a tile that no open direction enters never changes |
| FlowFieldSystem.WallsKeepMaxCost | Assets/Scripts/Systems/FlowFieldSystem.cs:131-178 | on a grid with generated codes and a reset field, every wall other than the target keeps cost float.MaxValue however many rounds run: the wave never enters a wall |
| FlowFieldSystem.TryNeighbour | Assets/Scripts/Systems/FlowFieldSystem.cs:162-170 | the body of the inner loop performs exactly one relaxation step of the specification |
| FlowFieldSystem.ExpandRun | Assets/Scripts/Systems/FlowFieldSystem.cs:160-171 | the inner loop performs the specification's expansion along the table's run |
| FlowFieldSystem.ExpandEntry | Assets/Scripts/Systems/FlowFieldSystem.cs:154-171 | one frontier entry is expanded over the run of its tile's code OR its modifier, reading the entry's cost when the expansion starts |
| FlowFieldSystem.SweepOpenSet | Assets/Scripts/Systems/FlowFieldSystem.cs:152-172 | the middle loop expands the open set in order, as the specification's sweep does |
| FlowFieldSystem.CostRound | Assets/Scripts/Systems/FlowFieldSystem.cs:152-177 | one outer pass: sweep, swap and clear leave the state of the specification's round, with both lists still in range |
| FlowFieldSystem.GenerateCostField | Assets/Scripts/Systems/FlowFieldSystem.cs:147-179 | costs and lists end as the specification's propagation leaves them, and the open set is empty unless every round was used |
| FlowFieldSystem.TileRunSafe | Assets/Scripts/Systems/FlowFieldSystem.cs:198-204 | with safe codes, every direction in a tile's own run leads to a tile of the grid |
| FlowFieldSystem.FirstMin | Assets/Scripts/Systems/FlowFieldSystem.cs:201-209 | the scan returns a position in the list, and -1 exactly when the list is empty |
| FlowFieldSystem.FirstMinIsFirstMinimal | Assets/Scripts/Systems/FlowFieldSystem.cs:201-209 | the chosen neighbour is cheapest, and every earlier one is strictly dearer, so ties go to the earlier direction |
| FlowFieldSystem.FlowVector | Assets/Scripts/Systems/FlowFieldSystem.cs:194-211 | the reference steering vector of a tile; FlowVectorIsFlow, FlowVectorUnique and FlowVectorZero characterise it |
| FlowFieldSystem.FlowVectorIsFlow | Assets/Scripts/Systems/FlowFieldSystem.cs:194-211 | the reference vector is zero when no listed neighbour is strictly cheaper than the tile; otherwise it is the unit vector of the first cheapest neighbour |
| FlowFieldSystem.FlowVectorUnique | Assets/Scripts/Systems/FlowFieldSystem.cs:194-211 | a tile has only one vector meeting that definition |
| FlowFieldSystem.FlowVectorZero | Assets/Scripts/Systems/FlowFieldSystem.cs:201-211 | the vector is zero exactly when no open neighbour is strictly cheaper than the tile |
| FlowFieldSystem.FlowAt | Assets/Scripts/Systems/FlowFieldSystem.cs:194-211 | the scan with a running minimum and a strict comparison yields the tile's reference flow vector |
| FlowFieldSystem.GenerateFlowField | Assets/Scripts/Systems/FlowFieldSystem.cs:190-213 | wall tiles keep their old vector, and every other tile gets its reference flow vector |

## Left out

- Unity job scheduling is not modelled: the system update methods, job-handle chaining and `SetTargetJob` (a wrapper around `FlowField.SetTarget`). Each job body is a sequential method, and a parallel-for job is a loop over all indices.
- Crowd counting is not modelled (`CountJob`, `UpdateCounts`, `ClearTileAgentsCount`, `UpdateMapCache`). A tile's agent count is an input of the propagation.
- `CalculateNavAgentTile` is not modelled; it floors float positions to tiles.
- IEEE single-precision arithmetic is not modelled. Costs are exact reals, so rounding, overflow to infinity and float granularity are out of scope.
- `math.normalize` is modelled as the move vector divided by its length, with √2 an abstract positive constant.
- Native memory is not modelled (`BlobBuilder`, allocators, `Dispose` of arrays, `MapData.Dispose`). Only the flow field's `isValid` flag is kept.
- `Sector.ToString` and `NavAgent` have no behaviour the core uses.
- Native lists are not modelled as shared buffers: the two frontier lists are `seq` fields, so the swap is a reassignment and no list aliasing is modelled.
- FlowFieldSystem.GenerateCostField: runs at most `maxRounds` rounds, because termination of the source's `while (openSet.Length > 0)` depends on float granularity. With rounds left over, the result is the source's.
- FlowFieldSystem.GenerateCostField: its postcondition matches the specification functions; it does not state that costs converge to shortest weighted path costs. The 0.98 hysteresis alone rules out exact minima.
- Grid.MapData.constructor: requires non-negative dimensions, which excludes more than the source does. A negative `width * height` allocation throws in the source, but two negative dimensions give a positive product, which the source allocates without throwing. Neither case is modelled.
- The propagation and the flow pass require a table that lists every run for the grid's width (`RunsListed`), and a width of at most 32766 so that the `(short)` offset cast is exact (`ShortOffsetWraps` shows the first width where it is not).
- They also require safe codes: every open direction stays inside the tile array. `GeneratedCodesSafe` proves that generated codes meet this. A grid whose codes are stale after a wall changes is outside the model.
- `GenerateDirections` requires the table's move vectors (`MovesListed`); every table the factory builds has them.
- Out-of-range indices: `Grid.MapData.At`, `Grid.MapData.SetMapTile`, `MapGeneration.GenerateMap`, `FlowFieldData.FlowField.GetFlowField` and `FlowFieldSystem.GenerateCostField` (every frontier entry must name a tile, which fails for instance after `SetTarget` with an off-map target) require their indices in range. The source's native arrays throw an index exception there instead, and that exception is not modelled.
- FlowFieldSystem.Expand: passes over a frontier entry that names no tile, where the source throws. So `PropagateLowers`, `TargetKeepsZeroCost` and `WallsKeepMaxCost` also hold on inputs where the source would stop with an exception.
- 32-bit overflow of tile indices (`x + y * width`) is not modelled; indices are unbounded integers.
- The `(byte)` casts of agent counts are not modelled; `MapTile` fields are values of 0 to 255.
- DirectionTable.CodeModification: the masks are the values `GetCodeModification` ORs together (124, 112, 241, 193, 199, 7, 31, 28). The commented-out `math.select` conditions beside them are not modelled.
- FlowFieldSystem.Expand: reads an entry's cost when its expansion starts (FlowFieldSystem.cs:156), so an entry sees the updates made earlier in the same round; there is no snapshot of the costs taken before the round.
