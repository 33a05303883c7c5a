/** The flow-field jobs: resetting the fields, the wavefront propagation of
    step costs from the target, and the derivation of a steering vector per
    tile from the costs of its neighbours. */
module FlowFieldSystem {
  import opened Components
  import opened DirectionTable
  import opened Grid
  import opened MapGeneration
  import opened FlowFieldData

  /** float.MaxValue: the cost of a tile the wave has not reached. */
  const MaxCost: real := 340282346638528859811704183484516925440.0

  /** The extra cost of entering a tile per agent standing on it. */
  const AgentCostWeight: real := 0.1

  /** A tile is improved only when its new cost is below this fraction of
      the stored one. */
  const Hysteresis: real := 0.98

  /** The cost of entering a tile: its terrain cost plus a tenth per agent;
      agents only ever add to the terrain cost. */
  function StepCost(tile: MapTile): (r: real)
    ensures r >= tile.moveCost as real >= 0.0
    ensures r == tile.moveCost as real <==> tile.agents == 0
  {
    tile.moveCost as real + tile.agents as real * AgentCostWeight
  }

  /** The candidate cost of a tile reached over a step of the given length
      from a tile whose cost was existing. */
  function Candidate(tile: MapTile, length: real, existing: real): real {
    StepCost(tile) * length + existing
  }

  // ---------------------------------------------------------------------
  // InitializeFieldJob

  /** The costs the reset leaves: zero at the target, MaxCost elsewhere. */
  ghost function InitialCosts(n: nat, target: int): (r: seq<real>)
    ensures |r| == n
    ensures forall k :: 0 <= k < n ==> 0.0 <= r[k] <= MaxCost
  {
    seq(n, k => if k == target then 0.0 else MaxCost)
  }

  /** InitializeFieldJob over every index of the flow field: the target
      costs 0, every other tile MaxCost, and every vector is zero. */
  method InitializeField(stepField: array<real>, flowField: array<Float2>, target: int)
    requires flowField.Length == stepField.Length
    modifies stepField, flowField
    ensures stepField[..] == InitialCosts(stepField.Length, target)
    ensures forall k :: 0 <= k < flowField.Length ==> flowField[k] == Zero2
  {
    for index := 0 to flowField.Length
      invariant forall k :: 0 <= k < index ==> stepField[k] == if k == target then 0.0 else MaxCost
      invariant forall k :: 0 <= k < index ==> flowField[k] == Zero2
    {
      stepField[index] := if index == target then 0.0 else MaxCost;
      flowField[index] := Zero2;
    }
  }

  // ---------------------------------------------------------------------
  // GenerateCostField: the specification

  /** All entries name tiles of an n-tile grid. */
  ghost predicate Indexed(entries: seq<NextIndex>, n: int) {
    forall j :: 0 <= j < |entries| ==> 0 <= entries[j].index < n
  }

  /** Every direction of dirs leads from index to a tile of an n-tile
      grid. */
  ghost predicate InRange(n: int, index: int, width: int, dirs: seq<Direction>) {
    forall j :: 0 <= j < |dirs| ==> 0 <= index + DirectionOffset(width, dirs[j]) < n
  }

  ghost predicate NonNegative(costs: seq<real>) {
    forall k :: 0 <= k < |costs| ==> 0.0 <= costs[k]
  }

  /** The costs and the list being filled while one round runs. */
  datatype Wave = Wave(step: seq<real>, next: seq<NextIndex>)

  /** The costs and both frontier lists between rounds. */
  datatype CostState = CostState(step: seq<real>, openSet: seq<NextIndex>, nextSet: seq<NextIndex>)

  /** b is a with entries appended. */
  ghost predicate Extends(a: seq<NextIndex>, b: seq<NextIndex>) {
    |a| <= |b| && b[..|a|] == a
  }

  /** The step from index in direction d, with existing the cost of index
      when its expansion began: the neighbour takes the candidate cost and
      joins the next frontier, carrying the step's code modification, only
      when the candidate is below Hysteresis times its stored cost. */
  ghost function Relax(tiles: seq<MapTile>, width: int, w: Wave, index: int, existing: real, d: Direction): (r: Wave)
    requires |w.step| == |tiles| && 0 <= index + DirectionOffset(width, d) < |tiles|
    ensures |r.step| == |w.step|
  {
    var newIndex := index + DirectionOffset(width, d);
    var cost := Candidate(tiles[newIndex], DirectionLength(d), existing);
    if cost >= w.step[newIndex] * Hysteresis then w
    else Wave(w.step[newIndex := cost], w.next + [NextIndex(newIndex, CodeModification(d))])
  }

  /** The steps from index in the directions of dirs, in order. */
  ghost function ExpandDirs(tiles: seq<MapTile>, width: int, w: Wave, index: int, existing: real,
                            dirs: seq<Direction>): (r: Wave)
    requires |w.step| == |tiles| && InRange(|tiles|, index, width, dirs)
    ensures |r.step| == |w.step|
    decreases |dirs|
  {
    if dirs == [] then w
    else
      var last := |dirs| - 1;
      Relax(tiles, width, ExpandDirs(tiles, width, w, index, existing, dirs[..last]), index, existing, dirs[last])
  }

  /** The code whose clear bits an entry expands: its tile's code with the
      entry's modifier OR-ed in. */
  function EntryCode(tiles: seq<MapTile>, e: NextIndex): bv8
    requires 0 <= e.index < |tiles|
  {
    tiles[e.index].availableDirectionsCode | e.codeModifier
  }

  /** With safe codes, every direction an entry expands stays on the
      grid. */
  lemma EntryRunSafe(tiles: seq<MapTile>, width: int, e: NextIndex)
    requires SafeCodes(tiles, width) && 0 <= e.index < |tiles|
    ensures InRange(|tiles|, e.index, width, FreeDirections(EntryCode(tiles, e)))
  {
    var dirs := FreeDirections(EntryCode(tiles, e));
    FreeDirectionsSpec(EntryCode(tiles, e));
    forall j | 0 <= j < |dirs|
      ensures 0 <= e.index + DirectionOffset(width, dirs[j]) < |tiles|
    {
      assert dirs[j] in dirs;
      MaskKeepsBlocked(tiles[e.index].availableDirectionsCode, e.codeModifier, dirs[j]);
    }
  }

  /** A direction clear after a mask is OR-ed in was clear before. */
  lemma MaskKeepsBlocked(code: bv8, mask: bv8, d: Direction)
    ensures IsBlocked(code | mask, d) <==> IsBlocked(code, d) || IsBlocked(mask, d)
  {
  }

  /** The expansion of one frontier entry, reading its cost when it
      starts. An entry naming no tile is passed over; the job never holds
      one (see SweepGrows). */
  ghost function Expand(tiles: seq<MapTile>, width: int, w: Wave, e: NextIndex): (r: Wave)
    requires SafeCodes(tiles, width) && |w.step| == |tiles|
    ensures |r.step| == |w.step|
  {
    if !(0 <= e.index < |tiles|) then w
    else
      EntryRunSafe(tiles, width, e);
      ExpandDirs(tiles, width, w, e.index, w.step[e.index], FreeDirections(EntryCode(tiles, e)))
  }

  /** The expansions of the entries, in order. */
  ghost function Sweep(tiles: seq<MapTile>, width: int, w: Wave, entries: seq<NextIndex>): (r: Wave)
    requires SafeCodes(tiles, width) && |w.step| == |tiles|
    ensures |r.step| == |w.step|
    decreases |entries|
  {
    if entries == [] then w
    else
      var last := |entries| - 1;
      Expand(tiles, width, Sweep(tiles, width, w, entries[..last]), entries[last])
  }

  /** One round: expand the open set into the next set, then swap the two
      lists and clear the new next set. */
  ghost function Round(tiles: seq<MapTile>, width: int, s: CostState): (r: CostState)
    requires SafeCodes(tiles, width) && |s.step| == |tiles|
    ensures |r.step| == |s.step| && r.nextSet == []
  {
    var w := Sweep(tiles, width, Wave(s.step, s.nextSet), s.openSet);
    CostState(w.step, w.next, [])
  }

  /** Rounds until the open set is empty, at most the given number. */
  ghost function Propagate(tiles: seq<MapTile>, width: int, s: CostState, rounds: nat): (r: CostState)
    requires SafeCodes(tiles, width) && |s.step| == |tiles|
    ensures |r.step| == |s.step|
    decreases rounds
  {
    if s.openSet == [] || rounds == 0 then s
    else Propagate(tiles, width, Round(tiles, width, s), rounds - 1)
  }

  // ---------------------------------------------------------------------
  // GenerateCostField: what the specification promises

  /** What c appends to a is what b appends to a followed by what c
      appends to b, when b extends a and c extends b. */
  lemma AppendedSplit(a: seq<NextIndex>, b: seq<NextIndex>, c: seq<NextIndex>)
    requires Extends(a, b) && Extends(b, c)
    ensures Extends(a, c) && c[|a|..] == b[|a|..] + c[|b|..]
  {
    assert c[..|a|] == c[..|b|][..|a|];
    assert c[|a|..] == c[|a|..|b|] + c[|b|..];
  }

  /** A step only appends to the next frontier, and what it appends names a
      tile of the grid. */
  lemma RelaxGrows(tiles: seq<MapTile>, width: int, w: Wave, index: int, existing: real, d: Direction)
    requires |w.step| == |tiles| && 0 <= index + DirectionOffset(width, d) < |tiles|
    ensures var r := Relax(tiles, width, w, index, existing, d);
      Extends(w.next, r.next) && (Indexed(w.next, |tiles|) ==> Indexed(r.next, |tiles|))
  {
    var r := Relax(tiles, width, w, index, existing, d);
    assert r.next[..|w.next|] == w.next;
  }

  /** Expanding along dirs only appends entries naming tiles of the
      grid. */
  lemma {:induction false} ExpandDirsGrows(tiles: seq<MapTile>, width: int, w: Wave, index: int, existing: real,
                                           dirs: seq<Direction>)
    requires |w.step| == |tiles| && InRange(|tiles|, index, width, dirs)
    ensures var r := ExpandDirs(tiles, width, w, index, existing, dirs);
      Extends(w.next, r.next) && (Indexed(w.next, |tiles|) ==> Indexed(r.next, |tiles|))
    decreases |dirs|
  {
    if dirs == [] {
      assert w.next[..|w.next|] == w.next;
    } else {
      var last := |dirs| - 1;
      var m := ExpandDirs(tiles, width, w, index, existing, dirs[..last]);
      ExpandDirsGrows(tiles, width, w, index, existing, dirs[..last]);
      RelaxGrows(tiles, width, m, index, existing, dirs[last]);
      AppendedSplit(w.next, m.next, Relax(tiles, width, m, index, existing, dirs[last]).next);
    }
  }

  /** Expanding an entry only appends entries naming tiles of the grid. */
  lemma ExpandGrows(tiles: seq<MapTile>, width: int, w: Wave, e: NextIndex)
    requires SafeCodes(tiles, width) && |w.step| == |tiles|
    ensures var r := Expand(tiles, width, w, e);
      Extends(w.next, r.next) && (Indexed(w.next, |tiles|) ==> Indexed(r.next, |tiles|))
  {
    if 0 <= e.index < |tiles| {
      EntryRunSafe(tiles, width, e);
      ExpandDirsGrows(tiles, width, w, e.index, w.step[e.index], FreeDirections(EntryCode(tiles, e)));
    } else {
      assert w.next[..|w.next|] == w.next;
    }
  }

  /** A sweep only appends to the next frontier, and every entry it appends
      names a tile of the grid: started from in-range lists, the lists stay
      in range, so no entry is ever passed over. */
  lemma {:induction false} SweepGrows(tiles: seq<MapTile>, width: int, w: Wave, entries: seq<NextIndex>)
    requires SafeCodes(tiles, width) && |w.step| == |tiles|
    ensures var r := Sweep(tiles, width, w, entries);
      Extends(w.next, r.next) && (Indexed(w.next, |tiles|) ==> Indexed(r.next, |tiles|))
    decreases |entries|
  {
    if entries == [] {
      assert w.next[..|w.next|] == w.next;
    } else {
      var last := |entries| - 1;
      var m := Sweep(tiles, width, w, entries[..last]);
      SweepGrows(tiles, width, w, entries[..last]);
      ExpandGrows(tiles, width, m, entries[last]);
      AppendedSplit(w.next, m.next, Expand(tiles, width, m, entries[last]).next);
    }
  }

  /** From before to after no cost grows or turns negative, every added
      entry names a tile whose cost fell below Hysteresis times its cost
      before, and every tile whose cost changed is named by an added
      entry. */
  ghost predicate Improvement(before: seq<real>, after: seq<real>, added: seq<NextIndex>) {
    && |after| == |before|
    && (forall k :: 0 <= k < |before| ==> 0.0 <= after[k] <= before[k])
    && (forall j :: 0 <= j < |added| ==>
          0 <= added[j].index < |before| && after[added[j].index] < Hysteresis * before[added[j].index])
    && (forall k :: 0 <= k < |before| && after[k] != before[k] ==>
          exists j :: 0 <= j < |added| && added[j].index == k)
  }

  /** Nothing changed is an improvement of non-negative costs. */
  lemma ImprovementNone(costs: seq<real>)
    requires NonNegative(costs)
    ensures Improvement(costs, costs, [])
  {
  }

  /** Improvements compose. */
  lemma ImprovementTrans(a: seq<real>, b: seq<real>, c: seq<real>, x: seq<NextIndex>, y: seq<NextIndex>)
    requires Improvement(a, b, x) && Improvement(b, c, y)
    ensures Improvement(a, c, x + y)
  {
    var xy := x + y;
    forall j | 0 <= j < |xy|
      ensures 0 <= xy[j].index < |a| && c[xy[j].index] < Hysteresis * a[xy[j].index]
    {
      if j < |x| {
        assert xy[j] == x[j];
      } else {
        assert xy[j] == y[j - |x|];
      }
    }
    forall k | 0 <= k < |a| && c[k] != a[k]
      ensures exists j :: 0 <= j < |xy| && xy[j].index == k
    {
      if b[k] != a[k] {
        var j :| 0 <= j < |x| && x[j].index == k;
        assert xy[j] == x[j];
      } else {
        var j :| 0 <= j < |y| && y[j].index == k;
        assert xy[|x| + j] == y[j];
      }
    }
  }

  /** e is the step from index in direction d, carrying d's code
      modification. */
  ghost predicate IsStep(e: NextIndex, index: int, width: int, d: Direction) {
    e == NextIndex(index + DirectionOffset(width, d), CodeModification(d))
  }

  /** e is the step from index in one of the directions of dirs. */
  ghost predicate StepIn(e: NextIndex, index: int, width: int, dirs: seq<Direction>) {
    exists d: Direction :: d in dirs && IsStep(e, index, width, d)
  }

  /** Every entry of added is the step from index in one of the directions
      of dirs. */
  ghost predicate StepsFrom(added: seq<NextIndex>, index: int, width: int, dirs: seq<Direction>) {
    forall j :: 0 <= j < |added| ==> StepIn(added[j], index, width, dirs)
  }

  lemma StepsFromJoin(x: seq<NextIndex>, y: seq<NextIndex>, index: int, width: int, a: seq<Direction>, b: seq<Direction>)
    requires StepsFrom(x, index, width, a) && StepsFrom(y, index, width, b)
    ensures StepsFrom(x + y, index, width, a + b)
  {
    forall j | 0 <= j < |x + y|
      ensures StepIn((x + y)[j], index, width, a + b)
    {
      if j < |x| {
        assert StepIn(x[j], index, width, a);
        var d: Direction :| d in a && IsStep(x[j], index, width, d);
        assert (x + y)[j] == x[j] && d in a + b;
        assert IsStep((x + y)[j], index, width, d);
      } else {
        assert StepIn(y[j - |x|], index, width, b);
        var d: Direction :| d in b && IsStep(y[j - |x|], index, width, d);
        assert (x + y)[j] == y[j - |x|] && d in a + b;
        assert IsStep((x + y)[j], index, width, d);
      }
    }
  }

  /** One step improves non-negative costs when the expanded tile's cost is
      non-negative. */
  lemma RelaxImproves(tiles: seq<MapTile>, width: int, w: Wave, index: int, existing: real, d: Direction)
    requires |w.step| == |tiles| && 0 <= index + DirectionOffset(width, d) < |tiles|
    requires NonNegative(w.step) && 0.0 <= existing
    ensures var r := Relax(tiles, width, w, index, existing, d);
      Extends(w.next, r.next) && Improvement(w.step, r.step, r.next[|w.next|..])
  {
    RelaxGrows(tiles, width, w, index, existing, d);
    var r := Relax(tiles, width, w, index, existing, d);
    var newIndex := index + DirectionOffset(width, d);
    DirectionLengthSpec(d);
    var cost := Candidate(tiles[newIndex], DirectionLength(d), existing);
    assert 0.0 <= cost;
    if cost < w.step[newIndex] * Hysteresis {
      assert r.next[|w.next|..] == [NextIndex(newIndex, CodeModification(d))];
      assert r.next[|w.next|..][0].index == newIndex;
    } else {
      assert r.next[|w.next|..] == [];
    }
  }

  /** The entry a step appends, if any, is the step in its direction. */
  lemma RelaxSteps(tiles: seq<MapTile>, width: int, w: Wave, index: int, existing: real, d: Direction)
    requires |w.step| == |tiles| && 0 <= index + DirectionOffset(width, d) < |tiles|
    ensures var r := Relax(tiles, width, w, index, existing, d);
      Extends(w.next, r.next) && StepsFrom(r.next[|w.next|..], index, width, [d])
  {
    RelaxGrows(tiles, width, w, index, existing, d);
    var r := Relax(tiles, width, w, index, existing, d);
    var added := r.next[|w.next|..];
    if added != [] {
      assert added == [NextIndex(index + DirectionOffset(width, d), CodeModification(d))];
      assert d in [d] && IsStep(added[0], index, width, d);
    }
  }

  /** Expanding along dirs improves non-negative costs. */
  lemma {:induction false} ExpandDirsImproves(tiles: seq<MapTile>, width: int, w: Wave, index: int, existing: real,
                                              dirs: seq<Direction>)
    requires |w.step| == |tiles| && InRange(|tiles|, index, width, dirs)
    requires NonNegative(w.step) && 0.0 <= existing
    ensures var r := ExpandDirs(tiles, width, w, index, existing, dirs);
      Extends(w.next, r.next) && Improvement(w.step, r.step, r.next[|w.next|..])
    decreases |dirs|
  {
    if dirs == [] {
      ImprovementNone(w.step);
      assert w.next[..|w.next|] == w.next && w.next[|w.next|..] == [];
    } else {
      var last := |dirs| - 1;
      var m := ExpandDirs(tiles, width, w, index, existing, dirs[..last]);
      ExpandDirsImproves(tiles, width, w, index, existing, dirs[..last]);
      RelaxImproves(tiles, width, m, index, existing, dirs[last]);
      var r := Relax(tiles, width, m, index, existing, dirs[last]);
      ImprovementTrans(w.step, m.step, r.step, m.next[|w.next|..], r.next[|m.next|..]);
      AppendedSplit(w.next, m.next, r.next);
    }
  }

  /** Expanding along dirs appends only steps along dirs. */
  lemma {:induction false} ExpandDirsSteps(tiles: seq<MapTile>, width: int, w: Wave, index: int, existing: real,
                                           dirs: seq<Direction>)
    requires |w.step| == |tiles| && InRange(|tiles|, index, width, dirs)
    ensures var r := ExpandDirs(tiles, width, w, index, existing, dirs);
      Extends(w.next, r.next) && StepsFrom(r.next[|w.next|..], index, width, dirs)
    decreases |dirs|
  {
    if dirs == [] {
      assert w.next[..|w.next|] == w.next && w.next[|w.next|..] == [];
    } else {
      var last := |dirs| - 1;
      var m := ExpandDirs(tiles, width, w, index, existing, dirs[..last]);
      ExpandDirsSteps(tiles, width, w, index, existing, dirs[..last]);
      RelaxSteps(tiles, width, m, index, existing, dirs[last]);
      var r := Relax(tiles, width, m, index, existing, dirs[last]);
      StepsFromJoin(m.next[|w.next|..], r.next[|m.next|..], index, width, dirs[..last], [dirs[last]]);
      AppendedSplit(w.next, m.next, r.next);
      assert dirs[..last] + [dirs[last]] == dirs;
    }
  }

  /** Expanding an entry improves non-negative costs. */
  lemma ExpandImproves(tiles: seq<MapTile>, width: int, w: Wave, e: NextIndex)
    requires SafeCodes(tiles, width) && |w.step| == |tiles| && NonNegative(w.step)
    ensures var r := Expand(tiles, width, w, e);
      Extends(w.next, r.next) && Improvement(w.step, r.step, r.next[|w.next|..])
  {
    if 0 <= e.index < |tiles| {
      EntryRunSafe(tiles, width, e);
      ExpandDirsImproves(tiles, width, w, e.index, w.step[e.index], FreeDirections(EntryCode(tiles, e)));
    } else {
      ImprovementNone(w.step);
      assert w.next[..|w.next|] == w.next && w.next[|w.next|..] == [];
    }
  }

  /** Expanding an entry tries only directions clear in its tile's code
      and not masked by its modifier: each appended entry is the step in
      such a direction, carrying that direction's code modification. */
  lemma ExpandSteps(tiles: seq<MapTile>, width: int, w: Wave, e: NextIndex)
    requires SafeCodes(tiles, width) && |w.step| == |tiles| && 0 <= e.index < |tiles|
    ensures var r := Expand(tiles, width, w, e);
      && Extends(w.next, r.next)
      && forall j :: |w.next| <= j < |r.next| ==> exists d: Direction ::
        && !IsBlocked(tiles[e.index].availableDirectionsCode, d) && !IsBlocked(e.codeModifier, d)
        && IsStep(r.next[j], e.index, width, d)
  {
    EntryRunSafe(tiles, width, e);
    var dirs := FreeDirections(EntryCode(tiles, e));
    var r := Expand(tiles, width, w, e);
    ExpandDirsSteps(tiles, width, w, e.index, w.step[e.index], dirs);
    FreeDirectionsSpec(EntryCode(tiles, e));
    forall j | |w.next| <= j < |r.next|
      ensures exists d: Direction ::
        && !IsBlocked(tiles[e.index].availableDirectionsCode, d) && !IsBlocked(e.codeModifier, d)
        && IsStep(r.next[j], e.index, width, d)
    {
      assert r.next[j] == r.next[|w.next|..][j - |w.next|];
      assert StepIn(r.next[j], e.index, width, dirs);
      var d: Direction :| d in dirs && IsStep(r.next[j], e.index, width, d);
      MaskKeepsBlocked(tiles[e.index].availableDirectionsCode, e.codeModifier, d);
    }
  }

  /** A sweep over a list of entries improves non-negative costs. */
  lemma {:induction false} SweepImproves(tiles: seq<MapTile>, width: int, w: Wave, entries: seq<NextIndex>)
    requires SafeCodes(tiles, width) && |w.step| == |tiles| && NonNegative(w.step)
    ensures var r := Sweep(tiles, width, w, entries);
      Extends(w.next, r.next) && Improvement(w.step, r.step, r.next[|w.next|..])
    decreases |entries|
  {
    if entries == [] {
      ImprovementNone(w.step);
      assert w.next[..|w.next|] == w.next && w.next[|w.next|..] == [];
    } else {
      var last := |entries| - 1;
      var m := Sweep(tiles, width, w, entries[..last]);
      SweepImproves(tiles, width, w, entries[..last]);
      ExpandImproves(tiles, width, m, entries[last]);
      var r := Expand(tiles, width, m, entries[last]);
      ImprovementTrans(w.step, m.step, r.step, m.next[|w.next|..], r.next[|m.next|..]);
      AppendedSplit(w.next, m.next, r.next);
    }
  }

  /** After a round the next set is empty and the open set holds the old
      next set followed by the entries appended that round; those entries
      name exactly the tiles whose cost fell, each below Hysteresis times
      its cost before the round. */
  lemma RoundImproves(tiles: seq<MapTile>, width: int, s: CostState)
    requires SafeCodes(tiles, width) && |s.step| == |tiles| && NonNegative(s.step)
    ensures var r := Round(tiles, width, s);
      && r.nextSet == []
      && Extends(s.nextSet, r.openSet)
      && Improvement(s.step, r.step, r.openSet[|s.nextSet|..])
  {
    SweepImproves(tiles, width, Wave(s.step, s.nextSet), s.openSet);
  }

  /** Over any number of rounds costs never grow and stay non-negative. */
  lemma {:induction false} PropagateLowers(tiles: seq<MapTile>, width: int, s: CostState, rounds: nat)
    requires SafeCodes(tiles, width) && |s.step| == |tiles| && NonNegative(s.step)
    ensures var r := Propagate(tiles, width, s, rounds);
      forall k :: 0 <= k < |s.step| ==> 0.0 <= r.step[k] <= s.step[k]
    decreases rounds
  {
    if s.openSet != [] && rounds != 0 {
      var m := Round(tiles, width, s);
      RoundImproves(tiles, width, s);
      PropagateLowers(tiles, width, m, rounds - 1);
      PropagateRound(tiles, width, s, rounds);
    }
  }

  /** A propagation with rounds left and a non-empty open set is one round
      followed by the propagation with one round fewer. */
  lemma PropagateRound(tiles: seq<MapTile>, width: int, s: CostState, rounds: nat)
    requires SafeCodes(tiles, width) && |s.step| == |tiles| && s.openSet != [] && 0 < rounds
    ensures Propagate(tiles, width, s, rounds) == Propagate(tiles, width, Round(tiles, width, s), rounds - 1)
  {
  }

  /** A propagation with an empty open set or no rounds left leaves the
      state as it is. */
  lemma PropagateStops(tiles: seq<MapTile>, width: int, s: CostState, rounds: nat)
    requires SafeCodes(tiles, width) && |s.step| == |tiles| && (s.openSet == [] || rounds == 0)
    ensures Propagate(tiles, width, s, rounds) == s
  {
  }

  /** Started from a reset field, the target keeps cost 0 and every cost
      stays between 0 and MaxCost, however many rounds run. */
  lemma TargetKeepsZeroCost(tiles: seq<MapTile>, width: int, target: int, openSet: seq<NextIndex>,
                            nextSet: seq<NextIndex>, rounds: nat)
    requires SafeCodes(tiles, width) && 0 <= target < |tiles|
    ensures var r := Propagate(tiles, width, CostState(InitialCosts(|tiles|, target), openSet, nextSet), rounds);
      && r.step[target] == 0.0
      && forall k :: 0 <= k < |tiles| ==> 0.0 <= r.step[k] <= MaxCost
  {
    PropagateLowers(tiles, width, CostState(InitialCosts(|tiles|, target), openSet, nextSet), rounds);
  }

  /** The steps from index in the directions of dirs leave the cost of a
      tile none of them reaches as it was. */
  lemma {:induction false} ExpandDirsKeeps(tiles: seq<MapTile>, width: int, w: Wave, index: int, existing: real,
                                           dirs: seq<Direction>, k: int)
    requires |w.step| == |tiles| && InRange(|tiles|, index, width, dirs) && 0 <= k < |tiles|
    requires forall j :: 0 <= j < |dirs| ==> index + DirectionOffset(width, dirs[j]) != k
    ensures ExpandDirs(tiles, width, w, index, existing, dirs).step[k] == w.step[k]
    decreases |dirs|
  {
    if dirs != [] {
      ExpandDirsKeeps(tiles, width, w, index, existing, dirs[..|dirs| - 1], k);
    }
  }

  /** The expansions of the entries leave the cost of a tile that no open
      direction enters as it was: an entry's modifier only closes
      directions. */
  lemma {:induction false} SweepKeeps(tiles: seq<MapTile>, width: int, w: Wave, entries: seq<NextIndex>, k: int)
    requires SafeCodes(tiles, width) && |w.step| == |tiles| && 0 <= k < |tiles| && Unentered(tiles, width, k)
    ensures Sweep(tiles, width, w, entries).step[k] == w.step[k]
    decreases |entries|
  {
    if entries != [] {
      var e, m := entries[|entries| - 1], Sweep(tiles, width, w, entries[..|entries| - 1]);
      SweepKeeps(tiles, width, w, entries[..|entries| - 1], k);
      if 0 <= e.index < |tiles| {
        var dirs := FreeDirections(EntryCode(tiles, e));
        EntryRunSafe(tiles, width, e);
        FreeDirectionsSpec(EntryCode(tiles, e));
        forall j | 0 <= j < |dirs|
          ensures e.index + DirectionOffset(width, dirs[j]) != k
        {
          assert dirs[j] in dirs;
          MaskKeepsBlocked(tiles[e.index].availableDirectionsCode, e.codeModifier, dirs[j]);
        }
        ExpandDirsKeeps(tiles, width, m, e.index, m.step[e.index], dirs, k);
      }
    }
  }

  /** Over any number of rounds the cost of a tile that no open direction
      enters never changes. */
  lemma {:induction false} PropagateKeeps(tiles: seq<MapTile>, width: int, s: CostState, rounds: nat, k: int)
    requires SafeCodes(tiles, width) && |s.step| == |tiles| && 0 <= k < |tiles| && Unentered(tiles, width, k)
    ensures Propagate(tiles, width, s, rounds).step[k] == s.step[k]
    decreases rounds
  {
    if s.openSet != [] && rounds != 0 {
      SweepKeeps(tiles, width, Wave(s.step, s.nextSet), s.openSet, k);
      PropagateKeeps(tiles, width, Round(tiles, width, s), rounds - 1, k);
    }
  }

  /** On a grid with generated codes, started from a reset field, every
      wall other than the target keeps cost MaxCost: the wave never
      enters a wall. */
  lemma WallsKeepMaxCost(grid: MapData, target: int, openSet: seq<NextIndex>, nextSet: seq<NextIndex>, rounds: nat)
    requires grid.Shaped() && CodesGenerated(grid)
    ensures SafeCodes(grid.tiles[..], grid.width)
    ensures var tiles := grid.tiles[..];
      var r := Propagate(tiles, grid.width, CostState(InitialCosts(|tiles|, target), openSet, nextSet), rounds);
      forall k :: 0 <= k < |tiles| && k != target && grid.IsWallIndex(k) ==> r.step[k] == MaxCost
  {
    var tiles := grid.tiles[..];
    GeneratedCodesSafe(grid);
    GeneratedWallsUnentered(grid);
    forall k | 0 <= k < |tiles| && k != target && grid.IsWallIndex(k)
      ensures Propagate(tiles, grid.width, CostState(InitialCosts(|tiles|, target), openSet, nextSet), rounds).step[k] == MaxCost
    {
      PropagateKeeps(tiles, grid.width, CostState(InitialCosts(|tiles|, target), openSet, nextSet), rounds, k);
    }
  }

  // ---------------------------------------------------------------------
  // GenerateCostField: the job

  /** Expand one frontier entry over the run of its modified code, read
      from the direction table. */
  method ExpandEntry(grid: MapData, stepField: array<real>, nextSet: seq<NextIndex>, entry: NextIndex)
    returns (next: seq<NextIndex>)
    requires grid.Shaped() && grid.width <= MaxWidth && grid.mapDataBlob.RunsListed(grid.width)
    requires SafeCodes(grid.tiles[..], grid.width)
    requires stepField.Length == grid.tiles.Length && 0 <= entry.index < stepField.Length
    modifies stepField
    ensures Wave(stepField[..], next) == Expand(grid.tiles[..], grid.width, Wave(old(stepField[..]), nextSet), entry)
  {
    var index := entry.index;
    var existingCost := stepField[index];
    var code := grid.tiles[index].availableDirectionsCode | entry.codeModifier;
    var dirs := grid.mapDataBlob.codeStartEndIndex[code as int];
    ghost var tiles, w0 := grid.tiles[..], Wave(stepField[..], nextSet);
    assert code == EntryCode(tiles, entry);
    EntryRunSafe(tiles, grid.width, entry);
    assert grid.mapDataBlob.RunListed(grid.width, dirs, FreeDirections(code));
    assert Expand(tiles, grid.width, w0, entry) == ExpandDirs(tiles, grid.width, w0, index, existingCost, FreeDirections(code));
    next := ExpandRun(grid, stepField, nextSet, index, existingCost, dirs, FreeDirections(code));
  }

  /** The inner loop: the steps from index along the run of the direction
      table between dirs.startIndex and dirs.endIndex, which lists the
      directions of run. */
  method ExpandRun(grid: MapData, stepField: array<real>, nextSet: seq<NextIndex>, index: int, existingCost: real,
                   dirs: CodeData, ghost run: seq<Direction>) returns (next: seq<NextIndex>)
    requires grid.Shaped() && grid.width <= MaxWidth && stepField.Length == grid.tiles.Length
    requires grid.mapDataBlob.RunListed(grid.width, dirs, run)
    requires InRange(stepField.Length, index, grid.width, run)
    modifies stepField
    ensures Wave(stepField[..], next) ==
      ExpandDirs(grid.tiles[..], grid.width, Wave(old(stepField[..]), nextSet), index, existingCost, run)
  {
    ghost var w0 := Wave(stepField[..], nextSet);
    next := nextSet;
    for i := dirs.startIndex to dirs.endIndex
      invariant Wave(stepField[..], next) ==
        ExpandDirs(grid.tiles[..], grid.width, w0, index, existingCost, run[..i - dirs.startIndex])
    {
      ghost var d := run[i - dirs.startIndex];
      assert run[..i + 1 - dirs.startIndex] == run[..i - dirs.startIndex] + [d];
      var directionData := grid.mapDataBlob.directionData[i];
      next := TryNeighbour(grid, stepField, next, index, existingCost, directionData, d);
    }
    assert run[..dirs.endIndex - dirs.startIndex] == run;
  }

  /** The body of the inner loop: the step from index along one run entry
      lowers the neighbour's cost and appends it to the next set when the
      candidate beats Hysteresis times its stored cost. */
  method TryNeighbour(grid: MapData, stepField: array<real>, nextSet: seq<NextIndex>, index: int, existingCost: real,
                      directionData: DirectionData, ghost d: Direction) returns (next: seq<NextIndex>)
    requires grid.Shaped() && 0 <= grid.width <= MaxWidth && stepField.Length == grid.tiles.Length
    requires directionData == Entry(grid.width, d)
    requires 0 <= index + DirectionOffset(grid.width, d) < stepField.Length
    modifies stepField
    ensures Wave(stepField[..], next) ==
      Relax(grid.tiles[..], grid.width, Wave(old(stepField[..]), nextSet), index, existingCost, d)
  {
    ShortOffsetExact(grid.width, d);
    var newIndex := index + directionData.moveDirectionIndexOffset;
    var cost := Candidate(grid.tiles[newIndex], directionData.directionLength, existingCost);
    next := nextSet;
    if cost < stepField[newIndex] * Hysteresis {
      stepField[newIndex] := cost;
      next := next + [NextIndex(newIndex, directionData.codeModifications)];
    }
  }

  /** The middle loop: expand every entry of the open set in order. */
  method SweepOpenSet(grid: MapData, stepField: array<real>, openSet: seq<NextIndex>, nextSet: seq<NextIndex>)
    returns (next: seq<NextIndex>)
    requires grid.Shaped() && grid.width <= MaxWidth && grid.mapDataBlob.RunsListed(grid.width)
    requires SafeCodes(grid.tiles[..], grid.width)
    requires stepField.Length == grid.tiles.Length
    requires Indexed(openSet, stepField.Length)
    modifies stepField
    ensures Wave(stepField[..], next) == Sweep(grid.tiles[..], grid.width, Wave(old(stepField[..]), nextSet), openSet)
  {
    ghost var tiles := grid.tiles[..];
    ghost var w0 := Wave(stepField[..], nextSet);
    next := nextSet;
    for j := 0 to |openSet|
      invariant Wave(stepField[..], next) == Sweep(tiles, grid.width, w0, openSet[..j])
    {
      assert openSet[..j + 1][..j] == openSet[..j];
      next := ExpandEntry(grid, stepField, next, openSet[j]);
    }
    assert openSet[..|openSet|] == openSet;
  }

  /** One pass of the outer loop: sweep the open set into the next set, then
      swap the lists and clear the new next set. */
  method CostRound(grid: MapData, field: FlowField)
    requires grid.Shaped() && grid.width <= MaxWidth && grid.mapDataBlob.RunsListed(grid.width)
    requires SafeCodes(grid.tiles[..], grid.width)
    requires field.stepField.Length == grid.tiles.Length
    requires Indexed(field.openSet, grid.tiles.Length) && Indexed(field.nextSet, grid.tiles.Length)
    modifies field, field.stepField
    ensures CostState(field.stepField[..], field.openSet, field.nextSet) ==
      Round(grid.tiles[..], grid.width, CostState(old(field.stepField[..]), old(field.openSet), old(field.nextSet)))
    ensures Indexed(field.openSet, grid.tiles.Length) && Indexed(field.nextSet, grid.tiles.Length)
    ensures field.targetTile == old(field.targetTile) && field.isValid == old(field.isValid)
  {
    SweepGrows(grid.tiles[..], grid.width, Wave(field.stepField[..], field.nextSet), field.openSet);
    var next := SweepOpenSet(grid, field.stepField, field.openSet, field.nextSet);
    var temp := field.openSet;
    field.openSet := next;
    field.nextSet := temp;
    field.nextSet := [];
  }

  /** GenerateCostField.Execute, run for at most maxRounds rounds: the
      costs and lists end as the specification's propagation leaves them,
      and the open set is empty unless every round was used. */
  method GenerateCostField(grid: MapData, field: FlowField, maxRounds: nat) returns (rounds: nat)
    requires grid.Shaped() && grid.width <= MaxWidth && grid.mapDataBlob.RunsListed(grid.width)
    requires SafeCodes(grid.tiles[..], grid.width)
    requires field.stepField.Length == grid.tiles.Length
    requires Indexed(field.openSet, grid.tiles.Length) && Indexed(field.nextSet, grid.tiles.Length)
    modifies field, field.stepField
    ensures CostState(field.stepField[..], field.openSet, field.nextSet) ==
      Propagate(grid.tiles[..], grid.width,
                CostState(old(field.stepField[..]), old(field.openSet), old(field.nextSet)), maxRounds)
    ensures rounds <= maxRounds && (field.openSet != [] ==> rounds == maxRounds)
    ensures field.targetTile == old(field.targetTile) && field.isValid == old(field.isValid)
  {
    ghost var tiles := grid.tiles[..];
    ghost var s0 := CostState(field.stepField[..], field.openSet, field.nextSet);
    ghost var s, left := s0, maxRounds;
    rounds := 0;
    while field.openSet != [] && rounds < maxRounds
      invariant rounds <= maxRounds && left == maxRounds - rounds
      invariant grid.tiles[..] == tiles && field.stepField.Length == |tiles| == |s.step|
      invariant Indexed(field.openSet, |tiles|) && Indexed(field.nextSet, |tiles|)
      invariant CostState(field.stepField[..], field.openSet, field.nextSet) == s
      invariant Propagate(tiles, grid.width, s, left) == Propagate(tiles, grid.width, s0, maxRounds)
      invariant field.targetTile == old(field.targetTile) && field.isValid == old(field.isValid)
      decreases maxRounds - rounds
    {
      PropagateRound(tiles, grid.width, s, left);
      CostRound(grid, field);
      assert Propagate(tiles, grid.width, Round(tiles, grid.width, s), left - 1) == Propagate(tiles, grid.width, s0, maxRounds);
      s, left := Round(tiles, grid.width, s), left - 1;
      rounds := rounds + 1;
    }
    PropagateStops(tiles, grid.width, s, left);
  }

  // ---------------------------------------------------------------------
  // GenerateFlowField

  /** With safe codes, every direction of a tile's own run stays on the
      grid. */
  lemma TileRunSafe(tiles: seq<MapTile>, width: int, index: int)
    requires SafeCodes(tiles, width) && 0 <= index < |tiles|
    ensures InRange(|tiles|, index, width, FreeDirections(tiles[index].availableDirectionsCode))
  {
    FreeDirectionsSpec(tiles[index].availableDirectionsCode);
  }

  /** The cost of the neighbour of index in direction d. */
  ghost function NeighbourCost(step: seq<real>, index: int, width: int, d: Direction): real
    requires 0 <= index + DirectionOffset(width, d) < |step|
  {
    step[index + DirectionOffset(width, d)]
  }

  /** The costs of the neighbours of index along dirs, in order. */
  ghost function NeighbourCosts(step: seq<real>, index: int, width: int, dirs: seq<Direction>): (c: seq<real>)
    requires InRange(|step|, index, width, dirs)
    ensures |c| == |dirs| && forall j :: 0 <= j < |dirs| ==> c[j] == NeighbourCost(step, index, width, dirs[j])
  {
    seq(|dirs|, j requires 0 <= j < |dirs| => NeighbourCost(step, index, width, dirs[j]))
  }

  /** costs[j] is the first least cost of costs, and it is below own. */
  ghost predicate FirstCheapest(costs: seq<real>, own: real, j: int)
    requires 0 <= j < |costs|
  {
    && costs[j] < own
    && (forall i :: 0 <= i < j ==> costs[i] > costs[j])
    && (forall i :: j < i < |costs| ==> costs[i] >= costs[j])
  }

  /** v is the flow vector of the tile at index: zero when no neighbour in
      the tile's run is strictly cheaper than the tile, otherwise the unit
      vector of the first cheapest one. */
  ghost predicate IsFlowVector(tiles: seq<MapTile>, width: int, step: seq<real>, index: int, v: Float2)
    requires SafeCodes(tiles, width) && |step| == |tiles| && 0 <= index < |tiles|
  {
    var dirs := FreeDirections(tiles[index].availableDirectionsCode);
    TileRunSafe(tiles, width, index);
    var costs := NeighbourCosts(step, index, width, dirs);
    if forall j :: 0 <= j < |costs| ==> costs[j] >= step[index] then v == Zero2
    else exists j :: 0 <= j < |costs| && FirstCheapest(costs, step[index], j) && v == UnitVector(dirs[j])
  }

  /** The position of the first least cost in costs, or -1 when costs is
      empty. */
  function FirstMin(costs: seq<real>): (j: int)
    ensures -1 <= j < |costs| && (j == -1 <==> costs == [])
    decreases |costs|
  {
    if costs == [] then -1
    else
      var last := |costs| - 1;
      var j := FirstMin(costs[..last]);
      if j == -1 || costs[last] < costs[j] then last else j
  }

  /** FirstMin finds a least cost, and no earlier cost is as low. */
  lemma {:induction false} FirstMinIsFirstMinimal(costs: seq<real>)
    requires costs != []
    ensures var j := FirstMin(costs);
      && (forall i :: 0 <= i < j ==> costs[i] > costs[j])
      && (forall i :: j < i < |costs| ==> costs[i] >= costs[j])
    decreases |costs|
  {
    var last := |costs| - 1;
    var prefix := costs[..last];
    if prefix != [] {
      FirstMinIsFirstMinimal(prefix);
      assert forall i :: 0 <= i < last ==> costs[i] == prefix[i];
    }
  }

  /** The reference flow vector of the tile at index: the unit vector of the
      first cheapest neighbour in the tile's run when that neighbour costs
      less than the tile, zero otherwise. */
  ghost function FlowVector(tiles: seq<MapTile>, width: int, step: seq<real>, index: int): Float2
    requires SafeCodes(tiles, width) && |step| == |tiles| && 0 <= index < |tiles|
  {
    var dirs := FreeDirections(tiles[index].availableDirectionsCode);
    TileRunSafe(tiles, width, index);
    var costs := NeighbourCosts(step, index, width, dirs);
    var j := FirstMin(costs);
    if j != -1 && costs[j] < step[index] then UnitVector(dirs[j]) else Zero2
  }

  /** The reference vector is a flow vector. */
  lemma FlowVectorIsFlow(tiles: seq<MapTile>, width: int, step: seq<real>, index: int)
    requires SafeCodes(tiles, width) && |step| == |tiles| && 0 <= index < |tiles|
    ensures IsFlowVector(tiles, width, step, index, FlowVector(tiles, width, step, index))
  {
    var dirs := FreeDirections(tiles[index].availableDirectionsCode);
    TileRunSafe(tiles, width, index);
    var costs := NeighbourCosts(step, index, width, dirs);
    if costs != [] {
      FirstMinIsFirstMinimal(costs);
      var j := FirstMin(costs);
      if costs[j] < step[index] {
        assert FirstCheapest(costs, step[index], j);
      }
    }
  }

  /** A tile has one flow vector: two vectors that both satisfy the
      definition are equal. */
  lemma FlowVectorUnique(tiles: seq<MapTile>, width: int, step: seq<real>, index: int, u: Float2, v: Float2)
    requires SafeCodes(tiles, width) && |step| == |tiles| && 0 <= index < |tiles|
    requires IsFlowVector(tiles, width, step, index, u) && IsFlowVector(tiles, width, step, index, v)
    ensures u == v
  {
    var dirs := FreeDirections(tiles[index].availableDirectionsCode);
    TileRunSafe(tiles, width, index);
    var costs := NeighbourCosts(step, index, width, dirs);
    if !forall j :: 0 <= j < |costs| ==> costs[j] >= step[index] {
      var i :| 0 <= i < |costs| && FirstCheapest(costs, step[index], i) && u == UnitVector(dirs[i]);
      var j :| 0 <= j < |costs| && FirstCheapest(costs, step[index], j) && v == UnitVector(dirs[j]);
      if i < j || j < i {
        assert false;
      }
    }
  }

  /** The flow vector is zero exactly when no open neighbour of the tile is
      strictly cheaper than the tile itself. */
  lemma FlowVectorZero(tiles: seq<MapTile>, width: int, step: seq<real>, index: int)
    requires SafeCodes(tiles, width) && |step| == |tiles| && 0 <= index < |tiles|
    ensures FlowVector(tiles, width, step, index) == Zero2 <==>
      forall d: Direction :: !IsBlocked(tiles[index].availableDirectionsCode, d) ==>
        step[index + DirectionOffset(width, d)] >= step[index]
  {
    var code := tiles[index].availableDirectionsCode;
    var dirs := FreeDirections(code);
    TileRunSafe(tiles, width, index);
    var costs := NeighbourCosts(step, index, width, dirs);
    FreeDirectionsSpec(code);
    FlowVectorIsFlow(tiles, width, step, index);
    if forall j :: 0 <= j < |costs| ==> costs[j] >= step[index] {
      forall d: Direction | !IsBlocked(code, d)
        ensures step[index + DirectionOffset(width, d)] >= step[index]
      {
        var j :| 0 <= j < |dirs| && dirs[j] == d;
        assert costs[j] == step[index + DirectionOffset(width, d)];
      }
    } else {
      var j :| 0 <= j < |costs| && FirstCheapest(costs, step[index], j)
        && FlowVector(tiles, width, step, index) == UnitVector(dirs[j]);
      UnitVectorSigns(dirs[j]);
      assert dirs[j] in dirs;
      assert step[index + DirectionOffset(width, dirs[j])] < step[index];
    }
  }

  /** The loop of GenerateFlowField.Execute for a tile that is not a wall:
      scan the tile's run keeping the least cost seen (starting from the
      tile's own) and the vector of the first neighbour that lowered it. */
  method FlowAt(grid: MapData, stepField: array<real>, index: int) returns (v: Float2)
    requires grid.Shaped() && grid.width <= MaxWidth && grid.mapDataBlob.RunsListed(grid.width)
    requires SafeCodes(grid.tiles[..], grid.width)
    requires stepField.Length == grid.tiles.Length && 0 <= index < stepField.Length
    ensures v == FlowVector(grid.tiles[..], grid.width, stepField[..], index)
  {
    ghost var tiles, step := grid.tiles[..], stepField[..];
    var myCost := stepField[index];
    var minNeighborCost := myCost;
    var bestNeighborMoveDir := Float2(0.0, 0.0);
    var valid := false;
    var code := grid.tiles[index].availableDirectionsCode;
    var dirs := grid.mapDataBlob.codeStartEndIndex[code as int];
    assert grid.mapDataBlob.RunListed(grid.width, dirs, FreeDirections(code));
    TileRunSafe(tiles, grid.width, index);
    ghost var run := FreeDirections(code);
    ghost var costs := NeighbourCosts(step, index, grid.width, run);
    ghost var best := -1;
    for i := dirs.startIndex to dirs.endIndex
      invariant valid ==> i > dirs.startIndex
      invariant minNeighborCost <= myCost
      invariant forall j :: 0 <= j < i - dirs.startIndex ==> costs[j] >= minNeighborCost
      invariant best == -1 ==> minNeighborCost == myCost && bestNeighborMoveDir == Zero2
      invariant best != -1 ==> && 0 <= best < i - dirs.startIndex
                               && costs[best] == minNeighborCost < myCost
                               && bestNeighborMoveDir == UnitVector(run[best]) && valid
                               && forall j :: 0 <= j < best ==> costs[j] > minNeighborCost
    {
      ghost var d := run[i - dirs.startIndex];
      var directionData := grid.mapDataBlob.directionData[i];
      assert directionData == Entry(grid.width, d);
      ShortOffsetExact(grid.width, d);
      var cost := stepField[index + directionData.moveDirectionIndexOffset];
      assert cost == costs[i - dirs.startIndex];
      var checkCost := cost < minNeighborCost;
      minNeighborCost := if cost < minNeighborCost then cost else minNeighborCost;
      bestNeighborMoveDir := if checkCost then directionData.moveDirection else bestNeighborMoveDir;
      if checkCost {
        best := i - dirs.startIndex;
      }
      valid := true;
    }
    v := if valid then bestNeighborMoveDir else Zero2;
    assert IsFlowVector(tiles, grid.width, step, index, v);
    FlowVectorIsFlow(tiles, grid.width, step, index);
    FlowVectorUnique(tiles, grid.width, step, index, v, FlowVector(tiles, grid.width, step, index));
  }

  /** What GenerateFlowField leaves at tile k: a wall keeps its old entry,
      any other tile gets its flow vector. */
  ghost function FlowOrKeep(tiles: seq<MapTile>, width: int, step: seq<real>, before: seq<Float2>, k: int): Float2
    requires SafeCodes(tiles, width) && |step| == |tiles| == |before| && 0 <= k < |tiles|
  {
    if tiles[k].moveCost == WallCost then before[k] else FlowVector(tiles, width, step, k)
  }

  /** GenerateFlowField.Execute over every index: walls keep their vector,
      every other tile gets its flow vector. */
  method GenerateFlowField(grid: MapData, stepField: array<real>, flowField: array<Float2>)
    requires grid.Shaped() && grid.width <= MaxWidth && grid.mapDataBlob.RunsListed(grid.width)
    requires SafeCodes(grid.tiles[..], grid.width)
    requires stepField.Length == grid.tiles.Length && flowField.Length == grid.tiles.Length
    modifies flowField
    ensures forall k :: 0 <= k < flowField.Length && grid.IsWallIndex(k) ==> flowField[k] == old(flowField[k])
    ensures forall k :: 0 <= k < flowField.Length && !grid.IsWallIndex(k) ==>
      flowField[k] == FlowVector(grid.tiles[..], grid.width, stepField[..], k)
  {
    ghost var tiles, step, before := grid.tiles[..], stepField[..], flowField[..];
    ghost var done := before;
    for index := 0 to flowField.Length
      invariant flowField[..] == done
      invariant FlowFilled(tiles, grid.width, step, before, done, index)
    {
      FlowFilledStep(tiles, grid.width, step, before, done, index);
      if !grid.IsWallIndex(index) {
        var v := FlowAt(grid, stepField, index);
        flowField[index] := v;
      }
      done := done[index := FlowOrKeep(tiles, grid.width, step, before, index)];
    }
  }

  /** The state of GenerateFlowField's loop at index n: the tiles below n
      hold what the job leaves there, the others still hold their old
      vectors. */
  ghost predicate FlowFilled(tiles: seq<MapTile>, width: int, step: seq<real>, before: seq<Float2>,
                             done: seq<Float2>, n: nat)
  {
    && SafeCodes(tiles, width) && |step| == |tiles| == |before| == |done| && n <= |done|
    && (forall k :: n <= k < |done| ==> done[k] == before[k])
    && (forall k :: 0 <= k < n ==> done[k] == FlowOrKeep(tiles, width, step, before, k))
  }

  /** One iteration of GenerateFlowField's loop keeps its state; at a wall
      it leaves the tile's old vector in place. */
  lemma FlowFilledStep(tiles: seq<MapTile>, width: int, step: seq<real>, before: seq<Float2>,
                       done: seq<Float2>, n: nat)
    requires FlowFilled(tiles, width, step, before, done, n) && n < |done|
    ensures tiles[n].moveCost == WallCost ==> done[n := FlowOrKeep(tiles, width, step, before, n)] == done
    ensures FlowFilled(tiles, width, step, before, done[n := FlowOrKeep(tiles, width, step, before, n)], n + 1)
  {
  }
}
