/** The precomputed direction lookup table (MapDataBlob and its factory).

    For every 8-bit neighbour code the table holds a contiguous run of the
    directions whose bit is clear, in direction order, inside one shared
    pool; besides it there are the eight per-direction tables (move vector,
    linear index offset, step length and corner-cutting mask). */
module DirectionTable {
  import opened Components

  /** One of the eight movement directions N, NE, E, SE, S, SW, W, NW. */
  type Direction = d: int | 0 <= d < 8

  type PositiveReal = r: real | r > 0.0 witness 1.0

  /** The length of a diagonal step (math.SQRT2), kept abstract: the model
      relies only on its being positive. */
  const Sqrt2: PositiveReal

  /** The number of 8-bit neighbour codes. */
  const CodeCount := 256

  /** The number of run entries the factory allocates for all codes. */
  const PoolCapacity := 1024

  /** The widest grid whose direction offsets still fit the 16-bit field
      they are narrowed to. */
  const MaxWidth := 32766

  /** The unit grid step of direction d. */
  function MoveDirection(d: Direction): Int2 {
    match d
    case 0 => Int2(0, 1)
    case 1 => Int2(1, 1)
    case 2 => Int2(1, 0)
    case 3 => Int2(1, -1)
    case 4 => Int2(0, -1)
    case 5 => Int2(-1, -1)
    case 6 => Int2(-1, 0)
    case 7 => Int2(-1, 1)
  }

  /** Each direction is a unit step to one of the eight neighbours; even
      directions are orthogonal steps, odd ones diagonal. */
  lemma MoveDirectionSpec(d: Direction)
    ensures var m := MoveDirection(d);
      && -1 <= m.x <= 1 && -1 <= m.y <= 1 && m != Int2(0, 0)
      && (d % 2 == 0 <==> (m.x == 0 || m.y == 0))
  {
  }

  /** The eight steps are pairwise different. */
  lemma MoveDirectionsDistinct(d: Direction, e: Direction)
    requires MoveDirection(d) == MoveDirection(e)
    ensures d == e
  {
  }

  /** The direction pointing back the way d came. */
  function Opposite(d: Direction): Direction {
    (d + 4) % 8
  }

  lemma OppositeReverses(d: Direction)
    ensures MoveDirection(Opposite(d)) == Int2(-MoveDirection(d).x, -MoveDirection(d).y)
    ensures Opposite(Opposite(d)) == d
  {
  }

  /** The linear index delta of direction d on a grid of the given width,
      as the factory writes it out literally. */
  function DirectionOffset(width: int, d: Direction): int {
    match d
    case 0 => width
    case 1 => 1 + width
    case 2 => 1
    case 3 => 1 - width
    case 4 => -width
    case 5 => -1 - width
    case 6 => -1
    case 7 => -1 + width
  }

  /** The literal offsets are the move vectors flattened row by row. */
  lemma OffsetMatchesMove(width: int, d: Direction)
    ensures DirectionOffset(width, d) == MoveDirection(d).x + MoveDirection(d).y * width
  {
  }

  /** The (short) narrowing the factory applies to a stored offset:
      16-bit two's complement wrap-around. */
  function ToShort(x: int): int {
    (x + 32768) % 65536 - 32768
  }

  /** Up to MaxWidth the narrowed offsets are the true ones. */
  lemma ShortOffsetExact(width: int, d: Direction)
    requires 0 <= width <= MaxWidth
    ensures ToShort(DirectionOffset(width, d)) == DirectionOffset(width, d)
  {
  }

  /** One column more and the north-east offset wraps to a negative
      value. */
  lemma ShortOffsetWraps()
    ensures DirectionOffset(MaxWidth + 1, 1) == 32768
    ensures ToShort(DirectionOffset(MaxWidth + 1, 1)) == -32768
  {
  }

  /** The length of one step in direction d. */
  function DirectionLength(d: Direction): real {
    if d % 2 == 0 then 1.0 else Sqrt2
  }

  /** Orthogonal steps have length 1, diagonal ones the square root of 2. */
  lemma DirectionLengthSpec(d: Direction)
    ensures DirectionLength(d) > 0.0
    ensures DirectionLength(d) == if MoveDirection(d).x == 0 || MoveDirection(d).y == 0 then 1.0 else Sqrt2
  {
  }

  /** The normalised move vector of direction d: the grid step divided by
      its length. */
  function UnitVector(d: Direction): Float2 {
    var m := MoveDirection(d);
    var len := DirectionLength(d);
    Float2(m.x as real / len, m.y as real / len)
  }

  /** The unit vector points the way the grid step does, component by
      component, and is never zero. */
  lemma UnitVectorSigns(d: Direction)
    ensures var v, m := UnitVector(d), MoveDirection(d);
      && v != Zero2
      && (v.x > 0.0 <==> m.x > 0) && (v.x < 0.0 <==> m.x < 0)
      && (v.y > 0.0 <==> m.y > 0) && (v.y < 0.0 <==> m.y < 0)
  {
    var m := MoveDirection(d);
    var len := DirectionLength(d);
    DirectionLengthSpec(d);
    MoveDirectionSpec(d);
    DivideSigns(m.x as real, len);
    DivideSigns(m.y as real, len);
  }

  lemma DivideSigns(a: real, len: real)
    requires len > 0.0
    ensures (a / len > 0.0 <==> a > 0.0) && (a / len < 0.0 <==> a < 0.0)
  {
    var q := a / len;
    assert q * len == a;
    if a > 0.0 {
      assert q > 0.0;
    } else if a < 0.0 {
      assert q < 0.0;
    } else {
      assert q == 0.0;
    }
  }

  /** The bit of direction d in a neighbour code. */
  function Bit(d: Direction): bv8 {
    match d
    case 0 => 1
    case 1 => 2
    case 2 => 4
    case 3 => 8
    case 4 => 16
    case 5 => 32
    case 6 => 64
    case 7 => 128
  }

  /** Bit d of the code is set: direction d may not be taken. */
  predicate IsBlocked(code: bv8, d: Direction) {
    code & Bit(d) != 0
  }

  /** The corner-cutting mask of direction i (GetCodeModification): the
      directions to treat as blocked for a tile reached by moving in
      direction i. Any other i gives the empty mask. */
  function CodeModification(i: int): bv8 {
    if i == 0 then 16 | 64 | 4 | 8 | 32
    else if i == 1 then 64 | 16 | 32
    else if i == 2 then 1 | 16 | 128 | 32 | 64
    else if i == 3 then 1 | 64 | 128
    else if i == 4 then 4 | 64 | 2 | 128 | 1
    else if i == 5 then 1 | 4 | 2
    else if i == 6 then 16 | 1 | 2 | 8 | 4
    else if i == 7 then 16 | 4 | 8
    else 0
  }

  /** The masks as bytes; each blocks the way back and never the direction
      just taken; any other i gives the empty mask. */
  lemma CodeModificationSpec(i: int)
    ensures 0 <= i < 8 ==> CodeModification(i) == [124, 112, 241, 193, 199, 7, 31, 28][i]
    ensures 0 <= i < 8 ==> IsBlocked(CodeModification(i), Opposite(i)) && !IsBlocked(CodeModification(i), i)
    ensures !(0 <= i < 8) ==> CodeModification(i) == 0
  {
  }

  /** The directions below k whose bit is clear in the code, in increasing
      order. */
  function FreeBelow(code: bv8, k: nat): seq<Direction>
    requires k <= 8
  {
    if k == 0 then []
    else FreeBelow(code, k - 1) + (if IsBlocked(code, k - 1) then [] else [k - 1])
  }

  /** The legal directions of a neighbour code. */
  function FreeDirections(code: bv8): seq<Direction> {
    FreeBelow(code, 8)
  }

  /** The directions below k listed for a code are exactly those whose bit
      is clear, each once, in strictly increasing order. */
  lemma {:induction false} FreeBelowSpec(code: bv8, k: nat)
    requires k <= 8
    ensures forall d: Direction :: d in FreeBelow(code, k) <==> d < k && !IsBlocked(code, d)
    ensures forall i :: 0 <= i < |FreeBelow(code, k)| ==> FreeBelow(code, k)[i] < k
    ensures forall i, j :: 0 <= i < j < |FreeBelow(code, k)| ==> FreeBelow(code, k)[i] < FreeBelow(code, k)[j]
  {
    if k > 0 {
      FreeBelowSpec(code, k - 1);
    }
  }

  /** The run of a code lists exactly its clear directions, in strictly
      increasing order. */
  lemma FreeDirectionsSpec(code: bv8)
    ensures forall d: Direction :: d in FreeDirections(code) <==> !IsBlocked(code, d)
    ensures forall i, j :: 0 <= i < j < |FreeDirections(code)| ==> FreeDirections(code)[i] < FreeDirections(code)[j]
  {
    FreeBelowSpec(code, 8);
  }

  /** The number of set bits among the low k bits of the code. */
  function PopcountBelow(code: bv8, k: nat): nat
    requires k <= 8
  {
    if k == 0 then 0
    else PopcountBelow(code, k - 1) + (if IsBlocked(code, k - 1) then 1 else 0)
  }

  function Popcount(code: bv8): nat {
    PopcountBelow(code, 8)
  }

  /** A run has one entry per clear bit, and the clear bits of a code are the
      set bits of its complement. */
  lemma {:induction false} RunLength(code: bv8, k: nat)
    requires k <= 8
    ensures |FreeBelow(code, k)| == k - PopcountBelow(code, k)
    ensures |FreeBelow(code, k)| == PopcountBelow(!code, k)
  {
    if k > 0 {
      RunLength(code, k - 1);
      assert IsBlocked(!code, k - 1) <==> !IsBlocked(code, k - 1);
    }
  }

  /** OR-ing a mask into a code removes exactly the directions the mask
      blocks, and never adds one. */
  lemma FreeUnderMask(code: bv8, mask: bv8)
    ensures forall d: Direction :: d in FreeDirections(code | mask) <==>
      d in FreeDirections(code) && !IsBlocked(mask, d)
  {
    FreeDirectionsSpec(code | mask);
    FreeDirectionsSpec(code);
    forall d: Direction
      ensures IsBlocked(code | mask, d) <==> IsBlocked(code, d) || IsBlocked(mask, d)
    {
    }
  }

  /** The byte of code n, built up from 0 one increment at a time: the
      byte that indexes the run table, as the job's (byte) conversion of a
      code yields it (FlowFieldSystem.cs:157-158 reads codeStartEndIndex
      through that byte). */
  function Code(n: nat): bv8 {
    if n == 0 then 0 else Code(n - 1) + 1
  }

  /** Below 256 the byte of code n has the value n. */
  lemma {:induction false} CodeValue(n: nat)
    requires n < CodeCount
    ensures Code(n) as int == n
  {
    if n > 0 {
      CodeValue(n - 1);
      ByteSucc(Code(n - 1));
    }
  }

  /** Where the run of code n starts once codes 0 .. n-1 are laid out one
      after the other: the total length of their runs. */
  function RunStart(n: nat): nat
    requires n <= CodeCount
  {
    if n == 0 then 0 else RunStart(n - 1) + |FreeDirections(Code(n - 1))|
  }

  lemma RunFits(code: nat)
    requires code < CodeCount
    ensures RunStart(code + 1) == RunStart(code) + |FreeDirections(Code(code))|
    ensures RunStart(code) + |FreeDirections(Code(code))| <= PoolCapacity
  {
    RunStartBound(code + 1);
  }

  /** No layout of the first n codes overruns the pool. */
  lemma RunStartBound(n: nat)
    requires n <= CodeCount
    ensures RunStart(n) <= PoolCapacity
  {
    PoolSize();
    RunStartMono(n, CodeCount);
  }

  lemma {:induction false} RunStartMono(a: nat, b: nat)
    requires a <= b <= CodeCount
    ensures RunStart(a) <= RunStart(b)
    decreases b - a
  {
    if a < b {
      RunStartMono(a, b - 1);
      RunStartStep(b);
    }
  }

  lemma RunStartStep(n: nat)
    requires 0 < n <= CodeCount
    ensures RunStart(n - 1) <= RunStart(n)
  {
    var len := |FreeDirections(Code(n - 1))|;
    assert RunStart(n) == RunStart(n - 1) + len;
  }

  /** Code n - 1 and code 256 - n are bitwise complements. */
  lemma ComplementIndex(n: int)
    requires 0 < n <= CodeCount
    ensures Code(CodeCount - n) == !Code(n - 1)
  {
    CodeValue(n - 1);
    CodeValue(CodeCount - n);
    ByteNot(Code(n - 1));
    BytesEqual(Code(CodeCount - n), !Code(n - 1));
  }

  /** Below 255 a byte increments without wrapping. */
  lemma ByteSucc(b: bv8)
    requires b as int < 255
    ensures (b + 1) as int == b as int + 1
  {
  }

  /** The complement of a byte is 255 minus it. */
  lemma ByteNot(b: bv8)
    ensures (!b) as int == 255 - b as int
  {
  }

  lemma ByteOfInt(code: bv8)
    ensures (code as int) as bv8 == code
  {
  }

  /** Bytes of equal value are equal. */
  lemma BytesEqual(a: bv8, b: bv8)
    requires a as int == b as int
    ensures a == b
  {
    ByteOfInt(a);
    ByteOfInt(b);
  }

  /** An integer equal to a byte's value converts to that byte. */
  lemma ByteOfIntAt(x: int, b: bv8)
    requires x == b as int
    ensures x as bv8 == b
  {
    ByteOfInt(b);
  }

  /** The total run length of the n codes just below top. */
  function RunsBelow(top: nat, n: nat): nat
    requires n <= top <= CodeCount
  {
    if n == 0 then 0 else RunsBelow(top, n - 1) + |FreeDirections(Code(top - n))|
  }

  /** Those runs are the last stretch of the pool laid out up to top. */
  lemma {:induction false} RunsBelowSpan(top: nat, n: nat)
    requires n <= top <= CodeCount
    ensures RunsBelow(top, n) == RunStart(top) - RunStart(top - n)
  {
    if n > 0 {
      RunsBelowSpan(top, n - 1);
      assert RunStart(top - n + 1) == RunStart(top - n) + |FreeDirections(Code(top - n))|;
    }
  }

  /** Code c and code 255 - c block complementary directions, so their two
      runs have eight entries together. */
  lemma ComplementRuns(n: nat)
    requires 0 < n <= CodeCount
    ensures |FreeDirections(Code(n - 1))| + |FreeDirections(Code(CodeCount - n))| == 8
  {
    var c := Code(n - 1);
    ComplementIndex(n);
    RunLength(c, 8);
    RunLength(!c, 8);
  }

  /** Pairing code c with code 255 - c: the first n runs and the last n runs
      have 8n entries together. */
  lemma {:induction false} PairedRuns(n: nat)
    requires n <= CodeCount
    ensures RunStart(n) + RunsBelow(CodeCount, n) == 8 * n
  {
    if n > 0 {
      PairedRuns(n - 1);
      ComplementRuns(n);
    }
  }

  /** The runs of all 256 codes fill the 1024-entry pool exactly. */
  lemma PoolSize()
    ensures RunStart(CodeCount) == PoolCapacity
  {
    PairedRuns(CodeCount);
    RunsBelowSpan(CodeCount, CodeCount);
  }

  /** The run table runs covers pool[0..total) with the runs listed in
      expected, in the order the factory fills them: the last run ends at
      total and holds the expected entries of its code, and the runs before
      it cover the pool up to where it starts. */
  ghost predicate RunsCover(runs: seq<CodeData>, pool: seq<Direction>, total: int, expected: seq<seq<Direction>>)
    decreases |runs|
  {
    if runs == [] then total == 0
    else
      var code, last := |runs| - 1, runs[|runs| - 1];
      && code < |expected|
      && 0 <= last.startIndex && last.startIndex + |expected[code]| == last.endIndex == total <= |pool|
      && (forall i :: last.startIndex <= i < total ==> pool[i] == expected[code][i - last.startIndex])
      && RunsCover(runs[..code], pool, last.startIndex, expected)
  }

  /** A covering depends only on the pool below total. */
  lemma {:induction false} RunsCoverFrame(runs: seq<CodeData>, pool: seq<Direction>, pool': seq<Direction>,
                                          total: int, expected: seq<seq<Direction>>)
    requires RunsCover(runs, pool, total, expected)
    requires total <= |pool'| && forall i :: 0 <= i < total ==> pool'[i] == pool[i]
    ensures RunsCover(runs, pool', total, expected)
    decreases |runs|
  {
    if runs != [] {
      RunsCoverFrame(runs[..|runs| - 1], pool, pool', runs[|runs| - 1].startIndex, expected);
    }
  }

  /** Appending the next code's run, at [start, end) right after the
      covered pool, extends the covering. */
  lemma {:induction false} RunsCoverStep(runs: seq<CodeData>, pool: seq<Direction>, expected: seq<seq<Direction>>,
                      run: seq<Direction>, start: int, end: int)
    requires RunsCover(runs, pool, |pool|, expected)
    requires |runs| < |expected| && run == expected[|runs|]
    requires start == |pool| && end == start + |run|
    ensures RunsCover(runs + [CodeData(start, end)], pool + run, end, expected)
  {
    var runs', pool' := runs + [CodeData(start, end)], pool + run;
    assert runs'[..|runs|] == runs;
    RunsCoverFrame(runs, pool, pool', start, expected);
  }

  /** In a covering the runs tile the pool: the run of each code lies
      inside the covered part and holds that code's expected entries, the
      first run starts at 0 and each run ends where the next one starts. */
  lemma {:induction false} RunInCover(runs: seq<CodeData>, pool: seq<Direction>, total: int,
                                      expected: seq<seq<Direction>>, code: nat)
    requires RunsCover(runs, pool, total, expected)
    requires code < |runs|
    ensures code < |expected| && 0 <= runs[code].startIndex <= runs[code].endIndex <= total <= |pool|
    ensures runs[code].endIndex - runs[code].startIndex == |expected[code]|
    ensures forall i :: runs[code].startIndex <= i < runs[code].endIndex ==>
      pool[i] == expected[code][i - runs[code].startIndex]
    ensures code == 0 ==> runs[0].startIndex == 0
    ensures code + 1 < |runs| ==> runs[code].endIndex == runs[code + 1].startIndex
    decreases |runs|
  {
    var n := |runs| - 1;
    var inner := runs[..n];
    if code < n {
      RunInCover(inner, pool, runs[n].startIndex, expected, code);
      assert inner[code] == runs[code];
      if code + 1 == n {
        assert inner[n - 1].endIndex == runs[n].startIndex;
      } else {
        assert inner[code + 1] == runs[code + 1];
      }
    } else if n == 0 {
      assert inner == [];
    }
  }

  /** The run of every code: its clear directions. */
  ghost function CodeRuns(): seq<seq<Direction>> {
    seq(CodeCount, n requires 0 <= n < CodeCount => FreeDirections(Code(n)))
  }

  /** The run table of the first |runs| codes over the pool they fill. */
  ghost predicate LaidOut(runs: seq<CodeData>, pool: seq<Direction>) {
    RunsCover(runs, pool, |pool|, CodeRuns())
  }

  /** The finished run table: all 256 codes laid out in the 1024-entry
      pool. */
  ghost predicate RunsLaidOut(runs: seq<CodeData>, pool: seq<Direction>) {
    |runs| == CodeCount && |pool| == PoolCapacity && LaidOut(runs, pool)
  }

  /** A covering by the runs of codes 0 .. |runs|-1 ends where code |runs|
      would start. */
  lemma {:induction false} CoverTotal(runs: seq<CodeData>, pool: seq<Direction>, total: int)
    requires RunsCover(runs, pool, total, CodeRuns())
    ensures |runs| <= CodeCount && total == RunStart(|runs|)
    decreases |runs|
  {
    if runs != [] {
      var n := |runs| - 1;
      CoverTotal(runs[..n], pool, runs[n].startIndex);
      assert CodeRuns()[n] == FreeDirections(Code(n));
    }
  }

  /** While codes remain, the next code's run fits in the pool. */
  lemma LaidOutFits(runs: seq<CodeData>, pool: seq<Direction>)
    requires LaidOut(runs, pool) && |runs| < CodeCount
    ensures |pool| + |FreeDirections(Code(|runs|))| <= PoolCapacity
  {
    CoverTotal(runs, pool, |pool|);
    RunFits(|runs|);
  }

  /** Once every code is laid out, the pool is full. */
  lemma LaidOutFull(runs: seq<CodeData>, pool: seq<Direction>)
    requires LaidOut(runs, pool) && |runs| == CodeCount
    ensures |pool| == PoolCapacity
  {
    CoverTotal(runs, pool, |pool|);
    PoolSize();
  }

  /** Appending the run of the next code, at [start, end), keeps the
      layout. */
  lemma {:induction false} LaidOutStep(runs: seq<CodeData>, pool: seq<Direction>, next: nat, start: int, end: int)
    requires LaidOut(runs, pool)
    requires next == |runs| < CodeCount
    requires start == |pool| && end == start + |FreeDirections(Code(next))|
    ensures LaidOut(runs + [CodeData(start, end)], pool + FreeDirections(Code(next)))
  {
    var run := FreeDirections(Code(next));
    assert CodeRuns()[next] == run;
    RunsCoverStep(runs, pool, CodeRuns(), run, start, end);
    assert |pool + run| == end;
  }

  /** Every pool entry carries the per-direction data of its direction. */
  ghost predicate EntriesMatch(pool: array<Direction>, data: array<DirectionData>, width: int)
    reads pool, data
  {
    && pool.Length == PoolCapacity
    && data.Length == PoolCapacity
    && (forall i :: 0 <= i < PoolCapacity ==> data[i] == Entry(width, pool[i]))
  }

  /** In a layout the run of code c has 8 - popcount(c) entries, and its
      i-th pool position holds the i-th clear direction of c. */
  lemma {:induction false} RunEntries(runs: seq<CodeData>, pool: seq<Direction>, code: nat)
    requires LaidOut(runs, pool)
    requires code < |runs|
    ensures code < CodeCount && 0 <= runs[code].startIndex <= runs[code].endIndex <= |pool|
    ensures runs[code].endIndex - runs[code].startIndex == |FreeDirections(Code(code))| == 8 - Popcount(Code(code))
    ensures forall i :: runs[code].startIndex <= i < runs[code].endIndex ==>
      pool[i] == FreeDirections(Code(code))[i - runs[code].startIndex]
  {
    RunInCover(runs, pool, |pool|, CodeRuns(), code);
    assert CodeRuns()[code] == FreeDirections(Code(code));
    RunLength(Code(code), 8);
  }

  /** Start and end of one code's run (CodeData). */
  datatype CodeData = CodeData(startIndex: int, endIndex: int)

  /** One run entry (DirectionData). */
  datatype DirectionData = DirectionData(
    moveDirectionIndexOffset: int,
    directionLength: real,
    codeModifications: bv8,
    moveDirection: Float2)

  /** The entry the factory writes for direction d. */
  function Entry(width: int, d: Direction): DirectionData {
    DirectionData(ToShort(DirectionOffset(width, d)), DirectionLength(d), CodeModification(d), UnitVector(d))
  }

  /** The finished table. */
  class MapDataBlob {
    const codeStartEndIndex: array<CodeData>
    const directionIndex: array<Direction>
    const directionData: array<DirectionData>
    const moveDirectionIndexOffset: array<int>
    const moveDirections: array<Int2>
    const directionLength: array<real>
    const codeModifications: array<bv8>
    ghost const Repr: set<object>

    /** The seven arrays of the table. */
    ghost function Arrays(): set<object> {
      {codeStartEndIndex as object, directionIndex as object, directionData as object,
       moveDirectionIndexOffset as object, moveDirections as object,
       directionLength as object, codeModifications as object}
    }

    /** The table is the one built for a grid of the given width. */
    ghost predicate Valid(width: int)
      reads Repr
    {
      && Repr == Arrays()
      && codeStartEndIndex.Length == CodeCount
      && directionIndex.Length == PoolCapacity
      && directionData.Length == PoolCapacity
      && moveDirectionIndexOffset.Length == 8
      && moveDirections.Length == 8
      && directionLength.Length == 8
      && codeModifications.Length == 8
      && RunsLaidOut(codeStartEndIndex[..], directionIndex[..])
      && EntriesMatch(directionIndex, directionData, width)
      && (forall d: Direction :: moveDirectionIndexOffset[d] == DirectionOffset(width, d))
      && (forall d: Direction :: moveDirections[d] == MoveDirection(d))
      && (forall d: Direction :: directionLength[d] == DirectionLength(d))
      && (forall d: Direction :: codeModifications[d] == CodeModification(d))
    }

    /** Wrap the seven filled arrays as the finished table. */
    constructor (width: int, codeStartEndIndex: array<CodeData>, directionIndex: array<Direction>,
                 directionData: array<DirectionData>, moveDirectionIndexOffset: array<int>,
                 moveDirections: array<Int2>, directionLength: array<real>, codeModifications: array<bv8>)
      requires RunsLaidOut(codeStartEndIndex[..], directionIndex[..])
      requires EntriesMatch(directionIndex, directionData, width)
      requires moveDirectionIndexOffset.Length == 8 && moveDirections.Length == 8
      requires directionLength.Length == 8 && codeModifications.Length == 8
      requires forall d: Direction :: moveDirectionIndexOffset[d] == DirectionOffset(width, d)
      requires forall d: Direction :: moveDirections[d] == MoveDirection(d)
      requires forall d: Direction :: directionLength[d] == DirectionLength(d)
      requires forall d: Direction :: codeModifications[d] == CodeModification(d)
      ensures Valid(width)
      ensures this.codeStartEndIndex == codeStartEndIndex && this.directionIndex == directionIndex
      ensures this.directionData == directionData && this.moveDirectionIndexOffset == moveDirectionIndexOffset
      ensures this.moveDirections == moveDirections && this.directionLength == directionLength
      ensures this.codeModifications == codeModifications
    {
      this.codeStartEndIndex := codeStartEndIndex;
      this.directionIndex := directionIndex;
      this.directionData := directionData;
      this.moveDirectionIndexOffset := moveDirectionIndexOffset;
      this.moveDirections := moveDirections;
      this.directionLength := directionLength;
      this.codeModifications := codeModifications;
      Repr := {codeStartEndIndex as object, directionIndex as object, directionData as object,
               moveDirectionIndexOffset as object, moveDirections as object,
               directionLength as object, codeModifications as object};
    }

    /** The run of code c, read through its start/end pair: it has
        8 - popcount(c) entries, listing the clear directions of c in
        order, each with the per-direction data of its direction. */
    lemma Run(width: int, code: bv8)
      requires Valid(width)
      ensures var run := codeStartEndIndex[code as int];
        && 0 <= run.startIndex <= run.endIndex <= PoolCapacity
        && run.endIndex - run.startIndex == |FreeDirections(code)| == 8 - Popcount(code)
      ensures forall i :: codeStartEndIndex[code as int].startIndex <= i < codeStartEndIndex[code as int].endIndex ==>
        && directionIndex[i] == FreeDirections(code)[i - codeStartEndIndex[code as int].startIndex]
        && directionData[i] == Entry(width, directionIndex[i])
    {
      CodeValue(code as int);
      BytesEqual(Code(code as int), code);
      RunEntries(codeStartEndIndex[..], directionIndex[..], code as int);
    }

    /** The rows between dirs.startIndex and dirs.endIndex hold the entries
        of the directions of run, in order. */
    ghost predicate RunListed(width: int, dirs: CodeData, run: seq<Direction>)
      reads directionData
    {
      && 0 <= dirs.startIndex <= dirs.endIndex <= directionData.Length
      && dirs.endIndex - dirs.startIndex == |run|
      && forall i :: dirs.startIndex <= i < dirs.endIndex ==>
           directionData[i] == Entry(width, run[i - dirs.startIndex])
    }

    /** The run of a code lists the entries of its clear directions. */
    lemma ListedRun(width: int, code: bv8)
      requires Valid(width)
      ensures RunListed(width, codeStartEndIndex[code as int], FreeDirections(code))
    {
      Run(width, code);
    }

    /** Every code has its run, listing the entries of its clear
        directions: all the propagation and the flow pass read of the
        table. */
    ghost predicate RunsListed(width: int)
      reads codeStartEndIndex, directionData
    {
      && codeStartEndIndex.Length == CodeCount
      && forall code: bv8 :: RunListed(width, codeStartEndIndex[code as int], FreeDirections(code))
    }

    /** The table lists the unit move of every direction. */
    ghost predicate MovesListed()
      reads moveDirections
    {
      moveDirections.Length == 8 && forall d: Direction :: moveDirections[d] == MoveDirection(d)
    }

    /** The table built for a width lists the move of every direction. */
    lemma ListedMoves(width: int)
      requires Valid(width)
      ensures MovesListed()
    {
    }

    /** The table built for a width lists the run of every code. */
    lemma ListedRuns(width: int)
      requires Valid(width)
      ensures RunsListed(width)
    {
      forall code: bv8
        ensures RunListed(width, codeStartEndIndex[code as int], FreeDirections(code))
      {
        ListedRun(width, code);
      }
    }
  }

  /** MapDataBlobFactory.Generate: allocate and fill every table. */
  method Generate(width: int) returns (blob: MapDataBlob)
    ensures fresh(blob) && fresh(blob.Repr)
    ensures blob.Valid(width)
  {
    var codeStartEndIndex, directionIndex, directionData := AllocateCodeIndexes(width);
    var moveDirectionIndexOffset := AllocateDirectionOffset(width);
    var moveDirections := AllocateMoveDirections();
    var directionLength := AllocateMoveDirectionsLengths();
    var codeModifications := AllocateCodeModifications();
    blob := new MapDataBlob(width, codeStartEndIndex, directionIndex, directionData, moveDirectionIndexOffset,
                            moveDirections, directionLength, codeModifications);
  }

  /** Lay out the run of every code, in code order, in one pool. */
  method AllocateCodeIndexes(width: int)
    returns (codeStartEndIndex: array<CodeData>, directionIndexes: array<Direction>, directionDatas: array<DirectionData>)
    ensures fresh(codeStartEndIndex) && fresh(directionIndexes) && fresh(directionDatas)
    ensures RunsLaidOut(codeStartEndIndex[..], directionIndexes[..])
    ensures EntriesMatch(directionIndexes, directionDatas, width)
  {
    codeStartEndIndex := new CodeData[CodeCount];
    directionIndexes := new Direction[PoolCapacity];
    directionDatas := new DirectionData[PoolCapacity];
    var currentIndex := 0;
    ghost var runs: seq<CodeData> := [];
    ghost var laid: seq<Direction> := [];
    for code := 0 to CodeCount
      invariant |runs| == code && forall k :: 0 <= k < code ==> codeStartEndIndex[k] == runs[k]
      invariant |laid| == currentIndex <= PoolCapacity && directionIndexes[..currentIndex] == laid
      invariant LaidOut(runs, laid)
      invariant forall i :: 0 <= i < currentIndex ==> directionDatas[i] == Entry(width, directionIndexes[i])
    {
      var c := code as bv8;
      CodeValue(code);
      ByteOfIntAt(code, Code(code));
      LaidOutFits(runs, laid);
      var startIndex := currentIndex;
      currentIndex := AllocateRun(c, width, directionIndexes, directionDatas, currentIndex);
      LaidOutStep(runs, laid, code, startIndex, currentIndex);
      codeStartEndIndex[code] := CodeData(startIndex, currentIndex);
      runs := runs + [CodeData(startIndex, currentIndex)];
      laid := laid + FreeDirections(c);
    }
    LaidOutFull(runs, laid);
    assert codeStartEndIndex[..] == runs;
    assert directionIndexes[..] == laid;
  }

  /** The inner loop of AllocateCodeIndexes: append the run of one code at
      position start, returning the position after it. */
  method AllocateRun(code: bv8, width: int, directionIndexes: array<Direction>,
                     directionDatas: array<DirectionData>, start: nat) returns (end: nat)
    requires directionIndexes != directionDatas as object
    requires start + |FreeDirections(code)| <= directionIndexes.Length <= directionDatas.Length
    requires forall i :: 0 <= i < start ==> directionDatas[i] == Entry(width, directionIndexes[i])
    modifies directionIndexes, directionDatas
    ensures end == start + |FreeDirections(code)|
    ensures directionIndexes[..end] == old(directionIndexes[..start]) + FreeDirections(code)
    ensures forall i :: 0 <= i < end ==> directionDatas[i] == Entry(width, directionIndexes[i])
    ensures forall i :: end <= i < directionIndexes.Length ==> directionIndexes[i] == old(directionIndexes[i])
    ensures forall i :: end <= i < directionDatas.Length ==> directionDatas[i] == old(directionDatas[i])
  {
    ghost var before, indexes0, datas0 := directionIndexes[..start], directionIndexes[..], directionDatas[..];
    ghost var written, entries := indexes0, datas0;
    end := start;
    for directionIndex := 0 to 8
      invariant directionIndexes[..] == written && directionDatas[..] == entries
      invariant RunState(code, width, before, indexes0, datas0, written, entries, directionIndex, end)
    {
      RunStateStep(code, width, before, indexes0, datas0, written, entries, directionIndex, end);
      if !IsBlocked(code, directionIndex) {
        AllocateEntry(width, directionIndexes, directionDatas, end, directionIndex);
        written, entries := written[end := directionIndex], entries[end := Entry(width, directionIndex)];
        end := end + 1;
      }
    }
    assert Filled(written, entries, width, end) && Unwritten(written, indexes0, end) && Unwritten(entries, datas0, end);
  }

  /** The first n slots of the pool hold the entries of their
      directions. */
  ghost predicate Filled(pool: seq<Direction>, data: seq<DirectionData>, width: int, n: int) {
    n <= |pool| && n <= |data| && forall i :: 0 <= i < n ==> data[i] == Entry(width, pool[i])
  }

  /** a holds what b held from position from on. */
  ghost predicate Unwritten<T>(a: seq<T>, b: seq<T>, from: nat) {
    |a| == |b| && forall i :: from <= i < |a| ==> a[i] == b[i]
  }

  /** The state of AllocateRun's loop before direction k: the pool,
      which held pool0, holds before followed by the free directions below
      k up to position end, each with its entry, and the slots from end on
      are as they were. */
  ghost predicate RunState(code: bv8, width: int, before: seq<Direction>, pool0: seq<Direction>,
                           data0: seq<DirectionData>, pool: seq<Direction>, data: seq<DirectionData>,
                           k: nat, end: nat)
  {
    && k <= 8
    && end == |before| + |FreeBelow(code, k)| <= |before| + |FreeDirections(code)| <= |pool| <= |data|
    && pool[..end] == before + FreeBelow(code, k)
    && Filled(pool, data, width, end)
    && Unwritten(pool, pool0, end) && Unwritten(data, data0, end)
  }

  /** One iteration of AllocateRun's loop keeps its state: a free
      direction is written with its entry at position end, a blocked one is
      passed over. */
  lemma RunStateStep(code: bv8, width: int, before: seq<Direction>, pool0: seq<Direction>,
                     data0: seq<DirectionData>, pool: seq<Direction>, data: seq<DirectionData>,
                     k: nat, end: nat)
    requires k < 8 && RunState(code, width, before, pool0, data0, pool, data, k, end)
    ensures !IsBlocked(code, k) ==>
      && end < |pool| && end < |data|
      && RunState(code, width, before, pool0, data0, pool[end := k], data[end := Entry(width, k)], k + 1, end + 1)
    ensures IsBlocked(code, k) ==> RunState(code, width, before, pool0, data0, pool, data, k + 1, end)
  {
    RunPrefix(code, k + 1);
    if !IsBlocked(code, k) {
      assert FreeBelow(code, k + 1) == FreeBelow(code, k) + [k];
      var p := pool[end := k];
      assert p[..end + 1] == pool[..end] + [k];
    }
  }

  /** Write the direction index and the entry of direction d at slot at. */
  method AllocateEntry(width: int, directionIndexes: array<Direction>, directionDatas: array<DirectionData>,
                       at: nat, d: Direction)
    requires directionIndexes != directionDatas as object
    requires at < directionIndexes.Length && at < directionDatas.Length
    modifies directionIndexes, directionDatas
    ensures directionIndexes[..] == old(directionIndexes[..])[at := d]
    ensures directionDatas[..] == old(directionDatas[..])[at := Entry(width, d)]
  {
    directionIndexes[at] := d;
    directionDatas[at] := DirectionData(
      ToShort(DirectionOffset(width, d)),
      DirectionLength(d),
      CodeModification(d),
      UnitVector(d));
  }

  /** A prefix of a run is no longer than the run. */
  lemma {:induction false} RunPrefix(code: bv8, k: nat)
    requires k <= 8
    ensures |FreeBelow(code, k)| <= |FreeDirections(code)|
    decreases 8 - k
  {
    if k < 8 {
      RunPrefix(code, k + 1);
    }
  }

  /** The index offset of a step in each direction. */
  method AllocateDirectionOffset(width: int) returns (moveDirectionIndexOffset: array<int>)
    ensures fresh(moveDirectionIndexOffset) && moveDirectionIndexOffset.Length == 8
    ensures forall d: Direction :: moveDirectionIndexOffset[d] == DirectionOffset(width, d)
  {
    moveDirectionIndexOffset := new int[8];
    moveDirectionIndexOffset[0] := width;
    moveDirectionIndexOffset[1] := 1 + width;
    moveDirectionIndexOffset[2] := 1;
    moveDirectionIndexOffset[3] := 1 - width;
    moveDirectionIndexOffset[4] := -width;
    moveDirectionIndexOffset[5] := -1 - width;
    moveDirectionIndexOffset[6] := -1;
    moveDirectionIndexOffset[7] := -1 + width;
  }

  /** The grid step of each direction. */
  method AllocateMoveDirections() returns (moveDirections: array<Int2>)
    ensures fresh(moveDirections) && moveDirections.Length == 8
    ensures forall d: Direction :: moveDirections[d] == MoveDirection(d)
  {
    moveDirections := new Int2[8];
    moveDirections[0] := Int2(0, 1);
    moveDirections[1] := Int2(1, 1);
    moveDirections[2] := Int2(1, 0);
    moveDirections[3] := Int2(1, -1);
    moveDirections[4] := Int2(0, -1);
    moveDirections[5] := Int2(-1, -1);
    moveDirections[6] := Int2(-1, 0);
    moveDirections[7] := Int2(-1, 1);
  }

  /** The length of a step in each direction. */
  method AllocateMoveDirectionsLengths() returns (directionLength: array<real>)
    ensures fresh(directionLength) && directionLength.Length == 8
    ensures forall d: Direction :: directionLength[d] == DirectionLength(d)
  {
    directionLength := new real[8];
    directionLength[0] := 1.0;
    directionLength[1] := Sqrt2;
    directionLength[2] := 1.0;
    directionLength[3] := Sqrt2;
    directionLength[4] := 1.0;
    directionLength[5] := Sqrt2;
    directionLength[6] := 1.0;
    directionLength[7] := Sqrt2;
  }

  /** The code modification carried by a step in each direction. */
  method AllocateCodeModifications() returns (codeModifications: array<bv8>)
    ensures fresh(codeModifications) && codeModifications.Length == 8
    ensures forall d: Direction :: codeModifications[d] == CodeModification(d)
  {
    codeModifications := new bv8[8];
    for i := 0 to 8
      invariant forall d: Direction :: d < i ==> codeModifications[d] == CodeModification(d)
    {
      codeModifications[i] := CodeModification(i);
    }
  }
}
