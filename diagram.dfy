/**
  The circuit-diagram buffer of the resistor calculator: up to
  MAX_CIRCUIT_LINES text lines of at most MAX_LINE_LENGTH bytes (the last one
  reserved for the terminating NUL), filled by the series, parallel and mixed
  diagram builders. Lines are UTF-8 byte strings, since the box-drawing
  characters of the drawing take three bytes each.
 */
module Diagram {
  import opened Resistors

  newtype byte = b: int | 0 <= b < 0x100

  const MAX_CIRCUIT_LINES: int := 10
  const MAX_LINE_LENGTH: int := 100

  /** Connection type code the diagram builder treats as parallel. */
  const PARALLEL: int := 2

  /** "──": two U+2500 BOX DRAWINGS LIGHT HORIZONTAL. */
  const WIRE: seq<byte> := [0xE2, 0x94, 0x80, 0xE2, 0x94, 0x80]
  /** The zigzag "/\/\/\". */
  const RESISTOR: seq<byte> := [0x2F, 0x5C, 0x2F, 0x5C, 0x2F, 0x5C]
  /** "●": U+25CF BLACK CIRCLE. */
  const NODE: seq<byte> := [0xE2, 0x97, 0x8F]
  /** "│": U+2502 BOX DRAWINGS LIGHT VERTICAL. */
  const VERT: seq<byte> := [0xE2, 0x94, 0x82]
  const SPACE: byte := 0x20

  /** s repeated n times (nothing when n <= 0). */
  function Repeat(s: seq<byte>, n: int): (r: seq<byte>)
    ensures |r| == if n <= 0 then 0 else n * |s|
  {
    if n <= 0 then [] else Repeat(s, n - 1) + s
  }

  function Spaces(n: int): (r: seq<byte>)
    ensures |r| == if n <= 0 then 0 else n
  {
    Repeat([SPACE], n)
  }

  // ------------------------------------------------------ the drawn lines

  /** WIRE, then RESISTOR WIRE once per resistor. */
  function SeriesLine(groupSize: int): seq<byte>
  {
    WIRE + Repeat(RESISTOR + WIRE, groupSize)
  }

  /** A resistor branch of a parallel block, indented by `indent` spaces. */
  function BranchLine(indent: int): seq<byte>
  {
    Spaces(indent) + Spaces(3) + WIRE + RESISTOR + WIRE + Spaces(3)
  }

  /** The vertical connectors of a parallel block, indented by `indent` spaces. */
  function VertLine(indent: int): seq<byte>
  {
    Spaces(indent) + Spaces(2) + VERT + Spaces(10) + VERT
  }

  /** Middle line of the parallel diagram for an even branch count: two nodes and a gap. */
  const OPEN_MIDDLE: seq<byte> := WIRE + NODE + Spaces(10) + NODE + WIRE
  /** Middle line of the parallel diagram for an odd branch count: a resistor between the nodes. */
  const RESISTOR_MIDDLE: seq<byte> := WIRE + NODE + WIRE + RESISTOR + WIRE + NODE + WIRE

  function SeriesDiagram(groupSize: int): seq<seq<byte>>
  {
    [SeriesLine(groupSize)]
  }

  /** The parallel drawing for 2 to 5 branches; no lines for any other size. */
  function ParallelDiagram(groupSize: int): seq<seq<byte>>
  {
    var b, v := BranchLine(0), VertLine(0);
    if groupSize == 2 then [b, v, OPEN_MIDDLE, v, b]
    else if groupSize == 3 then [b, v, RESISTOR_MIDDLE, v, b]
    else if groupSize == 4 then [b, v, b, v, OPEN_MIDDLE, v, b, v, b]
    else if groupSize == 5 then [b, v, b, v, RESISTOR_MIDDLE, v, b, v, b]
    else []
  }

  /** Index of the first of the first `count` groups whose type is PARALLEL, or -1. */
  function FirstParallel(types: seq<int>, count: nat): (p: int)
    requires count <= |types|
    ensures -1 <= p < count
    ensures p == -1 <==> forall k :: 0 <= k < count ==> types[k] != PARALLEL
    ensures p != -1 ==> types[p] == PARALLEL && forall k :: 0 <= k < p ==> types[k] != PARALLEL
  {
    if count == 0 then -1
    else
      var p := FirstParallel(types, count - 1);
      if p != -1 then p
      else if types[count - 1] == PARALLEL then count - 1
      else -1
  }

  /** WIRE RESISTOR once per resistor of groups lo .. hi-1, drawn in series. */
  function SeriesRun(sizes: seq<int>, lo: int, hi: int): seq<byte>
    requires 0 <= lo && hi <= |sizes|
    decreases hi - lo
  {
    if hi <= lo then [] else SeriesRun(sizes, lo, hi - 1) + Repeat(WIRE + RESISTOR, sizes[hi - 1])
  }

  /** The parallel block on the main line: its nodes, one resistor, and a closing wire only for two branches. */
  function BlockMiddle(parallelSize: int): seq<byte>
  {
    if parallelSize == 2 then WIRE + NODE + WIRE + RESISTOR + WIRE + NODE + WIRE
    else WIRE + NODE + WIRE + RESISTOR + WIRE + NODE
  }

  /**
    The main line of a mixed circuit whose first parallel group is p: the series
    groups before it, the block, the groups after it and a final wire.
   */
  function MixedMiddle(sizes: seq<int>, count: int, p: int): seq<byte>
    requires 0 <= p < count <= |sizes|
  {
    SeriesRun(sizes, 0, p) + BlockMiddle(sizes[p]) + SeriesRun(sizes, p + 1, count) + WIRE
  }

  /**
    The mixed drawing: the series diagram of all resistors when no group is
    parallel; otherwise the first parallel group drawn as a block indented by 8
    spaces per resistor before it, with 5 lines for 2 or 3 branches and 9 for
    any other size.
   */
  function MixedDiagram(sizes: seq<int>, types: seq<int>, count: nat): seq<seq<byte>>
    requires count <= |sizes| && count <= |types|
  {
    var p := FirstParallel(types, count);
    if p == -1 then SeriesDiagram(GroupStart(sizes, count))
    else
      var indent := 8 * GroupStart(sizes, p);
      var b, v, m := BranchLine(indent), VertLine(indent), MixedMiddle(sizes, count, p);
      if sizes[p] == 2 || sizes[p] == 3 then [b, v, m, v, b]
      else [b, v, b, v, m, v, b, v, b]
  }

  /** Every line leaves room for the terminating NUL in a MAX_LINE_LENGTH slot. */
  predicate AllFit(ls: seq<seq<byte>>)
  {
    forall k :: 0 <= k < |ls| ==> |ls[k]| < MAX_LINE_LENGTH
  }

  /** Appends WIRE RESISTOR for every resistor of groups lo .. hi-1, by the nested strcat loops. */
  method AppendSeriesRun(prefix: seq<byte>, sizes: seq<int>, lo: int, hi: int) returns (line: seq<byte>)
    requires 0 <= lo <= hi <= |sizes|
    ensures line == prefix + SeriesRun(sizes, lo, hi)
  {
    line := prefix;
    var i := lo;
    while i < hi
      invariant lo <= i <= hi
      invariant line == prefix + SeriesRun(sizes, lo, i)
    {
      var j := 0;
      while j < sizes[i]
        invariant 0 <= j && (j <= sizes[i] || j == 0)
        invariant line == prefix + SeriesRun(sizes, lo, i) + Repeat(WIRE + RESISTOR, j)
      {
        line := line + WIRE + RESISTOR;
        j := j + 1;
      }
      i := i + 1;
    }
  }

  /** The `spaces_before` loop: n spaces appended one at a time. */
  method SpaceString(n: int) returns (spaceStr: seq<byte>)
    ensures spaceStr == Spaces(n)
  {
    spaceStr := [];
    var i := 0;
    while i < n
      invariant 0 <= i && (i <= n || i == 0)
      invariant spaceStr == Spaces(i)
    {
      spaceStr := spaceStr + [SPACE];
      i := i + 1;
    }
  }

  /**
    The search for the first parallel group, summing the sizes of the groups
    before it; seriesBefore is meaningful only when a parallel group exists.
   */
  method LocateParallelGroup(sizes: seq<int>, types: seq<int>, groupCount: int)
    returns (parallelIdx: int, seriesBefore: int)
    requires 0 <= groupCount <= |sizes| && groupCount <= |types|
    ensures parallelIdx == FirstParallel(types, groupCount)
    ensures parallelIdx != -1 ==> seriesBefore == GroupStart(sizes, parallelIdx)
  {
    parallelIdx := -1;
    seriesBefore := 0;
    var i := 0;
    while i < groupCount
      invariant 0 <= i <= groupCount
      invariant parallelIdx == -1 && FirstParallel(types, i) == -1 && seriesBefore == GroupStart(sizes, i)
    {
      if types[i] == PARALLEL {
        parallelIdx := i;
        break;
      }
      seriesBefore := seriesBefore + sizes[i];
      i := i + 1;
    }
  }

  /** The main line of the mixed drawing, built left to right by strcat. */
  method BuildMixedMiddle(sizes: seq<int>, groupCount: int, parallelIdx: int) returns (line: seq<byte>)
    requires 0 <= parallelIdx < groupCount <= |sizes|
    ensures line == MixedMiddle(sizes, groupCount, parallelIdx)
  {
    var before := AppendSeriesRun([], sizes, 0, parallelIdx);
    assert before == SeriesRun(sizes, 0, parallelIdx) by {
      assert [] + SeriesRun(sizes, 0, parallelIdx) == SeriesRun(sizes, 0, parallelIdx);
    }
    line := AppendSeriesRun(before + BlockMiddle(sizes[parallelIdx]), sizes, parallelIdx + 1, groupCount);
    line := line + WIRE;
  }

  // ------------------------------------------------------------ the buffer

  class CircuitDiagram {
    /** circuit_diagram: the text of each line slot. */
    var lines: array<seq<byte>>
    /** diagram_line_count: how many slots hold the current drawing. */
    var lineCount: int

    predicate Valid()
      reads this, lines
    {
      && lines.Length == MAX_CIRCUIT_LINES
      && 0 <= lineCount <= MAX_CIRCUIT_LINES
      && forall k :: 0 <= k < lines.Length ==> |lines[k]| < MAX_LINE_LENGTH
    }

    /** The current drawing. */
    function Lines(): seq<seq<byte>>
      requires Valid()
      reads this, lines
    {
      lines[..lineCount]
    }

    /** The zero-initialised global buffer: empty lines, count 0. */
    constructor ()
      ensures Valid() && fresh(lines)
      ensures lineCount == 0 && forall k :: 0 <= k < lines.Length ==> lines[k] == []
    {
      lines := new seq<byte>[MAX_CIRCUIT_LINES](_ => []);
      lineCount := 0;
    }

    /** `strcpy(circuit_diagram[diagram_line_count++], line)`. */
    method AppendLine(line: seq<byte>)
      requires Valid() && lineCount < MAX_CIRCUIT_LINES && |line| < MAX_LINE_LENGTH
      modifies this, lines
      ensures Valid() && lines == old(lines)
      ensures Lines() == old(Lines()) + [line]
      ensures forall k :: lineCount <= k < MAX_CIRCUIT_LINES ==> lines[k] == old(lines[k])
    {
      lines[lineCount] := line;
      lineCount := lineCount + 1;
    }

    /** Two consecutive AppendLine calls. */
    method AppendPair(first: seq<byte>, second: seq<byte>)
      requires Valid() && lineCount + 2 <= MAX_CIRCUIT_LINES
      requires |first| < MAX_LINE_LENGTH && |second| < MAX_LINE_LENGTH
      modifies this, lines
      ensures Valid() && lines == old(lines)
      ensures Lines() == old(Lines()) + [first, second]
      ensures forall k :: lineCount <= k < MAX_CIRCUIT_LINES ==> lines[k] == old(lines[k])
    {
      AppendLine(first);
      AppendLine(second);
    }

    /** A parallel block of two or three branches, starting a new drawing. */
    method SaveBlock5(branch: seq<byte>, vert: seq<byte>, middle: seq<byte>)
      requires Valid() && lineCount == 0
      requires |branch| < MAX_LINE_LENGTH && |vert| < MAX_LINE_LENGTH && |middle| < MAX_LINE_LENGTH
      modifies this, lines
      ensures Valid() && lines == old(lines)
      ensures Lines() == [branch, vert, middle, vert, branch]
      ensures forall k :: lineCount <= k < MAX_CIRCUIT_LINES ==> lines[k] == old(lines[k])
    {
      AppendPair(branch, vert);
      AppendLine(middle);
      AppendPair(vert, branch);
    }

    /** A parallel block of four or five branches, starting a new drawing. */
    method SaveBlock9(branch: seq<byte>, vert: seq<byte>, middle: seq<byte>)
      requires Valid() && lineCount == 0
      requires |branch| < MAX_LINE_LENGTH && |vert| < MAX_LINE_LENGTH && |middle| < MAX_LINE_LENGTH
      modifies this, lines
      ensures Valid() && lines == old(lines)
      ensures Lines() == [branch, vert, branch, vert, middle, vert, branch, vert, branch]
      ensures forall k :: lineCount <= k < MAX_CIRCUIT_LINES ==> lines[k] == old(lines[k])
    {
      AppendPair(branch, vert);
      AppendPair(branch, vert);
      AppendLine(middle);
      AppendPair(vert, branch);
      AppendPair(vert, branch);
    }

    method SaveSeriesDiagram(groupSize: int)
      requires Valid() && AllFit(SeriesDiagram(groupSize))
      modifies this, lines
      ensures Valid() && lines == old(lines)
      ensures Lines() == SeriesDiagram(groupSize)
      ensures forall k :: lineCount <= k < MAX_CIRCUIT_LINES ==> lines[k] == old(lines[k])
    {
      lineCount := 0;
      var line := WIRE;
      var i := 0;
      while i < groupSize
        invariant 0 <= i && (i <= groupSize || i == 0)
        invariant line == WIRE + Repeat(RESISTOR + WIRE, i)
      {
        line := line + RESISTOR + WIRE;
        i := i + 1;
      }
      assert SeriesDiagram(groupSize)[0] == line;
      AppendLine(line);
    }

    method SaveParallelDiagram(groupSize: int)
      requires Valid()
      modifies this, lines
      ensures Valid() && lines == old(lines)
      ensures Lines() == ParallelDiagram(groupSize)
      ensures forall k :: lineCount <= k < MAX_CIRCUIT_LINES ==> lines[k] == old(lines[k])
    {
      lineCount := 0;
      var b, v := BranchLine(0), VertLine(0);
      if groupSize == 2 {
        SaveBlock5(b, v, OPEN_MIDDLE);
      } else if groupSize == 3 {
        SaveBlock5(b, v, RESISTOR_MIDDLE);
      } else if groupSize == 4 {
        SaveBlock9(b, v, OPEN_MIDDLE);
      } else if groupSize == 5 {
        SaveBlock9(b, v, RESISTOR_MIDDLE);
      }
    }

    /**
      Draws the first parallel group as a block between the series groups, or the
      whole circuit as one series line when no group is parallel.
     */
    method SaveMixedDiagram(sizes: seq<int>, types: seq<int>, groupCount: int)
      requires Valid()
      requires 0 <= groupCount <= |sizes| && groupCount <= |types|
      requires AllFit(MixedDiagram(sizes, types, groupCount))
      modifies this, lines
      ensures Valid() && lines == old(lines)
      ensures Lines() == MixedDiagram(sizes, types, groupCount)
      ensures forall k :: lineCount <= k < MAX_CIRCUIT_LINES ==> lines[k] == old(lines[k])
    {
      lineCount := 0;
      var parallelIdx, seriesBefore := LocateParallelGroup(sizes, types, groupCount);

      if parallelIdx == -1 {
        var totalResistors := 0;
        var i := 0;
        while i < groupCount
          invariant 0 <= i <= groupCount
          invariant totalResistors == GroupStart(sizes, i)
        {
          totalResistors := totalResistors + sizes[i];
          i := i + 1;
        }
        SaveSeriesDiagram(totalResistors);
        return;
      }

      var parallelSize := sizes[parallelIdx];
      var spacesBefore := 8 * seriesBefore;
      var spaceStr := SpaceString(spacesBefore);
      var branch := spaceStr + Spaces(3) + WIRE + RESISTOR + WIRE + Spaces(3);
      var vert := spaceStr + Spaces(2) + VERT + Spaces(10) + VERT;
      var middle := BuildMixedMiddle(sizes, groupCount, parallelIdx);
      assert branch == BranchLine(spacesBefore) && vert == VertLine(spacesBefore);

      if parallelSize == 2 || parallelSize == 3 {
        ghost var d := MixedDiagram(sizes, types, groupCount);
        assert d == [branch, vert, middle, vert, branch];
        assert |d[0]| < MAX_LINE_LENGTH && |d[1]| < MAX_LINE_LENGTH && |d[2]| < MAX_LINE_LENGTH;
        SaveBlock5(branch, vert, middle);
      } else {
        ghost var d := MixedDiagram(sizes, types, groupCount);
        assert d == [branch, vert, branch, vert, middle, vert, branch, vert, branch];
        assert |d[0]| < MAX_LINE_LENGTH && |d[1]| < MAX_LINE_LENGTH && |d[4]| < MAX_LINE_LENGTH;
        SaveBlock9(branch, vert, middle);
      }
    }
  }
}
