/**
  Properties of the drawings of module Diagram: how many lines each has, when
  they fit their line slots, and how the mixed drawing relates to the series and
  parallel ones.
 */
module DiagramLemmas {
  import opened Resistors
  import opened Diagram

  /** The series builder stays within a line slot exactly for up to 7 resistors. */
  lemma SeriesDiagramFits(n: int)
    ensures |SeriesDiagram(n)| == 1
    ensures AllFit(SeriesDiagram(n)) <==> n <= 7
  {
    assert SeriesDiagram(n)[0] == SeriesLine(n);
  }

  /** The parallel drawing has 5 lines for 2 or 3 branches, 9 for 4 or 5, and none otherwise; all fit. */
  lemma ParallelDiagramShape(n: int)
    ensures |ParallelDiagram(n)| == if n == 2 || n == 3 then 5 else if n == 4 || n == 5 then 9 else 0
    ensures AllFit(ParallelDiagram(n))
  {
  }

  // ------------------------------------------------ resistors in a drawing

  /** How many times the zigzag RESISTOR occurs in a line, at any byte position. */
  function ZigzagCount(line: seq<byte>): nat
    decreases |line|
  {
    if |line| < |RESISTOR| then 0
    else (if line[..|RESISTOR|] == RESISTOR then 1 else 0) + ZigzagCount(line[1..])
  }

  /** Resistors shown by a drawing: the zigzags of all its lines. */
  function ResistorsDrawn(ls: seq<seq<byte>>): nat
  {
    if |ls| == 0 then 0 else ResistorsDrawn(ls[..|ls| - 1]) + ZigzagCount(ls[|ls| - 1])
  }

  /** No byte of s is the slash that every zigzag starts with. */
  predicate NoSlash(s: seq<byte>)
  {
    forall k :: 0 <= k < |s| ==> s[k] != 0x2F
  }

  /** s is empty or does not start with a slash. */
  predicate StartsClear(s: seq<byte>)
  {
    |s| == 0 || s[0] != 0x2F
  }

  /** Bytes without a slash in front of a line add no zigzag. */
  lemma {:induction false} SkipNoSlash(a: seq<byte>, c: seq<byte>)
    requires NoSlash(a)
    ensures ZigzagCount(a + c) == ZigzagCount(c)
    decreases |a|
  {
    if |a| > 0 {
      var line := a + c;
      assert line[1..] == a[1..] + c;
      SkipNoSlash(a[1..], c);
      if |line| >= |RESISTOR| {
        assert line[..|RESISTOR|][0] == a[0] != RESISTOR[0];
        assert ZigzagCount(line) == ZigzagCount(line[1..]);
      }
    } else {
      assert a + c == c;
    }
  }

  /** A line without a slash shows no resistor. */
  lemma NoSlashNoZigzag(s: seq<byte>)
    requires NoSlash(s)
    ensures ZigzagCount(s) == 0
  {
    SkipNoSlash(s, []);
    assert s + [] == s;
  }

  /** A window starting inside a zigzag, past its first byte, is not a zigzag when the bytes after it do not start a slash. */
  lemma ShiftedWindow(i: nat, c: seq<byte>)
    requires 1 <= i < |RESISTOR| && StartsClear(c) && |RESISTOR[i..] + c| >= |RESISTOR|
    ensures (RESISTOR[i..] + c)[..|RESISTOR|] != RESISTOR
  {
    var w := (RESISTOR[i..] + c)[..|RESISTOR|];
    if i == 1 || i == 3 || i == 5 {
      assert w[0] == 0x5C;
    } else {
      assert w[|RESISTOR| - i] == c[0] != 0x2F;
      assert RESISTOR[|RESISTOR| - i] == 0x2F;
    }
  }

  /** The last 6 - i bytes of a zigzag, followed by bytes that do not start a slash, add no zigzag. */
  lemma {:induction false} ZigzagTail(i: nat, c: seq<byte>)
    requires 1 <= i <= |RESISTOR| && StartsClear(c)
    ensures ZigzagCount(RESISTOR[i..] + c) == ZigzagCount(c)
    decreases |RESISTOR| - i
  {
    var line := RESISTOR[i..] + c;
    if i < |RESISTOR| {
      assert line[1..] == RESISTOR[i + 1..] + c;
      ZigzagTail(i + 1, c);
      if |line| >= |RESISTOR| {
        ShiftedWindow(i, c);
        assert ZigzagCount(line) == ZigzagCount(line[1..]);
      }
    } else {
      assert line == c;
    }
  }

  /** A zigzag followed by bytes that do not start a slash adds exactly one resistor. */
  lemma OneZigzag(c: seq<byte>)
    requires StartsClear(c)
    ensures ZigzagCount(RESISTOR + c) == 1 + ZigzagCount(c)
  {
    var line := RESISTOR + c;
    assert line[..|RESISTOR|] == RESISTOR;
    assert line[1..] == RESISTOR[1..] + c;
    ZigzagTail(1, c);
  }

  /** Spaces contain no slash. */
  lemma {:induction false} SpacesNoSlash(n: int)
    ensures NoSlash(Spaces(n))
    decreases n
  {
    if n > 0 {
      SpacesNoSlash(n - 1);
      assert Spaces(n) == Spaces(n - 1) + [SPACE];
    }
  }

  /** A branch line shows one resistor. */
  lemma BranchLineZigzags()
    ensures ZigzagCount(BranchLine(0)) == 1
  {
    SpacesNoSlash(0);
    SpacesNoSlash(3);
    var a, c := Spaces(0) + Spaces(3) + WIRE, WIRE + Spaces(3);
    assert BranchLine(0) == a + (RESISTOR + c);
    SkipNoSlash(a, RESISTOR + c);
    OneZigzag(c);
    NoSlashNoZigzag(c);
  }

  /** The odd middle line shows one resistor. */
  lemma ResistorMiddleZigzags()
    ensures ZigzagCount(RESISTOR_MIDDLE) == 1
  {
    var a, c := WIRE + NODE + WIRE, WIRE + NODE + WIRE;
    assert RESISTOR_MIDDLE == a + (RESISTOR + c);
    SkipNoSlash(a, RESISTOR + c);
    OneZigzag(c);
    NoSlashNoZigzag(c);
  }

  /** The connector line shows no resistor. */
  lemma VertLineZigzags()
    ensures ZigzagCount(VertLine(0)) == 0
  {
    SpacesNoSlash(0);
    SpacesNoSlash(2);
    SpacesNoSlash(10);
    NoSlashNoZigzag(VertLine(0));
  }

  /** The even middle line shows no resistor. */
  lemma OpenMiddleZigzags()
    ensures ZigzagCount(OPEN_MIDDLE) == 0
  {
    SpacesNoSlash(10);
    NoSlashNoZigzag(OPEN_MIDDLE);
  }

  /** A drawing extended by one line shows that line's resistors more. */
  lemma ResistorsDrawnSnoc(ls: seq<seq<byte>>, y: seq<byte>)
    ensures ResistorsDrawn(ls + [y]) == ResistorsDrawn(ls) + ZigzagCount(y)
  {
    assert (ls + [y])[..|ls|] == ls;
  }

  lemma BlockResistors5(b: seq<byte>, v: seq<byte>, mid: seq<byte>)
    ensures ResistorsDrawn([b, v, mid, v, b])
         == 2 * ZigzagCount(b) + 2 * ZigzagCount(v) + ZigzagCount(mid)
  {
    ResistorsDrawnSnoc([], b);
    assert [] + [b] == [b];
    ResistorsDrawnSnoc([b], v);
    assert [b] + [v] == [b, v];
    ResistorsDrawnSnoc([b, v], mid);
    assert [b, v] + [mid] == [b, v, mid];
    ResistorsDrawnSnoc([b, v, mid], v);
    assert [b, v, mid] + [v] == [b, v, mid, v];
    ResistorsDrawnSnoc([b, v, mid, v], b);
    assert [b, v, mid, v] + [b] == [b, v, mid, v, b];
  }

  lemma BlockResistors9(b: seq<byte>, v: seq<byte>, mid: seq<byte>)
    ensures ResistorsDrawn([b, v, b, v, mid, v, b, v, b])
         == 4 * ZigzagCount(b) + 4 * ZigzagCount(v) + ZigzagCount(mid)
  {
    ResistorsDrawnSnoc([], b);
    assert [] + [b] == [b];
    ResistorsDrawnSnoc([b], v);
    assert [b] + [v] == [b, v];
    ResistorsDrawnSnoc([b, v], b);
    assert [b, v] + [b] == [b, v, b];
    ResistorsDrawnSnoc([b, v, b], v);
    assert [b, v, b] + [v] == [b, v, b, v];
    ResistorsDrawnSnoc([b, v, b, v], mid);
    assert [b, v, b, v] + [mid] == [b, v, b, v, mid];
    ResistorsDrawnSnoc([b, v, b, v, mid], v);
    assert [b, v, b, v, mid] + [v] == [b, v, b, v, mid, v];
    ResistorsDrawnSnoc([b, v, b, v, mid, v], b);
    assert [b, v, b, v, mid, v] + [b] == [b, v, b, v, mid, v, b];
    ResistorsDrawnSnoc([b, v, b, v, mid, v, b], v);
    assert [b, v, b, v, mid, v, b] + [v] == [b, v, b, v, mid, v, b, v];
    ResistorsDrawnSnoc([b, v, b, v, mid, v, b, v], b);
    assert [b, v, b, v, mid, v, b, v] + [b] == [b, v, b, v, mid, v, b, v, b];
  }

  /** Blocks of branch lines b, connector lines v and a middle line show the resistors of their lines. */
  lemma BlockResistors(n: int, b: seq<byte>, v: seq<byte>, mid: seq<byte>, d: seq<seq<byte>>)
    requires 2 <= n <= 5
    requires ZigzagCount(b) == 1 && ZigzagCount(v) == 0
    requires ZigzagCount(mid) == if n == 3 || n == 5 then 1 else 0
    requires d == if n <= 3 then [b, v, mid, v, b] else [b, v, b, v, mid, v, b, v, b]
    ensures ResistorsDrawn(d) == n
  {
    if n <= 3 {
      BlockResistors5(b, v, mid);
    } else {
      BlockResistors9(b, v, mid);
    }
  }

  /** The parallel drawing of n = 2 .. 5 branches shows exactly n resistors. */
  lemma ParallelDiagramDrawsEachResistor(n: int)
    requires 2 <= n <= 5
    ensures ResistorsDrawn(ParallelDiagram(n)) == n
  {
    var mid := if n == 3 || n == 5 then RESISTOR_MIDDLE else OPEN_MIDDLE;
    BranchLineZigzags();
    VertLineZigzags();
    ResistorMiddleZigzags();
    OpenMiddleZigzags();
    BlockResistors(n, BranchLine(0), VertLine(0), mid, ParallelDiagram(n));
  }

  /** Repetition can also be unfolded at the front. */
  lemma {:induction false} RepeatFront(s: seq<byte>, n: int)
    requires n > 0
    ensures Repeat(s, n) == s + Repeat(s, n - 1)
    decreases n
  {
    if n > 1 {
      RepeatFront(s, n - 1);
    }
  }

  /** Each repetition of RESISTOR WIRE adds one resistor. */
  lemma {:induction false} SeriesRepeatZigzags(n: int)
    ensures ZigzagCount(Repeat(RESISTOR + WIRE, n)) == if n <= 0 then 0 else n
    decreases n
  {
    if n > 0 {
      var rest := Repeat(RESISTOR + WIRE, n - 1);
      RepeatFront(RESISTOR + WIRE, n);
      assert Repeat(RESISTOR + WIRE, n) == RESISTOR + (WIRE + rest);
      OneZigzag(WIRE + rest);
      SkipNoSlash(WIRE, rest);
      SeriesRepeatZigzags(n - 1);
    }
  }

  /** The series drawing of n resistors shows exactly n resistors. */
  lemma SeriesDiagramDrawsEachResistor(n: int)
    requires n >= 0
    ensures ResistorsDrawn(SeriesDiagram(n)) == n
  {
    assert SeriesDiagram(n) == [] + [SeriesLine(n)];
    ResistorsDrawnSnoc([], SeriesLine(n));
    SkipNoSlash(WIRE, Repeat(RESISTOR + WIRE, n));
    SeriesRepeatZigzags(n);
  }

  /**
    The mixed drawing has one line without a parallel group, otherwise 5 lines
    when the first parallel group has 2 or 3 branches and 9 for any other size.
   */
  lemma MixedDiagramShape(sizes: seq<int>, types: seq<int>, count: nat)
    requires count <= |sizes| && count <= |types|
    ensures var p := FirstParallel(types, count);
            |MixedDiagram(sizes, types, count)|
            == if p == -1 then 1 else if sizes[p] == 2 || sizes[p] == 3 then 5 else 9
    ensures 1 <= |MixedDiagram(sizes, types, count)| < MAX_CIRCUIT_LINES
  {
  }

  /** A mixed circuit of series groups only is drawn like the series circuit of all its resistors. */
  lemma MixedWithoutParallelIsSeries(sizes: seq<int>, types: seq<int>, count: nat)
    requires count <= |sizes| && count <= |types|
    requires forall k :: 0 <= k < count ==> types[k] != PARALLEL
    ensures MixedDiagram(sizes, types, count) == SeriesDiagram(GroupStart(sizes, count))
  {
  }

  /**
    One parallel group alone is drawn as by the parallel builder only for 3 or 5
    branches: for 2 and 4 the mixed middle line carries a resistor where the
    parallel drawing leaves a gap, and other sizes have no parallel drawing.
   */
  lemma MixedOfOneParallelGroup(sizes: seq<int>, types: seq<int>)
    requires 1 <= |sizes| && 1 <= |types| && types[0] == PARALLEL
    ensures MixedDiagram(sizes, types, 1) == ParallelDiagram(sizes[0]) <==> sizes[0] == 3 || sizes[0] == 5
  {
    var n := sizes[0];
    var m := MixedMiddle(sizes, 1, 0);
    assert FirstParallel(types, 1) == 0;
    assert GroupStart(sizes, 0) == 0;
    assert m == BlockMiddle(n) + WIRE by {
      assert SeriesRun(sizes, 0, 0) == [] && SeriesRun(sizes, 1, 1) == [];
    }
    var d := MixedDiagram(sizes, types, 1);
    if n == 3 || n == 5 {
      assert m == RESISTOR_MIDDLE;
    } else if n == 2 || n == 4 {
      assert |m| != |OPEN_MIDDLE|;
      assert d[|d| / 2] == m && ParallelDiagram(n)[|d| / 2] == OPEN_MIDDLE;
    } else {
      assert |d| != |ParallelDiagram(n)|;
    }
  }

  /** WIRE RESISTOR per resistor: 12 bytes for each resistor of the run. */
  lemma {:induction false} SeriesRunLength(sizes: seq<int>, lo: nat, hi: nat)
    requires lo <= hi && GroupsNonEmpty(sizes, hi)
    ensures |SeriesRun(sizes, lo, hi)| == 12 * (GroupStart(sizes, hi) - GroupStart(sizes, lo))
    decreases hi
  {
    if lo < hi {
      SeriesRunLength(sizes, lo, hi - 1);
    }
  }

  /** The main line of the mixed drawing: 12 bytes per series resistor, the block and a final wire. */
  lemma MixedMiddleLength(sizes: seq<int>, count: nat, p: nat)
    requires p < count && GroupsNonEmpty(sizes, count)
    ensures |MixedMiddle(sizes, count, p)|
         == 12 * (GroupStart(sizes, count) - sizes[p]) + |BlockMiddle(sizes[p])| + |WIRE|
  {
    assert GroupStart(sizes, p + 1) == GroupStart(sizes, p) + sizes[p];
    SeriesRunLength(sizes, 0, p);
    SeriesRunLength(sizes, p + 1, count);
  }

  /** With at most MAX_RESISTORS resistors, every line of a parallel block of the mixed drawing fits. */
  lemma MixedBlockLinesFit(sizes: seq<int>, count: nat, p: nat)
    requires p < count && GroupsNonEmpty(sizes, count)
    requires GroupStart(sizes, count) <= MAX_RESISTORS
    ensures |BranchLine(8 * GroupStart(sizes, p))| < MAX_LINE_LENGTH
    ensures |VertLine(8 * GroupStart(sizes, p))| < MAX_LINE_LENGTH
    ensures |MixedMiddle(sizes, count, p)| < MAX_LINE_LENGTH
  {
    GroupStartMonotone(sizes, p + 1, count);
    GroupStartMonotone(sizes, 0, p);
    assert GroupStart(sizes, p + 1) == GroupStart(sizes, p) + sizes[p];
    MixedMiddleLength(sizes, count, p);
  }

  lemma BlocksFit(b: seq<byte>, v: seq<byte>, m: seq<byte>)
    requires |b| < MAX_LINE_LENGTH && |v| < MAX_LINE_LENGTH && |m| < MAX_LINE_LENGTH
    ensures AllFit([b, v, m, v, b]) && AllFit([b, v, b, v, m, v, b, v, b])
  {
  }

  /**
    Inputs the configuration dialogue accepts (non-empty groups, at most
    MAX_RESISTORS resistors in all) never overflow a line slot of the mixed drawing.
   */
  lemma MixedDiagramFits(sizes: seq<int>, types: seq<int>, count: nat)
    requires count <= |types| && GroupsNonEmpty(sizes, count)
    requires GroupStart(sizes, count) <= MAX_RESISTORS
    ensures AllFit(MixedDiagram(sizes, types, count))
  {
    var p := FirstParallel(types, count);
    if p == -1 {
      GroupStartMonotone(sizes, 0, count);
      SeriesDiagramFits(GroupStart(sizes, count));
      assert MixedDiagram(sizes, types, count) == SeriesDiagram(GroupStart(sizes, count));
    } else {
      MixedBlockLinesFit(sizes, count, p);
      var indent := 8 * GroupStart(sizes, p);
      var b, v, m := BranchLine(indent), VertLine(indent), MixedMiddle(sizes, count, p);
      var d := MixedDiagram(sizes, types, count);
      BlocksFit(b, v, m);
      if sizes[p] == 2 || sizes[p] == 3 {
        assert d == [b, v, m, v, b];
      } else {
        assert d == [b, v, b, v, m, v, b, v, b];
      }
    }
  }
}
