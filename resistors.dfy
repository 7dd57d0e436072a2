/**
  Equivalent resistance of the resistor calculator: resistors in series,
  in parallel, and a chain of groups (each group series or parallel) connected
  in series. Resistances are reals; every resistor the calculator accepts is
  positive, which keeps every reciprocal defined.
 */
module Resistors {

  /** Capacity of the resistor array and of the group arrays. */
  const MAX_RESISTORS: int := 5
  const MAX_GROUPS: int := 5

  /** Connection type code of a series group; any other code is treated as parallel. */
  const SERIES: int := 1

  /** Positivity check of an entered value: 1 when accepted, 0 when rejected. */
  function IsPositive(val: real): (r: int)
    ensures r == 0 || r == 1
    ensures r == 1 <==> val > 0.0
  {
    if val <= 0.0 then 0 else 1
  }

  predicate AllPositive(s: seq<real>)
  {
    forall k :: 0 <= k < |s| ==> s[k] > 0.0
  }

  /**
    s[0] + s[1] + ... + s[|s|-1], added left to right; for resistances, the
    total resistance of resistors in series.
   */
  function SeqSum(s: seq<real>): real
  {
    if |s| == 0 then 0.0 else SeqSum(s[..|s| - 1]) + s[|s| - 1]
  }

  /** Extending a prefix by one element adds that element to its sum. */
  lemma SeqSumExtend(s: seq<real>, i: int)
    requires 0 <= i < |s|
    ensures SeqSum(s[..i + 1]) == SeqSum(s[..i]) + s[i]
  {
    assert s[..i + 1][..i] == s[..i];
  }

  /** 1 / s[k] for every k. */
  function Reciprocals(s: seq<real>): (t: seq<real>)
    requires AllPositive(s)
    ensures |t| == |s|
    ensures forall k :: 0 <= k < |s| ==> t[k] == 1.0 / s[k]
  {
    seq(|s|, k requires 0 <= k < |s| => 1.0 / s[k])
  }

  /** A non-empty sum of positive terms is positive. */
  lemma {:induction false} SeqSumPositive(s: seq<real>)
    requires |s| >= 1 && AllPositive(s)
    ensures SeqSum(s) > 0.0
    decreases |s|
  {
    if |s| > 1 {
      SeqSumPositive(s[..|s| - 1]);
    }
  }

  /** The reciprocal-sum of positive resistances is positive, so its reciprocal exists. */
  lemma ReciprocalSumPositive(s: seq<real>)
    requires |s| >= 1 && AllPositive(s)
    ensures AllPositive(Reciprocals(s)) && SeqSum(Reciprocals(s)) > 0.0
  {
    SeqSumPositive(Reciprocals(s));
  }

  /** Total resistance of resistors in parallel: the reciprocal of the sum of reciprocals. */
  function ParallelTotal(s: seq<real>): real
    requires |s| >= 1 && AllPositive(s)
  {
    ReciprocalSumPositive(s);
    1.0 / SeqSum(Reciprocals(s))
  }

  // -------------------------------------------------------------- the methods

  method CalcSeries(resistors: seq<real>, resistorCount: int) returns (total: real)
    requires 0 <= resistorCount <= |resistors|
    ensures total == SeqSum(resistors[..resistorCount])
  {
    total := 0.0;
    var i := 0;
    while i < resistorCount
      invariant 0 <= i <= resistorCount
      invariant total == SeqSum(resistors[..i])
    {
      SeqSumExtend(resistors, i);
      total := total + resistors[i];
      i := i + 1;
    }
  }

  method CalcParallel(resistors: seq<real>, resistorCount: int) returns (total: real)
    requires 1 <= resistorCount <= |resistors|
    requires AllPositive(resistors[..resistorCount])
    ensures total == ParallelTotal(resistors[..resistorCount])
  {
    var reciprocalSum := 0.0;
    var i := 0;
    while i < resistorCount
      invariant 0 <= i <= resistorCount
      invariant reciprocalSum == SeqSum(Reciprocals(resistors[..i]))
    {
      assert resistors[i] == resistors[..resistorCount][i];
      assert Reciprocals(resistors[..i + 1])[..i] == Reciprocals(resistors[..i]);
      reciprocalSum := reciprocalSum + 1.0 / resistors[i];
      i := i + 1;
    }
    ReciprocalSumPositive(resistors[..resistorCount]);
    assert resistors[..resistorCount] == resistors[..i];
    total := 1.0 / reciprocalSum;
  }

  // ----------------------------------------------------------- mixed circuits

  /** sizes[0] + ... + sizes[g-1]: where group g starts in the resistor array. */
  function GroupStart(sizes: seq<int>, g: nat): int
    requires g <= |sizes|
  {
    if g == 0 then 0 else GroupStart(sizes, g - 1) + sizes[g - 1]
  }

  /** Every group of the first g has at least one resistor. */
  predicate GroupsNonEmpty(sizes: seq<int>, g: nat)
  {
    g <= |sizes| && forall k :: 0 <= k < g ==> sizes[k] >= 1
  }

  lemma {:induction false} GroupStartMonotone(sizes: seq<int>, a: nat, b: nat)
    requires a <= b && GroupsNonEmpty(sizes, b)
    ensures 0 <= GroupStart(sizes, a) <= GroupStart(sizes, b)
    ensures a < b ==> GroupStart(sizes, a) < GroupStart(sizes, b)
    decreases b
  {
    if a < b {
      GroupStartMonotone(sizes, a, b - 1);
    } else if b > 0 {
      GroupStartMonotone(sizes, a - 1, b - 1);
    }
  }

  /** Preconditions the configuration dialogue establishes for the first g groups. */
  predicate WellConfigured(resistors: seq<real>, sizes: seq<int>, types: seq<int>, g: nat)
  {
    && GroupsNonEmpty(sizes, g)
    && g <= |types|
    && 0 <= GroupStart(sizes, g) <= |resistors|
    && AllPositive(resistors[..GroupStart(sizes, g)])
  }

  lemma WellConfiguredPrefix(resistors: seq<real>, sizes: seq<int>, types: seq<int>, g: nat, h: nat)
    requires h <= g && WellConfigured(resistors, sizes, types, g)
    ensures WellConfigured(resistors, sizes, types, h)
  {
    GroupStartMonotone(sizes, h, g);
    var e := GroupStart(sizes, h);
    forall k | 0 <= k < e
      ensures resistors[..e][k] > 0.0
    {
      assert resistors[..e][k] == resistors[..GroupStart(sizes, g)][k];
    }
  }

  /** The resistors of group g: the next sizes[g] after those of the groups before it. */
  function GroupSlice(resistors: seq<real>, sizes: seq<int>, types: seq<int>, g: nat): (slice: seq<real>)
    requires WellConfigured(resistors, sizes, types, g + 1)
    ensures |slice| == sizes[g] >= 1 && AllPositive(slice)
  {
    GroupStartMonotone(sizes, g, g + 1);
    var slice := resistors[GroupStart(sizes, g)..GroupStart(sizes, g + 1)];
    assert AllPositive(slice) by {
      forall k | 0 <= k < |slice|
        ensures slice[k] > 0.0
      {
        assert slice[k] == resistors[..GroupStart(sizes, g + 1)][GroupStart(sizes, g) + k];
      }
    }
    slice
  }

  /** Resistance of group g: its resistors summed (series) or combined in parallel (any other code). */
  function GroupResistance(resistors: seq<real>, sizes: seq<int>, types: seq<int>, g: nat): real
    requires WellConfigured(resistors, sizes, types, g + 1)
  {
    var slice := GroupSlice(resistors, sizes, types, g);
    if types[g] == SERIES then SeqSum(slice) else ParallelTotal(slice)
  }

  /** The resistances of the first g groups, in group order. */
  function GroupResistances(resistors: seq<real>, sizes: seq<int>, types: seq<int>, g: nat): (r: seq<real>)
    requires WellConfigured(resistors, sizes, types, g)
    ensures |r| == g
  {
    if g == 0 then []
    else
      WellConfiguredPrefix(resistors, sizes, types, g, g - 1);
      GroupResistances(resistors, sizes, types, g - 1) + [GroupResistance(resistors, sizes, types, g - 1)]
  }

  /** Total resistance of the first g groups connected in series. */
  function MixedTotal(resistors: seq<real>, sizes: seq<int>, types: seq<int>, g: nat): real
    requires WellConfigured(resistors, sizes, types, g)
  {
    SeqSum(GroupResistances(resistors, sizes, types, g))
  }

  /**
    The inner loop of a series group: adds the next `size` resistors starting
    at `resistorIndex`, advancing the index past them.
   */
  method AccumulateSeries(resistors: seq<real>, resistorIndex: int, size: int)
    returns (groupResistance: real, next: int)
    requires 0 <= resistorIndex && 0 <= size && resistorIndex + size <= |resistors|
    ensures next == resistorIndex + size
    ensures groupResistance == SeqSum(resistors[resistorIndex..next])
  {
    ghost var slice := resistors[resistorIndex..resistorIndex + size];
    groupResistance := 0.0;
    next := resistorIndex;
    var j := 0;
    while j < size
      invariant 0 <= j <= size
      invariant next == resistorIndex + j
      invariant groupResistance == SeqSum(slice[..j])
    {
      SeqSumExtend(slice, j);
      groupResistance := groupResistance + resistors[next];
      next := next + 1;
      j := j + 1;
    }
    assert slice[..size] == slice;
  }

  /**
    The inner loop of a parallel group: the reciprocal of the sum of the
    reciprocals of the next `size` resistors, advancing the index past them.
   */
  method AccumulateParallel(resistors: seq<real>, resistorIndex: int, size: int)
    returns (groupResistance: real, next: int)
    requires 0 <= resistorIndex && 1 <= size && resistorIndex + size <= |resistors|
    requires AllPositive(resistors[resistorIndex..resistorIndex + size])
    ensures next == resistorIndex + size
    ensures groupResistance == ParallelTotal(resistors[resistorIndex..next])
  {
    ghost var slice := resistors[resistorIndex..resistorIndex + size];
    var reciprocalSum := 0.0;
    next := resistorIndex;
    var j := 0;
    while j < size
      invariant 0 <= j <= size
      invariant next == resistorIndex + j
      invariant reciprocalSum == SeqSum(Reciprocals(slice[..j]))
    {
      assert Reciprocals(slice[..j + 1])[..j] == Reciprocals(slice[..j]);
      reciprocalSum := reciprocalSum + 1.0 / resistors[next];
      next := next + 1;
      j := j + 1;
    }
    assert slice[..size] == slice;
    ReciprocalSumPositive(slice);
    groupResistance := 1.0 / reciprocalSum;
  }

  method CalcMixedResistance(resistors: seq<real>, resistorCount: int, groupSizes: seq<int>,
                             connectionTypes: seq<int>, groupCount: int)
    returns (totalResistance: real)
    requires 0 <= groupCount <= MAX_GROUPS
    requires WellConfigured(resistors, groupSizes, connectionTypes, groupCount)
    ensures totalResistance == MixedTotal(resistors, groupSizes, connectionTypes, groupCount)
  {
    var groupResistances := new real[MAX_GROUPS];
    var resistorIndex := 0;
    var i := 0;
    while i < groupCount
      invariant 0 <= i <= groupCount
      invariant WellConfigured(resistors, groupSizes, connectionTypes, i)
      invariant resistorIndex == GroupStart(groupSizes, i)
      invariant groupResistances[..i] == GroupResistances(resistors, groupSizes, connectionTypes, i)
    {
      WellConfiguredPrefix(resistors, groupSizes, connectionTypes, groupCount, i + 1);
      ghost var before := groupResistances[..i];
      if connectionTypes[i] == SERIES {
        groupResistances[i], resistorIndex := AccumulateSeries(resistors, resistorIndex, groupSizes[i]);
      } else {
        groupResistances[i], resistorIndex := AccumulateParallel(resistors, resistorIndex, groupSizes[i]);
      }
      assert groupResistances[..i + 1] == before + [groupResistances[i]];
      i := i + 1;
    }
    totalResistance := 0.0;
    i := 0;
    ghost var all := groupResistances[..groupCount];
    while i < groupCount
      invariant 0 <= i <= groupCount
      invariant groupResistances[..groupCount] == all
      invariant totalResistance == SeqSum(all[..i])
    {
      SeqSumExtend(all, i);
      totalResistance := totalResistance + groupResistances[i];
      i := i + 1;
    }
    assert all[..groupCount] == all;
  }
}
