/**
  Properties of the equivalent-resistance model of module Resistors.
 */
module ResistorLemmas {
  import opened Resistors
  import Sums

  /** Sums distribute over concatenation. */
  lemma {:induction false} SeqSumConcat(a: seq<real>, b: seq<real>)
    ensures SeqSum(a + b) == SeqSum(a) + SeqSum(b)
    decreases |b|
  {
    if |b| == 0 {
      assert a + b == a;
    } else {
      var b' := b[..|b| - 1];
      assert (a + b)[..|a + b| - 1] == a + b';
      SeqSumConcat(a, b');
    }
  }

  /** The terms of s as an index family, zero past its end. */
  function Terms(s: seq<real>): nat -> real
  {
    (k: nat) => if k < |s| then s[k] else 0.0
  }

  /**
    The sum of a sequence is the index-family sum of its terms: the series
    total and the matrix product's accumulation are one notion of sum.
   */
  lemma {:induction false} SeqSumIsSum(s: seq<real>)
    ensures SeqSum(s) == Sums.Sum(|s|, Terms(s))
    decreases |s|
  {
    if |s| > 0 {
      var init := s[..|s| - 1];
      SeqSumIsSum(init);
      forall k | 0 <= k < |init|
        ensures Terms(init)(k) == Terms(s)(k)
      {
      }
      Sums.SumExt(|init|, Terms(init), Terms(s));
      assert Terms(s)(|s| - 1) == s[|s| - 1];
    }
  }

  /** Every term of a sum of positive terms is at most the sum. */
  lemma {:induction false} SeqSumAtLeastEach(s: seq<real>, k: int)
    requires AllPositive(s) && 0 <= k < |s|
    ensures s[k] <= SeqSum(s)
    decreases |s|
  {
    var init := s[..|s| - 1];
    if k < |s| - 1 {
      SeqSumAtLeastEach(init, k);
    } else if |init| > 0 {
      SeqSumPositive(init);
    }
  }

  /** A sum of n copies of c is n * c. */
  lemma {:induction false} SeqSumConstant(s: seq<real>, c: real)
    requires forall k :: 0 <= k < |s| ==> s[k] == c
    ensures SeqSum(s) == |s| as real * c
    decreases |s|
  {
    if |s| > 0 {
      SeqSumConstant(s[..|s| - 1], c);
    }
  }

  /** A series combination is at least as large as each of its resistors. */
  lemma SeriesAtLeastEach(s: seq<real>, k: int)
    requires AllPositive(s) && 0 <= k < |s|
    ensures s[k] <= SeqSum(s)
  {
    SeqSumAtLeastEach(s, k);
  }

  /** A parallel combination is positive and at most each of its resistors. */
  lemma ParallelAtMostEach(s: seq<real>, k: int)
    requires |s| >= 1 && AllPositive(s) && 0 <= k < |s|
    ensures 0.0 < ParallelTotal(s) <= s[k]
  {
    var r := Reciprocals(s);
    ReciprocalSumPositive(s);
    SeqSumAtLeastEach(r, k);
    var sum := SeqSum(r);
    assert 1.0 / s[k] <= sum;
    PositiveReciprocalBound(s[k], sum);
  }

  lemma PositiveReciprocalBound(x: real, sum: real)
    requires x > 0.0 && 1.0 / x <= sum
    ensures 0.0 < 1.0 / sum <= x
  {
    assert sum > 0.0;
    assert 1.0 <= sum * x by {
      assert (1.0 / x) * x == 1.0;
    }
  }

  /** n equal resistors r in parallel give r / n. */
  lemma ParallelOfEqual(s: seq<real>, r: real)
    requires |s| >= 1 && r > 0.0
    requires forall k :: 0 <= k < |s| ==> s[k] == r
    ensures AllPositive(s)
    ensures ParallelTotal(s) == r / |s| as real
  {
    var rec := Reciprocals(s);
    SeqSumConstant(rec, 1.0 / r);
    var n := |s| as real;
    assert SeqSum(rec) == n * (1.0 / r);
    assert 1.0 / (n * (1.0 / r)) == r / n;
  }

  /** The resistors of groups 0 .. g-1, concatenated in group order. */
  function ConsumedResistors(resistors: seq<real>, sizes: seq<int>, types: seq<int>, g: nat): seq<real>
    requires WellConfigured(resistors, sizes, types, g)
  {
    if g == 0 then []
    else
      WellConfiguredPrefix(resistors, sizes, types, g, g - 1);
      ConsumedResistors(resistors, sizes, types, g - 1) + GroupSlice(resistors, sizes, types, g - 1)
  }

  /**
    The groups take consecutive slices: together the first g groups consume
    exactly the first sizes[0] + ... + sizes[g-1] resistors, each once and in order.
   */
  lemma {:induction false} GroupsConsumePrefix(resistors: seq<real>, sizes: seq<int>, types: seq<int>, g: nat)
    requires WellConfigured(resistors, sizes, types, g)
    ensures ConsumedResistors(resistors, sizes, types, g) == resistors[..GroupStart(sizes, g)]
  {
    if g > 0 {
      WellConfiguredPrefix(resistors, sizes, types, g, g - 1);
      GroupsConsumePrefix(resistors, sizes, types, g - 1);
      GroupStartMonotone(sizes, g - 1, g);
      var a, b := GroupStart(sizes, g - 1), GroupStart(sizes, g);
      assert resistors[..b] == resistors[..a] + resistors[a..b];
    }
  }

  /** The groups are connected in series: each further group adds its resistance. */
  lemma MixedTotalStep(resistors: seq<real>, sizes: seq<int>, types: seq<int>, g: nat)
    requires g >= 1 && WellConfigured(resistors, sizes, types, g)
    ensures WellConfigured(resistors, sizes, types, g - 1)
    ensures MixedTotal(resistors, sizes, types, g)
         == MixedTotal(resistors, sizes, types, g - 1) + GroupResistance(resistors, sizes, types, g - 1)
  {
    WellConfiguredPrefix(resistors, sizes, types, g, g - 1);
    var prev := GroupResistances(resistors, sizes, types, g - 1);
    var last := GroupResistance(resistors, sizes, types, g - 1);
    assert GroupResistances(resistors, sizes, types, g) == prev + [last];
    SeqSumConcat(prev, [last]);
  }

  /** With every group in series, the mixed total is the series total of the consumed resistors. */
  lemma {:induction false} AllSeriesIsSeries(resistors: seq<real>, sizes: seq<int>, types: seq<int>, g: nat)
    requires WellConfigured(resistors, sizes, types, g)
    requires forall k :: 0 <= k < g ==> types[k] == SERIES
    ensures MixedTotal(resistors, sizes, types, g) == SeqSum(resistors[..GroupStart(sizes, g)])
  {
    GroupsConsumePrefix(resistors, sizes, types, g);
    AllSeriesSumsConsumed(resistors, sizes, types, g);
  }

  lemma {:induction false} AllSeriesSumsConsumed(resistors: seq<real>, sizes: seq<int>, types: seq<int>, g: nat)
    requires WellConfigured(resistors, sizes, types, g)
    requires forall k :: 0 <= k < g ==> types[k] == SERIES
    ensures MixedTotal(resistors, sizes, types, g) == SeqSum(ConsumedResistors(resistors, sizes, types, g))
  {
    if g > 0 {
      WellConfiguredPrefix(resistors, sizes, types, g, g - 1);
      var consumed := ConsumedResistors(resistors, sizes, types, g - 1);
      var slice := GroupSlice(resistors, sizes, types, g - 1);
      assert ConsumedResistors(resistors, sizes, types, g) == consumed + slice;
      assert GroupResistance(resistors, sizes, types, g - 1) == SeqSum(slice) by {
        assert types[g - 1] == SERIES;
      }
      AllSeriesSumsConsumed(resistors, sizes, types, g - 1);
      MixedTotalStep(resistors, sizes, types, g);
      SeqSumConcat(consumed, slice);
    }
  }

  /** A single group in parallel is the parallel combination of its resistors. */
  lemma SingleParallelGroup(resistors: seq<real>, sizes: seq<int>, types: seq<int>)
    requires WellConfigured(resistors, sizes, types, 1) && types[0] != SERIES
    ensures 1 <= sizes[0] <= |resistors| && AllPositive(resistors[..sizes[0]])
    ensures MixedTotal(resistors, sizes, types, 1) == ParallelTotal(resistors[..sizes[0]])
  {
    assert GroupStart(sizes, 1) == sizes[0];
    MixedTotalStep(resistors, sizes, types, 1);
    assert GroupResistances(resistors, sizes, types, 0) == [];
    assert GroupSlice(resistors, sizes, types, 0) == resistors[..sizes[0]];
  }
}
