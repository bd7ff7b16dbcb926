/** The statistics cyclictest keeps for each measuring thread: extremes, histogram and outliers. */
module ThreadStats {

  const FIRST_MIN: int := 1000000
  const TWO_63: int := 0x8000_0000_0000_0000
  const TWO_64: int := 0x1_0000_0000_0000_0000

  predicate IsLong(d: int) { -TWO_63 <= d < TWO_63 }

  /** The int64_t difference stored in the uint64_t `diff`, and back into a long. */
  function ToUnsigned(d: int): nat { d % TWO_64 }
  function ToLong(u: nat): int { if u < TWO_63 then u else u - TWO_64 }

  lemma RoundTrip(d: int)
    requires IsLong(d)
    ensures ToLong(ToUnsigned(d)) == d
    ensures ToUnsigned(d) == (if d >= 0 then d else d + TWO_64)
  {
    if d < 0 {
      assert (d + TWO_64) % TWO_64 == d + TWO_64;
    }
  }

  // ------------------------------------------------------------------ what is recorded, by the list of differences

  function Last(ds: seq<int>): int
    requires ds != []
  {
    ds[|ds| - 1]
  }

  function Front(ds: seq<int>): seq<int>
    requires ds != []
  {
    ds[..|ds| - 1]
  }

  /** How many differences fell into bucket b. */
  function Count(ds: seq<int>, b: nat): (n: nat)
    ensures n <= |ds|
  {
    if ds == [] then 0 else Count(Front(ds), b) + if ToUnsigned(Last(ds)) == b then 1 else 0
  }

  /** The cycles whose difference is beyond the histogram, in order. */
  function Overflows(ds: seq<int>, histogram: nat): (cs: seq<nat>)
    ensures |cs| <= |ds|
    ensures forall c: nat :: c in cs <==> c < |ds| && ToUnsigned(ds[c]) >= histogram
    ensures forall i, j :: 0 <= i < j < |cs| ==> cs[i] < cs[j]
  {
    if ds == [] then []
    else
      var cs := Overflows(Front(ds), histogram);
      assert forall i :: 0 <= i < |cs| ==> cs[i] in cs;
      if ToUnsigned(Last(ds)) >= histogram then cs + [|ds| - 1] else cs
  }

  function SumCounts(ds: seq<int>, histogram: nat): nat {
    if histogram == 0 then 0 else SumCounts(ds, histogram - 1) + Count(ds, histogram - 1)
  }

  lemma {:induction false} SumCountsOne(ds: seq<int>, histogram: nat)
    requires ds != []
    ensures SumCounts(ds, histogram)
         == SumCounts(Front(ds), histogram) + if ToUnsigned(Last(ds)) < histogram then 1 else 0
  {
    if histogram > 0 {
      SumCountsOne(ds, histogram - 1);
    }
  }

  /** Every cycle is counted once: in its bucket or as an overflow. */
  lemma {:induction false} EveryCycleCounted(ds: seq<int>, histogram: nat)
    ensures SumCounts(ds, histogram) + |Overflows(ds, histogram)| == |ds|
  {
    if ds == [] {
      NothingCounted(histogram);
    } else {
      EveryCycleCounted(Front(ds), histogram);
      SumCountsOne(ds, histogram);
    }
  }

  lemma {:induction false} NothingCounted(histogram: nat)
    ensures SumCounts([], histogram) == 0
  {
    if histogram > 0 {
      NothingCounted(histogram - 1);
    }
  }

  /** The extremes as recorded: all comparisons are unsigned, the results are stored in a long. */
  function Least(ds: seq<int>): int {
    if ds == [] then FIRST_MIN
    else
      var m := Least(Front(ds));
      if ToUnsigned(Last(ds)) < ToUnsigned(m) then ToLong(ToUnsigned(Last(ds))) else m
  }

  function Greatest(ds: seq<int>): int {
    if ds == [] then 0
    else
      var m := Greatest(Front(ds));
      if ToUnsigned(Last(ds)) > ToUnsigned(m) then ToLong(ToUnsigned(Last(ds))) else m
  }

  ghost predicate AllLong(ds: seq<int>) { forall i :: 0 <= i < |ds| ==> IsLong(ds[i]) }

  /** The recorded minimum is that of the non-negative differences: early wake-ups never show in it. */
  lemma {:induction false} LeastIgnoresEarly(ds: seq<int>)
    requires AllLong(ds)
    ensures 0 <= Least(ds) <= FIRST_MIN
    ensures forall i :: 0 <= i < |ds| && ds[i] >= 0 ==> Least(ds) <= ds[i]
    ensures Least(ds) == FIRST_MIN || Least(ds) in ds
  {
    if ds != [] {
      LeastIgnoresEarly(Front(ds));
      RoundTrip(Last(ds));
      RoundTrip(Least(Front(ds)));
      assert ds == Front(ds) + [Last(ds)];
    }
  }

  /** The recorded maximum is that of all differences until the first early wake-up; from then on it is
      negative: the largest negative difference, whatever the latencies were. */
  lemma {:induction false} GreatestTakenOverByEarly(ds: seq<int>)
    requires AllLong(ds)
    ensures IsLong(Greatest(ds)) && (Greatest(ds) == 0 || Greatest(ds) in ds)
    ensures Greatest(ds) < 0 <==> exists i :: 0 <= i < |ds| && ds[i] < 0
    ensures forall i :: 0 <= i < |ds| && (Greatest(ds) < 0 ==> ds[i] < 0) ==> ds[i] <= Greatest(ds)
  {
    if ds != [] {
      var f := Front(ds);
      GreatestTakenOverByEarly(f);
      RoundTrip(Last(ds));
      RoundTrip(Greatest(f));
      assert ds == f + [Last(ds)];
      assert forall i :: 0 <= i < |f| ==> f[i] == ds[i];
      if i :| 0 <= i < |f| && f[i] < 0 {
        assert ds[i] < 0;
      }
    }
  }

  // ------------------------------------------------------------------ the recorder

  /** struct thread_stat, with the differences recorded so far.  Without a histogram the arrays are empty. */
  class ThreadStat {
    const histogram: nat
    var cycles: nat
    var min: int
    var max: int
    var act: int
    const hist_array: array<nat>
    const outliers: array<nat>
    var hist_overflow: nat
    var num_outliers: nat
    ghost var diffs: seq<int>

    ghost predicate Valid()
      reads this, hist_array, outliers
    {
      && hist_array != outliers && hist_array.Length == outliers.Length == histogram
      && cycles == |diffs| && AllLong(diffs)
      && Extremes(diffs) && Recorded(diffs)
    }

    ghost predicate Extremes(ds: seq<int>)
      reads `min, `max, `act
    {
      min == Least(ds) && max == Greatest(ds) && act == if ds == [] then 0 else Last(ds)
    }

    ghost predicate Recorded(ds: seq<int>)
      requires hist_array.Length == outliers.Length == histogram
      reads `hist_overflow, `num_outliers, hist_array, outliers
    {
      if histogram == 0 then hist_overflow == num_outliers == 0
      else
        && (forall b :: 0 <= b < histogram ==> hist_array[b] == Count(ds, b))
        && FirstOnes(Overflows(ds, histogram))
    }

    /** All overflows are counted, and the first ones listed as far as there is room. */
    ghost predicate FirstOnes(cs: seq<nat>)
      reads `hist_overflow, `num_outliers, outliers
    {
      && hist_overflow == |cs|
      && num_outliers == (if |cs| < outliers.Length then |cs| else outliers.Length)
      && outliers[..num_outliers] == cs[..num_outliers]
    }

    constructor (buckets: nat)
      ensures Valid() && diffs == [] && histogram == buckets
      ensures fresh(hist_array) && fresh(outliers)
    {
      histogram := buckets;
      cycles, min, max, act := 0, FIRST_MIN, 0, 0;
      hist_array := new nat[buckets](_ => 0);
      outliers := new nat[buckets](_ => 0);
      hist_overflow, num_outliers := 0, 0;
      diffs := [];
    }

    /** One cycle of the measuring loop; `d` is the difference of the wake-up from its time. */
    method Record(d: int)
      requires Valid() && IsLong(d)
      modifies this, hist_array, outliers
      ensures Valid() && diffs == old(diffs) + [d]
    {
      var diff := ToUnsigned(d);
      UpdateExtremes(diff, d);
      if histogram > 0 {
        CountIn(diff, d);
      }
      cycles := cycles + 1;
      diffs := diffs + [d];
    }

    method UpdateExtremes(diff: nat, ghost d: int)
      requires Extremes(diffs) && IsLong(d) && diff == ToUnsigned(d)
      modifies `min, `max, `act
      ensures Extremes(diffs + [d])
    {
      RoundTrip(d);
      assert Front(diffs + [d]) == diffs;
      if diff < ToUnsigned(min) {
        min := ToLong(diff);
      }
      if diff > ToUnsigned(max) {
        max := ToLong(diff);
      }
      act := ToLong(diff);
    }

    /** The histogram part of the cycle. */
    method CountIn(diff: nat, ghost d: int)
      requires hist_array != outliers && hist_array.Length == outliers.Length == histogram > 0
      requires cycles == |diffs| && Recorded(diffs) && diff == ToUnsigned(d)
      modifies `hist_overflow, `num_outliers, hist_array, outliers
      ensures Recorded(diffs + [d])
    {
      ghost var ds := diffs + [d];
      assert Front(ds) == diffs && Last(ds) == d;
      assert forall b :: 0 <= b < histogram ==> Count(ds, b) == Count(diffs, b) + if diff == b then 1 else 0;
      if diff >= histogram {
        NoteOverflow(Overflows(diffs, histogram));
        assert Overflows(ds, histogram) == Overflows(diffs, histogram) + [cycles];
      } else {
        hist_array[diff] := hist_array[diff] + 1;
        assert Overflows(ds, histogram) == Overflows(diffs, histogram);
      }
    }

    method NoteOverflow(ghost cs: seq<nat>)
      requires FirstOnes(cs)
      modifies `hist_overflow, `num_outliers, outliers
      ensures FirstOnes(cs + [cycles])
    {
      hist_overflow := hist_overflow + 1;
      if num_outliers < outliers.Length {
        outliers[num_outliers] := cycles;
        num_outliers := num_outliers + 1;
      }
    }
  }
}
