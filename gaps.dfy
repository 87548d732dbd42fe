/** Gap analysis of a daily conversion series (calculateSlidingWindowMin and
    analyzeConversionGaps): runs of zero-conversion days, the smallest
    conversion count of any window of a given length, and the two threshold
    recommendations derived from them. */
module GapAnalyzer {
  import opened Base

  // ---------------------------------------------------- sliding-window minimum

  /** `values[lo] + … + values[hi - 1]`. */
  function SumRange(v: seq<real>, lo: nat, hi: nat): real
    requires lo <= hi <= |v|
    decreases hi
  {
    if lo == hi then 0.0 else SumRange(v, lo, hi - 1) + v[hi - 1]
  }

  lemma {:induction false} SumRangeFront(v: seq<real>, lo: nat, hi: nat)
    requires lo < hi <= |v|
    ensures SumRange(v, lo, hi) == v[lo] + SumRange(v, lo + 1, hi)
    decreases hi
  {
    if hi > lo + 1 {
      SumRangeFront(v, lo, hi - 1);
    }
  }

  /** Moving a window one place right drops its first day and adds the next. */
  lemma SumRangeSlide(v: seq<real>, lo: nat, hi: nat)
    requires lo < hi < |v|
    ensures SumRange(v, lo + 1, hi + 1) == SumRange(v, lo, hi) - v[lo] + v[hi]
  {
    SumRangeFront(v, lo, hi);
  }

  function MinReal(a: real, b: real): (m: real)
    ensures m <= a && m <= b && (m == a || m == b)
  {
    if b < a then b else a
  }

  /** The sum of the `w` days starting at day `i`. */
  function WindowSum(v: seq<real>, i: nat, w: nat): real
    requires i + w <= |v|
  {
    SumRange(v, i, i + w)
  }

  /** The brute-force minimum of the window sums starting at `0..last`. */
  function MinWindowUpTo(v: seq<real>, w: nat, last: nat): real
    requires last + w <= |v|
  {
    if last == 0 then WindowSum(v, 0, w)
    else MinReal(MinWindowUpTo(v, w, last - 1), WindowSum(v, last, w))
  }

  /** calculateSlidingWindowMin's result: 0 for a window longer than the series
      or not positive, otherwise the smallest sum of `w` consecutive days. */
  function SlidingMin(v: seq<real>, w: int): real {
    if w > |v| || w <= 0 then 0.0 else MinWindowUpTo(v, w as nat, |v| - w)
  }

  /** The brute-force minimum is no larger than any window sum ... */
  lemma {:induction false} MinWindowBelow(v: seq<real>, w: nat, last: nat, i: nat)
    requires last + w <= |v| && i <= last
    ensures MinWindowUpTo(v, w, last) <= WindowSum(v, i, w)
  {
    if i < last {
      MinWindowBelow(v, w, last - 1, i);
    }
  }

  /** ... and is the sum of some window, whose start is returned. */
  lemma {:induction false} MinWindowAttained(v: seq<real>, w: nat, last: nat) returns (i: nat)
    requires last + w <= |v|
    ensures i <= last && MinWindowUpTo(v, w, last) == WindowSum(v, i, w)
  {
    if last == 0 {
      i := 0;
    } else {
      var j := MinWindowAttained(v, w, last - 1);
      i := if MinWindowUpTo(v, w, last) == WindowSum(v, last, w) then last else j;
    }
  }

  /** SlidingMin is the least window sum, over every start position. */
  lemma SlidingMinIsLeast(v: seq<real>, w: nat)
    requires 0 < w <= |v|
    ensures forall i :: 0 <= i <= |v| - w ==> SlidingMin(v, w) <= WindowSum(v, i, w)
    ensures exists i :: 0 <= i <= |v| - w && SlidingMin(v, w) == WindowSum(v, i, w)
  {
    forall i | 0 <= i <= |v| - w ensures SlidingMin(v, w) <= WindowSum(v, i, w) {
      MinWindowBelow(v, w, |v| - w, i);
    }
    var k := MinWindowAttained(v, w, |v| - w);
  }

  /** calculateSlidingWindowMin: the first window summed, then the rolling sum
      that drops one day on the left and adds one on the right. */
  method SlidingWindowMin(values: seq<real>, windowSize: int) returns (minSum: real)
    ensures minSum == SlidingMin(values, windowSize)
  {
    if windowSize > |values| {
      return 0.0;
    }
    if windowSize <= 0 {
      return 0.0;
    }
    var w: nat := windowSize;
    var currentSum := 0.0;
    var i := 0;
    while i < w
      invariant 0 <= i <= w
      invariant currentSum == SumRange(values, 0, i)
    {
      currentSum := currentSum + values[i];
      i := i + 1;
    }
    minSum := currentSum;
    i := w;
    while i < |values|
      invariant w <= i <= |values|
      invariant currentSum == SumRange(values, i - w, i)
      invariant minSum == MinWindowUpTo(values, w, i - w)
    {
      SumRangeSlide(values, i - w, i);
      currentSum := currentSum - values[i - w] + values[i];
      if currentSum < minSum {
        minSum := currentSum;
      }
      i := i + 1;
    }
  }

  // ----------------------------------------------------------- gap extraction

  /** The number of zero days that end the first `n` days. */
  function TrailingZeros(c: seq<real>, n: nat): (z: nat)
    requires n <= |c|
    ensures z <= n
    ensures z > 0 <==> n > 0 && c[n - 1] == 0.0
  {
    if n == 0 || c[n - 1] != 0.0 then 0 else TrailingZeros(c, n - 1) + 1
  }

  /** The zero runs already closed by a non-zero day among the first `n` days. */
  function ClosedGaps(c: seq<real>, n: nat): seq<nat>
    requires n <= |c|
  {
    if n == 0 then []
    else if c[n - 1] == 0.0 then ClosedGaps(c, n - 1)
    else
      var z := TrailingZeros(c, n - 1);
      ClosedGaps(c, n - 1) + (if z > 0 then [z] else [])
  }

  /** The `gaps` array: every maximal run of zero days, in order, the trailing one included. */
  function Gaps(c: seq<real>): seq<nat> {
    var z := TrailingZeros(c, |c|);
    ClosedGaps(c, |c|) + (if z > 0 then [z] else [])
  }

  function SumNat(s: seq<nat>): nat {
    if s == [] then 0 else SumNat(s[..|s| - 1]) + s[|s| - 1]
  }

  lemma SumNatAppend(s: seq<nat>, t: seq<nat>)
    ensures SumNat(s + t) == SumNat(s) + SumNat(t)
    decreases |t|
  {
    if t != [] {
      assert (s + t)[..|s + t| - 1] == s + t[..|t| - 1];
      assert (s + t)[|s + t| - 1] == t[|t| - 1];
      SumNatAppend(s, t[..|t| - 1]);
    } else {
      assert s + t == s;
    }
  }

  /** The number of zero days among the first `n`. */
  function ZeroCount(c: seq<real>, n: nat): nat
    requires n <= |c|
  {
    if n == 0 then 0 else ZeroCount(c, n - 1) + (if c[n - 1] == 0.0 then 1 else 0)
  }

  /** The number of days among the first `n` that start a zero run. */
  function RunStarts(c: seq<real>, n: nat): nat
    requires n <= |c|
  {
    if n == 0 then 0
    else RunStarts(c, n - 1) + (if c[n - 1] == 0.0 && (n == 1 || c[n - 2] != 0.0) then 1 else 0)
  }

  lemma {:induction false} ClosedGapsPositive(c: seq<real>, n: nat)
    requires n <= |c|
    ensures forall i :: 0 <= i < |ClosedGaps(c, n)| ==> ClosedGaps(c, n)[i] >= 1
  {
    if n > 0 {
      ClosedGapsPositive(c, n - 1);
    }
  }

  /** Every gap is at least one day long. */
  lemma GapsPositive(c: seq<real>)
    ensures forall i :: 0 <= i < |Gaps(c)| ==> Gaps(c)[i] >= 1
  {
    ClosedGapsPositive(c, |c|);
  }

  lemma {:induction false} ClosedGapsCount(c: seq<real>, n: nat)
    requires n <= |c|
    ensures SumNat(ClosedGaps(c, n)) + TrailingZeros(c, n) == ZeroCount(c, n)
    ensures |ClosedGaps(c, n)| + (if TrailingZeros(c, n) > 0 then 1 else 0) == RunStarts(c, n)
  {
    if n > 0 {
      ClosedGapsCount(c, n - 1);
      if c[n - 1] != 0.0 {
        var z := TrailingZeros(c, n - 1);
        SumNatAppend(ClosedGaps(c, n - 1), if z > 0 then [z] else []);
        assert SumNat([z]) == z;
      }
    }
  }

  /** The gaps add up to the number of zero days. */
  lemma GapsSumToZeroDays(c: seq<real>)
    ensures SumNat(Gaps(c)) == ZeroCount(c, |c|)
  {
    ClosedGapsCount(c, |c|);
    var z := TrailingZeros(c, |c|);
    SumNatAppend(ClosedGaps(c, |c|), if z > 0 then [z] else []);
    assert SumNat([z]) == z;
  }

  /** There is one gap per day that starts a zero run. */
  lemma GapsCountRuns(c: seq<real>)
    ensures |Gaps(c)| == RunStarts(c, |c|)
  {
    ClosedGapsCount(c, |c|);
  }

  lemma {:induction false} ZeroCountNone(c: seq<real>, n: nat)
    requires n <= |c|
    ensures ZeroCount(c, n) == 0 <==> forall i :: 0 <= i < n ==> c[i] != 0.0
  {
    if n > 0 {
      ZeroCountNone(c, n - 1);
    }
  }

  /** There are no gaps exactly when no day has zero conversions. */
  lemma NoGapsIffNoZeroDay(c: seq<real>)
    ensures Gaps(c) == [] <==> forall i :: 0 <= i < |c| ==> c[i] != 0.0
  {
    GapsSumToZeroDays(c);
    GapsPositive(c);
    ZeroCountNone(c, |c|);
    if Gaps(c) != [] {
      SumNatAppend(Gaps(c)[..|Gaps(c)| - 1], [Gaps(c)[|Gaps(c)| - 1]]);
      assert Gaps(c) == Gaps(c)[..|Gaps(c)| - 1] + [Gaps(c)[|Gaps(c)| - 1]];
    }
  }

  // ------------------------------------------------------------------ totals

  /** `valueData[i] || 0`: a missing entry counts as 0. */
  function ValueAt(x: seq<real>, i: nat): real {
    if i < |x| then x[i] else 0.0
  }

  /** The sum of `x`'s entries over the first `n` days that had conversions. */
  function NonZeroSum(c: seq<real>, x: seq<real>, n: nat): real
    requires n <= |c|
  {
    if n == 0 then 0.0
    else NonZeroSum(c, x, n - 1) + (if c[n - 1] != 0.0 then ValueAt(x, n - 1) else 0.0)
  }

  /** Skipping the zero days does not change the conversion total. */
  lemma {:induction false} ConversionTotalIsPlainSum(c: seq<real>, n: nat)
    requires n <= |c|
    ensures NonZeroSum(c, c, n) == SumRange(c, 0, n)
  {
    if n > 0 {
      ConversionTotalIsPlainSum(c, n - 1);
    }
  }

  /** The value total ignores the values recorded on zero-conversion days. */
  lemma {:induction false} ValueTotalIgnoresZeroDays(c: seq<real>, x: seq<real>, y: seq<real>, n: nat)
    requires n <= |c|
    requires forall i :: 0 <= i < n && c[i] != 0.0 ==> ValueAt(x, i) == ValueAt(y, i)
    ensures NonZeroSum(c, x, n) == NonZeroSum(c, y, n)
  {
    if n > 0 {
      ValueTotalIgnoresZeroDays(c, x, y, n - 1);
    }
  }

  // ------------------------------------------------------ maximum and median

  function MaxNat(s: seq<nat>): (m: nat)
    requires s != []
    ensures forall i :: 0 <= i < |s| ==> s[i] <= m
    ensures m in s
  {
    if |s| == 1 then s[0]
    else
      var m := MaxNat(s[..|s| - 1]);
      assert forall i :: 0 <= i < |s| - 1 ==> s[..|s| - 1][i] == s[i];
      if s[|s| - 1] > m then s[|s| - 1] else m
  }

  predicate SortedNat(s: seq<nat>) {
    forall i, j :: 0 <= i < j < |s| ==> s[i] <= s[j]
  }

  /** One element placed before the first element not smaller than it. */
  function Insert(s: seq<nat>, x: nat): (r: seq<nat>)
    ensures |r| == |s| + 1
  {
    if s == [] || x <= s[0] then [x] + s else [s[0]] + Insert(s[1..], x)
  }

  /** Insert adds exactly the one element. */
  lemma {:induction false} InsertPermutes(s: seq<nat>, x: nat)
    ensures multiset(Insert(s, x)) == multiset(s) + multiset{x}
  {
    if s != [] && x > s[0] {
      InsertPermutes(s[1..], x);
      assert s == [s[0]] + s[1..];
    }
  }

  /** Inserting into a sorted list keeps it sorted. */
  lemma {:induction false} InsertSorts(s: seq<nat>, x: nat)
    requires SortedNat(s)
    ensures SortedNat(Insert(s, x))
    ensures Insert(s, x)[0] == (if s == [] || x <= s[0] then x else s[0])
  {
    if s != [] && x > s[0] {
      InsertSorts(s[1..], x);
      var t := Insert(s[1..], x);
      assert s[0] <= t[0];
      assert Insert(s, x) == [s[0]] + t;
    }
  }

  /** `gaps.slice().sort((a, b) => a - b)`: insertion of each gap in turn. */
  function Sort(s: seq<nat>): (r: seq<nat>)
    ensures |r| == |s|
  {
    if s == [] then [] else Insert(Sort(s[..|s| - 1]), s[|s| - 1])
  }

  /** Sort returns the same gaps in ascending order. */
  lemma {:induction false} SortSorts(s: seq<nat>)
    ensures SortedNat(Sort(s))
    ensures multiset(Sort(s)) == multiset(s)
  {
    if s != [] {
      SortSorts(s[..|s| - 1]);
      InsertSorts(Sort(s[..|s| - 1]), s[|s| - 1]);
      InsertPermutes(Sort(s[..|s| - 1]), s[|s| - 1]);
      assert s == s[..|s| - 1] + [s[|s| - 1]];
    }
  }

  /** The median of a sorted list: the middle element for an odd count, the
      mean of the two middle ones rounded half up (`Math.round`) for an even one. */
  function MedianOfSorted(s: seq<nat>): nat
    requires s != []
  {
    var mid := |s| / 2;
    if |s| % 2 == 0 then (s[mid - 1] + s[mid] + 1) / 2 else s[mid]
  }

  /** Every element of a sorted copy is an element of the original. */
  lemma SortedElement(s: seq<nat>, k: nat)
    requires k < |Sort(s)|
    ensures MinNatOf(s) <= Sort(s)[k] <= MaxNat(s)
  {
    SortSorts(s);
    assert Sort(s)[k] in multiset(Sort(s));
    assert Sort(s)[k] in s;
  }

  /** The median lies between the smallest and the largest element. */
  lemma MedianBetween(s: seq<nat>)
    requires s != []
    ensures MinNatOf(s) <= MedianOfSorted(Sort(s)) <= MaxNat(s)
  {
    var t := Sort(s);
    var mid := |t| / 2;
    SortSorts(s);
    SortedElement(s, mid);
    if |t| % 2 == 0 {
      SortedElement(s, mid - 1);
    }
  }

  function MinNatOf(s: seq<nat>): (m: nat)
    requires s != []
    ensures forall i :: 0 <= i < |s| ==> m <= s[i]
    ensures m in s
  {
    if |s| == 1 then s[0]
    else
      var m := MinNatOf(s[..|s| - 1]);
      assert forall i :: 0 <= i < |s| - 1 ==> s[..|s| - 1][i] == s[i];
      if s[|s| - 1] < m then s[|s| - 1] else m
  }

  // ---------------------------------------------------------- recommendations

  /** `Math.ceil`. */
  function Ceil(x: real): (n: int)
    ensures x <= n as real < x + 1.0
  {
    -((-x).Floor)
  }

  /** A proposed rule: window length, minimum conversions and, when the average
      value per conversion is positive, a minimum value. */
  datatype Recommendation = Recommendation(days: int, minConv: int, minValue: Option<real>)

  /** The result object of analyzeConversionGaps; a `null` recommendation is `None`. */
  datatype GapReport = GapReport(
    maxGap: nat, medianGap: nat, avgValue: real,
    conservative: Option<Recommendation>, recommended: Option<Recommendation>)

  /** `totalValue / totalConversions` when both are positive, else 0. */
  function AverageValue(totalConv: real, totalValue: real): real {
    if totalConv > 0.0 && totalValue > 0.0 then totalValue / totalConv else 0.0
  }

  /** `Min érték`: the average value of a conversion times the minimum count,
      present only for a positive average. */
  function MinValueFor(avg: real, minConv: int): (v: Option<real>)
    ensures v.Some? <==> avg > 0.0
  {
    if avg > 0.0 then Some(avg * minConv as real) else None
  }

  /** A minimum count of at least 1 that no window of the chosen length falls below. */
  predicate Admissible(k: int, slidingMin: real) {
    k >= 1 && k as real >= slidingMin
  }

  /** The recommendation for a window of `days` days: its minimum count is the
      least admissible one. */
  function RecommendFor(c: seq<real>, days: int, avg: real): (r: Recommendation)
    ensures r.days == days && r.minConv >= 1
    ensures r.minConv as real >= SlidingMin(c, days)
    ensures forall k: int :: Admissible(k, SlidingMin(c, days)) ==> r.minConv <= k
    ensures r.minValue.Some? <==> avg > 0.0
    ensures r.minValue.Some? ==> r.minValue.value == avg * r.minConv as real
  {
    var n := Ceil(SlidingMin(c, days));
    var m := if n > 1 then n else 1;
    Recommendation(days, m, MinValueFor(avg, m))
  }

  /** What analyzeConversionGaps computes from the two daily series. */
  function GapReportOf(c: seq<real>, x: seq<real>): GapReport {
    var gaps := Gaps(c);
    var avg := AverageValue(NonZeroSum(c, c, |c|), NonZeroSum(c, x, |c|));
    if gaps == [] then GapReport(0, 0, avg, None, None)
    else
      var maxGap := MaxNat(gaps);
      var median := if |gaps| >= 3 then MedianOfSorted(Sort(gaps)) else 0;
      GapReport(maxGap, median, avg, Some(RecommendFor(c, maxGap + 1, avg)),
                if |gaps| >= 3 then Some(RecommendFor(c, median + 1, avg)) else None)
  }

  /** Two zero days, conversions, three zero days, conversions, one zero day:
      the gaps are 2, 3 and the open trailing run of 1. */
  lemma GapsExample()
    ensures Gaps([0.0, 0.0, 3.0, 0.0, 0.0, 0.0, 2.0, 0.0]) == [2, 3, 1]
  {
    var c := [0.0, 0.0, 3.0, 0.0, 0.0, 0.0, 2.0, 0.0];
    assert TrailingZeros(c, 2) == 2;
    assert ClosedGaps(c, 3) == [2];
    assert TrailingZeros(c, 6) == 3;
    assert ClosedGaps(c, 7) == [2, 3];
  }

  /** An even number of gaps: the rounded mean of the two central ones. */
  lemma MedianExample()
    ensures MedianOfSorted([1, 2, 3, 4]) == 3
  {
  }

  /** A series without zero days gets no recommendation at all. */
  lemma NoZeroDaysNoRecommendation(c: seq<real>, x: seq<real>)
    requires forall i :: 0 <= i < |c| ==> c[i] != 0.0
    ensures GapReportOf(c, x).maxGap == 0 && GapReportOf(c, x).medianGap == 0
    ensures GapReportOf(c, x).conservative.None? && GapReportOf(c, x).recommended.None?
  {
    NoGapsIffNoZeroDay(c);
  }

  /** A series with a zero day gets a conservative recommendation whose window
      is one day longer than the longest gap, so that every window of that
      length holds a day with conversions. */
  lemma ConservativeCoversLongestGap(c: seq<real>, x: seq<real>)
    requires exists i :: 0 <= i < |c| && c[i] == 0.0
    ensures GapReportOf(c, x).conservative.Some?
    ensures GapReportOf(c, x).maxGap >= 1
    ensures forall i :: 0 <= i < |Gaps(c)| ==> Gaps(c)[i] < GapReportOf(c, x).conservative.value.days
    ensures GapReportOf(c, x).conservative.value.days == GapReportOf(c, x).maxGap + 1
    ensures GapReportOf(c, x).maxGap in Gaps(c)
    ensures var r := GapReportOf(c, x).conservative.value;
      && r.minConv >= 1 && r.minConv as real >= SlidingMin(c, r.days)
      && forall k: int :: Admissible(k, SlidingMin(c, r.days)) ==> r.minConv <= k
  {
    NoGapsIffNoZeroDay(c);
    GapsPositive(c);
  }

  /** The sensitivity recommendation exists exactly when there are at least
      three gaps ... */
  lemma RecommendedNeedsThreeGaps(c: seq<real>, x: seq<real>)
    ensures GapReportOf(c, x).recommended.Some? <==> |Gaps(c)| >= 3
  {
  }

  /** ... and then its window is the median gap plus one, never longer than
      the conservative one. */
  lemma RecommendedWithinConservative(c: seq<real>, x: seq<real>)
    requires |Gaps(c)| >= 3
    ensures GapReportOf(c, x).recommended.Some? && GapReportOf(c, x).conservative.Some?
    ensures GapReportOf(c, x).recommended.value.days == GapReportOf(c, x).medianGap + 1
    ensures 1 <= GapReportOf(c, x).medianGap <= GapReportOf(c, x).maxGap
  {
    var gaps := Gaps(c);
    MedianBetween(gaps);
    GapsPositive(c);
    assert MinNatOf(gaps) in gaps;
  }

  /** The zero runs and the totals over the days with conversions, collected
      in analyzeConversionGaps' single pass over the series. */
  method CollectGaps(c: seq<real>, valueData: seq<real>) returns (gaps: seq<nat>, totalConversions: real, totalValue: real)
    ensures gaps == Gaps(c)
    ensures totalConversions == NonZeroSum(c, c, |c|)
    ensures totalValue == NonZeroSum(c, valueData, |c|)
  {
    gaps := [];
    var currentGap: nat := 0;
    totalConversions := 0.0;
    totalValue := 0.0;
    var i := 0;
    while i < |c|
      invariant 0 <= i <= |c|
      invariant gaps == ClosedGaps(c, i)
      invariant currentGap == TrailingZeros(c, i)
      invariant totalConversions == NonZeroSum(c, c, i)
      invariant totalValue == NonZeroSum(c, valueData, i)
    {
      if c[i] == 0.0 {
        currentGap := currentGap + 1;
      } else {
        if currentGap > 0 {
          gaps := gaps + [currentGap];
          currentGap := 0;
        }
        totalConversions := totalConversions + c[i];
        totalValue := totalValue + (if i < |valueData| then valueData[i] else 0.0);
      }
      i := i + 1;
    }
    if currentGap > 0 {
      gaps := gaps + [currentGap];
    }
  }

  /** `Napok=<days>, Min konv=max(1, ceil(slidingMin))[, Min érték=avg × minConv]`,
      as a record. */
  method Recommend(c: seq<real>, days: int, avg: real) returns (r: Recommendation)
    ensures r == RecommendFor(c, days, avg)
  {
    var slide := SlidingWindowMin(c, days);
    var ceiled := Ceil(slide);
    var minConv := if ceiled > 1 then ceiled else 1;
    r := Recommendation(days, minConv, MinValueFor(avg, minConv));
  }

  /** analyzeConversionGaps: one pass collecting the zero runs and the totals
      over the days with conversions, then the maximum, the median of at least
      three gaps and the two recommendations. */
  method AnalyzeConversionGaps(conversionValues: seq<real>, valueData: seq<real>) returns (r: GapReport)
    ensures r == GapReportOf(conversionValues, valueData)
  {
    var gaps, totalConversions, totalValue := CollectGaps(conversionValues, valueData);
    var avgValuePerConversion := 0.0;
    if totalConversions > 0.0 && totalValue > 0.0 {
      avgValuePerConversion := totalValue / totalConversions;
    }
    if |gaps| == 0 {
      return GapReport(0, 0, avgValuePerConversion, None, None);
    }
    var maxGap := MaxNat(gaps);
    var medianGap: Option<nat> := None;
    var hasEnoughData := |gaps| >= 3;
    if hasEnoughData {
      var sortedGaps := Sort(gaps);
      medianGap := Some(MedianOfSorted(sortedGaps));
    }
    var conservative := Recommend(conversionValues, maxGap + 1, avgValuePerConversion);
    var recommended: Option<Recommendation> := None;
    if hasEnoughData && medianGap.Some? {
      var rec := Recommend(conversionValues, medianGap.value + 1, avgValuePerConversion);
      recommended := Some(rec);
    }
    r := GapReport(maxGap, if medianGap.Some? then medianGap.value else 0, avgValuePerConversion,
                   Some(conservative), recommended);
  }
}
