/** The in-memory half of the daily trend report: the resources a rule reads,
    its daily series and minimums, the gap analysis run on low-volume series,
    and the name of the account's trend sheet. */
module TrendReport {
  import opened Base
  import opened Metrics
  import opened RuleValidator
  import opened WindowAggregator
  import opened ThresholdEvaluator
  import opened GapAnalyzer

  const TREND_SHEET_PREFIX := "Trend - "
  const MAX_SHEET_NAME_LENGTH := 100

  // ------------------------------------------------- resolveResourcesForRule

  /** The account keyword reads every ENABLED resource; a name reads the ENABLED
      resources carrying it, or none. */
  function ResolveResourcesForRule(r: Rule, byName: Dict<seq<string>>, all: seq<string>): seq<string> {
    if r.convName == ACCOUNT_TOTAL_KEYWORD then all
    else if r.convName in byName.at then byName.at[r.convName]
    else []
  }

  /** With the indexes built from the catalog, a named rule reads exactly the
      ENABLED resources of its name ... */
  lemma ResolvedNamedResources(r: Rule, meta: Dict<Meta>, byName: Dict<seq<string>>, res: string)
    requires ResourcesIndexed(byName, meta.keys, meta)
    requires r.convName != ACCOUNT_TOTAL_KEYWORD
    ensures res in ResolveResourcesForRule(r, byName, EnabledResourcesAll(meta)) <==>
      res in meta.keys && Counted(meta, res) && DisplayName(meta.at[res]) == r.convName
  {
    var named := ResourcesNamed(meta.keys, meta, r.convName);
    assert ResolveResourcesForRule(r, byName, EnabledResourcesAll(meta)) == named;
    if res in meta.keys && Counted(meta, res) && DisplayName(meta.at[res]) == r.convName {
      ResourcesNamedComplete(meta.keys, meta, r.convName, res);
    }
    if res in named {
      var i :| 0 <= i < |named| && named[i] == res;
    }
  }

  /** ... and the account keyword reads every ENABLED resource. */
  lemma ResolvedAllResources(r: Rule, meta: Dict<Meta>, byName: Dict<seq<string>>, res: string)
    requires r.convName == ACCOUNT_TOTAL_KEYWORD
    ensures res in ResolveResourcesForRule(r, byName, EnabledResourcesAll(meta)) <==>
      res in meta.keys && Counted(meta, res)
  {
    var rs := EnabledResourcesAll(meta);
    if res in rs {
      var i :| 0 <= i < |rs| && rs[i] == res;
    }
  }

  // -------------------------------------------------------- buildDailySeries

  /** The daily metrics: date -> resource -> the day's eight accumulators. */
  type DailyMetrics = map<string, map<string, MetricPoint>>

  /** `daily[dateStr] || {}`. */
  function BucketOf(daily: DailyMetrics, date: string): map<string, MetricPoint> {
    if date in daily then daily[date] else map[]
  }

  /** One day's sum over the rule's resources; a resource without a record
      that day adds nothing. */
  function DaySum(bucket: map<string, MetricPoint>, resources: seq<string>, t: MeasurementType): Pair {
    if resources == [] then ZERO_PAIR
    else
      var s := DaySum(bucket, resources[..|resources| - 1], t);
      var res := resources[|resources| - 1];
      if res in bucket then AddPair(s, PickMetricPair(bucket[res], t)) else s
  }

  lemma {:induction false} DaySumAppend(bucket: map<string, MetricPoint>, a: seq<string>, b: seq<string>, t: MeasurementType)
    ensures DaySum(bucket, a + b, t) == AddPair(DaySum(bucket, a, t), DaySum(bucket, b, t))
    decreases |b|
  {
    if b == [] {
      assert a + b == a;
    } else {
      assert (a + b)[..|a + b| - 1] == a + b[..|b| - 1];
      assert (a + b)[|a + b| - 1] == b[|b| - 1];
      DaySumAppend(bucket, a, b[..|b| - 1], t);
    }
  }

  /** Resources absent from the day's bucket contribute 0. */
  lemma {:induction false} DaySumAbsent(bucket: map<string, MetricPoint>, resources: seq<string>, t: MeasurementType)
    requires forall i :: 0 <= i < |resources| ==> resources[i] !in bucket
    ensures DaySum(bucket, resources, t) == ZERO_PAIR
  {
    if resources != [] {
      DaySumAbsent(bucket, resources[..|resources| - 1], t);
    }
  }

  /** A table row `[dateStr, conv, value]`. */
  datatype SeriesRow = SeriesRow(date: string, conv: real, value: real)

  function DayRow(date: string, daily: DailyMetrics, resources: seq<string>, t: MeasurementType): SeriesRow {
    var p := DaySum(BucketOf(daily, date), resources, t);
    SeriesRow(date, p.conv, p.value)
  }

  /** `series.rows.map(row => row[1])`. */
  function Convs(rows: seq<SeriesRow>): (c: seq<real>)
    ensures |c| == |rows|
  {
    if rows == [] then [] else Convs(rows[..|rows| - 1]) + [rows[|rows| - 1].conv]
  }

  /** `series.rows.map(row => row[2])`. */
  function Values(rows: seq<SeriesRow>): (v: seq<real>)
    ensures |v| == |rows|
  {
    if rows == [] then [] else Values(rows[..|rows| - 1]) + [rows[|rows| - 1].value]
  }

  lemma {:induction false} ColumnsAt(rows: seq<SeriesRow>, i: nat)
    requires i < |rows|
    ensures Convs(rows)[i] == rows[i].conv && Values(rows)[i] == rows[i].value
  {
    if i < |rows| - 1 {
      ColumnsAt(rows[..|rows| - 1], i);
    }
  }

  /** The least daily conversion count; 0 for an empty series (`minConv === null`). */
  function MinConvOf(rows: seq<SeriesRow>): real {
    if rows == [] then 0.0
    else if |rows| == 1 then rows[0].conv
    else MinReal(MinConvOf(rows[..|rows| - 1]), rows[|rows| - 1].conv)
  }

  /** The least daily conversion value; 0 for an empty series. */
  function MinValOf(rows: seq<SeriesRow>): real {
    if rows == [] then 0.0
    else if |rows| == 1 then rows[0].value
    else MinReal(MinValOf(rows[..|rows| - 1]), rows[|rows| - 1].value)
  }

  /** The conversion minimum is below every day and is some day's count. */
  lemma {:induction false} MinConvIsLeast(rows: seq<SeriesRow>) returns (k: nat)
    requires rows != []
    ensures forall i :: 0 <= i < |rows| ==> MinConvOf(rows) <= rows[i].conv
    ensures k < |rows| && MinConvOf(rows) == rows[k].conv
  {
    if |rows| == 1 {
      k := 0;
    } else {
      var init := rows[..|rows| - 1];
      var j := MinConvIsLeast(init);
      assert forall i :: 0 <= i < |init| ==> init[i] == rows[i];
      k := if MinConvOf(rows) == rows[|rows| - 1].conv then |rows| - 1 else j;
    }
  }

  /** The value minimum is below every day and is some day's value. */
  lemma {:induction false} MinValIsLeast(rows: seq<SeriesRow>) returns (k: nat)
    requires rows != []
    ensures forall i :: 0 <= i < |rows| ==> MinValOf(rows) <= rows[i].value
    ensures k < |rows| && MinValOf(rows) == rows[k].value
  {
    if |rows| == 1 {
      k := 0;
    } else {
      var init := rows[..|rows| - 1];
      var j := MinValIsLeast(init);
      assert forall i :: 0 <= i < |init| ==> init[i] == rows[i];
      k := if MinValOf(rows) == rows[|rows| - 1].value then |rows| - 1 else j;
    }
  }

  /** One more row: a running minimum takes its value when it is smaller. */
  lemma MinStep(rows: seq<SeriesRow>, row: SeriesRow)
    ensures MinConvOf(rows + [row]) == if rows == [] then row.conv else MinReal(MinConvOf(rows), row.conv)
    ensures MinValOf(rows + [row]) == if rows == [] then row.value else MinReal(MinValOf(rows), row.value)
  {
    assert (rows + [row])[..|rows|] == rows;
  }

  /** The inner loop of buildDailySeries: the day's two sums over the resources. */
  method SumDay(bucket: map<string, MetricPoint>, resources: seq<string>, t: MeasurementType) returns (p: Pair)
    ensures p == DaySum(bucket, resources, t)
  {
    var convSum := 0.0;
    var valSum := 0.0;
    var k := 0;
    while k < |resources|
      invariant 0 <= k <= |resources|
      invariant Pair(convSum, valSum) == DaySum(bucket, resources[..k], t)
    {
      assert resources[..k + 1][..k] == resources[..k];
      var res := resources[k];
      if res in bucket {
        var pair := PickMetricPair(bucket[res], t);
        convSum := convSum + pair.conv;
        valSum := valSum + pair.value;
      }
      k := k + 1;
    }
    assert resources[..|resources|] == resources;
    p := Pair(convSum, valSum);
  }

  /** `if (min === null || x < min) min = x`. */
  method Lower(low: Option<real>, x: real) returns (r: Option<real>)
    ensures r == Some(if low.None? then x else MinReal(low.value, x))
  {
    r := low;
    if low.None? || x < low.value {
      r := Some(x);
    }
  }

  /** buildDailySeries: one row per date in order, each the sum of the rule's
      resources for that day, and the running minimums of the two columns. */
  method BuildDailySeries(dateList: seq<string>, daily: DailyMetrics, resources: seq<string>, t: MeasurementType)
    returns (rows: seq<SeriesRow>, minConv: real, minVal: real)
    ensures |rows| == |dateList|
    ensures forall i :: 0 <= i < |dateList| ==> rows[i] == DayRow(dateList[i], daily, resources, t)
    ensures minConv == MinConvOf(rows)
    ensures minVal == MinValOf(rows)
  {
    var lowConv: Option<real> := None;
    var lowVal: Option<real> := None;
    rows := [];
    var i := 0;
    while i < |dateList|
      invariant 0 <= i <= |dateList|
      invariant SeriesSoFar(rows, lowConv, lowVal, dateList[..i], daily, resources, t)
    {
      assert dateList[..i + 1] == dateList[..i] + [dateList[i]];
      rows, lowConv, lowVal := SeriesStep(rows, lowConv, lowVal, dateList[..i], dateList[i], daily, resources, t);
      i := i + 1;
    }
    assert dateList[..|dateList|] == dateList;
    minConv := if lowConv.None? then 0.0 else lowConv.value;
    minVal := if lowVal.None? then 0.0 else lowVal.value;
  }

  /** The series after the dates `dates`: one row per date and the running
      minimums, still unset while no row exists. */
  ghost predicate SeriesSoFar(rows: seq<SeriesRow>, lowConv: Option<real>, lowVal: Option<real>,
                              dates: seq<string>, daily: DailyMetrics, resources: seq<string>, t: MeasurementType) {
    && |rows| == |dates|
    && (forall j :: 0 <= j < |dates| ==> rows[j] == DayRow(dates[j], daily, resources, t))
    && lowConv == (if rows == [] then None else Some(MinConvOf(rows)))
    && lowVal == (if rows == [] then None else Some(MinValOf(rows)))
  }

  /** One pass of buildDailySeries: the day's sums, the running minimums, the row pushed. */
  method SeriesStep(rows: seq<SeriesRow>, lowConv: Option<real>, lowVal: Option<real>, dates: seq<string>,
                    dateStr: string, daily: DailyMetrics, resources: seq<string>, t: MeasurementType)
    returns (rows': seq<SeriesRow>, lowConv': Option<real>, lowVal': Option<real>)
    requires SeriesSoFar(rows, lowConv, lowVal, dates, daily, resources, t)
    ensures SeriesSoFar(rows', lowConv', lowVal', dates + [dateStr], daily, resources, t)
  {
    var bucket := if dateStr in daily then daily[dateStr] else map[];
    var sums := SumDay(bucket, resources, t);
    var row := SeriesRow(dateStr, sums.conv, sums.value);
    MinStep(rows, row);
    lowConv' := Lower(lowConv, sums.conv);
    lowVal' := Lower(lowVal, sums.value);
    rows' := rows + [row];
    assert forall j :: 0 <= j < |rows| ==> rows'[j] == rows[j];
  }

  // --------------------------------------------------- one rule's trend block

  /** A rule's trend block: its series and minimums and, for a series whose
      minimum is 0, the gap analysis of its two columns. */
  datatype TrendBlock = TrendBlock(rows: seq<SeriesRow>, minConv: real, minVal: real, gaps: Option<GapReport>)

  method BuildTrendBlock(r: Rule, dateList: seq<string>, daily: DailyMetrics, byName: Dict<seq<string>>, all: seq<string>)
    returns (b: TrendBlock)
    ensures |b.rows| == |dateList|
    ensures forall i :: 0 <= i < |dateList| ==>
      b.rows[i] == DayRow(dateList[i], daily, ResolveResourcesForRule(r, byName, all), r.measurement)
    ensures b.minConv == MinConvOf(b.rows) && b.minVal == MinValOf(b.rows)
    ensures b.gaps.Some? <==> b.minConv == 0.0
    ensures b.gaps.Some? ==> b.gaps.value == GapReportOf(Convs(b.rows), Values(b.rows))
  {
    var resources := ResolveResourcesForRule(r, byName, all);
    var rows, minConv, minVal := BuildDailySeries(dateList, daily, resources, r.measurement);
    var gapAnalysis: Option<GapReport> := None;
    if minConv == 0.0 {
      var report := AnalyzeConversionGaps(Convs(rows), Values(rows));
      gapAnalysis := Some(report);
    }
    b := TrendBlock(rows, minConv, minVal, gapAnalysis);
  }

  /** A series of at least one day whose minimum is 0 has a zero day, so its
      block carries a conservative recommendation. */
  lemma LowVolumeGetsRecommendation(rows: seq<SeriesRow>)
    requires rows != [] && MinConvOf(rows) == 0.0
    ensures GapReportOf(Convs(rows), Values(rows)).conservative.Some?
  {
    var k := MinConvIsLeast(rows);
    ColumnsAt(rows, k);
    ConservativeCoversLongestGap(Convs(rows), Values(rows));
  }

  // ------------------------------------------------------------- sheet name

  /** The characters a sheet name may not hold: `* : / \ ? [ ]`. */
  predicate Forbidden(c: char) {
    c == '*' || c == ':' || c == '/' || c == '\\' || c == '?' || c == '[' || c == ']'
  }

  function ReplaceForbidden(s: string): (r: string)
    ensures |r| == |s|
    ensures forall i :: 0 <= i < |s| ==> r[i] == (if Forbidden(s[i]) then ' ' else s[i])
  {
    if s == [] then [] else ReplaceForbidden(s[..|s| - 1]) + [if Forbidden(s[|s| - 1]) then ' ' else s[|s| - 1]]
  }

  lemma TrimmedHasNoForbidden(name: string)
    ensures forall i :: 0 <= i < |Trim(ReplaceForbidden(name))| ==> !Forbidden(Trim(ReplaceForbidden(name))[i])
  {
    var r := ReplaceForbidden(name);
    var t := Trim(r);
    var a := SkipWhitespace(r, 0);
    assert t == r[a..a + |t|];
    forall i | 0 <= i < |t|
      ensures !Forbidden(t[i])
    {
      assert t[i] == r[a + i];
    }
  }

  /** The account-name part of the trend sheet name: forbidden characters
      replaced by spaces, trimmed, cut to what the prefix leaves of 100. */
  function SafeSheetName(name: string): (r: string)
    ensures |TREND_SHEET_PREFIX + r| <= MAX_SHEET_NAME_LENGTH
    ensures forall i :: 0 <= i < |r| ==> !Forbidden(r[i])
    ensures var t := Trim(ReplaceForbidden(name));
      |r| == Min(|t|, MAX_SHEET_NAME_LENGTH - |TREND_SHEET_PREFIX|) && r == t[..|r|]
  {
    TrimmedHasNoForbidden(name);
    var t := Trim(ReplaceForbidden(name));
    var maxLength := MAX_SHEET_NAME_LENGTH - |TREND_SHEET_PREFIX|;
    if |t| > maxLength then t[..maxLength] else t
  }

  /** A short, clean account name is used unchanged. */
  lemma CleanNameKept(name: string)
    requires name != [] && !IsJsWhitespace(name[0]) && !IsJsWhitespace(name[|name| - 1])
    requires forall i :: 0 <= i < |name| ==> !Forbidden(name[i])
    requires |name| <= MAX_SHEET_NAME_LENGTH - |TREND_SHEET_PREFIX|
    ensures SafeSheetName(name) == name
  {
    var r := ReplaceForbidden(name);
    assert forall i :: 0 <= i < |name| ==> r[i] == name[i];
    assert r == name;
    TrimClean(name);
    assert Trim(r) == name;
  }

  /** The accounts that get a trend sheet: reachable ones, in configuration
      order, with at least one rule not switched off. */
  function TrendAccounts(order: seq<string>, reachable: set<string>, grouped: map<string, seq<Rule>>): (ids: seq<string>)
    ensures forall id :: id in ids <==>
      (id in order && id in reachable && id in grouped && exists i :: 0 <= i < |grouped[id]| && grouped[id][i].enabled)
  {
    if order == [] then []
    else
      var rest := TrendAccounts(order[..|order| - 1], reachable, grouped);
      var id := order[|order| - 1];
      assert forall x :: x in order <==> x in order[..|order| - 1] || x == id;
      if id in reachable && id in grouped && exists i :: 0 <= i < |grouped[id]| && grouped[id][i].enabled
      then rest + [id] else rest
  }
}
