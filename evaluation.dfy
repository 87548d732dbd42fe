/** Threshold evaluation: `compare` and the per-rule block of the account loop,
    which checks a rule's inputs in a fixed order, looks its target up in the
    cached window aggregate and compares the actual figures with the minimums. */
module ThresholdEvaluator {
  import opened Base
  import opened Metrics
  import opened RuleValidator
  import opened WindowAggregator

  /** The conversion name that selects a whole account's total. */
  const ACCOUNT_TOTAL_KEYWORD := "TELJES FIÓK"

  datatype Status = Ok | BelowConversions | BelowValue | BelowBoth | Error

  /** `compare(c, v, mc, mv)`: strictly below a minimum is a deviation; equal passes. */
  function Compare(c: real, v: real, mc: real, mv: real): (s: Status)
    ensures s == Ok <==> c >= mc && v >= mv
    ensures s == BelowBoth <==> c < mc && v < mv
    ensures s == BelowConversions <==> c < mc && v >= mv
    ensures s == BelowValue <==> c >= mc && v < mv
  {
    var bc := c < mc;
    var bv := v < mv;
    if !bc && !bv then Ok
    else if bc && bv then BelowBoth
    else if bc then BelowConversions
    else BelowValue
  }

  /** Meeting the minimums exactly is OK, and more conversions or value never
      turn an OK rule into a deviation. */
  lemma CompareMonotone(c: real, v: real, c': real, v': real, mc: real, mv: real)
    requires Compare(c, v, mc, mv) == Ok && c <= c' && v <= v'
    ensures Compare(c', v', mc, mv) == Ok
    ensures Compare(mc, mv, mc, mv) == Ok
  {
  }

  /** Which input check turned a rule into an ERROR row. */
  datatype InputError = MissingDays | InvalidDays | InvalidThresholds

  /** The outcome of one enabled rule. */
  datatype Evaluation =
    /** An input check failed: ERROR without a lookup and with empty actuals. */
    | Rejected(reason: InputError)
    /** The target is neither in the window nor among the ENABLED names: ERROR. */
    | NotFound
    /** The target was resolved to `actual` (with the "no conversion in the window"
        note when `noData`) and compared with the minimums. */
    | Measured(status: Status, actual: Pair, noData: bool)

  function StatusOf(e: Evaluation): Status {
    match e
    case Rejected(_) => Error
    case NotFound => Error
    case Measured(s, _, _) => s
  }

  /** `(cacheByDays[r.days] || {})[r.measurementType] || { byName: {}, total: 0/0 }`. */
  function StatsFor(cache: map<int, WindowStats>, r: Rule): Stats {
    if r.days in cache then cache[r.days].For(r.measurement) else EMPTY_STATS
  }

  /** The per-rule block of the account loop; a disabled rule yields no row. */
  function EvaluateRule(r: Rule, cache: map<int, WindowStats>, nameIndex: set<string>): Option<Evaluation> {
    if !r.enabled then None
    else if r.missingDays then Some(Rejected(MissingDays))
    else if r.invalidDays then Some(Rejected(InvalidDays))
    else if r.invalidThresholds then Some(Rejected(InvalidThresholds))
    else
      var stats := StatsFor(cache, r);
      if r.convName == ACCOUNT_TOTAL_KEYWORD then
        Some(Measured(Compare(stats.total.conv, stats.total.value, r.minConv, r.minVal), stats.total, false))
      else if r.convName in stats.byName.at then
        var entry := stats.byName.at[r.convName];
        Some(Measured(Compare(entry.conv, entry.value, r.minConv, r.minVal), entry, false))
      else if r.convName in nameIndex then
        Some(Measured(Compare(0.0, 0.0, r.minConv, r.minVal), ZERO_PAIR, true))
      else Some(NotFound)
  }

  /** The rule's target cannot be resolved in its window. */
  predicate Unresolved(r: Rule, cache: map<int, WindowStats>, nameIndex: set<string>) {
    && r.convName != ACCOUNT_TOTAL_KEYWORD
    && r.convName !in StatsFor(cache, r).byName.at
    && r.convName !in nameIndex
  }

  /** Disabled rules are skipped and every enabled rule gets a row. */
  lemma EvaluateSkipsDisabled(r: Rule, cache: map<int, WindowStats>, nameIndex: set<string>)
    ensures EvaluateRule(r, cache, nameIndex).None? <==> !r.enabled
  {
  }

  /** The input checks come first, in their fixed order. */
  lemma EvaluateChecksInputsFirst(r: Rule, cache: map<int, WindowStats>, nameIndex: set<string>)
    requires r.enabled
    ensures r.missingDays ==> EvaluateRule(r, cache, nameIndex) == Some(Rejected(MissingDays))
    ensures !r.missingDays && r.invalidDays ==> EvaluateRule(r, cache, nameIndex) == Some(Rejected(InvalidDays))
    ensures !r.missingDays && !r.invalidDays && r.invalidThresholds ==>
      EvaluateRule(r, cache, nameIndex) == Some(Rejected(InvalidThresholds))
  {
  }

  /** An enabled rule is an ERROR exactly when one of its inputs is invalid or
      its target cannot be resolved; every other rule is compared. */
  lemma EvaluateErrorIff(r: Rule, cache: map<int, WindowStats>, nameIndex: set<string>)
    requires r.enabled
    ensures StatusOf(EvaluateRule(r, cache, nameIndex).value) == Error <==>
      r.missingDays || r.invalidDays || r.invalidThresholds || Unresolved(r, cache, nameIndex)
  {
  }

  /** A compared rule's status is `compare` of its actual figures, which are the
      window total for the account keyword, the name's entry when it has one,
      and 0/0 for an ENABLED name without conversions in the window. */
  lemma EvaluateMeasures(r: Rule, cache: map<int, WindowStats>, nameIndex: set<string>)
    requires r.enabled && !r.missingDays && !r.invalidDays && !r.invalidThresholds
    requires !Unresolved(r, cache, nameIndex)
    ensures EvaluateRule(r, cache, nameIndex).value.Measured?
    ensures var e := EvaluateRule(r, cache, nameIndex).value;
      && e.status == Compare(e.actual.conv, e.actual.value, r.minConv, r.minVal)
      && (r.convName == ACCOUNT_TOTAL_KEYWORD ==> e.actual == StatsFor(cache, r).total)
      && (r.convName != ACCOUNT_TOTAL_KEYWORD && r.convName in StatsFor(cache, r).byName.at ==>
            e.actual == StatsFor(cache, r).byName.at[r.convName])
      && (e.noData <==> r.convName != ACCOUNT_TOTAL_KEYWORD && r.convName !in StatsFor(cache, r).byName.at)
      && (e.noData ==> e.actual == ZERO_PAIR)
  {
  }

  /** For the account keyword the actual figures are the sum over every
      ENABLED conversion name of the window. */
  lemma AccountTotalIsSumOfNames(r: Rule, rows: seq<MetricRow>, meta: Dict<Meta>, nameIndex: set<string>)
    requires r.enabled && !r.missingDays && !r.invalidDays && !r.invalidThresholds
    requires r.convName == ACCOUNT_TOTAL_KEYWORD
    ensures var cache := map[r.days := WindowOf(rows, meta)];
      EvaluateRule(r, cache, nameIndex).value.actual == SumAll(AggregateOf(FoldRows(rows), meta, r.measurement).byName)
  {
    var m := FoldRows(rows);
    WindowOfFor(rows, meta, r.measurement);
    AggregateTotalIsSum(m.keys, m, meta, r.measurement);
  }

  // ---------------------------------------------- the account's rule loop

  /** One result row: the rule and its outcome. */
  datatype ResultRow = ResultRow(rule: Rule, eval: Evaluation)

  /** The result rows of an account's rules, in configuration order. */
  function ResultsOf(rules: seq<Rule>, cache: map<int, WindowStats>, nameIndex: set<string>): (rs: seq<ResultRow>)
    ensures |rs| <= |rules|
  {
    if rules == [] then []
    else
      var rest := ResultsOf(rules[..|rules| - 1], cache, nameIndex);
      match EvaluateRule(rules[|rules| - 1], cache, nameIndex)
      case None => rest
      case Some(e) => rest + [ResultRow(rules[|rules| - 1], e)]
  }

  /** The enabled rules, in configuration order. */
  function EnabledRules(rules: seq<Rule>): seq<Rule> {
    if rules == [] then []
    else EnabledRules(rules[..|rules| - 1]) + (if rules[|rules| - 1].enabled then [rules[|rules| - 1]] else [])
  }

  /** Every enabled rule gets exactly one row, in order, carrying its own
      evaluation; disabled rules get none. */
  lemma {:induction false} ResultsOfRules(rules: seq<Rule>, cache: map<int, WindowStats>, nameIndex: set<string>)
    ensures var rs := ResultsOf(rules, cache, nameIndex);
      && |rs| == |EnabledRules(rules)|
      && forall i :: 0 <= i < |rs| ==>
           rs[i].rule == EnabledRules(rules)[i] && EvaluateRule(rs[i].rule, cache, nameIndex) == Some(rs[i].eval)
  {
    if rules != [] {
      var init := rules[..|rules| - 1];
      var r := rules[|rules| - 1];
      ResultsOfRules(init, cache, nameIndex);
      EvaluateSkipsDisabled(r, cache, nameIndex);
    }
  }

  /** The e-mail lists: `errorRows` takes ERROR rows, `deviationRows` BELOW_* rows. */
  function ErrorsOf(rs: seq<ResultRow>): seq<ResultRow> {
    if rs == [] then []
    else ErrorsOf(rs[..|rs| - 1]) + (if StatusOf(rs[|rs| - 1].eval) == Error then [rs[|rs| - 1]] else [])
  }

  function DeviationsOf(rs: seq<ResultRow>): seq<ResultRow> {
    if rs == [] then []
    else
      var s := StatusOf(rs[|rs| - 1].eval);
      DeviationsOf(rs[..|rs| - 1]) + (if s != Ok && s != Error then [rs[|rs| - 1]] else [])
  }

  function OksOf(rs: seq<ResultRow>): seq<ResultRow> {
    if rs == [] then []
    else OksOf(rs[..|rs| - 1]) + (if StatusOf(rs[|rs| - 1].eval) == Ok then [rs[|rs| - 1]] else [])
  }

  /** Every result row lands in exactly one of the error list, the deviation
      list and the OK rows. */
  lemma {:induction false} ResultsPartition(rs: seq<ResultRow>)
    ensures |ErrorsOf(rs)| + |DeviationsOf(rs)| + |OksOf(rs)| == |rs|
    ensures forall x :: x in ErrorsOf(rs) ==> x in rs && StatusOf(x.eval) == Error
    ensures forall x :: x in DeviationsOf(rs) ==> x in rs && StatusOf(x.eval) != Ok && StatusOf(x.eval) != Error
    ensures forall x :: x in rs && StatusOf(x.eval) == Error ==> x in ErrorsOf(rs)
    ensures forall x :: x in rs && StatusOf(x.eval) != Ok && StatusOf(x.eval) != Error ==> x in DeviationsOf(rs)
  {
    if rs != [] {
      var init := rs[..|rs| - 1];
      ResultsPartition(init);
      assert rs == init + [rs[|rs| - 1]];
    }
  }

  /** A new result row extends the error or the deviation list by itself. */
  lemma ListsGrow(rs: seq<ResultRow>, row: ResultRow)
    ensures ErrorsOf(rs + [row]) == ErrorsOf(rs) + (if StatusOf(row.eval) == Error then [row] else [])
    ensures DeviationsOf(rs + [row]) ==
      DeviationsOf(rs) + (if StatusOf(row.eval) != Ok && StatusOf(row.eval) != Error then [row] else [])
  {
    assert (rs + [row])[..|rs|] == rs;
  }

  /** The rule loop of one reachable account: every enabled rule evaluated in
      order, ERROR rows collected for the error list, BELOW_* rows for the
      deviation list. */
  method EvaluateAccount(rules: seq<Rule>, cache: map<int, WindowStats>, nameIndex: set<string>)
    returns (results: seq<ResultRow>, errorRows: seq<ResultRow>, deviationRows: seq<ResultRow>)
    ensures results == ResultsOf(rules, cache, nameIndex)
    ensures errorRows == ErrorsOf(results)
    ensures deviationRows == DeviationsOf(results)
  {
    results, errorRows, deviationRows := [], [], [];
    var i := 0;
    while i < |rules|
      invariant 0 <= i <= |rules|
      invariant results == ResultsOf(rules[..i], cache, nameIndex)
      invariant errorRows == ErrorsOf(results)
      invariant deviationRows == DeviationsOf(results)
    {
      assert rules[..i + 1][..i] == rules[..i];
      var r := rules[i];
      var e := EvaluateRule(r, cache, nameIndex);
      if e.Some? {
        var row := ResultRow(r, e.value);
        var status := StatusOf(e.value);
        ListsGrow(results, row);
        results := results + [row];
        if status == Error {
          errorRows := errorRows + [row];
        }
        if status != Ok && status != Error {
          deviationRows := deviationRows + [row];
        }
      }
      i := i + 1;
    }
    assert rules[..|rules|] == rules;
  }

  // ------------------------------------------------ the lookup as written

  /** The property names every plain object inherits from Object.prototype. */
  const PROTOTYPE_NAMES: set<string> := {
    "constructor", "toString", "toLocaleString", "valueOf", "hasOwnProperty",
    "isPrototypeOf", "propertyIsEnumerable", "__proto__", "__defineGetter__",
    "__defineSetter__", "__lookupGetter__", "__lookupSetter__"}

  /** A JavaScript number read from an entry, or `undefined` when the entry is
      an inherited function with no `conv`/`value` field. */
  datatype JsNumber = Num(n: real) | Undefined

  /** `a < b`: `undefined` converts to NaN and every comparison with NaN is false. */
  predicate JsLess(a: JsNumber, b: real) {
    a.Num? && a.n < b
  }

  function CompareJs(c: JsNumber, v: JsNumber, mc: real, mv: real): Status {
    var bc := JsLess(c, mc);
    var bv := JsLess(v, mv);
    if !bc && !bv then Ok
    else if bc && bv then BelowBoth
    else if bc then BelowConversions
    else BelowValue
  }

  /** The status the script computes for a rule that passed the input checks:
      `stats.byName[r.convName]` also finds inherited properties, so an
      inherited name counts as an entry whose figures are `undefined`. */
  function LookupStatusAsWritten(r: Rule, stats: Stats, nameIndex: set<string>): Status {
    if r.convName == ACCOUNT_TOTAL_KEYWORD then Compare(stats.total.conv, stats.total.value, r.minConv, r.minVal)
    else if r.convName in stats.byName.at then
      var entry := stats.byName.at[r.convName];
      Compare(entry.conv, entry.value, r.minConv, r.minVal)
    else if r.convName in PROTOTYPE_NAMES then CompareJs(Undefined, Undefined, r.minConv, r.minVal)
    else if r.convName in nameIndex then Compare(0.0, 0.0, r.minConv, r.minVal)
    else Error
  }

  /** A rule naming an inherited property that no conversion action carries is
      reported OK whatever its minimums, where an ERROR is intended. */
  lemma InheritedNameReportedOk(r: Rule, nameIndex: set<string>)
    requires r.enabled && !r.missingDays && !r.invalidDays && !r.invalidThresholds
    requires r.convName == "toString" && r.convName !in nameIndex
    requires r.minConv > 0.0
    ensures LookupStatusAsWritten(r, EMPTY_STATS, nameIndex) == Ok
    ensures StatusOf(EvaluateRule(r, map[], nameIndex).value) == Error
  {
    assert "toString" in PROTOTYPE_NAMES;
    assert "toString" != ACCOUNT_TOTAL_KEYWORD;
  }

  /** Away from the inherited names the script's lookup and EvaluateRule agree. */
  lemma LookupAgreesOffPrototype(r: Rule, cache: map<int, WindowStats>, nameIndex: set<string>)
    requires r.enabled && !r.missingDays && !r.invalidDays && !r.invalidThresholds
    requires r.convName !in PROTOTYPE_NAMES
    ensures LookupStatusAsWritten(r, StatsFor(cache, r), nameIndex) == StatusOf(EvaluateRule(r, cache, nameIndex).value)
  {
  }
}
