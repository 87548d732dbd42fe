/** The account-level flow of the monitoring run: rules grouped by account,
    the first-seen account order, the split into reachable and unreachable
    accounts, and the checks of one reachable account from its catalog and
    reports to its result rows. */
module Monitor {
  import opened Base
  import opened Metrics
  import opened RuleValidator
  import opened WindowAggregator
  import opened ThresholdEvaluator

  // ---------------------------------------------------------- groupByAccount

  /** The rules of account `id`, in configuration order. */
  function RulesFor(rules: seq<Rule>, id: string): seq<Rule> {
    if rules == [] then []
    else RulesFor(rules[..|rules| - 1], id) + (if rules[|rules| - 1].accountId == id then [rules[|rules| - 1]] else [])
  }

  lemma RulesForSnoc(rules: seq<Rule>, r: Rule, id: string)
    ensures RulesFor(rules + [r], id) == RulesFor(rules, id) + (if r.accountId == id then [r] else [])
  {
    assert (rules + [r])[..|rules|] == rules;
  }

  /** Each rule of `RulesFor(rules, id)` belongs to `id`, and the list is empty
      only when no rule does. */
  lemma {:induction false} RulesForBelong(rules: seq<Rule>, id: string)
    ensures forall i :: 0 <= i < |RulesFor(rules, id)| ==> RulesFor(rules, id)[i].accountId == id
    ensures RulesFor(rules, id) == [] <==> forall i :: 0 <= i < |rules| ==> rules[i].accountId != id
  {
    if rules != [] {
      RulesForBelong(rules[..|rules| - 1], id);
      assert forall i :: 0 <= i < |rules| - 1 ==> rules[..|rules| - 1][i] == rules[i];
    }
  }

  /** Some rule belongs to account `id`. */
  ghost predicate HasRules(rules: seq<Rule>, id: string) {
    exists i :: 0 <= i < |rules| && rules[i].accountId == id
  }

  lemma HasRulesSnoc(rules: seq<Rule>, r: Rule, id: string)
    ensures HasRules(rules + [r], id) <==> HasRules(rules, id) || r.accountId == id
  {
    var t := rules + [r];
    if HasRules(t, id) {
      var j :| 0 <= j < |t| && t[j].accountId == id;
      if j < |rules| {
        assert rules[j] == t[j];
      }
    }
    if HasRules(rules, id) {
      var j :| 0 <= j < |rules| && rules[j].accountId == id;
      assert t[j] == rules[j];
    }
    if r.accountId == id {
      assert t[|rules|] == r;
    }
  }

  /** groupByAccount: `m[r.id]` created on first sight, the rule pushed onto it. */
  method GroupByAccount(rules: seq<Rule>) returns (m: map<string, seq<Rule>>)
    ensures forall id :: id in m <==> HasRules(rules, id)
    ensures forall id :: id in m ==> m[id] == RulesFor(rules, id)
  {
    m := map[];
    var i := 0;
    while i < |rules|
      invariant 0 <= i <= |rules|
      invariant forall id :: id in m <==> HasRules(rules[..i], id)
      invariant forall id :: id in m ==> m[id] == RulesFor(rules[..i], id)
    {
      var r := rules[i];
      assert rules[..i + 1] == rules[..i] + [r];
      RulesForBelong(rules[..i], r.accountId);
      forall id ensures RulesFor(rules[..i + 1], id) == RulesFor(rules[..i], id) + (if r.accountId == id then [r] else [])
        && (HasRules(rules[..i + 1], id) <==> HasRules(rules[..i], id) || r.accountId == id)
      {
        RulesForSnoc(rules[..i], r, id);
        HasRulesSnoc(rules[..i], r, id);
      }
      var cur := if r.accountId in m then m[r.accountId] else [];
      m := m[r.accountId := cur + [r]];
      i := i + 1;
    }
    assert rules[..|rules|] == rules;
  }

  // ------------------------------------------------------------ account order

  /** The elements of `ids` without repetitions, each where it first occurs. */
  function Dedup(ids: seq<string>): seq<string> {
    if ids == [] then []
    else
      var d := Dedup(ids[..|ids| - 1]);
      if ids[|ids| - 1] in d then d else d + [ids[|ids| - 1]]
  }

  /** The position of the first occurrence of `x`. */
  function FirstIndex(s: seq<string>, x: string): (k: nat)
    requires x in s
    ensures k < |s| && s[k] == x && forall i :: 0 <= i < k ==> s[i] != x
  {
    if s[0] == x then 0 else 1 + FirstIndex(s[1..], x)
  }

  lemma FirstIndexPrefix(s: seq<string>, t: seq<string>, x: string)
    requires x in s
    ensures x in s + t && FirstIndex(s + t, x) == FirstIndex(s, x)
  {
    var k := FirstIndex(s, x);
    var u := s + t;
    assert forall i :: 0 <= i < |s| ==> u[i] == s[i];
    assert u[k] == x;
  }

  /** No account is listed twice ... */
  lemma {:induction false} DedupDistinct(ids: seq<string>)
    ensures Distinct(Dedup(ids))
    ensures forall x :: x in Dedup(ids) <==> x in ids
  {
    if ids != [] {
      var init := ids[..|ids| - 1];
      DedupDistinct(init);
      assert ids == init + [ids[|ids| - 1]];
    }
  }

  /** The accounts of `d` occur in `ids` and are listed in the order of their
      first occurrences there. */
  predicate FirstSeenOrdered(d: seq<string>, ids: seq<string>) {
    && (forall i :: 0 <= i < |d| ==> d[i] in ids)
    && (forall i, j :: 0 <= i < j < |d| ==> FirstIndex(ids, d[i]) < FirstIndex(ids, d[j]))
  }

  lemma OrderedSnocKeep(d: seq<string>, init: seq<string>, x: string)
    requires FirstSeenOrdered(d, init)
    ensures FirstSeenOrdered(d, init + [x])
  {
    forall i | 0 <= i < |d| ensures d[i] in init + [x] && FirstIndex(init + [x], d[i]) == FirstIndex(init, d[i]) {
      FirstIndexPrefix(init, [x], d[i]);
    }
  }

  lemma OrderedSnocAdd(d: seq<string>, ids: seq<string>, x: string)
    requires FirstSeenOrdered(d, ids)
    requires x in ids && forall y :: y in d ==> FirstIndex(ids, y) < FirstIndex(ids, x)
    ensures FirstSeenOrdered(d + [x], ids)
  {
    var e := d + [x];
    assert forall i :: 0 <= i < |d| ==> e[i] == d[i] && d[i] in d;
    assert e[|d|] == x;
  }

  /** ... and the accounts keep the order of their first rows. */
  lemma {:induction false} DedupFirstSeenOrder(ids: seq<string>)
    ensures FirstSeenOrdered(Dedup(ids), ids)
  {
    if ids != [] {
      var init := ids[..|ids| - 1];
      var x := ids[|ids| - 1];
      var d := Dedup(init);
      DedupFirstSeenOrder(init);
      DedupDistinct(init);
      assert ids == init + [x];
      OrderedSnocKeep(d, init, x);
      if x !in d {
        forall y | y in d ensures y in ids && FirstIndex(ids, y) < FirstIndex(ids, x) {
          FirstIndexPrefix(init, [x], y);
        }
        assert FirstIndex(ids, x) == |ids| - 1;
        OrderedSnocAdd(d, ids, x);
      }
    }
  }

  /** The canonical ids of the rules, one per rule. */
  function IdsOf(rules: seq<Rule>): (ids: seq<string>)
    ensures |ids| == |rules| && forall i :: 0 <= i < |rules| ==> ids[i] == NormalizeId(rules[i].accountId)
  {
    if rules == [] then [] else IdsOf(rules[..|rules| - 1]) + [NormalizeId(rules[|rules| - 1].accountId)]
  }

  /** The account-order loop: `seen[id]` marks an account, and only its first
      rule appends it to `accountOrder`. */
  method AccountOrder(rules: seq<Rule>) returns (accountOrder: seq<string>)
    ensures accountOrder == Dedup(IdsOf(rules))
  {
    accountOrder := [];
    var seen: set<string> := {};
    var i := 0;
    while i < |rules|
      invariant 0 <= i <= |rules|
      invariant accountOrder == Dedup(IdsOf(rules[..i]))
      invariant forall x :: x in seen <==> x in accountOrder
    {
      var id := NormalizeId(rules[i].accountId);
      assert IdsOf(rules[..i + 1]) == IdsOf(rules[..i]) + [id] by {
        assert rules[..i + 1][..i] == rules[..i];
      }
      if id !in seen {
        seen := seen + {id};
        accountOrder := accountOrder + [id];
      }
      i := i + 1;
    }
    assert rules[..|rules|] == rules;
  }

  /** Parsed rules carry canonical ids, so every account in the order has its
      group of rules. */
  lemma OrderedAccountsHaveRules(rules: seq<Rule>, id: string)
    requires forall i :: 0 <= i < |rules| ==> AllDigits(rules[i].accountId)
    requires id in Dedup(IdsOf(rules))
    ensures HasRules(rules, id)
  {
    DedupDistinct(IdsOf(rules));
    var i :| 0 <= i < |rules| && IdsOf(rules)[i] == id;
    NormalizeIdOfDigits(rules[i].accountId);
  }

  // ------------------------------------------------- reachable / unreachable

  /** `accountOrder.filter(id => !!accountMap[id])`. */
  function Reachable(order: seq<string>, available: set<string>): (ids: seq<string>)
    ensures |ids| <= |order|
  {
    if order == [] then []
    else Reachable(order[..|order| - 1], available) + (if order[|order| - 1] in available then [order[|order| - 1]] else [])
  }

  /** `accountOrder.filter(id => !availableIdMap[id])`. */
  function Unreachable(order: seq<string>, available: set<string>): (ids: seq<string>)
    ensures |ids| <= |order|
  {
    if order == [] then []
    else Unreachable(order[..|order| - 1], available) + (if order[|order| - 1] !in available then [order[|order| - 1]] else [])
  }

  /** Every account of the order is either processed or reported unreachable,
      never both. */
  lemma {:induction false} ReachablePartition(order: seq<string>, available: set<string>)
    ensures |Reachable(order, available)| + |Unreachable(order, available)| == |order|
    ensures forall x :: x in Reachable(order, available) <==> x in order && x in available
    ensures forall x :: x in Unreachable(order, available) <==> x in order && x !in available
  {
    if order != [] {
      var init := order[..|order| - 1];
      ReachablePartition(init, available);
      assert order == init + [order[|order| - 1]];
    }
  }

  /** The ERROR row of an unreachable account: its formatted id and the
      customer name of its first rule. */
  datatype UnreachableRow = UnreachableRow(accountId: string, customerName: string)

  function FirstCustomerName(grouped: map<string, seq<Rule>>, id: string): string {
    if id in grouped && grouped[id] != [] then grouped[id][0].customerName else ""
  }

  /** The loop over the unreachable accounts, in configuration order. */
  method ReportUnreachable(missingIds: seq<string>, grouped: map<string, seq<Rule>>) returns (rows: seq<UnreachableRow>)
    ensures |rows| == |missingIds|
    ensures forall i :: 0 <= i < |missingIds| ==>
      rows[i] == UnreachableRow(FormatId(missingIds[i]), FirstCustomerName(grouped, missingIds[i]))
  {
    rows := [];
    var i := 0;
    while i < |missingIds|
      invariant 0 <= i <= |missingIds| && |rows| == i
      invariant forall j :: 0 <= j < i ==>
        rows[j] == UnreachableRow(FormatId(missingIds[j]), FirstCustomerName(grouped, missingIds[j]))
    {
      var mid := missingIds[i];
      var customerName := if mid in grouped && grouped[mid] != [] then grouped[mid][0].customerName else "";
      rows := rows + [UnreachableRow(FormatId(mid), customerName)];
      i := i + 1;
    }
  }

  /** The id printed on an unreachable row reads back as the account. */
  lemma UnreachableIdReadsBack(id: string)
    requires AllDigits(id)
    ensures NormalizeId(FormatId(id)) == id
  {
    FormatIdNormalizes(id);
    NormalizeIdOfDigits(id);
  }

  // ------------------------------------------------ one reachable account

  /** The window sizes the account's rules ask for, over the rules whose days are valid. */
  ghost function WindowDays(rules: seq<Rule>): set<int> {
    set i | 0 <= i < |rules| && !rules[i].missingDays && !rules[i].invalidDays :: rules[i].days
  }

  /** The cache the account's report queries fill: one aggregated window per size. */
  ghost function CacheOver(days: set<int>, rowsFor: int -> seq<MetricRow>, meta: Dict<Meta>): map<int, WindowStats> {
    map d | d in days :: WindowOf(rowsFor(d), meta)
  }

  /** The distinct valid window sizes of `rules` are the days of `RulesWithValidDays`. */
  lemma ValidDaysAgree(rules: seq<Rule>, days: seq<int>, d: int)
    requires DaysOf(RulesWithValidDays(rules), days)
    ensures d in days <==> d in WindowDays(rules)
  {
    var vr := RulesWithValidDays(rules);
    if d in days {
      var i :| 0 <= i < |vr| && vr[i].days == d;
      assert vr[i] in rules;
      var j :| 0 <= j < |rules| && rules[j] == vr[i];
    }
    if d in WindowDays(rules) {
      var j :| 0 <= j < |rules| && !rules[j].missingDays && !rules[j].invalidDays && rules[j].days == d;
      assert rules[j] in vr;
      var i :| 0 <= i < |vr| && vr[i] == rules[j];
    }
  }

  lemma CacheIsCacheOver(cache: map<int, WindowStats>, days: seq<int>, window: set<int>,
                          rowsFor: int -> seq<MetricRow>, meta: Dict<Meta>)
    requires forall d :: d in cache <==> d in days
    requires forall d :: d in cache ==> cache[d] == WindowOf(rowsFor(d), meta)
    requires forall d :: d in days <==> d in window
    ensures cache == CacheOver(window, rowsFor, meta)
  {
    var c := CacheOver(window, rowsFor, meta);
    forall d ensures d in cache <==> d in c {
      assert d in c <==> d in window;
    }
    forall d | d in cache ensures cache[d] == c[d] {
      assert d in window;
    }
  }

  /** One reachable account: the name index from its catalog, the distinct
      valid window sizes, one report per window folded and aggregated, and the
      rule loop over those aggregates. `rowsFor(d)` stands for the report rows
      of the `d`-day range and `meta` for the conversion catalog. */
  method CheckAccount(rules: seq<Rule>, meta: Dict<Meta>, rowsFor: int -> seq<MetricRow>)
    returns (queried: seq<int>, results: seq<ResultRow>, errorRows: seq<ResultRow>, deviationRows: seq<ResultRow>)
    ensures StrictlyIncreasing(queried)
    ensures forall d :: d in queried <==> d in WindowDays(rules)
    ensures results == ResultsOf(rules, CacheOver(WindowDays(rules), rowsFor, meta), NameIndexOf(meta))
    ensures errorRows == ErrorsOf(results) && deviationRows == DeviationsOf(results)
  {
    var nameIndex := BuildNameIndex(meta);
    var validRowsForDays := RulesWithValidDays(rules);
    var daySets := UniqueDays(validRowsForDays);
    var cache;
    cache, queried := FillCache(daySets, rowsFor, meta);
    forall d ensures d in daySets <==> d in WindowDays(rules) {
      ValidDaysAgree(rules, daySets, d);
    }
    CacheIsCacheOver(cache, daySets, WindowDays(rules), rowsFor, meta);
    results, errorRows, deviationRows := EvaluateAccount(rules, cache, nameIndex);
  }

  /** Every rule with valid days is compared against the aggregate of its own window. */
  lemma RuleReadsOwnWindow(rules: seq<Rule>, r: Rule, rowsFor: int -> seq<MetricRow>, meta: Dict<Meta>)
    requires r in rules && !r.missingDays && !r.invalidDays
    ensures StatsFor(CacheOver(WindowDays(rules), rowsFor, meta), r) ==
      AggregateOf(FoldRows(rowsFor(r.days)), meta, r.measurement)
  {
    var j :| 0 <= j < |rules| && rules[j] == r;
    assert r.days in WindowDays(rules);
    WindowOfFor(rowsFor(r.days), meta, r.measurement);
  }
}
