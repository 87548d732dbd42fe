/** The in-memory half of the metric readers and of the per-window cache:
    folding report rows into per-action accumulators (fetchMetrics), the
    ENABLED-only aggregation by display name (aggregate), the name indexes
    (buildNameIndex, buildEnabledResourcesByName, enabledResourcesAll) and the
    cache filled once per distinct window size. */
module WindowAggregator {
  import opened Base
  import opened Metrics
  import opened RuleValidator

  // ------------------------------------------------------------ fetchMetrics

  /** One report row: its `segments.conversion_action` text and its eight metric
      columns, each already read as a number. */
  datatype MetricRow = MetricRow(action: string, point: MetricPoint)

  /** The accumulator key of a row: the trimmed action; `""` rows are skipped. */
  function RowKey(r: MetricRow): string {
    Trim(r.action)
  }

  function PointAt(m: Dict<MetricPoint>, k: string): MetricPoint {
    if k in m.at then m.at[k] else ZERO_POINT
  }

  /** The map fetchMetrics builds from `rows`: each key's accumulator is the
      field-wise sum of its rows; keys appear in first-seen order. */
  function FoldRows(rows: seq<MetricRow>): (m: Dict<MetricPoint>)
    ensures m.Valid()
  {
    if rows == [] then EmptyDict()
    else
      var m := FoldRows(rows[..|rows| - 1]);
      var k := RowKey(rows[|rows| - 1]);
      if k == "" then m else Put(m, k, AddPoint(PointAt(m, k), rows[|rows| - 1].point))
  }

  /** The reference sum: every row carrying key `k`, added up. */
  function RowsSum(rows: seq<MetricRow>, k: string): MetricPoint {
    if rows == [] then ZERO_POINT
    else
      var s := RowsSum(rows[..|rows| - 1], k);
      if RowKey(rows[|rows| - 1]) == k then AddPoint(s, rows[|rows| - 1].point) else s
  }

  /** The keys some row carries. */
  function RowKeys(rows: seq<MetricRow>): set<string> {
    set r | r in rows :: RowKey(r)
  }

  lemma RowKeysSnoc(rows: seq<MetricRow>, last: MetricRow)
    ensures RowKeys(rows + [last]) == RowKeys(rows) + {RowKey(last)}
  {
    assert forall r :: r in rows + [last] <==> r in rows || r == last;
  }

  /** A key is in the map exactly when it is non-empty and some row carries it ... */
  lemma {:induction false} FoldRowsKeys(rows: seq<MetricRow>, k: string)
    ensures k in FoldRows(rows).at <==> k != "" && k in RowKeys(rows)
  {
    if rows != [] {
      var init := rows[..|rows| - 1];
      var last := rows[|rows| - 1];
      FoldRowsKeys(init, k);
      assert rows == init + [last];
      RowKeysSnoc(init, last);
    }
  }

  /** ... and its accumulator is the sum of those rows. */
  lemma {:induction false} FoldRowsSums(rows: seq<MetricRow>, k: string)
    ensures PointAt(FoldRows(rows), k) == (if k == "" then ZERO_POINT else RowsSum(rows, k))
  {
    if k == "" {
      FoldRowsKeys(rows, k);
    } else if rows != [] {
      FoldRowsSums(rows[..|rows| - 1], k);
    }
  }

  /** fetchMetrics' row loop: `m[k]` is created at zero on first sight and the
      row's eight metrics are added to it. */
  method FetchMetrics(rows: seq<MetricRow>) returns (m: Dict<MetricPoint>)
    ensures m == FoldRows(rows)
  {
    m := EmptyDict();
    var i := 0;
    while i < |rows|
      invariant 0 <= i <= |rows|
      invariant m == FoldRows(rows[..i])
    {
      assert rows[..i + 1][..i] == rows[..i];
      var k := Trim(rows[i].action);
      if k != "" {
        var obj := if k in m.at then m.at[k] else ZERO_POINT;
        m := Put(m, k, AddPoint(obj, rows[i].point));
      }
      i := i + 1;
    }
    assert rows[..|rows|] == rows;
  }

  // -------------------------------------------------------------- aggregate

  /** aggregate's result: the (count, value) pair per display name and the total. */
  datatype Stats = Stats(byName: Dict<Pair>, total: Pair)

  const EMPTY_STATS := Stats(EmptyDict(), ZERO_PAIR)

  function PairAt(d: Dict<Pair>, n: string): Pair {
    if n in d.at then d.at[n] else ZERO_PAIR
  }

  /** The conversion action `k` is counted: it has a catalog entry that is ENABLED. */
  predicate Counted(meta: Dict<Meta>, k: string) {
    k in meta.at && IsEnabled(meta.at[k])
  }

  /** aggregate over the metric keys `keys`, in order. */
  function AggregateKeys(keys: seq<string>, metrics: Dict<MetricPoint>, meta: Dict<Meta>, t: MeasurementType): (s: Stats)
    requires forall i :: 0 <= i < |keys| ==> keys[i] in metrics.at
    ensures s.byName.Valid()
  {
    if keys == [] then EMPTY_STATS
    else
      var s := AggregateKeys(keys[..|keys| - 1], metrics, meta, t);
      var k := keys[|keys| - 1];
      if !Counted(meta, k) then s
      else
        var p := PickMetricPair(metrics.at[k], t);
        var n := DisplayName(meta.at[k]);
        Stats(Put(s.byName, n, AddPair(PairAt(s.byName, n), p)), AddPair(s.total, p))
  }

  function AggregateOf(metrics: Dict<MetricPoint>, meta: Dict<Meta>, t: MeasurementType): (s: Stats)
    requires metrics.Valid()
    ensures s.byName.Valid()
  {
    AggregateKeys(metrics.keys, metrics, meta, t)
  }

  /** `aggregate(metrics, meta, metricKey)`: the loop over the metric keys,
      skipping actions without an ENABLED catalog entry, adding the chosen
      pair to the action's display name and to the total. */
  method Aggregate(metrics: Dict<MetricPoint>, meta: Dict<Meta>, t: MeasurementType) returns (s: Stats)
    requires metrics.Valid()
    ensures s == AggregateOf(metrics, meta, t)
  {
    s := EMPTY_STATS;
    var i := 0;
    while i < |metrics.keys|
      invariant 0 <= i <= |metrics.keys|
      invariant s == AggregateKeys(metrics.keys[..i], metrics, meta, t)
    {
      assert metrics.keys[..i + 1] == metrics.keys[..i] + [metrics.keys[i]];
      s := AggregateStep(s, metrics.keys[..i], metrics.keys[i], metrics, meta, t);
      i := i + 1;
    }
    assert metrics.keys[..|metrics.keys|] == metrics.keys;
  }

  /** One pass of aggregate's loop, for the metric key `k`. */
  method AggregateStep(s: Stats, keys: seq<string>, k: string, metrics: Dict<MetricPoint>, meta: Dict<Meta>, t: MeasurementType)
    returns (s': Stats)
    requires forall i :: 0 <= i < |keys| ==> keys[i] in metrics.at
    requires k in metrics.at
    requires s == AggregateKeys(keys, metrics, meta, t)
    ensures s' == AggregateKeys(keys + [k], metrics, meta, t)
  {
    assert (keys + [k])[..|keys|] == keys;
    var byName, tot := s.byName, s.total;
    if k in meta.at && meta.at[k].status == ENABLED {
      var use := PickMetricPair(metrics.at[k], t);
      var n := DisplayName(meta.at[k]);
      var cur := if n in byName.at then byName.at[n] else ZERO_PAIR;
      byName := Put(byName, n, AddPair(cur, use));
      tot := AddPair(tot, use);
    }
    s' := Stats(byName, tot);
  }

  /** The sum of a dictionary's values over the keys `keys`. */
  function SumOver(keys: seq<string>, at: map<string, Pair>): Pair
    requires forall i :: 0 <= i < |keys| ==> keys[i] in at
  {
    if keys == [] then ZERO_PAIR else AddPair(SumOver(keys[..|keys| - 1], at), at[keys[|keys| - 1]])
  }

  function SumAll(d: Dict<Pair>): Pair
    requires d.Valid()
  {
    SumOver(d.keys, d.at)
  }

  lemma {:induction false} SumOverAgree(keys: seq<string>, a: map<string, Pair>, b: map<string, Pair>)
    requires forall i :: 0 <= i < |keys| ==> keys[i] in a && keys[i] in b && a[keys[i]] == b[keys[i]]
    ensures SumOver(keys, a) == SumOver(keys, b)
  {
    if keys != [] {
      SumOverAgree(keys[..|keys| - 1], a, b);
    }
  }

  /** Adding `p` to one entry adds `p` to the sum. */
  lemma {:induction false} SumOverBump(keys: seq<string>, at: map<string, Pair>, n: string, p: Pair)
    requires forall i :: 0 <= i < |keys| ==> keys[i] in at
    requires forall i, j :: 0 <= i < j < |keys| ==> keys[i] != keys[j]
    requires n in keys
    ensures SumOver(keys, at[n := AddPair(at[n], p)]) == AddPair(SumOver(keys, at), p)
  {
    var init := keys[..|keys| - 1];
    var last := keys[|keys| - 1];
    var at' := at[n := AddPair(at[n], p)];
    if last == n {
      assert n !in init;
      SumOverAgree(init, at', at);
    } else {
      assert n in init;
      SumOverBump(init, at, n, p);
    }
  }

  /** Adding a pair under a name, new or existing, adds it to the sum. */
  lemma SumAllPut(d: Dict<Pair>, n: string, p: Pair)
    requires d.Valid()
    ensures SumAll(Put(d, n, AddPair(PairAt(d, n), p))) == AddPair(SumAll(d), p)
  {
    var r := Put(d, n, AddPair(PairAt(d, n), p));
    if n in d.at {
      SumOverBump(d.keys, d.at, n, p);
    } else {
      assert r.keys[..|r.keys| - 1] == d.keys;
      SumOverAgree(d.keys, r.at, d.at);
    }
  }

  /** The total is the sum of the per-name entries. */
  lemma {:induction false} AggregateTotalIsSum(keys: seq<string>, metrics: Dict<MetricPoint>, meta: Dict<Meta>, t: MeasurementType)
    requires forall i :: 0 <= i < |keys| ==> keys[i] in metrics.at
    ensures AggregateKeys(keys, metrics, meta, t).total == SumAll(AggregateKeys(keys, metrics, meta, t).byName)
  {
    if keys != [] {
      var init := keys[..|keys| - 1];
      AggregateTotalIsSum(init, metrics, meta, t);
      var k := keys[|keys| - 1];
      if Counted(meta, k) {
        var s := AggregateKeys(init, metrics, meta, t);
        SumAllPut(s.byName, DisplayName(meta.at[k]), PickMetricPair(metrics.at[k], t));
      }
    }
  }

  /** The chosen pairs of the counted actions among `keys` that carry display
      name `n`, summed: what the by-name entry of `n` should hold. */
  function NameSum(keys: seq<string>, metrics: Dict<MetricPoint>, meta: Dict<Meta>, t: MeasurementType, n: string): Pair
    requires forall i :: 0 <= i < |keys| ==> keys[i] in metrics.at
  {
    if keys == [] then ZERO_PAIR
    else
      var k := keys[|keys| - 1];
      var rest := NameSum(keys[..|keys| - 1], metrics, meta, t, n);
      if Counted(meta, k) && DisplayName(meta.at[k]) == n then AddPair(rest, PickMetricPair(metrics.at[k], t)) else rest
  }

  /** The chosen pairs of every counted action among `keys`, summed. */
  function CountedSum(keys: seq<string>, metrics: Dict<MetricPoint>, meta: Dict<Meta>, t: MeasurementType): Pair
    requires forall i :: 0 <= i < |keys| ==> keys[i] in metrics.at
  {
    if keys == [] then ZERO_PAIR
    else
      var k := keys[|keys| - 1];
      var rest := CountedSum(keys[..|keys| - 1], metrics, meta, t);
      if Counted(meta, k) then AddPair(rest, PickMetricPair(metrics.at[k], t)) else rest
  }

  /** Each by-name entry sums exactly the counted actions of that name, and
      the total exactly the counted actions: an action that is not ENABLED
      contributes to no amount. */
  lemma {:induction false} AggregateAmounts(keys: seq<string>, metrics: Dict<MetricPoint>, meta: Dict<Meta>, t: MeasurementType)
    requires forall i :: 0 <= i < |keys| ==> keys[i] in metrics.at
    ensures forall n :: PairAt(AggregateKeys(keys, metrics, meta, t).byName, n) == NameSum(keys, metrics, meta, t, n)
    ensures AggregateKeys(keys, metrics, meta, t).total == CountedSum(keys, metrics, meta, t)
  {
    if keys != [] {
      var init := keys[..|keys| - 1];
      AggregateAmounts(init, metrics, meta, t);
    }
  }

  /** The display names of the counted actions among `keys`. */
  function CountedNames(keys: seq<string>, meta: Dict<Meta>): set<string> {
    set i | 0 <= i < |keys| && Counted(meta, keys[i]) :: DisplayName(meta.at[keys[i]])
  }

  /** A name has an entry exactly when some counted action carries it. */
  lemma {:induction false} AggregateNames(keys: seq<string>, metrics: Dict<MetricPoint>, meta: Dict<Meta>, t: MeasurementType)
    requires forall i :: 0 <= i < |keys| ==> keys[i] in metrics.at
    ensures forall n :: n in AggregateKeys(keys, metrics, meta, t).byName.at <==> n in CountedNames(keys, meta)
  {
    if keys != [] {
      var init := keys[..|keys| - 1];
      AggregateNames(init, metrics, meta, t);
      var k := keys[|keys| - 1];
      forall n ensures n in CountedNames(keys, meta) <==> n in CountedNames(init, meta) || (Counted(meta, k) && n == DisplayName(meta.at[k])) {
        if n in CountedNames(keys, meta) {
          var i :| 0 <= i < |keys| && Counted(meta, keys[i]) && DisplayName(meta.at[keys[i]]) == n;
          if i < |init| {
            assert init[i] == keys[i];
          }
        }
        if n in CountedNames(init, meta) {
          var i :| 0 <= i < |init| && Counted(meta, init[i]) && DisplayName(meta.at[init[i]]) == n;
          assert keys[i] == init[i];
        }
        if Counted(meta, k) && n == DisplayName(meta.at[k]) {
          assert n == DisplayName(meta.at[keys[|keys| - 1]]);
        }
      }
    }
  }

  // ---------------------------------------------------------- buildNameIndex

  /** `buildNameIndex(meta).enabled`: the names of all ENABLED actions. */
  function NameIndexOf(meta: Dict<Meta>): set<string> {
    CountedNames(meta.keys, meta)
  }

  /** buildNameIndex's loop over the catalog. */
  method BuildNameIndex(meta: Dict<Meta>) returns (enabled: set<string>)
    ensures enabled == NameIndexOf(meta)
  {
    enabled := {};
    var i := 0;
    while i < |meta.keys|
      invariant 0 <= i <= |meta.keys|
      invariant enabled == CountedNames(meta.keys[..i], meta)
    {
      var res := meta.keys[i];
      ghost var pre := meta.keys[..i];
      ghost var next := meta.keys[..i + 1];
      assert next == pre + [res];
      if res in meta.at && meta.at[res].status == ENABLED {
        enabled := enabled + {DisplayName(meta.at[res])};
      }
      EnabledNamesStep(pre, res, meta);
      i := i + 1;
    }
    assert meta.keys[..|meta.keys|] == meta.keys;
  }

  lemma EnabledNamesStep(keys: seq<string>, k: string, meta: Dict<Meta>)
    ensures CountedNames(keys + [k], meta) ==
      CountedNames(keys, meta) + (if Counted(meta, k) then {DisplayName(meta.at[k])} else {})
  {
    var ks := keys + [k];
    forall n | n in CountedNames(ks, meta)
      ensures n in CountedNames(keys, meta) || (Counted(meta, k) && n == DisplayName(meta.at[k]))
    {
      var i :| 0 <= i < |ks| && Counted(meta, ks[i]) && DisplayName(meta.at[ks[i]]) == n;
      if i < |keys| {
        assert keys[i] == ks[i];
      }
    }
    forall n | n in CountedNames(keys, meta) ensures n in CountedNames(ks, meta) {
      var i :| 0 <= i < |keys| && Counted(meta, keys[i]) && DisplayName(meta.at[keys[i]]) == n;
      assert ks[i] == keys[i];
    }
    if Counted(meta, k) {
      assert ks[|keys|] == k;
    }
  }

  /** Every name aggregate reports is in the name index: aggregation and the
      index agree on which actions count. */
  lemma AggregateNamesIndexed(metrics: Dict<MetricPoint>, meta: Dict<Meta>, t: MeasurementType)
    requires metrics.Valid() && meta.Valid()
    ensures forall n :: n in AggregateOf(metrics, meta, t).byName.at ==> n in NameIndexOf(meta)
  {
    AggregateNames(metrics.keys, metrics, meta, t);
    forall n | n in AggregateOf(metrics, meta, t).byName.at ensures n in NameIndexOf(meta) {
      var i :| 0 <= i < |metrics.keys| && Counted(meta, metrics.keys[i]) && DisplayName(meta.at[metrics.keys[i]]) == n;
      var k := metrics.keys[i];
      var j :| 0 <= j < |meta.keys| && meta.keys[j] == k;
      assert DisplayName(meta.at[meta.keys[j]]) == n;
    }
  }

  // ------------------------------------------- buildEnabledResourcesByName

  /** The ENABLED resources among `keys` whose display name is `n`, in order. */
  function ResourcesNamed(keys: seq<string>, meta: Dict<Meta>, n: string): (rs: seq<string>)
    ensures forall i :: 0 <= i < |rs| ==> rs[i] in keys && Counted(meta, rs[i]) && DisplayName(meta.at[rs[i]]) == n
  {
    if keys == [] then []
    else
      var k := keys[|keys| - 1];
      ResourcesNamed(keys[..|keys| - 1], meta, n) + (if Counted(meta, k) && DisplayName(meta.at[k]) == n then [k] else [])
  }

  /** A name's resource list repeats no resource. */
  lemma {:induction false} ResourcesNamedDistinct(keys: seq<string>, meta: Dict<Meta>, n: string)
    requires Distinct(keys)
    ensures Distinct(ResourcesNamed(keys, meta, n))
  {
    if keys != [] {
      var init := keys[..|keys| - 1];
      var k := keys[|keys| - 1];
      assert Distinct(init) by {
        assert forall i :: 0 <= i < |init| ==> init[i] == keys[i];
      }
      ResourcesNamedDistinct(init, meta, n);
      assert k !in init by {
        assert forall i :: 0 <= i < |init| ==> init[i] == keys[i];
      }
    }
  }

  /** Every ENABLED resource among `keys` with display name `n` is listed. */
  lemma {:induction false} ResourcesNamedComplete(keys: seq<string>, meta: Dict<Meta>, n: string, k: string)
    requires k in keys && Counted(meta, k) && DisplayName(meta.at[k]) == n
    ensures k in ResourcesNamed(keys, meta, n)
  {
    var init := keys[..|keys| - 1];
    if k != keys[|keys| - 1] {
      assert k in init by {
        var i :| 0 <= i < |keys| && keys[i] == k;
        assert init[i] == k;
      }
      ResourcesNamedComplete(init, meta, n, k);
    }
  }

  /** `m` maps each name to its ENABLED resources among `keys`, and holds no other name. */
  ghost predicate ResourcesIndexed(m: Dict<seq<string>>, keys: seq<string>, meta: Dict<Meta>) {
    && m.Valid()
    && (forall n :: n in m.at <==> ResourcesNamed(keys, meta, n) != [])
    && (forall n :: n in m.at ==> m.at[n] == ResourcesNamed(keys, meta, n))
  }

  lemma ResourcesNamedSnoc(keys: seq<string>, k: string, meta: Dict<Meta>, n: string)
    ensures ResourcesNamed(keys + [k], meta, n) ==
      ResourcesNamed(keys, meta, n) + (if Counted(meta, k) && DisplayName(meta.at[k]) == n then [k] else [])
  {
    assert (keys + [k])[..|keys|] == keys;
  }

  /** One ENABLED catalog entry more: it is appended under its name. */
  lemma ResourcesIndexedAdd(m: Dict<seq<string>>, keys: seq<string>, k: string, meta: Dict<Meta>)
    requires ResourcesIndexed(m, keys, meta) && Counted(meta, k)
    ensures var n := DisplayName(meta.at[k]);
      ResourcesIndexed(Put(m, n, (if n in m.at then m.at[n] else []) + [k]), keys + [k], meta)
  {
    var n := DisplayName(meta.at[k]);
    var m' := Put(m, n, (if n in m.at then m.at[n] else []) + [k]);
    forall n' ensures (n' in m'.at <==> ResourcesNamed(keys + [k], meta, n') != [])
      && (n' in m'.at ==> m'.at[n'] == ResourcesNamed(keys + [k], meta, n'))
    {
      ResourcesIndexedAddAt(m, keys, k, meta, n');
    }
  }

  /** `ResourcesIndexedAdd` for one name `n'`. */
  lemma ResourcesIndexedAddAt(m: Dict<seq<string>>, keys: seq<string>, k: string, meta: Dict<Meta>, n': string)
    requires ResourcesIndexed(m, keys, meta) && Counted(meta, k)
    ensures var n := DisplayName(meta.at[k]);
      var m' := Put(m, n, (if n in m.at then m.at[n] else []) + [k]);
      && (n' in m'.at <==> ResourcesNamed(keys + [k], meta, n') != [])
      && (n' in m'.at ==> m'.at[n'] == ResourcesNamed(keys + [k], meta, n'))
  {
    var n := DisplayName(meta.at[k]);
    var cur := if n in m.at then m.at[n] else [];
    var m' := Put(m, n, cur + [k]);
    ResourcesNamedSnoc(keys, k, meta, n');
    assert n' in m.at <==> ResourcesNamed(keys, meta, n') != [];
    if n' == n {
      assert ResourcesNamed(keys + [k], meta, n') == ResourcesNamed(keys, meta, n') + [k];
      assert cur == ResourcesNamed(keys, meta, n');
    } else {
      assert ResourcesNamed(keys + [k], meta, n') == ResourcesNamed(keys, meta, n');
      assert n' in m'.at <==> n' in m.at;
      if n' in m.at {
        assert m'.at[n'] == m.at[n'];
      }
    }
  }

  /** A catalog entry that is not ENABLED changes nothing. */
  lemma ResourcesIndexedSkip(m: Dict<seq<string>>, keys: seq<string>, k: string, meta: Dict<Meta>)
    requires ResourcesIndexed(m, keys, meta) && !Counted(meta, k)
    ensures ResourcesIndexed(m, keys + [k], meta)
  {
    forall n' ensures ResourcesNamed(keys + [k], meta, n') == ResourcesNamed(keys, meta, n') {
      ResourcesNamedSnoc(keys, k, meta, n');
    }
  }

  /** buildEnabledResourcesByName: name -> every ENABLED resource with that
      name, in catalog order (duplicated names keep all their resources). */
  method BuildEnabledResourcesByName(meta: Dict<Meta>) returns (m: Dict<seq<string>>)
    ensures m.Valid()
    ensures forall n :: n in m.at <==> ResourcesNamed(meta.keys, meta, n) != []
    ensures forall n :: n in m.at ==> m.at[n] == ResourcesNamed(meta.keys, meta, n)
  {
    m := EmptyDict();
    var i := 0;
    while i < |meta.keys|
      invariant 0 <= i <= |meta.keys|
      invariant ResourcesIndexed(m, meta.keys[..i], meta)
    {
      assert meta.keys[..i + 1] == meta.keys[..i] + [meta.keys[i]];
      m := IndexResource(m, meta.keys[..i], meta.keys[i], meta);
      i := i + 1;
    }
    assert meta.keys[..|meta.keys|] == meta.keys;
  }

  /** One pass of buildEnabledResourcesByName: an ENABLED resource is pushed
      onto the list of its display name, any other is skipped. */
  method IndexResource(m: Dict<seq<string>>, keys: seq<string>, res: string, meta: Dict<Meta>) returns (m': Dict<seq<string>>)
    requires ResourcesIndexed(m, keys, meta)
    ensures ResourcesIndexed(m', keys + [res], meta)
  {
    if res in meta.at && meta.at[res].status == ENABLED {
      ResourcesIndexedAdd(m, keys, res, meta);
      var name := DisplayName(meta.at[res]);
      var cur := if name in m.at then m.at[name] else [];
      m' := Put(m, name, cur + [res]);
    } else {
      ResourcesIndexedSkip(m, keys, res, meta);
      m' := m;
    }
  }

  /** `Object.keys(meta).filter(res => meta[res].status === 'ENABLED')`. */
  function EnabledResourcesAll(meta: Dict<Meta>): (rs: seq<string>)
    ensures |rs| <= |meta.keys|
    ensures forall i :: 0 <= i < |rs| ==> Counted(meta, rs[i])
    ensures forall k :: k in meta.keys && Counted(meta, k) ==> k in rs
  {
    Filter(meta.keys, meta)
  }

  function Filter(keys: seq<string>, meta: Dict<Meta>): (rs: seq<string>)
    ensures |rs| <= |keys|
    ensures forall i :: 0 <= i < |rs| ==> Counted(meta, rs[i]) && rs[i] in keys
    ensures forall k :: k in keys && Counted(meta, k) ==> k in rs
  {
    if keys == [] then []
    else
      var rest := Filter(keys[..|keys| - 1], meta);
      var k := keys[|keys| - 1];
      assert forall j :: j in keys ==> j in keys[..|keys| - 1] || j == k;
      if Counted(meta, k) then rest + [k] else rest
  }

  /** The filtered list repeats no resource: the catalog keys are distinct. */
  lemma {:induction false} FilterDistinct(keys: seq<string>, meta: Dict<Meta>)
    requires Distinct(keys)
    ensures Distinct(Filter(keys, meta))
  {
    if keys != [] {
      var init := keys[..|keys| - 1];
      var k := keys[|keys| - 1];
      assert Distinct(init) by {
        assert forall i :: 0 <= i < |init| ==> init[i] == keys[i];
      }
      FilterDistinct(init, meta);
      assert k !in init by {
        assert forall i :: 0 <= i < |init| ==> init[i] == keys[i];
      }
    }
  }

  /** Each ENABLED resource is charted once, however many rows share its name. */
  lemma EnabledResourcesAllDistinct(meta: Dict<Meta>)
    requires meta.Valid()
    ensures Distinct(EnabledResourcesAll(meta))
  {
    FilterDistinct(meta.keys, meta);
  }

  // -------------------------------------------------- uniqueDays and the cache

  /** `rows.filter(r => !r.hasMissingDays && !r.hasInvalidDays)`. */
  function RulesWithValidDays(rules: seq<Rule>): (rs: seq<Rule>)
    ensures forall i :: 0 <= i < |rs| ==> rs[i] in rules && !rs[i].missingDays && !rs[i].invalidDays
    ensures forall r :: r in rules && !r.missingDays && !r.invalidDays ==> r in rs
  {
    if rules == [] then []
    else
      var rest := RulesWithValidDays(rules[..|rules| - 1]);
      var r := rules[|rules| - 1];
      assert forall x :: x in rules ==> x in rules[..|rules| - 1] || x == r;
      if !r.missingDays && !r.invalidDays then rest + [r] else rest
  }

  predicate StrictlyIncreasing(s: seq<int>) {
    forall i, j :: 0 <= i < j < |s| ==> s[i] < s[j]
  }

  /** `s[d] = 1` on an object whose keys are small integers: the key set gains
      `d`, and `Object.keys` lists such keys in ascending order. */
  function InsertSorted(s: seq<int>, d: int): seq<int> {
    if s == [] then [d]
    else if d < s[0] then [d] + s
    else if d == s[0] then s
    else [s[0]] + InsertSorted(s[1..], d)
  }

  /** Inserting adds exactly `d` to the keys ... */
  lemma {:induction false} InsertSortedMembers(s: seq<int>, d: int)
    ensures forall x :: x in InsertSorted(s, d) <==> x in s || x == d
  {
    if s != [] && d > s[0] {
      InsertSortedMembers(s[1..], d);
      assert s == [s[0]] + s[1..];
    }
  }

  lemma IncreasingTail(s: seq<int>)
    requires s != [] && StrictlyIncreasing(s)
    ensures StrictlyIncreasing(s[1..]) && forall x :: x in s[1..] ==> s[0] < x
  {
    var tail := s[1..];
    forall i, j | 0 <= i < j < |tail| ensures tail[i] < tail[j] {
      assert tail[i] == s[i + 1] && tail[j] == s[j + 1];
    }
    forall x | x in tail ensures s[0] < x {
      var k :| 0 <= k < |tail| && tail[k] == x;
      assert s[k + 1] == x;
    }
  }

  /** ... and keeps the key list strictly ascending. */
  lemma {:induction false} InsertSortedKeepsKeys(s: seq<int>, d: int)
    requires StrictlyIncreasing(s)
    ensures StrictlyIncreasing(InsertSorted(s, d))
  {
    if s != [] && d > s[0] {
      var tail := s[1..];
      IncreasingTail(s);
      InsertSortedKeepsKeys(tail, d);
      InsertSortedMembers(tail, d);
      var t := InsertSorted(tail, d);
      var r := [s[0]] + t;
      assert r == InsertSorted(s, d);
      forall i, j | 0 <= i < j < |r| ensures r[i] < r[j] {
        assert r[j] == t[j - 1] && r[j] in t;
        if i > 0 {
          assert r[i] == t[i - 1];
        }
      }
    }
  }

  /** Every day that occurs, each once. */
  ghost predicate DaysOf(rules: seq<Rule>, days: seq<int>) {
    forall d :: d in days <==> exists i :: 0 <= i < |rules| && rules[i].days == d
  }

  /** uniqueDays: the distinct window sizes, in the ascending order in which
      `Object.keys` returns integer keys. */
  method UniqueDays(rules: seq<Rule>) returns (days: seq<int>)
    ensures StrictlyIncreasing(days)
    ensures DaysOf(rules, days)
  {
    days := [];
    var i := 0;
    while i < |rules|
      invariant 0 <= i <= |rules|
      invariant StrictlyIncreasing(days)
      invariant DaysOf(rules[..i], days)
    {
      assert forall j :: 0 <= j < i ==> rules[..i + 1][j] == rules[..i][j];
      assert rules[..i + 1][i] == rules[i];
      InsertSortedKeepsKeys(days, rules[i].days);
      InsertSortedMembers(days, rules[i].days);
      days := InsertSorted(days, rules[i].days);
      i := i + 1;
    }
    assert rules[..|rules|] == rules;
  }

  /** The four aggregates of one window, one per measurement type. */
  datatype WindowStats = WindowStats(conv: Stats, all: Stats, convTime: Stats, allTime: Stats) {
    function For(t: MeasurementType): Stats {
      match t
      case Conversions => conv
      case AllConversions => all
      case ConversionsByConvTime => convTime
      case AllConversionsByConvTime => allTime
    }
  }

  /** The cache entry of one window: the rows folded once and aggregated four ways. */
  function WindowOf(rows: seq<MetricRow>, meta: Dict<Meta>): WindowStats {
    var m := FoldRows(rows);
    WindowStats(AggregateOf(m, meta, Conversions), AggregateOf(m, meta, AllConversions),
                AggregateOf(m, meta, ConversionsByConvTime), AggregateOf(m, meta, AllConversionsByConvTime))
  }

  /** Each measurement type reads the aggregate of the window's report under that type. */
  lemma WindowOfFor(rows: seq<MetricRow>, meta: Dict<Meta>, t: MeasurementType)
    ensures WindowOf(rows, meta).For(t) == AggregateOf(FoldRows(rows), meta, t)
  {
    match t
    case Conversions =>
    case AllConversions =>
    case ConversionsByConvTime =>
    case AllConversionsByConvTime =>
  }

  /** One window's cache entry: the report folded, then aggregated per measurement type. */
  method FetchWindow(rows: seq<MetricRow>, meta: Dict<Meta>) returns (w: WindowStats)
    ensures w == WindowOf(rows, meta)
  {
    var metricsMap := FetchMetrics(rows);
    var c := Aggregate(metricsMap, meta, Conversions);
    var a := Aggregate(metricsMap, meta, AllConversions);
    var ct := Aggregate(metricsMap, meta, ConversionsByConvTime);
    var at := Aggregate(metricsMap, meta, AllConversionsByConvTime);
    w := WindowStats(c, a, ct, at);
  }

  /** The cache fill of one account: for each distinct window size, one report
      (`rowsFor(d)` stands for the fetched rows of the `d`-day range) folded
      and aggregated for the four measurement types. `queried` lists the
      windows in the order the reports are requested. */
  method FillCache(days: seq<int>, rowsFor: int -> seq<MetricRow>, meta: Dict<Meta>)
    returns (cache: map<int, WindowStats>, queried: seq<int>)
    ensures queried == days
    ensures forall d :: d in cache <==> d in days
    ensures forall d :: d in cache ==> cache[d] == WindowOf(rowsFor(d), meta)
  {
    cache := map[];
    queried := [];
    var i := 0;
    while i < |days|
      invariant 0 <= i <= |days|
      invariant queried == days[..i]
      invariant forall d :: d in cache <==> d in queried
      invariant Cached(cache, rowsFor, meta)
    {
      var d := days[i];
      cache := CacheWindow(cache, d, rowsFor, meta);
      queried := queried + [d];
      assert queried == days[..i + 1];
      i := i + 1;
    }
    assert queried == days;
  }

  /** Every cached window holds the aggregates of its own report. */
  ghost predicate Cached(cache: map<int, WindowStats>, rowsFor: int -> seq<MetricRow>, meta: Dict<Meta>) {
    forall d :: d in cache ==> cache[d] == WindowOf(rowsFor(d), meta)
  }

  /** One pass of the cache loop: window `d` is fetched and stored. */
  method CacheWindow(cache: map<int, WindowStats>, d: int, rowsFor: int -> seq<MetricRow>, meta: Dict<Meta>)
    returns (cache': map<int, WindowStats>)
    requires Cached(cache, rowsFor, meta)
    ensures Cached(cache', rowsFor, meta)
    ensures forall x :: x in cache' <==> x in cache || x == d
  {
    var w := FetchWindow(rowsFor(d), meta);
    cache' := cache[d := w];
  }
}
