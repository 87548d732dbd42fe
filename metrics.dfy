/** The measurement types, the eight metric accumulators of one conversion
    action and the catalog entry (name, status) of a conversion action. */
module Metrics {
  import opened Base

  /** The four fixed values of the "Konverziómérés típusa" column. */
  datatype MeasurementType =
    | Conversions
    | AllConversions
    | ConversionsByConvTime
    | AllConversionsByConvTime

  /** The exact label a configuration row must carry for each measurement type. */
  function Label(m: MeasurementType): string {
    match m
    case Conversions => "Conversions"
    case AllConversions => "All conversions"
    case ConversionsByConvTime => "Conversions by conv. time"
    case AllConversionsByConvTime => "All conversions by conv. time"
  }

  /** `normalizeMeasurementType`: exact match against the four labels; no match
      (the empty string in the script) is `None`. */
  function NormalizeMeasurementType(s: string): (r: Option<MeasurementType>)
    ensures r.Some? ==> Label(r.value) == s
    ensures r.None? <==> forall m :: Label(m) != s
  {
    if s == Label(Conversions) then Some(Conversions)
    else if s == Label(AllConversions) then Some(AllConversions)
    else if s == Label(ConversionsByConvTime) then Some(ConversionsByConvTime)
    else if s == Label(AllConversionsByConvTime) then Some(AllConversionsByConvTime)
    else None
  }

  /** Every label is recognised as its own measurement type. */
  lemma {:induction false} NormalizeLabel(m: MeasurementType)
    ensures NormalizeMeasurementType(Label(m)) == Some(m)
  {
    var r := NormalizeMeasurementType(Label(m));
    assert r.Some?;
    match m
    case Conversions =>
    case AllConversions =>
      assert Label(AllConversions)[0] != Label(Conversions)[0];
    case ConversionsByConvTime =>
      assert |Label(ConversionsByConvTime)| != |Label(Conversions)|;
      assert Label(ConversionsByConvTime)[0] != Label(AllConversions)[0];
    case AllConversionsByConvTime =>
      assert Label(AllConversionsByConvTime)[0] != Label(Conversions)[0];
      assert Label(AllConversionsByConvTime)[0] != Label(ConversionsByConvTime)[0];
      assert |Label(AllConversionsByConvTime)| != |Label(AllConversions)|;
  }

  /** The eight accumulators kept per conversion action by the metric readers. */
  datatype MetricPoint = MetricPoint(
    conv: real, value: real,
    allConv: real, allValue: real,
    convByTime: real, valByTime: real,
    allByTime: real, allValByTime: real)

  const ZERO_POINT := MetricPoint(0.0, 0.0, 0.0, 0.0, 0.0, 0.0, 0.0, 0.0)

  /** Field-wise sum, the `obj.x += …` of one report row. */
  function AddPoint(p: MetricPoint, q: MetricPoint): MetricPoint {
    MetricPoint(p.conv + q.conv, p.value + q.value,
                p.allConv + q.allConv, p.allValue + q.allValue,
                p.convByTime + q.convByTime, p.valByTime + q.valByTime,
                p.allByTime + q.allByTime, p.allValByTime + q.allValByTime)
  }

  /** A conversion count and a conversion value. */
  datatype Pair = Pair(conv: real, value: real)

  const ZERO_PAIR := Pair(0.0, 0.0)

  function AddPair(p: Pair, q: Pair): Pair {
    Pair(p.conv + q.conv, p.value + q.value)
  }

  /** `pickMetricPair`: the (count, value) columns a measurement type reads. */
  function PickMetricPair(m: MetricPoint, t: MeasurementType): Pair {
    match t
    case Conversions => Pair(m.conv, m.value)
    case AllConversions => Pair(m.allConv, m.allValue)
    case ConversionsByConvTime => Pair(m.convByTime, m.valByTime)
    case AllConversionsByConvTime => Pair(m.allByTime, m.allValByTime)
  }

  /** Projecting commutes with accumulating: summing rows and then choosing a
      column pair gives the sum of the chosen pairs. */
  lemma PickAdditive(p: MetricPoint, q: MetricPoint, t: MeasurementType)
    ensures PickMetricPair(AddPoint(p, q), t) == AddPair(PickMetricPair(p, t), PickMetricPair(q, t))
    ensures PickMetricPair(ZERO_POINT, t) == ZERO_PAIR
  {
  }

  /** A conversion action's catalog entry (`conversion_action.name`, `.status`). */
  datatype Meta = Meta(name: string, status: string)

  const ENABLED := "ENABLED"
  const UNNAMED := "(névtelen)"

  predicate IsEnabled(m: Meta) {
    m.status == ENABLED
  }

  /** `m.name || '(névtelen)'`. */
  function DisplayName(m: Meta): (n: string)
    ensures n != ""
    ensures m.name != "" ==> n == m.name
    ensures m.name == "" ==> n == UNNAMED
  {
    if m.name == "" then UNNAMED else m.name
  }
}
