/** Validation and normalisation of one row of the "Beállítások" sheet into a
    well-typed rule with its error flags (readConfig's per-row part and the
    field validators it calls). */
module RuleValidator {
  import opened Base
  import opened Metrics

  /** A sheet cell: `Blank` is `null` or `''`; `Text(s)` is any other value, as
      `String(value)` renders it. */
  datatype Cell = Blank | Text(s: string)

  function TextOf(c: Cell): string {
    match c
    case Blank => ""
    case Text(s) => s
  }

  const DEFAULT_DAYS := 7
  const MAX_LOOKBACK_DAYS := 90

  // ---------------------------------------------------------------- parseInt

  predicate AllDigits(d: string) {
    forall i :: 0 <= i < |d| ==> IsDigit(d[i])
  }

  /** The first index at or after `i` that does not hold a decimal digit. */
  function DigitsEnd(s: string, i: nat): (k: nat)
    requires i <= |s|
    ensures i <= k <= |s|
    ensures forall j :: i <= j < k ==> IsDigit(s[j])
    ensures k < |s| ==> !IsDigit(s[k])
    decreases |s| - i
  {
    if i < |s| && IsDigit(s[i]) then DigitsEnd(s, i + 1) else i
  }

  /** The number the digits `s[i..j]` denote. */
  function DigitsValue(s: string, i: nat, j: nat): nat
    requires i <= j <= |s|
    requires forall k :: i <= k < j ==> IsDigit(s[k])
    decreases j
  {
    if j == i then 0 else DigitsValue(s, i, j - 1) * 10 + DigitValue(s[j - 1])
  }

  /** Where the digits start when an optional sign sits at `a`. */
  function SignEnd(s: string, a: nat): (b: nat)
    requires a <= |s|
    ensures a <= b <= |s|
  {
    if a < |s| && (s[a] == '-' || s[a] == '+') then a + 1 else a
  }

  /** An optional sign at `a`, then the longest run of decimal digits. */
  function ParseIntFrom(s: string, a: nat): Option<int>
    requires a <= |s|
  {
    var b := SignEnd(s, a);
    var e := DigitsEnd(s, b);
    if e == b then None
    else
      var v: int := DigitsValue(s, b, e);
      Some(if s[a] == '-' then -v else v)
  }

  /** `parseInt(s, 10)`: leading whitespace skipped, an optional sign, then the
      longest run of decimal digits; no digit at all is NaN (`None`). */
  function ParseIntPrefix(s: string): Option<int> {
    ParseIntFrom(s, SkipWhitespace(s, 0))
  }

  lemma {:induction false} DigitsValueFrame(s: string, t: string, i: nat, j: nat)
    requires i <= j <= |s|
    requires forall k :: i <= k < j ==> IsDigit(s[k])
    ensures DigitsValue(s + t, i, j) == DigitsValue(s, i, j)
    decreases j
  {
    if j > i {
      DigitsValueFrame(s, t, i, j - 1);
      assert (s + t)[j - 1] == s[j - 1];
    }
  }

  lemma {:induction false} DigitsEndFrame(s: string, t: string, i: nat)
    requires i <= |s|
    requires DigitsEnd(s, i) == |s| ==> t == [] || !IsDigit(t[0])
    ensures DigitsEnd(s + t, i) == DigitsEnd(s, i)
    decreases |s| - i
  {
    if i < |s| {
      assert (s + t)[i] == s[i];
      if IsDigit(s[i]) {
        DigitsEndFrame(s, t, i + 1);
      }
    } else if t != [] {
      assert (s + t)[i] == t[0];
    }
  }

  lemma {:induction false} SkipWhitespaceFrame(s: string, t: string, i: nat)
    requires i <= |s|
    requires SkipWhitespace(s, i) < |s|
    ensures SkipWhitespace(s + t, i) == SkipWhitespace(s, i)
    decreases |s| - i
  {
    assert (s + t)[i] == s[i];
    if IsJsWhitespace(s[i]) {
      SkipWhitespaceFrame(s, t, i + 1);
    }
  }

  /** parseInt stops at the first character that is not a digit: text that
      cannot extend the digit run does not change the result. */
  lemma ParseIntIgnoresSuffix(s: string, t: string)
    requires s != [] && IsDigit(s[|s| - 1])
    requires t == [] || !IsDigit(t[0])
    ensures ParseIntPrefix(s + t) == ParseIntPrefix(s)
  {
    var a := SkipWhitespace(s, 0);
    assert a < |s| by {
      assert !IsJsWhitespace(s[|s| - 1]);
    }
    SkipWhitespaceFrame(s, t, 0);
    ParseIntFromFrame(s, t, a);
  }

  lemma ParseIntFromFrame(s: string, t: string, a: nat)
    requires a < |s|
    requires DigitsEnd(s, SignEnd(s, a)) == |s| ==> t == [] || !IsDigit(t[0])
    ensures ParseIntFrom(s + t, a) == ParseIntFrom(s, a)
  {
    var st := s + t;
    assert st[a] == s[a];
    var b := SignEnd(s, a);
    assert SignEnd(st, a) == b;
    var e := DigitsEnd(s, b);
    DigitsEndFrame(s, t, b);
    assert DigitsEnd(st, b) == e;
    if e > b {
      DigitsValueFrame(s, t, b, e);
      var v: int := DigitsValue(s, b, e);
      assert DigitsValue(st, b, e) == v;
      assert ParseIntFrom(st, a) == Some(if s[a] == '-' then -v else v);
    }
  }

  // ------------------------------------------------------------ validateDays

  datatype DaysCheck = DaysCheck(days: int, missing: bool, invalid: bool)

  /** `validateDays`: blank is "missing" with the placeholder 7; "0" is 7 and
      valid; anything parseInt cannot read or that falls outside 1..90 is
      "invalid" with the placeholder 7; otherwise the parsed integer. */
  function ValidateDays(raw: Cell): (r: DaysCheck)
    ensures raw.Blank? <==> r.missing
    ensures r.missing ==> !r.invalid
    ensures r.missing || r.invalid ==> r.days == DEFAULT_DAYS
    ensures raw.Text? && Trim(raw.s) == "0" ==> r == DaysCheck(DEFAULT_DAYS, false, false)
    ensures raw.Text? && Trim(raw.s) != "0" ==>
      var n := ParseIntPrefix(Trim(raw.s));
      && (r.invalid <==> n.None? || n.value < 1 || n.value > MAX_LOOKBACK_DAYS)
      && (!r.invalid ==> r.days == n.value)
    ensures !r.missing && !r.invalid ==> 1 <= r.days <= MAX_LOOKBACK_DAYS
  {
    match raw
    case Blank => DaysCheck(DEFAULT_DAYS, true, false)
    case Text(s) =>
      var t := Trim(s);
      if t == "0" then DaysCheck(DEFAULT_DAYS, false, false)
      else
        match ParseIntPrefix(t)
        case None => DaysCheck(DEFAULT_DAYS, false, true)
        case Some(n) =>
          if n < 1 || n > MAX_LOOKBACK_DAYS then DaysCheck(DEFAULT_DAYS, false, true)
          else DaysCheck(n, false, false)
  }

  /** Blank is missing; "0" is the shorthand for the default; zero written
      any other way is out of range. */
  lemma ValidateDaysZero()
    ensures ValidateDays(Blank) == DaysCheck(7, true, false)
    ensures ValidateDays(Text("0")) == DaysCheck(7, false, false)
    ensures ValidateDays(Text("00")) == DaysCheck(7, false, true)
  {
  }

  /** One day past the 90-day look-back limit is invalid. */
  lemma ValidateDaysAboveLimit()
    ensures ValidateDays(Text("91")) == DaysCheck(7, false, true)
  {
  }

  /** parseInt stops at the first non-digit, so a trailing unit such as
      "30 nap" ("30 days") is read as its number. */
  lemma ParseIntTrailingUnit()
    ensures ParseIntPrefix("30 nap") == Some(30)
  {
  }

  /** A minus sign is read, and the negative result is out of range. */
  lemma ValidateDaysNegative()
    ensures ValidateDays(Text("-5")) == DaysCheck(7, false, true)
  {
  }

  /** Text without a leading digit is NaN, so invalid. */
  lemma ValidateDaysNoDigits()
    ensures ValidateDays(Text("abc")) == DaysCheck(7, false, true)
  {
  }

  // --------------------------------------------- parseNonNegativeNumberField

  datatype NumberField = NumberField(value: real, invalid: bool)

  /** `parseNonNegativeNumberField`: blank is 0 and valid; a value the number
      parser `toNum` rejects (NaN, `None`) or a negative one is invalid (value 0);
      anything else is its parsed value. */
  function ParseNonNegativeNumberField(raw: Cell, toNum: string -> Option<real>): (r: NumberField)
    ensures raw.Blank? ==> r == NumberField(0.0, false)
    ensures raw.Text? ==> (r.invalid <==> toNum(raw.s).None? || toNum(raw.s).value < 0.0)
    ensures raw.Text? && !r.invalid ==> r.value == toNum(raw.s).value
    ensures r.invalid ==> r.value == 0.0
    ensures r.value >= 0.0
  {
    match raw
    case Blank => NumberField(0.0, false)
    case Text(s) =>
      match toNum(s)
      case None => NumberField(0.0, true)
      case Some(n) => if n < 0.0 then NumberField(0.0, true) else NumberField(n, false)
  }

  // ------------------------------------------------------------- parseYesNo

  /** The accepted yes-tokens: igen, true, t, 1, yes, y. */
  predicate IsYesToken(x: string) {
    x == "igen" || x == "true" || x == "t" || x == "1" || x == "yes" || x == "y"
  }

  /** The accepted no-tokens: nem, false, f, 0, no, n. */
  predicate IsNoToken(x: string) {
    x == "nem" || x == "false" || x == "f" || x == "0" || x == "no" || x == "n"
  }

  lemma TokensDisjoint(x: string)
    ensures !(IsYesToken(x) && IsNoToken(x))
  {
    if IsYesToken(x) && |x| == 1 {
      assert x[0] in {'t', '1', 'y'};
    }
    if IsYesToken(x) && |x| == 3 {
      assert x[0] == 'y';
    }
  }

  function LowerChar(c: char): char {
    if 'A' <= c <= 'Z' then (c as int + 32) as char else c
  }

  /** `toLowerCase` restricted to ASCII letters. */
  function AsciiLower(s: string): (r: string)
    ensures |r| == |s|
    ensures forall i :: 0 <= i < |s| ==> r[i] == LowerChar(s[i])
  {
    if s == [] then [] else [LowerChar(s[0])] + AsciiLower(s[1..])
  }

  /** `parseYesNo`: blank gives the default; a trimmed, lower-cased yes-token
      gives true, a no-token false; anything else the default. */
  function ParseYesNo(v: Cell, def: bool): (r: bool)
    ensures v.Blank? ==> r == def
    ensures v.Text? && IsYesToken(AsciiLower(Trim(v.s))) ==> r
    ensures v.Text? && IsNoToken(AsciiLower(Trim(v.s))) ==> !r
    ensures r != def ==> v.Text? && (if r then IsYesToken(AsciiLower(Trim(v.s))) else IsNoToken(AsciiLower(Trim(v.s))))
  {
    match v
    case Blank => def
    case Text(s) =>
      var x := AsciiLower(Trim(s));
      TokensDisjoint(x);
      if IsYesToken(x) then true
      else if IsNoToken(x) then false
      else def
  }

  // ------------------------------------------------------- normalizeId/formatId

  /** `normalizeId`: every character that is not a decimal digit removed. */
  function NormalizeId(x: string): (r: string)
    ensures AllDigits(r)
    ensures |r| <= |x|
  {
    if x == [] then [] else (if IsDigit(x[0]) then [x[0]] else []) + NormalizeId(x[1..])
  }

  /** Text without a digit normalises to nothing: non-digits are dropped, not replaced. */
  lemma {:induction false} NormalizeIdOfNonDigits(x: string)
    requires forall i :: 0 <= i < |x| ==> !IsDigit(x[i])
    ensures NormalizeId(x) == []
  {
    if x != [] {
      NormalizeIdOfNonDigits(x[1..]);
    }
  }

  lemma {:induction false} NormalizeIdConcat(a: string, b: string)
    ensures NormalizeId(a + b) == NormalizeId(a) + NormalizeId(b)
  {
    if a != [] {
      assert (a + b)[1..] == a[1..] + b;
      NormalizeIdConcat(a[1..], b);
    } else {
      assert a + b == b;
    }
  }

  /** A digits-only id is already canonical, so normalising is idempotent. */
  lemma {:induction false} NormalizeIdOfDigits(x: string)
    requires AllDigits(x)
    ensures NormalizeId(x) == x
  {
    if x != [] {
      NormalizeIdOfDigits(x[1..]);
    }
  }

  lemma NormalizeIdIdempotent(x: string)
    ensures NormalizeId(NormalizeId(x)) == NormalizeId(x)
  {
    NormalizeIdOfDigits(NormalizeId(x));
  }

  function Min(a: int, b: int): int {
    if a <= b then a else b
  }

  /** `formatId`: the canonical id as three hyphen-separated groups
      (`substr(0, 3)`, `substr(3, 3)`, `substr(6)`). */
  function FormatId(x: string): (r: string)
    ensures |r| == |NormalizeId(x)| + 2
    ensures r[Min(3, |NormalizeId(x)|)] == '-' && r[Min(6, |NormalizeId(x)|) + 1] == '-'
  {
    var s := NormalizeId(x);
    var a, b := Min(3, |s|), Min(6, |s|);
    s[..a] + "-" + s[a..b] + "-" + s[b..]
  }

  /** Removing the hyphens from a formatted id gives the canonical id back. */
  lemma FormatIdNormalizes(x: string)
    ensures NormalizeId(FormatId(x)) == NormalizeId(x)
  {
    var s := NormalizeId(x);
    var a, b := Min(3, |s|), Min(6, |s|);
    var p, q, w := s[..a], s[a..b], s[b..];
    AllDigitsSlice(s, 0, a);
    AllDigitsSlice(s, a, b);
    AllDigitsSlice(s, b, |s|);
    NormalizeIdOfDigits(p);
    NormalizeIdOfDigits(q);
    NormalizeIdOfDigits(w);
    var u := p + "-" + q;
    NormalizeIdHyphen(p, q);
    assert NormalizeId(u) == p + q;
    NormalizeIdHyphen(u, w);
    assert NormalizeId(u + "-" + w) == p + q + w;
    assert s[..a] + s[a..b] == s[..b];
    assert s[..b] + s[b..] == s;
  }

  lemma AllDigitsSlice(s: string, i: nat, j: nat)
    requires AllDigits(s) && i <= j <= |s|
    ensures AllDigits(s[i..j])
  {
    assert forall k :: 0 <= k < j - i ==> s[i..j][k] == s[i + k];
  }

  /** A hyphen contributes nothing to the canonical id. */
  lemma NormalizeIdHyphen(p: string, q: string)
    ensures NormalizeId(p + "-" + q) == NormalizeId(p) + NormalizeId(q)
  {
    NormalizeIdConcat(p + "-", q);
    NormalizeIdConcat(p, "-");
  }

  // ------------------------------------------------------------ the rule row

  /** The eight configuration columns of one sheet row. */
  datatype RawRow = RawRow(
    id: Cell, customerName: Cell, measurement: Cell, convName: Cell,
    days: Cell, minConv: Cell, minVal: Cell, enabled: Cell)

  /** A validated rule: the canonical account id, the rule's target and window,
      its thresholds, and the flags that turn it into an ERROR row. */
  datatype Rule = Rule(
    accountId: string, customerName: string, measurement: MeasurementType,
    convName: string, days: int, minConv: real, minVal: real, enabled: bool,
    missingDays: bool, invalidDays: bool, invalidThresholds: bool)

  /** One iteration of readConfig's row loop: a row without an id or with an
      unknown measurement type is dropped; every other row becomes a rule whose
      flags record what the validators found. */
  function ParseRuleRow(row: RawRow, toNum: string -> Option<real>): (r: Option<Rule>)
    ensures r.None? <==> row.id.Blank? || NormalizeMeasurementType(Trim(TextOf(row.measurement))).None?
    ensures r.Some? ==>
      && r.value.accountId == NormalizeId(row.id.s)
      && r.value.customerName == TextOf(row.customerName)
      && Label(r.value.measurement) == Trim(TextOf(row.measurement))
      && r.value.convName == Trim(TextOf(row.convName))
      && r.value.enabled == ParseYesNo(row.enabled, true)
      && r.value.missingDays == row.days.Blank?
      && r.value.invalidDays == ValidateDays(row.days).invalid
      && (r.value.missingDays || r.value.invalidDays ==> r.value.days == DEFAULT_DAYS)
      && (!r.value.missingDays && !r.value.invalidDays ==> 1 <= r.value.days <= MAX_LOOKBACK_DAYS)
      && (r.value.invalidThresholds <==>
            ParseNonNegativeNumberField(row.minConv, toNum).invalid || ParseNonNegativeNumberField(row.minVal, toNum).invalid)
      && r.value.days == ValidateDays(row.days).days
      && r.value.minConv == ParseNonNegativeNumberField(row.minConv, toNum).value
      && r.value.minVal == ParseNonNegativeNumberField(row.minVal, toNum).value
      && r.value.minConv >= 0.0 && r.value.minVal >= 0.0
  {
    if row.id.Blank? then None
    else
      match NormalizeMeasurementType(Trim(TextOf(row.measurement)))
      case None => None
      case Some(m) =>
        var daysCheck := ValidateDays(row.days);
        var convField := ParseNonNegativeNumberField(row.minConv, toNum);
        var valField := ParseNonNegativeNumberField(row.minVal, toNum);
        Some(Rule(
          NormalizeId(row.id.s), TextOf(row.customerName), m, Trim(TextOf(row.convName)),
          daysCheck.days, convField.value, valField.value, ParseYesNo(row.enabled, true),
          daysCheck.missing, daysCheck.invalid, convField.invalid || valField.invalid))
  }

  /** The rules readConfig returns: the surviving rows, in sheet order. */
  function RulesOf(rows: seq<RawRow>, toNum: string -> Option<real>): seq<Rule> {
    if rows == [] then []
    else
      var rest := RulesOf(rows[..|rows| - 1], toNum);
      match ParseRuleRow(rows[|rows| - 1], toNum)
      case None => rest
      case Some(r) => rest + [r]
  }

  /** readConfig's loop over the data rows (header handling is sheet I/O). */
  method ReadRules(rows: seq<RawRow>, toNum: string -> Option<real>) returns (rules: seq<Rule>)
    ensures rules == RulesOf(rows, toNum)
  {
    rules := [];
    var i := 0;
    while i < |rows|
      invariant 0 <= i <= |rows|
      invariant rules == RulesOf(rows[..i], toNum)
    {
      assert rows[..i + 1][..i] == rows[..i];
      var parsed := ParseRuleRow(rows[i], toNum);
      if parsed.Some? {
        rules := rules + [parsed.value];
      }
      i := i + 1;
    }
    assert rows[..|rows|] == rows;
  }
}
