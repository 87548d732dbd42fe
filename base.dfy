/** Value types shared by every component: an optional value, plain JavaScript
    objects used as dictionaries, and the string helpers the script relies on. */
module Base {

  datatype Option<T> = None | Some(value: T)

  /** No element occurs twice. */
  predicate Distinct(s: seq<string>) {
    forall i, j :: 0 <= i < j < |s| ==> s[i] != s[j]
  }

  /** A plain object used as a dictionary: its own keys in insertion order
      (the order `for..in` and `Object.keys` visit them) and the value under each. */
  datatype Dict<V> = Dict(keys: seq<string>, at: map<string, V>) {
    ghost predicate Valid() {
      && (forall i, j :: 0 <= i < j < |keys| ==> keys[i] != keys[j])
      && (forall k :: k in at <==> k in keys)
    }
  }

  function EmptyDict<V>(): (d: Dict<V>)
    ensures d.Valid() && d.keys == [] && d.at == map[]
  {
    Dict([], map[])
  }

  /** `o[k] = v`: an existing key keeps its place, a new key is appended. */
  function Put<V>(d: Dict<V>, k: string, v: V): (r: Dict<V>)
    requires d.Valid()
    ensures r.Valid()
    ensures k in r.at && r.at[k] == v
    ensures forall k' :: k' != k ==> (k' in r.at <==> k' in d.at)
    ensures forall k' :: k' != k && k' in d.at ==> r.at[k'] == d.at[k']
    ensures k in d.at ==> r.keys == d.keys
    ensures k !in d.at ==> r.keys == d.keys + [k]
  {
    Dict(if k in d.at then d.keys else d.keys + [k], d.at[k := v])
  }

  /** The characters `String.prototype.trim` removes: WhiteSpace and LineTerminator
      of ECMAScript (section 12.2 and 12.3 of ECMA-262). */
  predicate IsJsWhitespace(c: char) {
    var n := c as int;
    n == 0x09 || n == 0x0A || n == 0x0B || n == 0x0C || n == 0x0D || n == 0x20 ||
    n == 0xA0 || n == 0x1680 || (0x2000 <= n <= 0x200A) || n == 0x2028 ||
    n == 0x2029 || n == 0x202F || n == 0x205F || n == 0x3000 || n == 0xFEFF
  }

  /** The first index at or after `i` that does not hold whitespace. */
  function SkipWhitespace(s: string, i: nat): (k: nat)
    requires i <= |s|
    ensures i <= k <= |s|
    ensures forall j :: i <= j < k ==> IsJsWhitespace(s[j])
    ensures k < |s| ==> !IsJsWhitespace(s[k])
    decreases |s| - i
  {
    if i < |s| && IsJsWhitespace(s[i]) then SkipWhitespace(s, i + 1) else i
  }

  /** The smallest `k` in `lo..j` such that `s[k..j]` is all whitespace. */
  function BackWhitespace(s: string, lo: nat, j: nat): (k: nat)
    requires lo <= j <= |s|
    ensures lo <= k <= j
    ensures forall m :: k <= m < j ==> IsJsWhitespace(s[m])
    ensures k > lo ==> !IsJsWhitespace(s[k - 1])
    decreases j
  {
    if j > lo && IsJsWhitespace(s[j - 1]) then BackWhitespace(s, lo, j - 1) else j
  }

  /** Leading whitespace removed (what parseInt skips). */
  function TrimStart(s: string): (r: string)
    ensures |r| <= |s| && r == s[|s| - |r|..]
    ensures forall i :: 0 <= i < |s| - |r| ==> IsJsWhitespace(s[i])
    ensures r != [] ==> !IsJsWhitespace(r[0])
  {
    s[SkipWhitespace(s, 0)..]
  }

  /** `String.prototype.trim`: the longest substring that neither starts nor ends
      in whitespace, after a whitespace-only prefix. */
  function Trim(s: string): (r: string)
    ensures |r| <= |s| && SkipWhitespace(s, 0) + |r| <= |s|
    ensures r == s[SkipWhitespace(s, 0)..SkipWhitespace(s, 0) + |r|]
    ensures forall i :: SkipWhitespace(s, 0) + |r| <= i < |s| ==> IsJsWhitespace(s[i])
    ensures r != [] ==> !IsJsWhitespace(r[0]) && !IsJsWhitespace(r[|r| - 1])
    ensures (forall i :: 0 <= i < |s| ==> IsJsWhitespace(s[i])) <==> r == []
  {
    var a := SkipWhitespace(s, 0);
    s[a..BackWhitespace(s, a, |s|)]
  }

  /** A string that neither starts nor ends in whitespace is its own trim. */
  lemma TrimClean(s: string)
    requires s != [] && !IsJsWhitespace(s[0]) && !IsJsWhitespace(s[|s| - 1])
    ensures Trim(s) == s
  {
    assert SkipWhitespace(s, 0) == 0;
    assert BackWhitespace(s, 0, |s|) == |s|;
  }

  /** One space on either side of a clean string is trimmed away. */
  lemma TrimSurroundingSpace(s: string)
    requires s != [] && !IsJsWhitespace(s[0]) && !IsJsWhitespace(s[|s| - 1])
    ensures Trim(" " + s + " ") == s
  {
    var p := " " + s + " ";
    assert p[1] == s[0] && p[|p| - 2] == s[|s| - 1];
    assert SkipWhitespace(p, 0) == 1;
    assert BackWhitespace(p, 1, |p|) == |p| - 1;
    assert p[1..|p| - 1] == s;
  }

  predicate IsDigit(c: char) {
    '0' <= c <= '9'
  }

  function DigitValue(c: char): (n: nat)
    requires IsDigit(c)
    ensures n < 10
  {
    (c as int) - ('0' as int)
  }
}
