/**
 * The few JavaScript string and number conversions the pipeline relies on:
 * `String.prototype.trim`, decimal rendering of a whole number (template
 * literals), `Number(text)` and `parseFloat(text)`, `endsWith` and the
 * first-occurrence `replace`.
 *
 * Numbers are modelled on decimal-digit text only: a cell's value is a
 * whole number, and text JavaScript would read as a fraction, a signed
 * number, an exponent or a hexadecimal literal is outside the model.
 */
module JsText {

  /** JavaScript's WhiteSpace and LineTerminator code points, which `trim` removes. */
  predicate IsSpace(c: char) {
    ('\t' <= c <= '\r') || c == ' ' || c == '\U{00A0}' || c == '\U{1680}'
    || ('\U{2000}' <= c <= '\U{200A}') || c == '\U{2028}' || c == '\U{2029}'
    || c == '\U{202F}' || c == '\U{205F}' || c == '\U{3000}' || c == '\U{FEFF}'
  }

  /** How many whitespace characters `s` starts with. */
  function LeadingSpaces(s: string): (n: nat)
    ensures n <= |s|
    ensures forall k :: 0 <= k < n ==> IsSpace(s[k])
    ensures n == |s| || !IsSpace(s[n])
  {
    if s != [] && IsSpace(s[0]) then 1 + LeadingSpaces(s[1..]) else 0
  }

  /** How many whitespace characters `s` ends with. */
  function TrailingSpaces(s: string): (n: nat)
    ensures n <= |s|
    ensures forall k :: |s| - n <= k < |s| ==> IsSpace(s[k])
    ensures n == |s| || !IsSpace(s[|s| - 1 - n])
  {
    if s != [] && IsSpace(s[|s| - 1]) then 1 + TrailingSpaces(s[..|s| - 1]) else 0
  }

  /** `s.trimStart()` */
  function TrimStart(s: string): string {
    s[LeadingSpaces(s)..]
  }

  /**
   * `s.trim()`: the slice of `s` left once the whitespace at both ends is cut
   * off; it neither starts nor ends with whitespace.
   */
  function Trim(s: string): (t: string)
    ensures exists i, j ::
      && 0 <= i <= j <= |s| && t == s[i..j]
      && (forall k :: 0 <= k < i ==> IsSpace(s[k]))
      && (forall k :: j <= k < |s| ==> IsSpace(s[k]))
    ensures t == [] || (!IsSpace(t[0]) && !IsSpace(t[|t| - 1]))
  {
    var u := TrimStart(s);
    var i := LeadingSpaces(s);
    var j := |s| - TrailingSpaces(u);
    assert u == s[i..];
    assert u[..|u| - TrailingSpaces(u)] == s[i..j];
    u[..|u| - TrailingSpaces(u)]
  }

  /** Trimming twice is trimming once. */
  lemma TrimIdempotent(s: string)
    ensures Trim(Trim(s)) == Trim(s)
  {
    var t := Trim(s);
    assert LeadingSpaces(t) == 0;
    assert TrimStart(t) == t;
    assert TrailingSpaces(t) == 0;
    assert t[..|t|] == t;
  }

  predicate IsDigit(c: char) {
    '0' <= c <= '9'
  }

  predicate AllDigits(s: string) {
    forall k :: 0 <= k < |s| ==> IsDigit(s[k])
  }

  function DigitChar(d: nat): (c: char)
    requires d < 10
    ensures IsDigit(c) && c as int - '0' as int == d
  {
    ('0' as int + d) as char
  }

  /** The value of a string of decimal digits, most significant first. */
  function DigitsValue(s: string): nat
    requires AllDigits(s)
  {
    if s == [] then 0
    else DigitsValue(s[..|s| - 1]) * 10 + (s[|s| - 1] as int - '0' as int)
  }

  /** The decimal text of `n`, as a template literal renders it. */
  function NatToString(n: nat): (s: string)
    ensures s != [] && AllDigits(s)
  {
    if n < 10 then [DigitChar(n)] else NatToString(n / 10) + [DigitChar(n % 10)]
  }

  /** Reading back the decimal text of `n` gives `n`. */
  lemma {:induction false} DigitsValueNatToString(n: nat)
    ensures DigitsValue(NatToString(n)) == n
  {
    var s := NatToString(n);
    if n >= 10 {
      DigitsValueNatToString(n / 10);
      assert s[..|s| - 1] == NatToString(n / 10);
    } else {
      assert s[..|s| - 1] == [];
    }
  }

  /** The result of a JavaScript numeric conversion: a value or NaN. */
  datatype JsNumber = NaN | Num(value: nat)

  /**
   * `Number(s)`: the trimmed text is the number it spells; empty (or all
   * whitespace) text is 0; any other text is NaN.
   */
  function ToNumber(s: string): (r: JsNumber)
    ensures Trim(s) == [] ==> r == Num(0)
    ensures Trim(s) != [] && AllDigits(Trim(s)) ==> r == Num(DigitsValue(Trim(s)))
    ensures r.NaN? <==> Trim(s) != [] && !AllDigits(Trim(s))
  {
    var t := Trim(s);
    if t == [] then Num(0) else if AllDigits(t) then Num(DigitsValue(t)) else NaN
  }

  /** How many decimal digits `s` starts with. */
  function DigitPrefix(s: string): (n: nat)
    ensures n <= |s| && AllDigits(s[..n])
    ensures n == |s| || !IsDigit(s[n])
  {
    if s != [] && IsDigit(s[0]) then
      var m := DigitPrefix(s[1..]);
      assert s[..1 + m] == [s[0]] + s[1..][..m];
      1 + m
    else 0
  }

  /**
   * `parseFloat(s)`: leading whitespace is skipped and the longest run of
   * digits that follows is read; with no digit there, the result is NaN.
   */
  function ParseFloat(s: string): (r: JsNumber)
    ensures var t := TrimStart(s); var n := DigitPrefix(t);
      && (n == 0 <==> r.NaN?)
      && (n > 0 ==> r == Num(DigitsValue(t[..n])))
  {
    var t := TrimStart(s);
    var n := DigitPrefix(t);
    if n == 0 then NaN else Num(DigitsValue(t[..n]))
  }

  /** `x || 0` applied to a converted number: NaN (and 0) become 0. */
  function OrZero(x: JsNumber): (v: nat)
    ensures x.NaN? ==> v == 0
    ensures x.Num? ==> v == x.value
  {
    match x
    case NaN => 0
    case Num(v) => v
  }

  /** `s.endsWith(suffix)` */
  predicate EndsWith(s: string, suffix: string) {
    |suffix| <= |s| && s[|s| - |suffix|..] == suffix
  }

  /** The position of the first `c` in `s`, or `|s|` when there is none. */
  function FirstIndex(s: string, c: char): (i: nat)
    ensures i <= |s| && c !in s[..i]
    ensures i < |s| ==> s[i] == c
    ensures i == |s| <==> c !in s
  {
    if s == [] then 0
    else if s[0] == c then 0
    else
      var i := 1 + FirstIndex(s[1..], c);
      assert s[..i] == [s[0]] + s[1..][..i - 1];
      i
  }

  /** The first `c` of `x + [c] + y` is the one after `x` when `x` holds none. */
  lemma {:induction false} FirstIndexAfter(x: string, c: char, y: string)
    requires c !in x
    ensures FirstIndex(x + [c] + y, c) == |x|
  {
    if x != [] {
      FirstIndexAfter(x[1..], c, y);
      assert (x + [c] + y)[1..] == x[1..] + [c] + y;
    }
  }

  /**
   * `s.replace(c, '')` with a one-character pattern: the first occurrence of
   * `c` is removed and the rest is kept in order.
   */
  function RemoveFirst(s: string, c: char): string {
    var i := FirstIndex(s, c);
    if i < |s| then s[..i] + s[i + 1..] else s
  }
}
