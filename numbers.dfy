/**
 * JavaScript's `parseInt(s)` (no radix) and `parseFloat(s)` on the prefixes
 * the model needs. `NaN` is `None`. Exponents and `Infinity` are not parsed
 * by `ParseFloat`.
 */
module Numbers {
  import opened Wrappers
  import opened Text

  function DigitValue(c: char): nat
    requires IsDigit(c)
  {
    c as int - '0' as int
  }

  predicate IsHexDigit(c: char) {
    IsDigit(c) || ('a' <= c <= 'f') || ('A' <= c <= 'F')
  }

  function HexDigitValue(c: char): nat
    requires IsHexDigit(c)
  {
    if IsDigit(c) then DigitValue(c)
    else if 'a' <= c <= 'f' then c as int - 'a' as int + 10
    else c as int - 'A' as int + 10
  }

  predicate AllDigits(s: string) {
    forall i :: 0 <= i < |s| ==> IsDigit(s[i])
  }

  /** The longest prefix of decimal digits. */
  function DigitsPrefix(s: string): (d: string)
    ensures StartsWith(s, d) && AllDigits(d)
    ensures |d| == |s| || !IsDigit(s[|d|])
  {
    if s != [] && IsDigit(s[0]) then [s[0]] + DigitsPrefix(s[1..]) else []
  }

  /** The longest prefix of hexadecimal digits. */
  function HexPrefix(s: string): (d: string)
    ensures StartsWith(s, d)
    ensures forall i :: 0 <= i < |d| ==> IsHexDigit(d[i])
    ensures |d| == |s| || !IsHexDigit(s[|d|])
  {
    if s != [] && IsHexDigit(s[0]) then [s[0]] + HexPrefix(s[1..]) else []
  }

  /** The number a string of decimal digits denotes, most significant first. */
  function DigitsValue(d: string): nat
    requires AllDigits(d)
    decreases |d|
  {
    if d == [] then 0 else 10 * DigitsValue(d[..|d| - 1]) + DigitValue(d[|d| - 1])
  }

  function HexValue(d: string): nat
    requires forall i :: 0 <= i < |d| ==> IsHexDigit(d[i])
    decreases |d|
  {
    if d == [] then 0 else 16 * HexValue(d[..|d| - 1]) + HexDigitValue(d[|d| - 1])
  }

  function Pow10(n: nat): (p: nat)
    ensures p >= 1
  {
    if n == 0 then 1 else 10 * Pow10(n - 1)
  }

  /** Removes one leading sign, returning -1 for a minus and 1 otherwise. */
  function SplitSign(s: string): (int, string) {
    if s != [] && s[0] == '-' then (-1, s[1..])
    else if s != [] && s[0] == '+' then (1, s[1..])
    else (1, s)
  }

  /**
   * `parseInt(s)`: leading whitespace and one sign are skipped, a `0x`/`0X`
   * prefix selects base 16, and the longest run of digits is read; no digits
   * gives `NaN`.
   */
  function ParseInt(s: string): Option<int> {
    var (sign, body) := SplitSign(TrimStart(s));
    if StartsWith(body, "0x") || StartsWith(body, "0X") then
      var h := HexPrefix(body[2..]);
      if h == [] then None else Some(sign * HexValue(h))
    else
      var d := DigitsPrefix(body);
      if d == [] then None else Some(sign * DigitsValue(d))
  }

  /**
   * `parseFloat(s)`: leading whitespace and one sign are skipped, then the
   * longest prefix of the form `digits [ . digits ]` or `. digits` is read.
   */
  function ParseFloat(s: string): Option<real> {
    var (sign, body) := SplitSign(TrimStart(s));
    var whole := DigitsPrefix(body);
    var rest := body[|whole|..];
    var frac := if rest != [] && rest[0] == '.' then DigitsPrefix(rest[1..]) else [];
    if whole == [] && frac == [] then None
    else Some(sign as real * (DigitsValue(whole) as real + DigitsValue(frac) as real / Pow10(|frac|) as real))
  }

  /** `n.toString()` for a natural number. */
  function DecimalString(n: nat): (s: string)
    ensures s != [] && AllDigits(s)
    decreases n
  {
    if n < 10 then [('0' as int + n) as char]
    else DecimalString(n / 10) + [('0' as int + n % 10) as char]
  }

  lemma {:induction false} DecimalStringValue(n: nat)
    ensures DigitsValue(DecimalString(n)) == n
    decreases n
  {
    var s := DecimalString(n);
    if n >= 10 {
      DecimalStringValue(n / 10);
      assert s[..|s| - 1] == DecimalString(n / 10);
    }
  }

  lemma {:induction false} DigitsPrefixOfDigits(s: string)
    requires AllDigits(s)
    ensures DigitsPrefix(s) == s
    decreases |s|
  {
    if s != [] {
      DigitsPrefixOfDigits(s[1..]);
    }
  }

  /** A digit string that does not start with `0x` is read back as its value. */
  lemma ParseIntOfDigits(s: string)
    requires s != [] && AllDigits(s)
    ensures ParseInt(s) == Some(DigitsValue(s))
  {
    DigitsPrefixOfDigits(s);
    assert !IsJsWhitespace(s[0]);
    assert TrimStart(s) == s;
    assert SplitSign(s) == (1, s);
    DigitsAreNotHex(s);
  }

  /** A digit string never carries the `0x` prefix. */
  lemma DigitsAreNotHex(s: string)
    requires AllDigits(s)
    ensures !StartsWith(s, "0x") && !StartsWith(s, "0X")
  {
    if |s| >= 2 {
      assert s[..2][1] == s[1];
      assert IsDigit(s[1]);
    }
  }

  /** `parseInt(String(n)) === n` for every natural number. */
  lemma ParseIntRoundTrip(n: nat)
    ensures ParseInt(DecimalString(n)) == Some(n)
  {
    ParseIntOfDigits(DecimalString(n));
    DecimalStringValue(n);
  }

  /** `parseFloat(String(n)) === n` for every natural number. */
  lemma ParseFloatRoundTrip(n: nat)
    ensures ParseFloat(DecimalString(n)) == Some(n as real)
  {
    ParseFloatOfDigits(DecimalString(n));
    DecimalStringValue(n);
  }

  /** A digit string with no point is read by `parseFloat` as its value. */
  lemma ParseFloatOfDigits(s: string)
    requires s != [] && AllDigits(s)
    ensures ParseFloat(s) == Some(DigitsValue(s) as real)
  {
    DigitsPrefixOfDigits(s);
    assert !IsJsWhitespace(s[0]);
    assert TrimStart(s) == s;
    assert SplitSign(s) == (1, s);
    assert s[|s|..] == [];
  }

  /** `parseInt` is `NaN` exactly when no digit follows the optional sign (decimal case). */
  lemma ParseIntNaNIff(s: string)
    requires var body := SplitSign(TrimStart(s)).1; !StartsWith(body, "0x") && !StartsWith(body, "0X")
    ensures ParseInt(s).None? <==> var body := SplitSign(TrimStart(s)).1; body == [] || !IsDigit(body[0])
  {
  }

  /**
   * `Number(s)` on the strings a form field holds: surrounding whitespace is
   * ignored, a blank string is 0, and otherwise one optional sign and decimal
   * digits make a number; anything else is `NaN` (`None`).
   */
  function ToNumber(s: string): (r: Option<int>)
    ensures Trim(s) == [] ==> r == Some(0)
    ensures r.Some? && Trim(s) != [] ==> IsDigit(Trim(s)[|Trim(s)| - 1])
  {
    var t := Trim(s);
    if t == [] then Some(0)
    else
      var (sign, body) := SplitSign(t);
      if body != [] && AllDigits(body) then
        assert body == t[|t| - |body|..];
        assert body[|body| - 1] == t[|t| - 1];
        Some(sign * DigitsValue(body))
      else None
  }

  /** `Number(String(n)) === n` for every natural number. */
  lemma ToNumberRoundTrip(n: nat)
    ensures ToNumber(DecimalString(n)) == Some(n)
  {
    var s := DecimalString(n);
    TrimNoWhitespace(s);
    assert !IsJsWhitespace(s[0]);
    assert SplitSign(s) == (1, s);
    DecimalStringValue(n);
  }
}
