/**
 * The JavaScript string primitives the core relies on, restricted to what the
 * model needs: ASCII `toLowerCase`, `trim` (as a blankness test), `startsWith` and `parseInt` with no radix.
 */
module Text {
  import opened Wrappers

  /** ASCII lowercasing of one character; every other character is kept. */
  function LowerChar(c: char): (d: char)
    ensures 'A' <= c <= 'Z' ==> d as int == c as int + 32
    ensures !('A' <= c <= 'Z') ==> d == c
  {
    if 'A' <= c <= 'Z' then (c as int + 32) as char else c
  }

  /** `s.toLowerCase()` over ASCII. */
  function Lower(s: string): (r: string)
    ensures |r| == |s|
    ensures forall i :: 0 <= i < |s| ==> r[i] == LowerChar(s[i])
  {
    seq(|s|, i requires 0 <= i < |s| => LowerChar(s[i]))
  }

  /** `Lower` distributes over concatenation. */
  lemma LowerAppend(a: string, b: string)
    ensures Lower(a + b) == Lower(a) + Lower(b)
  {
    assert forall i :: 0 <= i < |a + b| ==> Lower(a + b)[i] == (Lower(a) + Lower(b))[i];
  }

  /** Lowercasing twice is lowercasing once. */
  lemma LowerIdempotent(s: string)
    ensures Lower(Lower(s)) == Lower(s)
  {
    assert forall i :: 0 <= i < |s| ==> Lower(Lower(s))[i] == Lower(s)[i];
  }

  /** The characters ECMAScript's `trim` removes (WhiteSpace and LineTerminator). */
  predicate IsJsSpace(c: char) {
    c == '\t' || c == '\n' || c == '\U{000B}' || c == '\U{000C}' || c == '\r' || c == ' '
    || c == '\U{00A0}' || c == '\U{1680}' || ('\U{2000}' <= c <= '\U{200A}')
    || c == '\U{2028}' || c == '\U{2029}' || c == '\U{202F}' || c == '\U{205F}'
    || c == '\U{3000}' || c == '\U{FEFF}'
  }

  /** Every character of `s` is white space. */
  predicate IsBlank(s: string) {
    forall i :: 0 <= i < |s| ==> IsJsSpace(s[i])
  }

  function TrimStart(s: string): (r: string)
    ensures |r| <= |s| && r == s[|s| - |r|..]
    ensures r == [] || !IsJsSpace(r[0])
    ensures IsBlank(s[..|s| - |r|])
  {
    if s != [] && IsJsSpace(s[0]) then
      var r := TrimStart(s[1..]);
      assert s[1..][..|s| - 1 - |r|] == s[1..|s| - |r|];
      r
    else s
  }

  function TrimEnd(s: string): (r: string)
    ensures |r| <= |s| && r == s[..|r|]
    ensures r == [] || !IsJsSpace(r[|r| - 1])
    ensures IsBlank(s[|r|..])
  {
    if s != [] && IsJsSpace(s[|s| - 1]) then
      var r := TrimEnd(s[..|s| - 1]);
      assert s[..|s| - 1][|r|..] == s[|r|..|s| - 1];
      r
    else s
  }

  /** `s.trim()`. */
  function Trim(s: string): string {
    TrimEnd(TrimStart(s))
  }

  /** `s.trim()` is falsy (empty) exactly when `s` consists of white space only. */
  lemma TrimEmptyIffBlank(s: string)
    ensures Trim(s) == "" <==> IsBlank(s)
  {
    var a := TrimStart(s);
    var k := |s| - |a|;
    assert a == s[k..];
    assert IsBlank(s[..k]);
    assert a != [] ==> a[0] == s[k];
    if IsBlank(s) {
      assert a == [];
    }
    if Trim(s) == "" {
      assert TrimEnd(a) == [];
      assert a[0..] == a;
      assert a == [];
      assert s == s[..k];
    }
  }

  /** `s.startsWith(p)`. */
  predicate StartsWith(s: string, p: string) {
    p <= s
  }

  /** Decimal or hexadecimal digit value, or -1. */
  function DigitValue(c: char, radix: nat): (v: int)
    ensures -1 <= v < radix
    ensures radix == 10 ==> (v >= 0 <==> '0' <= c <= '9')
  {
    if '0' <= c <= '9' && (c as int - '0' as int) < radix then c as int - '0' as int
    else if radix == 16 && 'a' <= c <= 'f' then c as int - 'a' as int + 10
    else if radix == 16 && 'A' <= c <= 'F' then c as int - 'A' as int + 10
    else -1
  }

  /** The longest prefix of `s` made of digits of the radix. */
  function DigitPrefix(s: string, radix: nat): (r: string)
    ensures r <= s
    ensures forall i :: 0 <= i < |r| ==> DigitValue(r[i], radix) >= 0
    ensures |r| < |s| ==> DigitValue(s[|r|], radix) < 0
  {
    if s != [] && DigitValue(s[0], radix) >= 0 then [s[0]] + DigitPrefix(s[1..], radix) else ""
  }

  /** The value of a digit string, most significant digit first. */
  function DigitsValue(ds: string, radix: nat): nat
    requires forall i :: 0 <= i < |ds| ==> DigitValue(ds[i], radix) >= 0
  {
    if ds == [] then 0
    else DigitsValue(ds[..|ds| - 1], radix) * radix + DigitValue(ds[|ds| - 1], radix)
  }

  function SkipSpace(s: string): (r: string)
    ensures r == TrimStart(s)
  {
    if s != [] && IsJsSpace(s[0]) then SkipSpace(s[1..]) else s
  }

  /** The value of the longest digit prefix of `u`, or `None` when there is none. */
  function ParseDigits(u: string, radix: nat): Option<nat> {
    var ds := DigitPrefix(u, radix);
    if ds == [] then None else Some(DigitsValue(ds, radix))
  }

  /** Digits after the sign: a `0x` or `0X` prefix means hexadecimal. */
  function ParseUnsigned(u: string): Option<nat> {
    if |u| >= 2 && u[0] == '0' && (u[1] == 'x' || u[1] == 'X') then ParseDigits(u[2..], 16)
    else ParseDigits(u, 10)
  }

  /**
   * `parseInt(s)` with no radix: leading white space, an optional sign, a
   * `0x` prefix meaning hexadecimal, then the longest run of digits; `None`
   * stands for `NaN` (no digit at all).
   */
  function ParseInt(s: string): Option<int> {
    var t := SkipSpace(s);
    if t != [] && t[0] == '-' then Negated(ParseUnsigned(t[1..]))
    else if t != [] && t[0] == '+' then ParseUnsigned(t[1..])
    else ParseUnsigned(t)
  }

  function Negated(o: Option<nat>): Option<int> {
    if o.Some? then Some(-(o.value as int)) else None
  }

  /** The decimal rendering of a natural number (what `String(n)` gives). */
  function DecimalString(n: nat): (r: string)
    ensures r != []
    ensures forall i :: 0 <= i < |r| ==> '0' <= r[i] <= '9'
  {
    if n < 10 then [('0' as int + n) as char]
    else DecimalString(n / 10) + [('0' as int + n % 10) as char]
  }

  /** The digits of a decimal rendering are read back as the same number. */
  lemma {:induction false} DecimalValue(n: nat)
    ensures DigitsValue(DecimalString(n), 10) == n
    decreases n
  {
    var r := DecimalString(n);
    if n >= 10 {
      DecimalValue(n / 10);
      assert r[..|r| - 1] == DecimalString(n / 10);
    }
  }

  /** A string of digits is its own longest digit prefix. */
  lemma {:induction false} AllDigitsPrefix(s: string)
    requires forall i :: 0 <= i < |s| ==> '0' <= s[i] <= '9'
    ensures DigitPrefix(s, 10) == s
    decreases |s|
  {
    if s != [] {
      AllDigitsPrefix(s[1..]);
    }
  }

  /** A non-empty string of decimal digits parses as its value. */
  lemma {:induction false} ParseUnsignedDecimal(r: string)
    requires r != []
    requires forall i :: 0 <= i < |r| ==> '0' <= r[i] <= '9'
    ensures ParseUnsigned(r) == Some(DigitsValue(r, 10))
  {
    AllDigitsPrefix(r);
  }

  /** Without leading space or sign, `parseInt` is the unsigned parse. */
  lemma ParseIntUnsigned(r: string)
    requires r != [] && '0' <= r[0] <= '9'
    ensures ParseInt(r) == ParseUnsigned(r)
  {
    assert !IsJsSpace(r[0]);
    assert SkipSpace(r) == r;
    assert r[0] != '-' && r[0] != '+';
  }

  /** `parseInt(String(n)) === n` for every natural number `n`. */
  lemma ParseIntDecimal(n: nat)
    ensures ParseInt(DecimalString(n)) == Some(n)
  {
    var r := DecimalString(n);
    DecimalValue(n);
    ParseUnsignedDecimal(r);
    ParseIntUnsigned(r);
  }
}
