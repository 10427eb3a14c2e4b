/**
 The global `parseInt(string)` with no radix argument, as the product filter
 applies it to a product's `data-price` attribute: skip leading white space,
 read an optional sign, switch to base 16 after a `0x`/`0X` prefix, then take
 the longest run of digits of that base. No digit at all gives NaN, modelled
 as `None`.
 */
module JsParseInt {
  import opened Wrappers

  /** The white-space and line-terminator characters the ECMAScript grammar strips before a number. */
  predicate IsWhiteSpace(c: char) {
    c == '\t' || c == '\n' || c == '\U{B}' || c == '\U{C}' || c == '\r' || c == ' '
    || c == '\U{A0}' || c == '\U{1680}' || ('\U{2000}' <= c <= '\U{200A}')
    || c == '\U{2028}' || c == '\U{2029}' || c == '\U{202F}' || c == '\U{205F}'
    || c == '\U{3000}' || c == '\U{FEFF}'
  }

  /** Value of `c` as a digit of base `radix`, or -1 when it is not one. */
  function DigitValue(c: char, radix: nat): (d: int)
    requires radix == 10 || radix == 16
    ensures -1 <= d < radix
  {
    if '0' <= c <= '9' then (if (c as int - '0' as int) < radix then c as int - '0' as int else -1)
    else if radix == 16 && 'a' <= c <= 'f' then c as int - 'a' as int + 10
    else if radix == 16 && 'A' <= c <= 'F' then c as int - 'A' as int + 10
    else -1
  }

  predicate IsDigit(c: char, radix: nat)
    requires radix == 10 || radix == 16
  {
    DigitValue(c, radix) >= 0
  }

  /** Drops leading white space. */
  function TrimStart(s: string): (r: string)
    ensures |r| <= |s| && r == s[|s| - |r|..]
    ensures |r| > 0 ==> !IsWhiteSpace(r[0])
    ensures forall i :: 0 <= i < |s| - |r| ==> IsWhiteSpace(s[i])
  {
    if |s| > 0 && IsWhiteSpace(s[0]) then TrimStart(s[1..]) else s
  }

  /** Length of the longest prefix of `s` made of digits of base `radix`. */
  function DigitRun(s: string, radix: nat): (n: nat)
    requires radix == 10 || radix == 16
    ensures n <= |s|
    ensures forall i :: 0 <= i < n ==> IsDigit(s[i], radix)
    ensures n < |s| ==> !IsDigit(s[n], radix)
  {
    if |s| > 0 && IsDigit(s[0], radix) then 1 + DigitRun(s[1..], radix) else 0
  }

  /** Positional value of a run of digits, most significant first. */
  function Value(ds: string, radix: nat): (v: nat)
    requires radix == 10 || radix == 16
    requires forall i :: 0 <= i < |ds| ==> IsDigit(ds[i], radix)
  {
    if |ds| == 0 then 0
    else
      assert IsDigit(ds[|ds| - 1], radix);
      Value(ds[..|ds| - 1], radix) * radix + DigitValue(ds[|ds| - 1], radix)
  }

  predicate HasHexPrefix(s: string) {
    |s| >= 2 && s[0] == '0' && (s[1] == 'x' || s[1] == 'X')
  }

  /** Parses the unsigned part: an optional hex prefix and then digits. */
  function ParseMagnitude(s: string): (r: Option<nat>)
    ensures r.None? <==> (if HasHexPrefix(s) then DigitRun(s[2..], 16) == 0 else DigitRun(s, 10) == 0)
  {
    var radix: nat := if HasHexPrefix(s) then 16 else 10;
    var body := if HasHexPrefix(s) then s[2..] else s;
    var n := DigitRun(body, radix);
    if n == 0 then None else Some(Value(body[..n], radix))
  }

  /** `parseInt(s)`; `None` is NaN. */
  function ParseInt(s: string): (r: Option<int>)
    ensures |TrimStart(s)| == 0 ==> r.None?
    ensures var t := TrimStart(s);
      |t| > 0 && t[0] != '-' && t[0] != '+' && !IsDigit(t[0], 10) ==> r.None?
    ensures r.Some? && r.value < 0 ==> TrimStart(s)[0] == '-'
  {
    var t := TrimStart(s);
    if |t| > 0 && (t[0] == '-' || t[0] == '+') then
      match ParseMagnitude(t[1..])
      case None => None
      case Some(m) => Some(if t[0] == '-' then -(m as int) else m as int)
    else
      match ParseMagnitude(t)
      case None => None
      case Some(m) => Some(m as int)
  }

  /** Reading `element.dataset.price`: a missing attribute is `undefined`, which `parseInt` reads as the text "undefined". */
  function ParsePriceAttribute(attr: Option<string>): (r: Option<int>)
    ensures attr.None? ==> r.None?
    ensures attr.Some? ==> r == ParseInt(attr.value)
  {
    match attr
    case None =>
      TrimStartNoop("undefined");
      ParseInt("undefined")
    case Some(s) => ParseInt(s)
  }

  // ---------------------------------------------------------------------
  // Decimal formatting, the partner of ParseInt.

  function DigitChar(d: nat): (c: char)
    requires d < 10
    ensures IsDigit(c, 10) && DigitValue(c, 10) == d
  {
    ('0' as int + d) as char
  }

  /** Decimal digits of `n`, without leading zeros. */
  function NatToString(n: nat): (s: string)
    ensures |s| > 0
    ensures forall i :: 0 <= i < |s| ==> IsDigit(s[i], 10)
    ensures Value(s, 10) == n
    ensures |s| > 1 ==> s[0] != '0'
  {
    if n < 10 then [DigitChar(n)]
    else
      var p := NatToString(n / 10);
      var s := p + [DigitChar(n % 10)];
      assert s[..|s| - 1] == p;
      s
  }

  /** How `String(n)` writes an integer (below 10^21, where JavaScript switches to exponent form). */
  function IntToString(n: int): (s: string)
    ensures |s| > 0
  {
    if n < 0 then "-" + NatToString(-n) else NatToString(n)
  }

  /** A string that starts with something other than white space is not trimmed. */
  lemma TrimStartNoop(s: string)
    requires |s| > 0 && !IsWhiteSpace(s[0])
    ensures TrimStart(s) == s
  {
  }

  /** A string made only of decimal digits, with no hex prefix, reads as its positional value. */
  lemma {:induction false} ParseDecimalDigits(d: string)
    requires |d| > 0 && !HasHexPrefix(d)
    requires forall i :: 0 <= i < |d| ==> IsDigit(d[i], 10)
    ensures ParseMagnitude(d) == Some(Value(d, 10))
  {
    DigitRunAll(d, 10);
    assert d[..|d|] == d;
  }

  /** Every integer written in decimal is read back unchanged. */
  lemma {:induction false} ParseIntOfIntToString(n: int)
    ensures ParseInt(IntToString(n)) == Some(n)
  {
    var s := IntToString(n);
    var digits := if n < 0 then NatToString(-n) else NatToString(n);
    assert IsDigit(digits[0], 10);
    assert !HasHexPrefix(digits);
    ParseDecimalDigits(digits);
    if n < 0 {
      assert s[0] == '-' && s[1..] == digits;
      TrimStartNoop(s);
    } else {
      assert s == digits;
      TrimStartNoop(s);
    }
  }

  /** A string made only of digits is a single digit run. */
  lemma {:induction false} DigitRunAll(s: string, radix: nat)
    requires radix == 10 || radix == 16
    requires forall i :: 0 <= i < |s| ==> IsDigit(s[i], radix)
    ensures DigitRun(s, radix) == |s|
    decreases |s|
  {
    if |s| > 0 {
      DigitRunAll(s[1..], radix);
    }
  }

  /**
   Trailing text that does not start with a digit is ignored: "150000 SAR"
   reads as 150000. After a lone "0" an `x` or `X` is excluded, because
   "0x…" switches to base 16.
   */
  lemma TrailingTextIgnored(n: nat, suffix: string)
    requires |suffix| > 0 && !IsDigit(suffix[0], 10)
    requires n == 0 ==> suffix[0] != 'x' && suffix[0] != 'X'
    ensures ParseInt(NatToString(n) + suffix) == Some(n)
  {
    var d := NatToString(n);
    var s := d + suffix;
    assert IsDigit(s[0], 10);
    TrimStartNoop(s);
    assert !HasHexPrefix(s) by {
      if |d| == 1 {
        assert s[1] == suffix[0];
        LeadingZeroOnlyForZero(n);
      }
    }
    DigitRunPrefix(d, suffix);
    assert s[..|d|] == d;
  }

  /** Only zero is written with a leading "0". */
  lemma LeadingZeroOnlyForZero(n: nat)
    ensures NatToString(n)[0] == '0' ==> n == 0
  {
    if n < 10 {
      assert NatToString(n) == [DigitChar(n)];
    }
  }

  lemma {:induction false} DigitRunPrefix(d: string, suffix: string)
    requires forall i :: 0 <= i < |d| ==> IsDigit(d[i], 10)
    requires |suffix| > 0 && !IsDigit(suffix[0], 10)
    ensures DigitRun(d + suffix, 10) == |d|
    decreases |d|
  {
    if |d| > 0 {
      assert (d + suffix)[1..] == d[1..] + suffix;
      DigitRunPrefix(d[1..], suffix);
    } else {
      assert d + suffix == suffix;
    }
  }

  /** Text that starts (after white space and sign) with neither a digit nor "0x" is NaN. */
  lemma NoLeadingDigitIsNaN(s: string)
    requires |s| > 0 && !IsWhiteSpace(s[0]) && s[0] != '-' && s[0] != '+' && !IsDigit(s[0], 10)
    ensures ParseInt(s) == None
  {
    TrimStartNoop(s);
  }

  /** An absent `data-price` attribute reads as NaN. */
  lemma AbsentPriceIsNaN()
    ensures ParsePriceAttribute(None) == None
  {
    NoLeadingDigitIsNaN("undefined");
  }
}
