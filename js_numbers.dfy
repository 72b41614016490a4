/**
 * JavaScript's `parseInt` with no radix argument, and the decimal text a
 * non-negative integer becomes inside a template literal.
 */
module JsNumbers {
  import opened Common

  /** The characters `parseInt` skips before the number (JavaScript's WhiteSpace and LineTerminator). */
  predicate IsWhiteSpace(c: char)
  {
    c == '\t' || c == '\n' || c == '\U{B}' || c == '\U{C}' || c == '\r' || c == ' '
    || c == '\U{A0}' || c == '\U{1680}' || ('\U{2000}' <= c <= '\U{200A}')
    || c == '\U{2028}' || c == '\U{2029}' || c == '\U{202F}' || c == '\U{205F}'
    || c == '\U{3000}' || c == '\U{FEFF}'
  }

  /** `s` without its leading white space. */
  function TrimStart(s: string): (r: string)
    ensures |r| <= |s| && r == s[|s| - |r|..]
    ensures |r| > 0 ==> !IsWhiteSpace(r[0])
  {
    if |s| > 0 && IsWhiteSpace(s[0]) then TrimStart(s[1..]) else s
  }

  /** The value of `c` as a digit in bases up to 36. */
  function DigitValue(c: char): (d: Option<nat>)
    ensures d.Some? ==> d.value < 36
  {
    if '0' <= c <= '9' then Some(c as nat - '0' as nat)
    else if 'a' <= c <= 'z' then Some(c as nat - 'a' as nat + 10)
    else if 'A' <= c <= 'Z' then Some(c as nat - 'A' as nat + 10)
    else None
  }

  predicate IsDigit(c: char, radix: nat)
  {
    DigitValue(c).Some? && DigitValue(c).value < radix
  }

  /** The length of the longest prefix of `s` made of digits in `radix`. */
  function DigitRun(s: string, radix: nat): (n: nat)
    ensures n <= |s|
    ensures forall i :: 0 <= i < n ==> IsDigit(s[i], radix)
    ensures n < |s| ==> !IsDigit(s[n], radix)
  {
    if |s| == 0 || !IsDigit(s[0], radix) then 0 else 1 + DigitRun(s[1..], radix)
  }

  /** The number the digits `ds` denote in `radix`, most significant first. */
  function DigitsValue(ds: string, radix: nat): nat
    requires forall i :: 0 <= i < |ds| ==> IsDigit(ds[i], radix)
  {
    if |ds| == 0 then 0
    else
      var last := ds[|ds| - 1];
      assert IsDigit(last, radix);
      var high := DigitsValue(ds[..|ds| - 1], radix);
      NatProduct(high, radix);
      high * radix + DigitValue(last).value
  }

  lemma NatProduct(a: nat, b: nat)
    ensures a * b >= 0
  {
  }

  /** `t` without one leading sign character. */
  function Unsigned(t: string): string
  {
    if |t| > 0 && (t[0] == '-' || t[0] == '+') then t[1..] else t
  }

  /** Whether `u` starts with the `0x` or `0X` prefix that selects base 16. */
  predicate HasHexPrefix(u: string)
  {
    |u| >= 2 && u[0] == '0' && (u[1] == 'x' || u[1] == 'X')
  }

  /** The value of the longest run of `radix` digits at the start of `body`; `None` when there is none. */
  function LeadingDigits(body: string, radix: nat): Option<nat>
  {
    var n := DigitRun(body, radix);
    if n == 0 then None else Some(DigitsValue(body[..n], radix))
  }

  /**
   * `parseInt(s)`: skip leading white space, read an optional sign and an
   * optional `0x`/`0X` prefix (which selects base 16, base 10 otherwise),
   * then the longest run of digits; `None` (NaN) when that run is empty.
   */
  function ParseInt(s: string): (r: Option<int>)
    ensures TrimStart(s) == [] ==> r.None?
    ensures r.Some? && r.value < 0 ==> |TrimStart(s)| > 0 && TrimStart(s)[0] == '-'
    ensures |TrimStart(s)| > 0 && '1' <= TrimStart(s)[0] <= '9' ==> r.Some? && r.value >= 0
    ensures |TrimStart(s)| > 0 && !IsDigit(TrimStart(s)[0], 10) && TrimStart(s)[0] != '-' && TrimStart(s)[0] != '+' ==> r.None?
  {
    var t := TrimStart(s);
    var u := Unsigned(t);
    UnsignedStart(t);
    var magnitude := if HasHexPrefix(u) then LeadingDigits(u[2..], 16) else LeadingDigits(u, 10);
    match magnitude
    case None => None
    case Some(m) => Some(if |t| > 0 && t[0] == '-' then -m else m as int)
  }

  /** What `Unsigned` leaves of `t` when `t` starts with a digit or with neither digit nor sign. */
  lemma UnsignedStart(t: string)
    ensures |t| == 0 ==> LeadingDigits(Unsigned(t), 10).None? && !HasHexPrefix(Unsigned(t))
    ensures |t| > 0 && '1' <= t[0] <= '9' ==> !HasHexPrefix(Unsigned(t)) && LeadingDigits(Unsigned(t), 10).Some?
    ensures |t| > 0 && !IsDigit(t[0], 10) && t[0] != '-' && t[0] != '+' ==>
      !HasHexPrefix(Unsigned(t)) && LeadingDigits(Unsigned(t), 10).None?
  {
    if |t| > 0 && t[0] != '-' && t[0] != '+' {
      assert Unsigned(t) == t;
      if IsDigit(t[0], 10) {
        assert DigitRun(t, 10) >= 1;
      } else {
        assert DigitRun(t, 10) == 0;
      }
    }
  }

  function DecimalDigit(d: nat): (c: char)
    requires d < 10
    ensures '0' <= c <= '9' && DigitValue(c) == Some(d)
  {
    ('0' as nat + d) as char
  }

  /** `${n}` for a non-negative integer `n`: its decimal digits, with no leading zero. */
  function DecimalString(n: nat): (s: string)
    ensures |s| >= 1
    ensures forall i :: 0 <= i < |s| ==> '0' <= s[i] <= '9'
    ensures s[0] == '0' ==> n == 0 && |s| == 1
  {
    if n < 10 then [DecimalDigit(n)] else DecimalString(n / 10) + [DecimalDigit(n % 10)]
  }

  lemma {:induction false} DecimalValue(n: nat)
    ensures forall i :: 0 <= i < |DecimalString(n)| ==> IsDigit(DecimalString(n)[i], 10)
    ensures DigitsValue(DecimalString(n), 10) == n
  {
    var s := DecimalString(n);
    if n >= 10 {
      DecimalValue(n / 10);
      assert s[..|s| - 1] == DecimalString(n / 10);
    } else {
      assert s[..0] == [];
    }
  }

  lemma DigitIsNotWhiteSpace(c: char)
    requires '0' <= c <= '9'
    ensures !IsWhiteSpace(c)
  {
  }

  lemma AllDigitsRun(s: string, radix: nat)
    requires forall i :: 0 <= i < |s| ==> IsDigit(s[i], radix)
    ensures LeadingDigits(s, radix) == if |s| == 0 then None else Some(DigitsValue(s, radix))
  {
    assert DigitRun(s, radix) == |s|;
    assert s[..|s|] == s;
  }

  /** A run of decimal digits with no leading zero is read as a decimal number. */
  lemma ParseIntOfDigits(s: string)
    requires |s| >= 1
    requires forall i :: 0 <= i < |s| ==> '0' <= s[i] <= '9'
    requires s[0] == '0' ==> |s| == 1
    ensures forall i :: 0 <= i < |s| ==> IsDigit(s[i], 10)
    ensures ParseInt(s) == Some(DigitsValue(s, 10) as int)
  {
    DigitIsNotWhiteSpace(s[0]);
    assert TrimStart(s) == s;
    assert Unsigned(s) == s;
    assert !HasHexPrefix(s);
    AllDigitsRun(s, 10);
  }

  /** `parseInt` reads back the number a template literal wrote. */
  lemma ParseIntDecimal(n: nat)
    ensures ParseInt(DecimalString(n)) == Some(n)
  {
    DecimalValue(n);
    ParseIntOfDigits(DecimalString(n));
  }
}
