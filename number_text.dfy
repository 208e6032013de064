/** Decimal text for numbers: JavaScript's integer-to-string conversion
    (`${n}`) and the prefix parsers `parseInt` / `parseFloat` used by the CSV importer.
    Both parsers skip leading white space and then read the longest numeric prefix;
    no numeric prefix is NaN, modelled as `None`. */
module NumberText {
  import opened Wrappers

  /** ECMAScript WhiteSpace and LineTerminator code points (what `trim` removes). */
  predicate IsSpace(c: char)
  {
    c as int in {0x9, 0xA, 0xB, 0xC, 0xD, 0x20, 0xA0, 0x1680, 0x2000, 0x2001, 0x2002, 0x2003,
                 0x2004, 0x2005, 0x2006, 0x2007, 0x2008, 0x2009, 0x200A, 0x2028, 0x2029,
                 0x202F, 0x205F, 0x3000, 0xFEFF}
  }

  function TrimStart(s: string): (r: string)
    ensures |r| <= |s| && r == s[|s| - |r|..]
    ensures |r| > 0 ==> !IsSpace(r[0])
    ensures forall i :: 0 <= i < |s| - |r| ==> IsSpace(s[i])
  {
    if |s| > 0 && IsSpace(s[0]) then
      var r := TrimStart(s[1..]);
      assert forall i :: 1 <= i < |s| - |r| ==> s[i] == s[1..][i - 1];
      r
    else s
  }

  function TrimEnd(s: string): (r: string)
    ensures |r| <= |s| && r == s[..|r|]
    ensures |r| > 0 ==> !IsSpace(r[|r| - 1])
    ensures forall i :: |r| <= i < |s| ==> IsSpace(s[i])
  {
    if |s| > 0 && IsSpace(s[|s| - 1]) then
      var r := TrimEnd(s[..|s| - 1]);
      assert forall i :: |r| <= i < |s| - 1 ==> s[i] == s[..|s| - 1][i];
      r
    else s
  }

  /** `String.prototype.trim`. */
  function Trim(s: string): string
  {
    TrimEnd(TrimStart(s))
  }

  predicate IsDigit(c: char)
  {
    '0' <= c <= '9'
  }

  function DigitChar(d: nat): (c: char)
    requires d < 10
    ensures IsDigit(c)
  {
    ('0' as int + d) as char
  }

  function DigitValue(c: char): (d: nat)
    requires IsDigit(c)
    ensures d < 10
  {
    (c as int - '0' as int) as nat
  }

  lemma DigitRoundTrip(d: nat)
    requires d < 10
    ensures DigitValue(DigitChar(d)) == d
  {
  }

  ghost predicate AllDigits(s: string)
  {
    forall i :: 0 <= i < |s| ==> IsDigit(s[i])
  }

  /** Decimal digits of a natural number, most significant first, no leading zeros. */
  function Digits(n: nat): (s: string)
    ensures |s| > 0 && AllDigits(s)
    ensures s[0] == '0' ==> n == 0 && |s| == 1
  {
    if n < 10 then [DigitChar(n)] else Digits(n / 10) + [DigitChar(n % 10)]
  }

  /** `${n}` for an integer: digits, preceded by `-` for a negative number. */
  function DecimalString(n: int): string
  {
    if n < 0 then "-" + Digits(-n) else Digits(n)
  }

  /** The value of a digit string read in base 10. */
  function DigitsValue(s: string): nat
    requires AllDigits(s)
  {
    if |s| == 0 then 0 else DigitsValue(s[..|s| - 1]) * 10 + DigitValue(s[|s| - 1])
  }

  lemma {:induction false} DigitsRoundTrip(n: nat)
    ensures DigitsValue(Digits(n)) == n
  {
    if n >= 10 {
      var s := Digits(n);
      assert s[..|s| - 1] == Digits(n / 10);
      DigitsRoundTrip(n / 10);
    }
  }

  /** The longest prefix of `s` made of decimal digits. */
  function DigitPrefix(s: string): (r: string)
    ensures |r| <= |s| && r == s[..|r|] && AllDigits(r)
    ensures |r| < |s| ==> !IsDigit(s[|r|])
  {
    if |s| > 0 && IsDigit(s[0]) then [s[0]] + DigitPrefix(s[1..]) else []
  }

  lemma {:induction false} DigitPrefixOfDigits(s: string, rest: string)
    requires AllDigits(s)
    requires |rest| > 0 ==> !IsDigit(rest[0])
    ensures DigitPrefix(s + rest) == s
  {
    if |s| > 0 {
      assert (s + rest)[1..] == s[1..] + rest;
      DigitPrefixOfDigits(s[1..], rest);
    } else {
      assert s + rest == rest;
    }
  }

  predicate IsHexDigit(c: char)
  {
    IsDigit(c) || 'a' <= c <= 'f' || 'A' <= c <= 'F'
  }

  function HexDigitValue(c: char): (d: nat)
    requires IsHexDigit(c)
    ensures d < 16
  {
    if IsDigit(c) then DigitValue(c)
    else if 'a' <= c <= 'f' then (c as int - 'a' as int + 10) as nat
    else (c as int - 'A' as int + 10) as nat
  }

  /** The longest prefix of `s` made of hexadecimal digits. */
  function HexPrefix(s: string): (r: string)
    ensures |r| <= |s| && forall i :: 0 <= i < |r| ==> IsHexDigit(r[i])
  {
    if |s| > 0 && IsHexDigit(s[0]) then [s[0]] + HexPrefix(s[1..]) else []
  }

  function HexValue(s: string): nat
    requires forall i :: 0 <= i < |s| ==> IsHexDigit(s[i])
  {
    if |s| == 0 then 0 else HexValue(s[..|s| - 1]) * 16 + HexDigitValue(s[|s| - 1])
  }

  /** The digits after the sign in `parseInt`: a `0x`/`0X` hexadecimal literal or
      decimal digits, each read as far as it goes; None when no digit follows. */
  function UnsignedInt(u: string): (r: Option<nat>)
    ensures r.Some? ==> |u| > 0 && IsDigit(u[0])
  {
    if |u| >= 2 && u[0] == '0' && (u[1] == 'x' || u[1] == 'X') then
      var h := HexPrefix(u[2..]);
      if |h| == 0 then None else Some(HexValue(h))
    else
      var d := DigitPrefix(u);
      if |d| == 0 then None else Some(DigitsValue(d))
  }

  /** `parseInt(s)` with no radix: leading white space skipped, an optional sign,
      then the unsigned digits; NaN (None) when no digit follows. */
  function ParseInt(s: string): (r: Option<int>)
    ensures r.Some? ==> var u := SplitSign(TrimStart(s)).1; |u| > 0 && IsDigit(u[0])
  {
    var (negative, u) := SplitSign(TrimStart(s));
    match UnsignedInt(u)
    case None => None
    case Some(m) => Some(if negative then -(m as int) else m)
  }

  lemma UnsignedIntDigits(ds: string)
    requires |ds| > 0 && AllDigits(ds)
    ensures UnsignedInt(ds) == Some(DigitsValue(ds))
  {
    var empty: string := [];
    assert |ds| >= 2 ==> IsDigit(ds[1]);
    DigitPrefixOfDigits(ds, empty);
    assert ds + empty == ds;
  }

  /** `parseInt` reads back the text of any integer. */
  lemma ParseIntDecimal(n: int)
    ensures ParseInt(DecimalString(n)) == Some(n)
  {
    var m: nat := if n < 0 then -n else n;
    var ds := Digits(m);
    DigitsRoundTrip(m);
    UnsignedIntDigits(ds);
    assert !IsSpace(ds[0]);
    if n < 0 {
      var t := "-" + ds;
      assert !IsSpace(t[0]);
      assert TrimStart(t) == t;
      assert t[1..] == ds;
      assert SplitSign(t) == (true, ds);
    } else {
      assert TrimStart(ds) == ds;
      assert SplitSign(ds) == (false, ds);
    }
  }

  function Pow10(e: nat): (r: real)
    ensures r >= 1.0
  {
    if e == 0 then 1.0 else 10.0 * Pow10(e - 1)
  }

  /** The exponent of a well-formed `e`/`E` suffix (sign optional, at least one digit); 0 otherwise. */
  function ExponentOf(t: string): int
  {
    if |t| >= 2 && (t[0] == 'e' || t[0] == 'E') then
      var negative := t[1] == '-';
      var u := if t[1] == '+' || t[1] == '-' then t[2..] else t[1..];
      var d := DigitPrefix(u);
      if |d| == 0 then 0 else if negative then -(DigitsValue(d) as int) else DigitsValue(d)
    else 0
  }

  function Scale(e: int): (r: real)
    ensures r > 0.0
  {
    if e >= 0 then Pow10(e) else 1.0 / Pow10(-e)
  }

  /** Splits an optional leading `+`/`-`; the flag says whether it was `-`. */
  function SplitSign(t: string): (bool, string)
  {
    if |t| > 0 && (t[0] == '+' || t[0] == '-') then (t[0] == '-', t[1..]) else (false, t)
  }

  /** An unsigned decimal literal as scanned: integer digits, fraction digits, exponent. */
  datatype Literal = Literal(intDigits: string, fracDigits: string, exponent: int)

  /** The longest unsigned decimal literal at the start of `u`: integer digits, an
      optional `.` with fraction digits, an optional exponent; None when it has no
      digit before the exponent. */
  function ScanDecimal(u: string): (r: Option<Literal>)
    ensures r.Some? ==> AllDigits(r.value.intDigits) && AllDigits(r.value.fracDigits)
  {
    var intDigits := DigitPrefix(u);
    var rest := u[|intDigits|..];
    var hasDot := |rest| > 0 && rest[0] == '.';
    var fracDigits := if hasDot then DigitPrefix(rest[1..]) else [];
    if |intDigits| == 0 && |fracDigits| == 0 then None
    else
      var afterMantissa := if hasDot then rest[1 + |fracDigits|..] else rest;
      Some(Literal(intDigits, fracDigits, ExponentOf(afterMantissa)))
  }

  function LiteralValue(lit: Literal): real
    requires AllDigits(lit.intDigits) && AllDigits(lit.fracDigits)
  {
    var mantissa := DigitsValue(lit.intDigits) as real
                    + DigitsValue(lit.fracDigits) as real / Pow10(|lit.fracDigits|);
    mantissa * Scale(lit.exponent)
  }

  lemma LiteralValueNoExponent(i: string, f: string)
    requires AllDigits(i) && AllDigits(f)
    ensures LiteralValue(Literal(i, f, 0))
         == DigitsValue(i) as real + DigitsValue(f) as real / Pow10(|f|)
  {
    assert Scale(0) == 1.0;
  }

  function UnsignedDecimal(u: string): Option<real>
  {
    match ScanDecimal(u)
    case None => None
    case Some(lit) => Some(LiteralValue(lit))
  }

  /** `parseFloat(s)` on finite decimal literals: leading white space skipped, an
      optional sign, then the unsigned literal. None (NaN) when no digit is read. */
  function ParseFloat(s: string): Option<real>
  {
    var (negative, u) := SplitSign(TrimStart(s));
    match UnsignedDecimal(u)
    case None => None
    case Some(m) => Some(if negative then -m else m)
  }

  /** The text JavaScript prints for a number with at most one decimal place,
      `k / 10` for a natural `k`: `"5"`, `"5.3"`. */
  function TenthsText(k: nat): string
  {
    Digits(k / 10) + (if k % 10 == 0 then "" else "." + [DigitChar(k % 10)])
  }

  lemma UnsignedDecimalOfInteger(ds: string)
    requires |ds| > 0 && AllDigits(ds)
    ensures UnsignedDecimal(ds) == Some(DigitsValue(ds) as real)
  {
    var empty: string := [];
    DigitPrefixOfDigits(ds, empty);
    assert ds + empty == ds;
    assert ds[|ds|..] == empty;
    assert ScanDecimal(ds) == Some(Literal(ds, empty, 0));
    assert DigitsValue(empty) == 0;
    assert Pow10(0) == 1.0;
    LiteralValueNoExponent(ds, empty);
  }

  lemma ScanOneDecimal(ds: string, frac: string)
    requires |ds| > 0 && AllDigits(ds) && |frac| > 0 && AllDigits(frac)
    ensures ScanDecimal(ds + "." + frac) == Some(Literal(ds, frac, 0))
  {
    var empty: string := [];
    var u := ds + "." + frac;
    assert u == ds + ("." + frac);
    DigitPrefixOfDigits(ds, "." + frac);
    var rest := u[|ds|..];
    assert rest == "." + frac;
    assert rest[1..] == frac + empty;
    DigitPrefixOfDigits(frac, empty);
    assert rest[1 + |frac|..] == empty;
  }

  lemma UnsignedDecimalOfScan(u: string, lit: Literal)
    requires ScanDecimal(u) == Some(lit)
    ensures AllDigits(lit.intDigits) && AllDigits(lit.fracDigits)
    ensures UnsignedDecimal(u) == Some(LiteralValue(lit))
  {
  }

  lemma LiteralOneDecimal(ds: string, d: nat)
    requires AllDigits(ds) && d < 10
    ensures LiteralValue(Literal(ds, [DigitChar(d)], 0)) == (10 * DigitsValue(ds) + d) as real / 10.0
  {
    var frac := [DigitChar(d)];
    var empty: string := [];
    assert DigitsValue(frac) == d by {
      assert frac[..0] == empty;
      DigitRoundTrip(d);
    }
    assert Pow10(1) == 10.0;
    LiteralValueNoExponent(ds, frac);
  }

  lemma UnsignedDecimalOfTenths(k: nat)
    ensures UnsignedDecimal(TenthsText(k)) == Some(k as real / 10.0)
  {
    var q, d := k / 10, k % 10;
    var ds := Digits(q);
    DigitsRoundTrip(q);
    assert k == 10 * q + d;
    if d == 0 {
      assert TenthsText(k) == ds + "";
      assert ds + "" == ds;
      UnsignedDecimalOfInteger(ds);
    } else {
      var frac := [DigitChar(d)];
      assert TenthsText(k) == ds + "." + frac;
      ScanOneDecimal(ds, frac);
      LiteralOneDecimal(ds, d);
      UnsignedDecimalOfScan(TenthsText(k), Literal(ds, frac, 0));
    }
  }

  /** `parseFloat` reads back the text of a one-decimal number. */
  lemma ParseFloatTenths(k: nat)
    ensures ParseFloat(TenthsText(k)) == Some(k as real / 10.0)
  {
    var t := TenthsText(k);
    assert t[0] == Digits(k / 10)[0];
    assert !IsSpace(t[0]) && t[0] != '+' && t[0] != '-';
    assert TrimStart(t) == t;
    assert SplitSign(t) == (false, t);
    UnsignedDecimalOfTenths(k);
  }
}
