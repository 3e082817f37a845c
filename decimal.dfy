/**
 * Decimal integers as Python's `int(text)` reads them and `str(n)` writes them:
 * surrounding whitespace is ignored, one optional sign, then one or more ASCII digits,
 * single underscores allowed between two of them.
 */
module Decimal {
  import opened Wrappers
  import opened Text

  predicate IsDigit(c: char) {
    '0' <= c <= '9'
  }

  predicate AllDigits(s: string) {
    forall k :: 0 <= k < |s| ==> IsDigit(s[k])
  }

  function DigitChar(d: nat): (c: char)
    requires d < 10
    ensures IsDigit(c) && (c as int) - ('0' as int) == d
  {
    ('0' as int + d) as char
  }

  /** Digits and underscores only. */
  predicate DigitsOrUnderscores(s: string) {
    forall k :: 0 <= k < |s| ==> IsDigit(s[k]) || s[k] == '_'
  }

  /** `digit ("_"? digit)*`: digits, with single underscores each between two digits. */
  predicate Groups(s: string) {
    && s != [] && DigitsOrUnderscores(s)
    && IsDigit(s[0]) && IsDigit(s[|s| - 1])
    && forall k :: 0 <= k < |s| - 1 ==> s[k] == '_' ==> s[k + 1] != '_'
  }

  /** An integer literal after stripping: an optional sign, then digit groups. */
  predicate Numeral(t: string) {
    Groups(t) || (t != [] && (t[0] == '-' || t[0] == '+') && Groups(t[1..]))
  }

  /** The value of a run of digits, most significant first; underscores are skipped. */
  function DigitsValue(s: string): nat
    requires DigitsOrUnderscores(s)
  {
    if s == [] then 0
    else if s[|s| - 1] == '_' then DigitsValue(s[..|s| - 1])
    else 10 * DigitsValue(s[..|s| - 1]) + ((s[|s| - 1] as int) - ('0' as int))
  }

  /** The digits of `n` without leading zeros (`"0"` for zero). */
  function NatDigits(n: nat): (r: string)
    ensures r != [] && AllDigits(r)
    ensures |r| > 1 ==> r[0] != '0'
  {
    if n < 10 then [DigitChar(n)] else NatDigits(n / 10) + [DigitChar(n % 10)]
  }

  /** `str(n)` for an integer. */
  function FormatInt(n: int): (r: string)
    ensures r != [] && (r[0] == '-' <==> n < 0)
    ensures var d := if n < 0 then r[1..] else r; d != [] && AllDigits(d) && (|d| > 1 ==> d[0] != '0')
  {
    if n < 0 then "-" + NatDigits(-n) else NatDigits(n)
  }

  /** `int(s)`: `None` where Python raises `ValueError`. */
  function ParseInt(s: string): (r: Option<int>)
    ensures r.Some? <==> Numeral(Strip(s))
    ensures r.Some? && r.value < 0 ==> Strip(s)[0] == '-'
  {
    var t := Strip(s);
    if t == [] then None
    else if t[0] == '-' || t[0] == '+' then
      assert !Groups(t);
      if Groups(t[1..]) then
        var v: int := DigitsValue(t[1..]);
        Some(if t[0] == '-' then -v else v)
      else None
    else if Groups(t) then Some(DigitsValue(t))
    else None
  }

  /**
   * `int(s)` accepts exactly a numeral between whitespace, and reads it as the value of
   * its digits, negated after a minus sign.
   */
  lemma ParseIntAccepts(s: string)
    ensures ParseInt(s).Some? <==> Numeral(Strip(s))
    ensures ParseInt(s).Some? ==>
              var t := Strip(s);
              if t[0] == '-' then ParseInt(s).value == -(DigitsValue(t[1..]) as int)
              else if t[0] == '+' then ParseInt(s).value == DigitsValue(t[1..])
              else ParseInt(s).value == DigitsValue(t)
  {
    var t := Strip(s);
    if t != [] && (t[0] == '-' || t[0] == '+') {
      assert !Groups(t);
    }
  }

  lemma {:induction false} DigitsValueNatDigits(n: nat)
    ensures DigitsValue(NatDigits(n)) == n
  {
    var r := NatDigits(n);
    if n >= 10 {
      DigitsValueNatDigits(n / 10);
      assert r[..|r| - 1] == NatDigits(n / 10);
    }
  }

  /** `int(str(n)) == n` for every integer. */
  lemma ParseFormatInt(n: int)
    ensures ParseInt(FormatInt(n)) == Some(n)
  {
    var m: nat := if n < 0 then -n else n;
    var s := FormatInt(n);
    DigitsValueNatDigits(m);
    if n < 0 {
      assert s[0] == '-' && s[1..] == NatDigits(m);
      ParseNegativeDigits(s);
    } else {
      ParseDigits(s);
    }
  }

  /** A run of digits reads as its value. */
  lemma ParseDigits(d: string)
    requires d != [] && AllDigits(d)
    ensures ParseInt(d) == Some(DigitsValue(d))
  {
    assert IsDigit(d[0]) && IsDigit(d[|d| - 1]);
    assert Groups(d);
    assert Stripped(d);
    StripStripped(d);
  }

  /** A minus sign followed by a run of digits reads as minus their value. */
  lemma ParseNegativeDigits(t: string)
    requires |t| >= 2 && t[0] == '-' && AllDigits(t[1..])
    ensures ParseInt(t) == Some(-(DigitsValue(t[1..]) as int))
  {
    assert IsDigit(t[1..][|t| - 2]) && t[|t| - 1] == t[1..][|t| - 2];
    assert IsDigit(t[1..][0]);
    assert Groups(t[1..]);
    assert Stripped(t);
    ParseSigned(t);
  }

  /** A stripped sign followed by digit groups reads as their value with that sign. */
  lemma ParseSigned(t: string)
    requires Stripped(t) && |t| >= 2 && (t[0] == '-' || t[0] == '+') && Groups(t[1..])
    ensures ParseInt(t) == Some(if t[0] == '-' then -(DigitsValue(t[1..]) as int) else DigitsValue(t[1..]))
  {
    StripStripped(t);
  }

  /** The setting value `"1"` reads as one. */
  lemma ParseIntOne()
    ensures ParseInt("1") == Some(1)
  {
    StripStripped("1");
    assert DigitsValue("1") == 1;
  }

  lemma ParseIntSurroundingSpace()
    ensures ParseInt(" 8\n") == Some(8)
  {
    assert TrimLeft(" 8\n") == "8\n";
    assert TrimRight("8\n") == "8";
    assert DigitsValue("8") == 8;
  }

  lemma ParseIntNegative()
    ensures ParseInt("-12") == Some(-12)
  {
    StripStripped("-12");
    assert "-12"[1..] == "12" && "12"[..1] == "1";
    assert DigitsValue("12") == 12;
  }

  lemma ParseIntNotANumber()
    ensures ParseInt("five") == None
    ensures ParseInt("-") == None
  {
    var five, dash := "five", "-";
    assert five[0] == 'f' && five[|five| - 1] == 'e' && !IsDigit(five[0]);
    Rejected(five);
    assert dash[0] == '-' && dash[1..] == [];
    Rejected(dash);
  }

  /** A stripped text that is no numeral is refused. */
  lemma Rejected(t: string)
    requires Stripped(t) && !Numeral(t)
    ensures ParseInt(t) == None
  {
    StripStripped(t);
  }

  /** An underscore between digits is skipped. */
  lemma ParseIntUnderscore()
    ensures ParseInt("1_000") == Some(1000)
  {
    StripStripped("1_000");
    assert Groups("1_000");
    assert "1_000"[..4] == "1_00" && "1_00"[..3] == "1_0" && "1_0"[..2] == "1_" && "1_"[..1] == "1";
    assert DigitsValue("1_") == 1;
    assert DigitsValue("1_0") == 10;
    assert DigitsValue("1_00") == 100;
  }

  /** Underscores must stand between two digits, one at a time. */
  lemma ParseIntDoubleUnderscore()
    ensures ParseInt("1__0") == None
  {
    StripStripped("1__0");
    assert "1__0"[1] == '_' && "1__0"[2] == '_';
    assert !Groups("1__0");
  }

  lemma ParseIntLeadingUnderscore()
    ensures ParseInt("_1") == None
  {
    assert "_1"[0] == '_' && "_1"[1] == '1';
    StripStripped("_1");
    assert !Groups("_1");
  }

  lemma ParseIntTrailingUnderscore()
    ensures ParseInt("1_") == None
  {
    assert "1_"[0] == '1' && "1_"[1] == '_';
    StripStripped("1_");
    assert !Groups("1_");
  }
}
