/**
 * The few pieces of the Java and JavaScript libraries that the modelled code
 * leans on: string concatenation of a possibly-null `String`, ASCII
 * lower-casing, `Integer.parseInt`, decimal printing of an integer and the
 * `yyyy-(m)m-(d)d` format of `java.sql.Date.valueOf`.
 */
module JavaText {
  import opened Wrappers

  /** A Java `String` reference; `None` is `null`. */
  type JString = Option<string>

  /** What Java's `"..." + s` writes for `s`: the text, or `null`. */
  function Show(s: JString): string
  {
    if s.Some? then s.value else "null"
  }

  // ---------------------------------------------------------------- case

  function LowerChar(c: char): char
  {
    if 'A' <= c <= 'Z' then (c as int + 32) as char else c
  }

  /** `String.toLowerCase()`, restricted to ASCII letters. */
  function ToLower(s: string): (r: string)
    ensures |r| == |s|
    ensures forall i :: 0 <= i < |s| ==> r[i] == LowerChar(s[i])
  {
    if s == [] then [] else [LowerChar(s[0])] + ToLower(s[1..])
  }

  /** Lower-casing twice is lower-casing once. */
  lemma {:induction false} ToLowerIdempotent(s: string)
    ensures ToLower(ToLower(s)) == ToLower(s)
  {
    if s != [] {
      ToLowerIdempotent(s[1..]);
      assert ToLower(s)[1..] == ToLower(s[1..]);
    }
  }

  predicate NoUpper(s: string)
  {
    forall i :: 0 <= i < |s| ==> !('A' <= s[i] <= 'Z')
  }

  /** Lower-casing leaves a string without upper-case ASCII letters as it is. */
  lemma ToLowerNoUpper(s: string)
    requires NoUpper(s)
    ensures ToLower(s) == s
  {
    assert forall i :: 0 <= i < |s| ==> ToLower(s)[i] == s[i];
  }

  // ---------------------------------------------------------------- digits

  const IntMin: int := -0x8000_0000
  const IntMax: int := 0x7FFF_FFFF

  /** The value range of a Java `int`. */
  predicate InInt(n: int)
  {
    IntMin <= n <= IntMax
  }

  predicate IsDigit(c: char)
  {
    '0' <= c <= '9'
  }

  predicate AllDigits(s: string)
  {
    forall i :: 0 <= i < |s| ==> IsDigit(s[i])
  }

  function DigitValue(c: char): (d: nat)
    requires IsDigit(c)
  {
    c as int - '0' as int
  }

  function DigitChar(d: nat): (c: char)
    requires d < 10
  {
    ('0' as int + d) as char
  }

  /** The value of a run of decimal digits, most significant first. */
  function DigitsValue(s: string): nat
    requires AllDigits(s)
  {
    if s == [] then 0 else DigitsValue(s[..|s| - 1]) * 10 + DigitValue(s[|s| - 1])
  }

  /** Decimal digits of `n` with no leading zero (`"0"` for zero). */
  function NatDigits(n: nat): (s: string)
    ensures |s| >= 1 && AllDigits(s)
  {
    if n < 10 then [DigitChar(n)] else NatDigits(n / 10) + [DigitChar(n % 10)]
  }

  /** `Integer.toString` / `Long.toString` / JavaScript `String(n)` for an integer. */
  function IntToString(n: int): string
  {
    if n < 0 then "-" + NatDigits(-n) else NatDigits(n)
  }

  lemma {:induction false} NatDigitsValue(n: nat)
    ensures DigitsValue(NatDigits(n)) == n
  {
    if n >= 10 {
      NatDigitsValue(n / 10);
      var s := NatDigits(n);
      assert s[..|s| - 1] == NatDigits(n / 10);
    }
  }

  /**
   * `Integer.parseInt(s)`: an optional `+` or `-`, then one or more ASCII
   * digits, whose signed value fits an `int`. `None` is the
   * `NumberFormatException` it throws, also for `null`.
   */
  function ParseInt(s: JString): (r: Option<int>)
    ensures r.Some? ==> InInt(r.value)
    ensures r.Some? ==> s.Some? && |s.value| >= 1
  {
    if s.None? || |s.value| == 0 then None
    else
      var t := s.value;
      var signed := t[0] == '-' || t[0] == '+';
      var digits := if signed then t[1..] else t;
      if |digits| == 0 || !AllDigits(digits) then None
      else
        var v: int := if t[0] == '-' then -(DigitsValue(digits) as int) else DigitsValue(digits);
        if InInt(v) then Some(v) else None
  }

  /** The printed form of an `int` parses back to it; a printed number outside the range is refused. */
  lemma ParseIntRoundTrip(n: int)
    ensures ParseInt(Some(IntToString(n))) == if InInt(n) then Some(n) else None
  {
    if n < 0 {
      NatDigitsValue(-n);
      ParseIntNegative(NatDigits(-n), -n);
    } else {
      NatDigitsValue(n);
      ParseIntUnsigned(NatDigits(n));
    }
  }

  /** A run of `k` zeros. */
  function Zeros(k: nat): (z: string)
    ensures |z| == k && AllDigits(z)
  {
    if k == 0 then [] else Zeros(k - 1) + ['0']
  }

  lemma {:induction false} ZerosValue(k: nat)
    ensures DigitsValue(Zeros(k)) == 0
  {
    if k > 0 {
      ZerosValue(k - 1);
      assert Zeros(k)[..k - 1] == Zeros(k - 1);
    }
  }

  /** Leading zeros do not change the value of a run of digits. */
  lemma {:induction false} LeadingZeros(k: nat, ds: string)
    requires AllDigits(ds)
    ensures AllDigits(Zeros(k) + ds) && DigitsValue(Zeros(k) + ds) == DigitsValue(ds)
  {
    var t := Zeros(k) + ds;
    if ds == [] {
      assert t == Zeros(k);
      ZerosValue(k);
    } else {
      LeadingZeros(k, ds[..|ds| - 1]);
      assert t[..|t| - 1] == Zeros(k) + ds[..|ds| - 1];
    }
  }

  /** Appending a digit multiplies the value by ten and adds the digit. */
  lemma DigitsSnoc(init: string, c: char)
    requires AllDigits(init) && IsDigit(c)
    ensures AllDigits(init + [c]) && DigitsValue(init + [c]) == DigitsValue(init) * 10 + DigitValue(c)
  {
    assert (init + [c])[..|init|] == init;
  }

  /** The canonical digits of `10 v + d`, for a positive `v`, are those of `v` followed by `d`. */
  lemma NatDigitsSnoc(v: nat, d: nat)
    requires v > 0 && d < 10
    ensures NatDigits(v * 10 + d) == NatDigits(v) + [DigitChar(d)]
  {
    var n := v * 10 + d;
    assert n / 10 == v && n % 10 == d;
  }

  /** Every non-empty run of digits is some zeros followed by the canonical digits of its value. */
  lemma {:induction false} DigitsCanonical(s: string, n: nat) returns (k: nat)
    requires AllDigits(s) && |s| >= 1 && DigitsValue(s) == n
    ensures s == Zeros(k) + NatDigits(n)
  {
    var init, c := s[..|s| - 1], s[|s| - 1];
    assert s == init + [c];
    DigitsSnoc(init, c);
    if |s| == 1 {
      k := CanonicalSingle(s, c, n);
    } else {
      var v := DigitsValue(init);
      var k' := DigitsCanonical(init, v);
      k := CanonicalStep(s, init, c, k', v, n);
    }
  }

  lemma CanonicalSingle(s: string, c: char, n: nat) returns (k: nat)
    requires s == [c] && IsDigit(c) && n == DigitValue(c)
    ensures s == Zeros(k) + NatDigits(n)
  {
    k := 0;
    assert DigitChar(DigitValue(c)) == c;
    assert NatDigits(n) == [c];
  }

  lemma CanonicalStep(s: string, init: string, c: char, k': nat, v: nat, n: nat) returns (k: nat)
    requires IsDigit(c) && s == init + [c] && init == Zeros(k') + NatDigits(v) && n == v * 10 + DigitValue(c)
    ensures s == Zeros(k) + NatDigits(n)
  {
    assert DigitChar(DigitValue(c)) == c;
    if v > 0 {
      NatDigitsSnoc(v, DigitValue(c));
      k := k';
      assert s == Zeros(k') + (NatDigits(v) + [c]);
    } else {
      k := k' + 1;
      assert NatDigits(0) == ['0'];
      assert NatDigits(n) == [c];
      assert Zeros(k) == Zeros(k') + ['0'];
      assert s == (Zeros(k') + ['0']) + [c];
    }
  }

  /** The optional sign in front of the digits of an integer literal. */
  datatype Sign = NoSign | Plus | Minus

  function SignText(sign: Sign): string
  {
    match sign
    case NoSign => ""
    case Plus => "+"
    case Minus => "-"
  }

  /**
   * `parseInt` accepts a sign `+`, `-` or none, any number of leading zeros
   * and the digits of a value, and yields the signed value when it fits an
   * `int`; `-0` and `+0` are zero.
   */
  lemma ParseIntAcceptsPadded(sign: Sign, k: nat, n: nat)
    ensures var v: int := if sign == Minus then -(n as int) else n;
            ParseInt(Some(SignText(sign) + Zeros(k) + NatDigits(n))) == if InInt(v) then Some(v) else None
  {
    var digits := Zeros(k) + NatDigits(n);
    assert SignText(sign) + Zeros(k) + NatDigits(n) == SignText(sign) + digits;
    LeadingZeros(k, NatDigits(n));
    NatDigitsValue(n);
    match sign
    case NoSign =>
      assert SignText(sign) + digits == digits;
      ParseIntUnsigned(digits);
    case Plus =>
      ParseIntPlus(digits, n);
    case Minus =>
      ParseIntNegative(digits, n);
  }

  lemma ParseIntNegative(digits: string, n: nat)
    requires AllDigits(digits) && |digits| >= 1 && DigitsValue(digits) == n
    ensures ParseInt(Some("-" + digits)) == if InInt(-(n as int)) then Some(-(n as int)) else None
  {
    assert ("-" + digits)[1..] == digits;
    assert ("-" + digits)[0] == '-';
  }

  lemma ParseIntUnsigned(digits: string)
    requires AllDigits(digits) && |digits| >= 1
    ensures ParseInt(Some(digits)) == if InInt(DigitsValue(digits)) then Some(DigitsValue(digits)) else None
  {
    assert IsDigit(digits[0]);
  }

  lemma ParseIntPlus(digits: string, n: nat)
    requires AllDigits(digits) && |digits| >= 1 && DigitsValue(digits) == n
    ensures ParseInt(Some("+" + digits)) == if InInt(n) then Some(n) else None
  {
    assert ("+" + digits)[1..] == digits;
    assert ("+" + digits)[0] == '+';
  }

  /** An accepted text splits into its sign and a run of digits worth the value's magnitude. */
  lemma ParseIntSplit(t: string, v: int) returns (sign: Sign, digits: string)
    requires ParseInt(Some(t)) == Some(v)
    ensures t == SignText(sign) + digits
    ensures AllDigits(digits) && |digits| >= 1 && DigitsValue(digits) == if v < 0 then -v else v
    ensures (v < 0 ==> sign == Minus) && (sign == Minus ==> v <= 0)
    ensures sign == Minus <==> t[0] == '-'
  {
    sign := if t[0] == '-' then Minus else if t[0] == '+' then Plus else NoSign;
    digits := if sign == NoSign then t else t[1..];
    assert t == SignText(sign) + digits;
  }

  /** Conversely, every text `parseInt` accepts has that shape: sign, zeros, the digits of the value. */
  lemma ParseIntShape(t: string, v: int)
    requires ParseInt(Some(t)) == Some(v)
    ensures v < 0 ==> t[0] == '-'
    ensures t[0] == '-' ==> v <= 0
    ensures var a: nat := if v < 0 then -v else v;
            exists sign: Sign, k: nat :: t == SignText(sign) + (Zeros(k) + NatDigits(a))
  {
    var sign, digits := ParseIntSplit(t, v);
    var k := DigitsCanonical(digits, if v < 0 then -v else v);
  }

  /** Signs and leading zeros are accepted; surrounding blanks are not. */
  lemma ParseIntExamples()
    ensures ParseInt(Some("+5")) == Some(5)
    ensures ParseInt(Some("007")) == Some(7)
    ensures ParseInt(Some("-0")) == Some(0)
    ensures ParseInt(Some(" 5")) == None
  {
    ParseIntAcceptsPadded(Plus, 0, 5);
    assert SignText(Plus) + Zeros(0) + NatDigits(5) == "+5";
    ParseIntAcceptsPadded(NoSign, 2, 7);
    assert Zeros(2) == "00";
    assert SignText(NoSign) + Zeros(2) + NatDigits(7) == "007";
    ParseIntAcceptsPadded(Minus, 0, 0);
    assert SignText(Minus) + Zeros(0) + NatDigits(0) == "-0";
    assert !IsDigit(" 5"[0]);
  }

  // ---------------------------------------------------------------- dates

  /** The calendar fields `java.sql.Date.valueOf` reads; no calendar arithmetic. */
  datatype SqlDate = SqlDate(year: nat, month: nat, day: nat)

  /**
   * `java.sql.Date.valueOf(s)` as a format check: four digits, `-`, one or
   * two digits, `-`, one or two digits, with month 1..12 and day 1..31.
   * `None` is the `IllegalArgumentException` it throws, also for `null`.
   */
  function ParseSqlDate(s: JString): (r: Option<SqlDate>)
    ensures r.Some? ==> 1 <= r.value.month <= 12 && 1 <= r.value.day <= 31 && r.value.year <= 9999
  {
    if s.None? then None else ParseDateText(s.value)
  }

  /** The format check of `ParseSqlDate` on a non-null string. */
  function ParseDateText(t: string): (r: Option<SqlDate>)
    ensures r.Some? ==> 1 <= r.value.month <= 12 && 1 <= r.value.day <= 31 && r.value.year <= 9999
  {
    if !(8 <= |t| <= 10) || t[4] != '-' then None
    else
      var k := if t[6] == '-' then 6 else 7;
      var year, month, day := t[..4], t[5..k], t[k + 1..];
      if t[k] != '-' || !(1 <= |day| <= 2) then None
      else if !AllDigits(year) || !AllDigits(month) || !AllDigits(day) then None
      else if !(1 <= DigitsValue(month) <= 12) || !(1 <= DigitsValue(day) <= 31) then None
      else
        assert DigitsValue(year) <= 9999 by { FixedWidthBound(year); }
        Some(SqlDate(DigitsValue(year), DigitsValue(month), DigitsValue(day)))
  }

  /**
   * `t` reads `d` in the form `yyyy-(m)m-(d)d`: four digits, `-`, one or two
   * digits, `-` at index `k`, one or two digits.
   */
  predicate DateFields(t: string, k: int, d: SqlDate)
  {
    && (k == 6 || k == 7) && k + 2 <= |t| <= k + 3
    && t[4] == '-' && t[k] == '-'
    && AllDigits(t[..4]) && AllDigits(t[5..k]) && AllDigits(t[k + 1..])
    && DigitsValue(t[..4]) == d.year && DigitsValue(t[5..k]) == d.month && DigitsValue(t[k + 1..]) == d.day
  }

  /** Every accepted date text has the `yyyy-(m)m-(d)d` form, and its fields are the date's. */
  lemma ParseSqlDateShape(t: string, d: SqlDate)
    requires ParseSqlDate(Some(t)) == Some(d)
    ensures exists k :: DateFields(t, k, d)
    ensures 1 <= d.month <= 12 && 1 <= d.day <= 31
  {
    var k := if t[6] == '-' then 6 else 7;
    assert DateFields(t, k, d);
  }

  /** Conversely, every text of that form with a month in 1..12 and a day in 1..31 is accepted. */
  lemma ParseSqlDateFields(t: string, k: int, d: SqlDate)
    requires DateFields(t, k, d) && 1 <= d.month <= 12 && 1 <= d.day <= 31
    ensures ParseSqlDate(Some(t)) == Some(d)
  {
    if k == 7 {
      assert IsDigit(t[5..7][1]);
    }
    FixedWidthBound(t[..4]);
  }

  /** Month and day need not be zero-padded. */
  lemma UnpaddedDate()
    ensures ParseSqlDate(Some("2024-1-5")) == Some(SqlDate(2024, 1, 5))
  {
    var t := "2024-1-5";
    assert t[..4] == "2024" && t[5..6] == "1" && t[7..] == "5";
    assert DigitsValue("2024") == 2024 by {
      assert "2024"[..3] == "202" && "202"[..2] == "20" && "20"[..1] == "2" && "2"[..0] == [];
    }
    assert DigitsValue("1") == 1 by { assert "1"[..0] == []; }
    assert DigitsValue("5") == 5 by { assert "5"[..0] == []; }
    ParseSqlDateFields(t, 6, SqlDate(2024, 1, 5));
  }

  /** A run of digits is worth less than 10 to the power of its length. */
  lemma {:induction false} FixedWidthBound(s: string)
    requires AllDigits(s)
    ensures DigitsValue(s) < Pow10(|s|)
  {
    if s != [] {
      FixedWidthBound(s[..|s| - 1]);
    }
  }

  function Pow10(n: nat): (p: nat)
    ensures p >= 1
  {
    if n == 0 then 1 else 10 * Pow10(n - 1)
  }

  /** `n` written with exactly `width` digits, zero-padded on the left. */
  function Padded(n: nat, width: nat): (s: string)
    ensures |s| == width && AllDigits(s)
  {
    if width == 0 then [] else Padded(n / 10, width - 1) + [DigitChar(n % 10)]
  }

  lemma {:induction false} PaddedValue(n: nat, width: nat)
    requires n < Pow10(width)
    ensures DigitsValue(Padded(n, width)) == n
  {
    if width > 0 {
      PaddedValue(n / 10, width - 1);
      var s := Padded(n, width);
      assert s[..|s| - 1] == Padded(n / 10, width - 1);
    }
  }

  /** The ISO form `yyyy-mm-dd` of a date, as an HTML date input produces it. */
  function FormatSqlDate(d: SqlDate): string
  {
    Padded(d.year, 4) + "-" + Padded(d.month, 2) + "-" + Padded(d.day, 2)
  }

  /** Every date with a four-digit year and in-range month and day survives printing and parsing. */
  lemma SqlDateRoundTrip(d: SqlDate)
    requires d.year <= 9999 && 1 <= d.month <= 12 && 1 <= d.day <= 31
    ensures ParseSqlDate(Some(FormatSqlDate(d))) == Some(d)
  {
    var t := FormatSqlDate(d);
    PaddedValue(d.year, 4);
    PaddedValue(d.month, 2);
    PaddedValue(d.day, 2);
    assert t[..4] == Padded(d.year, 4);
    assert t[5..7] == Padded(d.month, 2);
    assert t[8..] == Padded(d.day, 2);
  }
}
