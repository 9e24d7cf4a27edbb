/** Decimal literals as the ring report writes them (`\d+` and `\d+\.\d+`),
    their exact values, and the conversion of a load to bytes. */
module Numbers {
  import opened Text

  predicate IsDigit(c: char) {
    '0' <= c <= '9'
  }

  /** `\d*`: every character is a decimal digit. */
  predicate AllDigits(s: String) {
    forall i :: 0 <= i < |s| ==> IsDigit(s[i])
  }

  /** `\d+` */
  predicate IsDigits(s: String) {
    s != [] && AllDigits(s)
  }

  function Pow(b: nat, e: nat): (r: nat)
    ensures b > 0 ==> r > 0
  {
    if e == 0 then 1 else b * Pow(b, e - 1)
  }

  /** The number a string of decimal digits denotes, most significant first. */
  function DigitsValue(s: String): nat
    requires AllDigits(s)
    decreases |s|
  {
    if s == [] then 0 else 10 * DigitsValue(s[..|s| - 1]) + (s[|s| - 1] as int - '0' as int)
  }

  /** Appending digits b to a numeral a shifts a by |b| places. */
  lemma {:induction false} DigitsValueConcat(a: String, b: String)
    requires AllDigits(a) && AllDigits(b)
    ensures AllDigits(a + b)
    ensures DigitsValue(a + b) == DigitsValue(a) * Pow(10, |b|) + DigitsValue(b)
    decreases |b|
  {
    if b == [] {
      assert a + b == a;
    } else {
      var b' := b[..|b| - 1];
      var ab := a + b;
      assert ab[..|ab| - 1] == a + b';
      assert AllDigits(ab);
      DigitsValueConcat(a, b');
      var d := b[|b| - 1] as int - '0' as int;
      assert ab[|ab| - 1] == b[|b| - 1];
      var x, y, p := DigitsValue(a), DigitsValue(b'), Pow(10, |b'|);
      assert DigitsValue(ab) == 10 * (x * p + y) + d;
      assert DigitsValue(b) == 10 * y + d;
      assert Pow(10, |b|) == 10 * p;
      ShiftByTen(x, p, y, d);
    }
  }

  lemma ShiftByTen(x: int, p: int, y: int, d: int)
    ensures 10 * (x * p + y) + d == x * (10 * p) + (10 * y + d)
  {
    assert 10 * (x * p) == x * (10 * p);
  }

  /** Length of the prefix of s before its first '.'. */
  function DotPosition(s: String): (k: nat)
    ensures k <= |s|
    ensures forall i :: 0 <= i < k ==> s[i] != '.'
    ensures k < |s| ==> s[k] == '.'
    decreases |s|
  {
    if s == [] || s[0] == '.' then 0 else 1 + DotPosition(s[1..])
  }

  /** `\d+\.\d+` */
  predicate IsFractionLiteral(s: String) {
    var k := DotPosition(s);
    k < |s| && IsDigits(s[..k]) && IsDigits(s[k + 1..])
  }

  /** `\d+\.\d+|\d+`, the load value of a ring line. */
  predicate IsLoadValue(s: String) {
    IsDigits(s) || IsFractionLiteral(s)
  }

  /** A fraction literal is exactly two digit strings around one dot. */
  lemma FractionLiteralParts(whole: String, frac: String)
    requires IsDigits(whole) && IsDigits(frac)
    ensures var s := whole + "." + frac;
      IsFractionLiteral(s) && DotPosition(s) == |whole|
      && s[..|whole|] == whole && s[|whole| + 1..] == frac
  {
    var s := whole + "." + frac;
    DotPositionOfPrefix(whole, "." + frac);
    assert s == whole + ("." + frac);
    assert s[..|whole|] == whole;
    assert s[|whole| + 1..] == frac;
  }

  lemma {:induction false} DotPositionOfPrefix(a: String, rest: String)
    requires AllDigits(a)
    requires rest != [] && rest[0] == '.'
    ensures DotPosition(a + rest) == |a|
    decreases |a|
  {
    if a != [] {
      assert (a + rest)[1..] == a[1..] + rest;
      DotPositionOfPrefix(a[1..], rest);
    } else {
      assert a + rest == rest;
    }
  }

  /** An exact decimal number: mantissa / 10^scale. */
  datatype Decimal = Decimal(mantissa: nat, scale: nat)

  function DecimalValue(d: Decimal): real {
    d.mantissa as real / Pow(10, d.scale) as real
  }

  /** Python's float() of a load value or ownership literal, read exactly. */
  function ParseDecimal(s: String): (d: Decimal)
    requires IsLoadValue(s)
  {
    if IsFractionLiteral(s) then
      var k := DotPosition(s);
      Decimal(DigitsValue(s[..k] + s[k + 1..]), |s| - k - 1)
    else
      Decimal(DigitsValue(s), 0)
  }

  /** An integer literal denotes the value of its digits. */
  lemma IntegerLiteralValue(s: String)
    requires IsDigits(s)
    ensures IsLoadValue(s)
    ensures DecimalValue(ParseDecimal(s)) == DigitsValue(s) as real
  {
    assert DotPosition(s) == |s|;
    assert ParseDecimal(s) == Decimal(DigitsValue(s), 0);
    assert Pow(10, 0) == 1;
  }

  /** A fraction literal w.f denotes w + f / 10^|f|. */
  lemma FractionLiteralValue(whole: String, frac: String)
    requires IsDigits(whole) && IsDigits(frac)
    ensures IsLoadValue(whole + "." + frac)
    ensures DecimalValue(ParseDecimal(whole + "." + frac))
      == DigitsValue(whole) as real + DigitsValue(frac) as real / Pow(10, |frac|) as real
  {
    var s := whole + "." + frac;
    FractionLiteralParts(whole, frac);
    DigitsValueConcat(whole, frac);
    var a, b, p := DigitsValue(whole), DigitsValue(frac), Pow(10, |frac|);
    var m := DigitsValue(whole + frac);
    assert ParseDecimal(s) == Decimal(m, |frac|);
    ShiftedValue(m, a, b, p);
    assert DecimalValue(Decimal(m, |frac|)) == m as real / p as real;
  }

  lemma ShiftedValue(m: nat, a: nat, b: nat, p: nat)
    requires p > 0 && m == a * p + b
    ensures m as real / p as real == a as real + b as real / p as real
  {
    var P := p as real;
    assert m as real == a as real * P + b as real;
    assert (a as real * P + b as real) / P == a as real * P / P + b as real / P;
  }

  /** `int(val * factor)` for a non-negative exact val: truncation toward zero. */
  function ScaleTruncate(d: Decimal, factor: nat): (r: nat)
    ensures r as real <= DecimalValue(d) * factor as real < r as real + 1.0
  {
    var m := d.mantissa * factor;
    var p := Pow(10, d.scale);
    var q := m / p;
    FloorBounds(m, p);
    assert DecimalValue(d) * factor as real == m as real / p as real;
    q
  }

  lemma FloorBounds(m: nat, p: nat)
    requires p > 0
    ensures (m / p) as real <= m as real / p as real < (m / p) as real + 1.0
  {
    var q, r := m / p, m % p;
    assert m == q * p + r && 0 <= r < p;
    var P := p as real;
    assert m as real == q as real * P + r as real;
    assert m as real / P == q as real + r as real / P;
    assert r as real / P < 1.0;
  }

  /** The binary multiplier of a load unit: KB = 1024, MB = 1024^2, GB = 1024^3,
      TB = 1024^4; any other unit leaves the load at 0. */
  function UnitMultiplier(unit: String): nat {
    if unit == "GB" then Pow(1024, 3)
    else if unit == "MB" then Pow(1024, 2)
    else if unit == "TB" then Pow(1024, 4)
    else if unit == "KB" then 1024
    else 0
  }

  /** The load of a ring line in bytes. */
  function LoadBytes(loadValue: String, loadUnit: String): (r: nat)
    requires IsLoadValue(loadValue)
  {
    ScaleTruncate(ParseDecimal(loadValue), UnitMultiplier(ToUpper(loadUnit)))
  }

  /** The load in bytes is the value times 1024^k, truncated, for the units
      KB, MB, GB and TB (k = 1, 2, 3, 4). */
  lemma LoadBytesIsTruncatedProduct(loadValue: String, loadUnit: String, k: nat)
    requires IsLoadValue(loadValue)
    requires IsUnitPower(loadUnit, k)
    ensures var v := DecimalValue(ParseDecimal(loadValue)) * Pow(1024, k) as real;
      LoadBytes(loadValue, loadUnit) as real <= v < LoadBytes(loadValue, loadUnit) as real + 1.0
  {
    UnitMultiplierIsPower(loadUnit, k);
    var d, f := ParseDecimal(loadValue), UnitMultiplier(ToUpper(loadUnit));
    var r := ScaleTruncate(d, f);
    assert LoadBytes(loadValue, loadUnit) == r;
    var x := DecimalValue(d);
    assert x * Pow(1024, k) as real == x * f as real;
  }

  /** The unit is KB, MB, GB or TB and k is its power of 1024. */
  predicate IsUnitPower(loadUnit: String, k: nat) {
    || (loadUnit == "KB" && k == 1)
    || (loadUnit == "MB" && k == 2)
    || (loadUnit == "GB" && k == 3)
    || (loadUnit == "TB" && k == 4)
  }

  lemma UnitMultiplierIsPower(loadUnit: String, k: nat)
    requires IsUnitPower(loadUnit, k)
    ensures UnitMultiplier(ToUpper(loadUnit)) == Pow(1024, k)
  {
    UpperOfUnit(loadUnit);
    if loadUnit == "KB" {
      assert Pow(1024, 1) == 1024;
    } else if loadUnit == "MB" {
      assert k == 2;
    } else if loadUnit == "GB" {
      assert k == 3;
    } else {
      assert k == 4;
    }
  }

  lemma UpperOfUnit(unit: String)
    requires unit in {"KB", "MB", "GB", "TB"}
    ensures ToUpper(unit) == unit
  {
  }

  /** A fractional load: 2.5 GB is 2.5 * 1024^3 bytes. */
  lemma LoadBytesFractionExample()
    ensures LoadBytes("2.5", "GB") == 2684354560
  {
    assert Pow(1024, 3) == 1073741824;
    FractionLiteralParts("2", "5");
    assert "2" + "." + "5" == "2.5";
    assert "2.5"[..1] + "2.5"[2..] == "25";
    assert DigitsValue("25") == 25 by { assert "25"[..1] == "2"; }
    assert ParseDecimal("2.5") == Decimal(25, 1);
    UpperOfUnit("GB");
  }

  /** Integral loads in MB, TB and KB. */
  lemma LoadBytesIntegerExamples()
    ensures LoadBytes("100", "MB") == 104857600
    ensures LoadBytes("1", "TB") == 1099511627776
    ensures LoadBytes("512", "KB") == 524288
  {
    assert Pow(1024, 2) == 1048576;
    assert Pow(1024, 4) == 1099511627776;
    IntegerLiteralValue("100");
    assert DigitsValue("100") == 100 by { assert "100"[..2] == "10"; assert "10"[..1] == "1"; }
    IntegerLiteralValue("1");
    assert DigitsValue("1") == 1 by { assert "1"[..0] == ""; }
    IntegerLiteralValue("512");
    assert DigitsValue("512") == 512 by { assert "512"[..2] == "51"; assert "51"[..1] == "5"; }
    UpperOfUnit("MB");
    UpperOfUnit("TB");
    UpperOfUnit("KB");
  }
}
