/** Sizes: whole GiB against bytes, and parseStrSize, which floors a capacity string to GiB. */
module Sizes {
  import opened Text

  const GIB: int := 1024 * 1024 * 1024

  predicate IsUpper(c: char) { 'A' <= c <= 'Z' }

  /** The characters from position k on that are capitals, up to the first that is not. */
  function Capitals(s: string, k: nat): (unit: string)
    requires k <= |s|
    decreases |s| - k
  {
    if k == |s| || !IsUpper(s[k]) then "" else [s[k]] + Capitals(s, k + 1)
  }

  /** The first run of capitals, as the regular expression [A-Z]+ finds it. */
  function UnitFrom(s: string, k: nat): string
    requires k <= |s|
    decreases |s| - k
  {
    if k == |s| then "" else if IsUpper(s[k]) then Capitals(s, k) else UnitFrom(s, k + 1)
  }

  /** strings.Replace(s, unit, "", -1): drop every occurrence, left to right. */
  function Remove(s: string, unit: string): string
    decreases |s|
  {
    if unit == "" || |s| < |unit| then s
    else if unit <= s then Remove(s[|unit|..], unit)
    else [s[0]] + Remove(s[1..], unit)
  }

  /** The whole part of a bare decimal number "digits" or "digits.digits"; 0 when it is neither. */
  function WholePart(bare: string): nat {
    var parts := Split(bare, '.');
    if |parts| <= 2 && parts[0] != "" && forall p | p in parts :: AllDigits(p) then Value(parts[0]) else 0
  }

  /** parseStrSize: the capacity in GiB. */
  function ParseStrSize(capacity: string): nat {
    var unit := UnitFrom(capacity, 0);
    var size := WholePart(Remove(capacity, unit));
    match unit
    case "B" => size / GIB
    case "" => size / GIB
    case "KB" => size / (1024 * 1024)
    case "MB" => size / 1024
    case "GB" => size
    case "TB" => size * 1024
    case "PB" => size * 1024 * 1024
    case "EB" => size * GIB
    case _ => 0
  }

  lemma {:induction false} NoUnit(s: string, k: nat)
    requires k <= |s| && AllDigits(s)
    ensures UnitFrom(s, k) == ""
    decreases |s| - k
  {
    if k < |s| {
      assert IsDigit(s[k]);
      NoUnit(s, k + 1);
    }
  }

  /** A capacity listed in bytes reads as its size floored to GiB. */
  lemma {:induction false} ParsesBytes(bytes: nat)
    ensures ParseStrSize(Decimal(bytes)) == bytes / GIB
  {
    NoUnit(Decimal(bytes), 0);
    WholePartOfDigits(bytes);
  }

  /* ---- capacities with a unit ---- */

  /** The bytes one of a unit stands for; 0 for no unit parseStrSize knows. */
  function UnitBytes(unit: string): nat {
    match unit
    case "B" => 1
    case "KB" => 1024
    case "MB" => 1024 * 1024
    case "GB" => GIB
    case "TB" => 1024 * GIB
    case "PB" => 1024 * 1024 * GIB
    case "EB" => GIB * GIB
    case _ => 0
  }

  lemma {:induction false} CapitalsToTheEnd(s: string, k: nat)
    requires k <= |s| && forall i | k <= i < |s| :: IsUpper(s[i])
    ensures Capitals(s, k) == s[k..]
    decreases |s| - k
  {
    if k < |s| {
      CapitalsToTheEnd(s, k + 1);
      assert s[k..] == [s[k]] + s[k + 1..];
    }
  }

  lemma {:induction false} UnitAfterDigits(digits: string, unit: string, k: nat)
    requires k <= |digits| && AllDigits(digits) && unit != "" && forall c | c in unit :: IsUpper(c)
    ensures UnitFrom(digits + unit, k) == unit
    decreases |digits| - k
  {
    var s := digits + unit;
    if k < |digits| {
      assert s[k] == digits[k] && IsDigit(digits[k]);
      UnitAfterDigits(digits, unit, k + 1);
    } else {
      forall i | k <= i < |s| ensures IsUpper(s[i]) { assert s[i] == unit[i - k] && unit[i - k] in unit; }
      CapitalsToTheEnd(s, k);
      assert s[k..] == unit;
    }
  }

  lemma {:induction false} UnitRemoved(digits: string, unit: string)
    requires AllDigits(digits) && unit != "" && IsUpper(unit[0])
    ensures Remove(digits + unit, unit) == digits
  {
    var s := digits + unit;
    if digits == "" {
      assert s == unit && s[|unit|..] == "";
    } else {
      assert s[0] == digits[0] && IsDigit(digits[0]);
      assert s[1..] == digits[1..] + unit;
      UnitRemoved(digits[1..], unit);
      assert [digits[0]] + digits[1..] == digits;
    }
  }

  lemma {:induction false} WholePartOfDigits(n: nat)
    ensures WholePart(Decimal(n)) == n
  {
    var s := Decimal(n);
    forall c | c in s ensures c != '.' { assert IsDigit(c); }
    SplitPlain(s, '.');
    ValueOfDecimal(n);
  }

  lemma {:induction false} UnitScales(n: nat)
    ensures n * 1024 / GIB == n / (1024 * 1024) && n * (1024 * 1024) / GIB == n / 1024
    ensures n * GIB / GIB == n && n * (1024 * GIB) / GIB == n * 1024
    ensures n * (1024 * 1024 * GIB) / GIB == n * 1024 * 1024 && n * (GIB * GIB) / GIB == n * GIB
  {
    var q, r := n / 1048576, n % 1048576;
    assert n * 1024 == q * GIB + r * 1024 && 0 <= r * 1024 < GIB;
    var p, t := n / 1024, n % 1024;
    assert n * 1048576 == p * GIB + t * 1048576 && 0 <= t * 1048576 < GIB;
  }

  /** In every unit a capacity reads as its bytes floored to GiB. */
  lemma {:induction false} ParsesUnits(n: nat, unit: string)
    requires unit in ["B", "KB", "MB", "GB", "TB", "PB", "EB"]
    ensures ParseStrSize(Decimal(n) + unit) == n * UnitBytes(unit) / GIB
  {
    assert Letters(unit);
    UnitAfterDigits(Decimal(n), unit, 0);
    UnitRemoved(Decimal(n), unit);
    WholePartOfDigits(n);
    UnitScales(n);
  }

  predicate Letters(unit: string) { unit != "" && forall c | c in unit :: IsUpper(c) }

  /** A unit that is not known makes any capacity nothing. */
  lemma {:induction false} UnknownUnit(n: nat, unit: string)
    requires Letters(unit) && unit !in ["B", "KB", "MB", "GB", "TB", "PB", "EB"]
    ensures ParseStrSize(Decimal(n) + unit) == 0
  {
    UnitAfterDigits(Decimal(n), unit, 0);
  }

  predicate NumberLike(s: string) { forall c | c in s :: IsDigit(c) || c == '.' }

  lemma {:induction false} NoUnitInNumber(s: string, k: nat)
    requires k <= |s| && NumberLike(s)
    ensures UnitFrom(s, k) == ""
    decreases |s| - k
  {
    if k < |s| {
      assert s[k] in s;
      NoUnitInNumber(s, k + 1);
    }
  }

  /** Without a unit, a number of bytes with a fraction reads as its whole part floored to GiB, and one with two points
      as nothing. */
  lemma {:induction false} PointsInNumber(whole: string, fraction: string, more: string)
    requires AllDigits(whole) && AllDigits(fraction) && AllDigits(more) && whole != ""
    ensures ParseStrSize(whole + "." + fraction) == Value(whole) / GIB
    ensures ParseStrSize(whole + "." + fraction + "." + more) == 0
  {
    var one, two := whole + "." + fraction, whole + "." + fraction + "." + more;
    assert two == whole + "." + (fraction + "." + more);
    NoUnitInNumber(one, 0);
    NoUnitInNumber(two, 0);
    assert forall d | AllDigits(d) :: '.' !in d by { assert !IsDigit('.'); }
    SplitFirst(whole, fraction, '.');
    SplitPlain(fraction, '.');
    SplitFirst(whole, fraction + "." + more, '.');
    SplitFirst(fraction, more, '.');
    SplitPlain(more, '.');
    assert Split(one, '.') == [whole, fraction] && Split(two, '.') == [whole, fraction, more];
    assert Remove(one, "") == one && Remove(two, "") == two;
  }
}
