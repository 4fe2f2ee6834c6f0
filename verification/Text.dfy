/** Go string and integer helpers the drivers rely on: strings.Split and strings.Join with a
    one-character separator, strconv.Atoi / strconv.ParseInt in base 10, decimal printing and the
    `%08v` verb, each with the laws used elsewhere. */
module Text {

  const MAX_INT64: int := 0x7FFF_FFFF_FFFF_FFFF
  const MIN_INT64: int := -0x8000_0000_0000_0000

  /* ---- strings.Join and strings.Split ---- */

  function Join(parts: seq<string>, sep: char): string {
    if |parts| == 0 then ""
    else if |parts| == 1 then parts[0]
    else parts[0] + [sep] + Join(parts[1..], sep)
  }

  function Split(s: string, sep: char): (parts: seq<string>)
    ensures |parts| >= 1
    ensures forall p | p in parts :: sep !in p
  {
    if s == "" then [""]
    else
      var rest := Split(s[1..], sep);
      if s[0] == sep then [""] + rest else [[s[0]] + rest[0]] + rest[1..]
  }

  predicate Free(parts: seq<string>, sep: char) {
    forall p | p in parts :: sep !in p
  }

  lemma {:induction false} SplitPlain(s: string, sep: char)
    requires sep !in s
    ensures Split(s, sep) == [s]
  {
    if s != "" {
      SplitPlain(s[1..], sep);
      assert [s[0]] + s[1..] == s;
    }
  }

  lemma {:induction false} SplitFirst(a: string, b: string, sep: char)
    requires sep !in a
    ensures Split(a + [sep] + b, sep) == [a] + Split(b, sep)
  {
    var s := a + [sep] + b;
    if a == "" {
      assert s[1..] == b;
    } else {
      assert s[1..] == a[1..] + [sep] + b;
      SplitFirst(a[1..], b, sep);
      assert [a[0]] + a[1..] == a;
    }
  }

  /** Splitting undoes joining, for pieces free of the separator. */
  lemma {:induction false} SplitOfJoin(parts: seq<string>, sep: char)
    requires |parts| >= 1 && Free(parts, sep)
    ensures Split(Join(parts, sep), sep) == parts
  {
    if |parts| == 1 {
      SplitPlain(parts[0], sep);
    } else {
      SplitOfJoin(parts[1..], sep);
      SplitFirst(parts[0], Join(parts[1..], sep), sep);
    }
  }

  /** Joining undoes splitting, for every string. */
  lemma {:induction false} JoinOfSplit(s: string, sep: char)
    ensures Join(Split(s, sep), sep) == s
  {
    if s != "" {
      JoinOfSplit(s[1..], sep);
      var rest := Split(s[1..], sep);
      if s[0] == sep {
        assert ([""] + rest)[1..] == rest;
      } else {
        var parts := [[s[0]] + rest[0]] + rest[1..];
        assert parts[1..] == rest[1..];
        if |rest| > 1 {
          assert Join(parts, sep) == [s[0]] + (rest[0] + [sep] + Join(rest[1..], sep));
        }
      }
    }
  }

  /** Appending a piece after a separator appends it to the split list. */
  lemma {:induction false} SplitAppend(s: string, piece: string, sep: char)
    requires sep !in piece
    ensures Split(s + [sep] + piece, sep) == Split(s, sep) + [piece]
  {
    var t := s + [sep] + piece;
    if s == "" {
      assert t == "" + [sep] + piece;
      SplitFirst("", piece, sep);
      SplitPlain(piece, sep);
    } else {
      assert t[1..] == s[1..] + [sep] + piece;
      SplitAppend(s[1..], piece, sep);
    }
  }

  /* ---- decimal numbers ---- */

  predicate IsDigit(c: char) { '0' <= c <= '9' }

  predicate AllDigits(s: string) {
    forall c | c in s :: IsDigit(c)
  }

  function Value(digits: string): nat
    requires AllDigits(digits)
  {
    if digits == "" then 0
    else
      var last := |digits| - 1;
      assert IsDigit(digits[last]);
      Value(digits[..last]) * 10 + (digits[last] as int - '0' as int)
  }

  function Decimal(n: nat): (s: string)
    ensures |s| >= 1 && AllDigits(s)
  {
    var digit := [('0' as int + n % 10) as char];
    if n < 10 then digit else Decimal(n / 10) + digit
  }

  lemma {:induction false} ValueOfDecimal(n: nat)
    ensures Value(Decimal(n)) == n
  {
    var digit := ('0' as int + n % 10) as char;
    var last := |Decimal(n)| - 1;
    assert Decimal(n)[last] == digit;
    if n >= 10 {
      ValueOfDecimal(n / 10);
      assert Decimal(n)[..last] == Decimal(n / 10);
    } else {
      assert Decimal(n)[..last] == "";
    }
  }

  function Zeros(k: nat): (s: string)
    ensures |s| == k && AllDigits(s)
  {
    seq(k, _ => '0')
  }

  lemma {:induction false} LeadingZeros(k: nat, digits: string)
    requires AllDigits(digits)
    ensures AllDigits(Zeros(k) + digits)
    ensures Value(Zeros(k) + digits) == Value(digits)
    decreases |digits|, k
  {
    var s := Zeros(k) + digits;
    if digits == "" {
      if k > 0 {
        LeadingZeros(k - 1, "");
        assert s[..k - 1] == Zeros(k - 1) + "";
      }
    } else {
      LeadingZeros(k, digits[..|digits| - 1]);
      assert s[..|s| - 1] == Zeros(k) + digits[..|digits| - 1];
    }
  }

  /** Go's `%08v` for an int: zero-padded on the left to eight characters, sign first. */
  function Pad8(n: int): string {
    if n >= 0 then
      var d := Decimal(n);
      Zeros(if |d| < 8 then 8 - |d| else 0) + d
    else
      var d := Decimal(-n);
      "-" + Zeros(if |d| < 7 then 7 - |d| else 0) + d
  }

  datatype ParsedInt = ParsedInt(value: int, ok: bool)

  function Clamp(n: int): int {
    if n > MAX_INT64 then MAX_INT64 else if n < MIN_INT64 then MIN_INT64 else n
  }

  /** strconv.Atoi (and ParseInt in base 10): an optional sign, then digits; value 0 with an error
      on bad syntax, the nearest representable value with an error when out of range. */
  function Atoi(s: string): ParsedInt {
    var signed := s != "" && (s[0] == '-' || s[0] == '+');
    var digits := if signed then s[1..] else s;
    if digits == "" || !AllDigits(digits) then ParsedInt(0, false)
    else
      var n: int := if signed && s[0] == '-' then 0 - Value(digits) else Value(digits);
      ParsedInt(Clamp(n), MIN_INT64 <= n <= MAX_INT64)
  }

  /** A printed number reads back as itself, padded or not, whatever its length. */
  lemma {:induction false} AtoiOfPrinted(n: nat)
    requires n <= MAX_INT64
    ensures Atoi(Decimal(n)) == ParsedInt(n, true)
    ensures Atoi(Pad8(n)) == ParsedInt(n, true)
  {
    ValueOfDecimal(n);
    var d := Decimal(n);
    LeadingZeros(if |d| < 8 then 8 - |d| else 0, d);
    assert IsDigit(d[0]);
    assert IsDigit(Pad8(n)[0]);
  }

  lemma {:induction false} AtoiOfMinInt()
    ensures Atoi(Pad8(MIN_INT64)) == ParsedInt(MIN_INT64, true)
  {
    var d := Decimal(-MIN_INT64);
    ValueOfDecimal(-MIN_INT64);
    var k := if |d| < 7 then 7 - |d| else 0;
    LeadingZeros(k, d);
    assert Pad8(MIN_INT64)[1..] == Zeros(k) + d;
  }
}
