/** Go's 64-bit `int`/`time.Duration` arithmetic and `strconv.Atoi`. */
module GoInt {
  import opened Wrappers

  const MinInt64: int := -0x8000_0000_0000_0000
  const MaxInt64: int := 0x7fff_ffff_ffff_ffff
  const MaxUint64: int := 0xffff_ffff_ffff_ffff
  const TwoTo64: int := 0x1_0000_0000_0000_0000

  predicate InRange(x: int) {
    MinInt64 <= x <= MaxInt64
  }

  /** Two's-complement wrap-around of a mathematical result into int64. */
  function Wrap(x: int): (r: int)
    ensures InRange(r)
    ensures InRange(x) ==> r == x
  {
    (x - MinInt64) % TwoTo64 + MinInt64
  }

  /** Go's `x++` on an int. */
  function Inc(x: int): (r: int)
    ensures InRange(x) && x < MaxInt64 ==> r == x + 1
    ensures x == MaxInt64 ==> r == MinInt64
  {
    Wrap(x + 1)
  }

  predicate IsDigit(c: char) {
    '0' <= c <= '9'
  }

  function DigitValue(c: char): (d: nat)
    requires IsDigit(c)
    ensures d < 10
  {
    c as int - '0' as int
  }

  function DigitChar(d: nat): (c: char)
    requires d < 10
    ensures IsDigit(c) && DigitValue(c) == d
  {
    ('0' as int + d) as char
  }

  predicate AllDigits(s: string) {
    forall i :: 0 <= i < |s| ==> IsDigit(s[i])
  }

  /** The decimal value of a digit string, most significant digit first. */
  function DecimalValue(s: string): nat
    requires AllDigits(s)
  {
    if |s| == 0 then 0 else DecimalValue(s[..|s| - 1]) * 10 + DigitValue(s[|s| - 1])
  }

  /** Outcome of scanning an unsigned base-10 magnitude. */
  datatype Scan = SyntaxError | RangeError | Magnitude(n: nat)

  /** `strconv.ParseUint(s, 10, 64)` continued from accumulator `acc`: digits
      accumulate left to right; an accumulator that would pass 2^64-1 is a
      range error reported at once, before later characters are looked at;
      any other character is a syntax error. */
  function ScanUint(s: string, acc: nat): (r: Scan)
    requires acc <= MaxUint64
    ensures r.Magnitude? ==> AllDigits(s) && r.n <= MaxUint64
    ensures r.SyntaxError? ==> !AllDigits(s)
    decreases |s|
  {
    if |s| == 0 then Magnitude(acc)
    else if !IsDigit(s[0]) then SyntaxError
    else if acc * 10 + DigitValue(s[0]) > MaxUint64 then RangeError
    else
      var r := ScanUint(s[1..], acc * 10 + DigitValue(s[0]));
      assert r.Magnitude? ==> AllDigits([s[0]] + s[1..]);
      assert s == [s[0]] + s[1..];
      r
  }

  /** An optional sign followed by at least one digit. */
  predicate IsDecimal(s: string) {
    var body := if |s| > 0 && (s[0] == '+' || s[0] == '-') then s[1..] else s;
    |body| > 0 && AllDigits(body)
  }

  /** `strconv.Atoi`: a syntax error yields 0, an out-of-range magnitude
      yields the int64 bound of its sign, both with a non-nil error. */
  function Atoi(s: string): (r: Checked<int>)
    ensures InRange(r.value)
    ensures r.ok ==> IsDecimal(s)
    ensures !IsDecimal(s) && (|s| == 0 || s[0] != '-') ==> r.value >= 0
  {
    var neg := |s| > 0 && s[0] == '-';
    var body := if |s| > 0 && (s[0] == '+' || s[0] == '-') then s[1..] else s;
    if |body| == 0 then Checked(0, false)
    else
      match ScanUint(body, 0)
      case SyntaxError => Checked(0, false)
      case RangeError => Checked(if neg then MinInt64 else MaxInt64, false)
      case Magnitude(n) =>
        if !neg && n > MaxInt64 then Checked(MaxInt64, false)
        else if neg && n > -MinInt64 then Checked(MinInt64, false)
        else
          var v: int := if neg then 0 - (n as int) else n;
          Checked(v, true)
  }

  /** A text that is not an integer reads as 0 with an error, provided it
      is at most 20 characters long: then at most 19 digits precede its
      first bad character, too few for the magnitude to overflow first.
      (A longer text may start with a digit run above 2^64-1, which
      overflows first and reads as an int64 bound.) */
  lemma AtoiNonDecimal(s: string)
    requires !IsDecimal(s) && |s| <= 20
    ensures Atoi(s) == Checked(0, false)
  {
    var body := if |s| > 0 && (s[0] == '+' || s[0] == '-') then s[1..] else s;
    if |body| > 0 {
      ScanSyntax(body, 0);
    }
  }

  /** Scanning a text with a non-digit meets it before the accumulator can
      pass 2^64-1, as long as the digits read so far and the digits left
      number at most 20. */
  lemma {:induction false} ScanSyntax(s: string, acc: nat)
    requires !AllDigits(s) && |s| <= 20 && acc < Pow10(20 - |s|)
    ensures acc <= MaxUint64 && ScanUint(s, acc) == SyntaxError
    decreases |s|
  {
    Pow10Mono(20 - |s|, 19);
    Pow10Nineteen();
    if IsDigit(s[0]) {
      assert |s| >= 2 by {
        if |s| == 1 { assert AllDigits(s); }
      }
      var next := acc * 10 + DigitValue(s[0]);
      assert Pow10(20 - |s[1..]|) == 10 * Pow10(20 - |s|);
      Pow10Mono(20 - |s[1..]|, 19);
      ScanSyntax(s[1..], next);
    }
  }

  lemma {:induction false} Pow10Mono(a: nat, b: nat)
    requires a <= b
    ensures Pow10(a) <= Pow10(b)
    decreases b
  {
    if a < b {
      Pow10Mono(a, b - 1);
    }
  }

  lemma Pow10Nineteen()
    ensures Pow10(19) == 10_000_000_000_000_000_000
  {
    assert Pow10(4) == 10_000;
    assert Pow10(8) == 100_000_000;
    assert Pow10(12) == 1_000_000_000_000;
    assert Pow10(16) == 10_000_000_000_000_000;
  }

  /** A short run of digits reads as its decimal value. */
  lemma ScanShort(s: string)
    requires AllDigits(s) && 1 <= |s| <= 2
    ensures ScanUint(s, 0) == Magnitude(DecimalValue(s))
  {
    var a := DigitValue(s[0]);
    assert s[..1] == [s[0]];
    assert DecimalValue(s[..1]) == a;
    if |s| == 2 {
      var t := s[1..];
      assert t[1..] == [];
      assert ScanUint(t, a) == ScanUint(t[1..], a * 10 + DigitValue(s[1]));
    }
  }

  /** One or two plain digits read by `Atoi` give their decimal value without error. */
  lemma AtoiShortDigits(s: string)
    requires 1 <= |s| <= 2 && AllDigits(s)
    ensures Atoi(s) == Checked(DecimalValue(s) as int, true)
  {
    assert IsDigit(s[0]);
    assert s[..1] == [s[0]];
    assert DecimalValue(s[..1]) == DigitValue(s[0]);
    if |s| == 2 {
      assert DecimalValue(s) == DigitValue(s[0]) * 10 + DigitValue(s[1]);
    }
    ScanShort(s);
  }

  function Pow10(k: nat): (r: nat)
    ensures r >= 1
  {
    if k == 0 then 1 else 10 * Pow10(k - 1)
  }

  /** The decimal value read from the most significant digit. */
  lemma {:induction false} DecimalFront(s: string)
    requires AllDigits(s) && |s| >= 1
    ensures DecimalValue(s) == DigitValue(s[0]) * Pow10(|s| - 1) + DecimalValue(s[1..])
  {
    var n := |s|;
    if n > 1 {
      var init := s[..n - 1];
      DecimalFront(init);
      assert init[0] == s[0];
      assert init[1..] == s[1..][..n - 2];
      var d, p, m := DigitValue(s[0]), Pow10(n - 2), DecimalValue(init[1..]);
      assert DecimalValue(s) == (d * p + m) * 10 + DigitValue(s[n - 1]);
      assert (d * p + m) * 10 == d * (10 * p) + m * 10;
      assert DecimalValue(s[1..]) == m * 10 + DigitValue(s[n - 1]);
    }
  }

  /** Scanning digits whose value fits in 64 bits yields that value:
      `ParseUint` agrees with `DecimalValue`. */
  lemma {:induction false} ScanDigits(s: string, acc: nat)
    requires AllDigits(s) && acc <= MaxUint64
    requires acc * Pow10(|s|) + DecimalValue(s) <= MaxUint64
    ensures ScanUint(s, acc) == Magnitude(acc * Pow10(|s|) + DecimalValue(s))
    decreases |s|
  {
    if |s| > 0 {
      var d, p := DigitValue(s[0]), Pow10(|s| - 1);
      var next := acc * 10 + d;
      DecimalFront(s);
      Shift(acc, d, p);
      Grow(next, p);
      assert next <= MaxUint64;
      ScanDigits(s[1..], next);
    }
  }

  lemma Shift(acc: nat, d: nat, p: nat)
    ensures acc * (10 * p) + d * p == (acc * 10 + d) * p
  {
  }

  lemma Grow(x: nat, p: nat)
    requires p >= 1
    ensures x <= x * p
  {
  }

  /** Decimal digits of `n`, without leading zeros. */
  function Digits(n: nat): (s: string)
    ensures |s| >= 1 && AllDigits(s)
    decreases n
  {
    if n < 10 then [DigitChar(n)] else Digits(n / 10) + [DigitChar(n % 10)]
  }

  /** `strconv.Itoa`. */
  function Itoa(n: int): (s: string)
    ensures |s| >= 1 && (IsDigit(s[0]) || s[0] == '-')
  {
    if n < 0 then "-" + Digits(-n) else Digits(n)
  }

  /** `Digits` writes the value `DecimalValue` reads. */
  lemma {:induction false} DigitsValue(n: nat)
    ensures DecimalValue(Digits(n)) == n
    decreases n
  {
    if n >= 10 {
      DigitsValue(n / 10);
      var s := Digits(n);
      assert s[..|s| - 1] == Digits(n / 10);
    }
  }

  /** `Atoi` reads back every int64 that `Itoa` writes. */
  lemma AtoiItoa(n: int)
    requires InRange(n)
    ensures Atoi(Itoa(n)) == Checked(n, true)
  {
    var m: nat := if n < 0 then -n else n;
    DigitsValue(m);
    ScanDigits(Digits(m), 0);
    if n < 0 {
      assert Itoa(n)[1..] == Digits(m);
    }
  }
}
