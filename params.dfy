/**
  Query-string parameters as the handlers read them: `r.URL.Query().Get(key)`
  and Go's `strconv.Atoi` with its error discarded (`n, _ := strconv.Atoi(s)`),
  so that a parameter always yields a number and never rejects the request.
  That number is not always 0 for a malformed parameter: digits above
  MaxUint64 followed by anything read as the int64 bound of their sign.

  `Atoi` is modelled as Go's `strconv.ParseInt(s, 10, 64)`, which it calls for
  long inputs and which its fast path for short inputs agrees with: an
  optional sign, then decimal digits scanned left to right; a syntax error
  yields 0 and an out-of-range value yields the int64 bound of its sign.
*/
module Params {

  /** `url.Values`: each key maps to the values given for it, in order. */
  type Query = map<string, seq<string>>

  /** `Values.Get`: the first value given for `key`, or "" when there is none. */
  function Get(q: Query, key: string): (v: string)
    ensures (key !in q || q[key] == []) ==> v == ""
    ensures key in q && q[key] != [] ==> v == q[key][0]
  {
    if key in q && |q[key]| > 0 then q[key][0] else ""
  }

  const MinInt64: int := -0x8000_0000_0000_0000
  const MaxInt64: int := 0x7fff_ffff_ffff_ffff
  const MaxUint64: int := 0xffff_ffff_ffff_ffff
  /** The smallest value whose product with 10 exceeds MaxUint64. */
  const Cutoff: int := MaxUint64 / 10 + 1

  predicate IsDigit(c: char) {
    '0' <= c <= '9'
  }

  function DigitValue(c: char): nat
    requires IsDigit(c)
  {
    (c as int) - ('0' as int)
  }

  function DigitChar(d: nat): (c: char)
    requires d < 10
    ensures IsDigit(c) && DigitValue(c) == d
  {
    (('0' as int) + d) as char
  }

  /** Outcome of `strconv.ParseUint`. */
  datatype Scan = Parsed(n: nat) | SyntaxError | RangeError

  /** The digit loop of `ParseUint` with base 10 and bit size 64, from the
      accumulated value `n`: a non-digit is a syntax error at once, and the
      overflow checks run before each digit is added, so an overflow found
      before a later non-digit is reported as a range error. */
  function ScanDigits(s: string, n: nat): Scan
    decreases |s|
  {
    if s == [] then Parsed(n)
    else if !IsDigit(s[0]) then SyntaxError
    else if n >= Cutoff then RangeError
    else if n * 10 + DigitValue(s[0]) > MaxUint64 then RangeError
    else ScanDigits(s[1..], n * 10 + DigitValue(s[0]))
  }

  /** `strconv.ParseUint(s, 10, 64)`: the empty string is a syntax error; a
      decimal is its value, or a range error above MaxUint64; any other text
      is a range error when its leading run of digits already exceeds
      MaxUint64, and a syntax error otherwise. */
  function ParseUint(s: string): (r: Scan)
    ensures s == [] ==> r.SyntaxError?
    ensures IsDecimal(s) ==> r == if DecimalValue(s) > MaxUint64 then RangeError else Parsed(DecimalValue(s))
    ensures !IsDecimal(s) ==> r == if DecimalValue(LeadingDigits(s)) > MaxUint64 then RangeError else SyntaxError
    ensures r.Parsed? ==> IsDecimal(s)
  {
    if s == [] then SyntaxError
    else
      ScanDecimal(s);
      ScanNonDecimal(s);
      ScanParsedIsDecimal(s, 0);
      ScanDigits(s, 0)
  }

  /** `s` without the one leading sign `Atoi` accepts. */
  function Unsigned(s: string): string {
    if s != [] && (s[0] == '+' || s[0] == '-') then s[1..] else s
  }

  /** The longest prefix of `s` made of decimal digits. */
  function LeadingDigits(s: string): (d: string)
    ensures |d| <= |s| && d == s[..|d|]
    ensures forall i | 0 <= i < |d| :: IsDigit(d[i])
    ensures |d| < |s| ==> !IsDigit(s[|d|])
    decreases |s|
  {
    if s == [] || !IsDigit(s[0]) then [] else [s[0]] + LeadingDigits(s[1..])
  }

  /** The digits after the sign begin with a run whose value exceeds
      MaxUint64, so the digit loop overflows before it reaches anything
      else. */
  predicate LeadingRunOverflows(s: string) {
    DecimalValue(LeadingDigits(Unsigned(s))) > MaxUint64
  }

  /** `n, _ := strconv.Atoi(s)`: a signed decimal reads as its value
      clamped to the int64 range, so an out-of-range one reads as the bound
      of its sign; any other text reads as 0, unless the digits after its
      sign begin with a run above MaxUint64, which reads as the bound of the
      sign too. */
  function Atoi(s: string): (r: int)
    ensures MinInt64 <= r <= MaxInt64
    ensures s == "" ==> r == 0
    ensures IsSignedDecimal(s) ==> r == ClampInt64(SignedValue(s))
    ensures !IsSignedDecimal(s) && !LeadingRunOverflows(s) ==> r == 0
    ensures !IsSignedDecimal(s) && LeadingRunOverflows(s) ==> s != [] && r == (if s[0] == '-' then MinInt64 else MaxInt64)
  {
    if s == [] then 0
    else
      var neg := s[0] == '-';
      var digits := Unsigned(s);
      match ParseUint(digits)
      case SyntaxError => 0
      case RangeError => if neg then MinInt64 else MaxInt64
      case Parsed(u) =>
        if !neg && u > MaxInt64 then MaxInt64
        else if neg && u > -MinInt64 then MinInt64
        else var v: int := u; if neg then -v else v
  }

  /** A non-empty run of decimal digits. */
  predicate IsDecimal(s: string) {
    |s| > 0 && forall i | 0 <= i < |s| :: IsDigit(s[i])
  }

  /** What `Atoi` accepts syntactically: an optional sign and a decimal. */
  predicate IsSignedDecimal(s: string) {
    IsDecimal(s) || (|s| > 0 && (s[0] == '+' || s[0] == '-') && IsDecimal(s[1..]))
  }

  /** The number a run of decimal digits denotes, most significant first. */
  function DecimalValue(s: string): nat
    requires forall i | 0 <= i < |s| :: IsDigit(s[i])
    decreases |s|
  {
    if s == [] then 0 else DigitValue(s[0]) * Pow10(|s| - 1) + DecimalValue(s[1..])
  }

  /** The number a signed decimal denotes. */
  function SignedValue(s: string): int
    requires IsSignedDecimal(s)
  {
    if IsDecimal(s) then DecimalValue(s)
    else if s[0] == '-' then var v: int := DecimalValue(s[1..]); -v
    else DecimalValue(s[1..])
  }

  /** Saturation at the int64 bounds. */
  function ClampInt64(v: int): int {
    if v > MaxInt64 then MaxInt64 else if v < MinInt64 then MinInt64 else v
  }

  /** The decimal digits of `u` without leading zeros (`strconv.FormatUint`). */
  function Digits(u: nat): (s: string)
    ensures IsDecimal(s)
    decreases u
  {
    if u < 10 then [DigitChar(u)] else Digits(u / 10) + [DigitChar(u % 10)]
  }

  /** `strconv.Itoa`: the text a client would send for the number `n`. */
  function Itoa(n: int): string {
    if n < 0 then "-" + Digits(-n) else Digits(n)
  }

  function Pow10(k: nat): nat {
    if k == 0 then 1 else 10 * Pow10(k - 1)
  }

  lemma {:induction false} ScanAppend(a: string, b: string, n: nat, m: nat)
    requires ScanDigits(a, n) == Parsed(m)
    ensures ScanDigits(a + b, n) == ScanDigits(b, m)
    decreases |a|
  {
    if a == [] {
      assert a + b == b;
    } else {
      assert (a + b)[0] == a[0] && (a + b)[1..] == a[1..] + b;
      ScanAppend(a[1..], b, n * 10 + DigitValue(a[0]), m);
    }
  }

  /** Scanning the digits of `u` gives back `u`. */
  lemma {:induction false} ScanDigitsOfValue(u: nat)
    requires u <= MaxUint64
    ensures ScanDigits(Digits(u), 0) == Parsed(u)
    decreases u
  {
    if u < 10 {
      assert Digits(u)[1..] == [];
    } else {
      ScanDigitsOfValue(u / 10);
      var last := [DigitChar(u % 10)];
      ScanAppend(Digits(u / 10), last, 0, u / 10);
      assert last[1..] == [];
    }
  }

  /** Round trip: every int64 a client writes in decimal is read back as itself. */
  lemma AtoiItoa(n: int)
    requires MinInt64 <= n <= MaxInt64
    ensures Atoi(Itoa(n)) == n
  {
    if n < 0 {
      ScanDigitsOfValue(-n);
      assert Itoa(n)[1..] == Digits(-n);
    } else {
      ScanDigitsOfValue(n);
      assert IsDigit(Digits(n)[0]);
    }
  }

  lemma {:induction false} Pow10Monotone(k: nat, m: nat)
    requires k <= m
    ensures 1 <= Pow10(k) <= Pow10(m)
    decreases m
  {
    if k < m {
      Pow10Monotone(k, m - 1);
    } else if k > 0 {
      Pow10Monotone(0, k - 1);
    }
  }

  lemma Pow10Bound(k: nat)
    requires k <= 19
    ensures 1 <= Pow10(k) <= 10_000_000_000_000_000_000
    ensures k <= 18 ==> Pow10(k) <= 1_000_000_000_000_000_000
    ensures Pow10(19) == 10_000_000_000_000_000_000
  {
    assert Pow10(0) == 1;
    assert Pow10(1) == 10;
    assert Pow10(2) == 100;
    assert Pow10(3) == 1000;
    assert Pow10(4) == 10000;
    assert Pow10(5) == 100000;
    assert Pow10(6) == 1000000;
    assert Pow10(7) == 10000000;
    assert Pow10(8) == 100000000;
    assert Pow10(9) == 1000000000;
    assert Pow10(10) == 10000000000;
    assert Pow10(11) == 100000000000;
    assert Pow10(12) == 1000000000000;
    assert Pow10(13) == 10000000000000;
    assert Pow10(14) == 100000000000000;
    assert Pow10(15) == 1000000000000000;
    assert Pow10(16) == 10000000000000000;
    assert Pow10(17) == 100000000000000000;
    assert Pow10(18) == 1000000000000000000;
    assert Pow10(19) == 10000000000000000000;
    if k <= 18 {
      Pow10Monotone(k, 18);
    } else {
      Pow10Monotone(k, 19);
    }
  }

  /** With at most 19 characters to go and a small enough accumulator, the
      digit loop can never overflow, so it fails exactly at a non-digit. */
  lemma {:induction false} ShortScanHasNoRangeError(s: string, n: nat)
    requires |s| <= 19 && n < Pow10(19 - |s|)
    ensures ScanDigits(s, n).SyntaxError? <==> exists i | 0 <= i < |s| :: !IsDigit(s[i])
    ensures !ScanDigits(s, n).RangeError?
    decreases |s|
  {
    if s != [] && IsDigit(s[0]) {
      Pow10Bound(19 - |s|);
      Pow10Bound(19 - |s| + 1);
      assert n * 10 + DigitValue(s[0]) < Pow10(19 - |s| + 1);
      ShortScanHasNoRangeError(s[1..], n * 10 + DigitValue(s[0]));
      assert forall i | 1 <= i < |s| :: s[i] == s[1..][i - 1];
    }
  }

  /** Parse-or-default: any parameter that is not a signed decimal (the
      empty, missing parameter included) reads as 0 unless it begins with
      digits above MaxUint64; in particular every such parameter of at most
      19 characters reads as 0. */
  lemma AtoiDefaultsToZero(s: string)
    requires !IsSignedDecimal(s) && !LeadingRunOverflows(s)
    ensures Atoi(s) == 0
    ensures |s| <= 19 ==> !LeadingRunOverflows(s)
  {
    if |s| <= 19 {
      ShortTextCannotOverflow(s);
    }
  }

  /** No text of at most 19 characters begins with a run of digits above
      MaxUint64. */
  lemma ShortTextCannotOverflow(s: string)
    requires |s| <= 19
    ensures !LeadingRunOverflows(s)
  {
    var d := LeadingDigits(Unsigned(s));
    DecimalBelowPow10(d);
    Pow10Bound(|d|);
  }

  /** A run of k digits denotes less than 10^k. */
  lemma {:induction false} DecimalBelowPow10(s: string)
    requires forall i | 0 <= i < |s| :: IsDigit(s[i])
    ensures DecimalValue(s) < Pow10(|s|)
    decreases |s|
  {
    if s != [] {
      assert forall i | 0 <= i < |s[1..]| :: s[1..][i] == s[i + 1];
      DecimalBelowPow10(s[1..]);
      LeadingDigitBound(DigitValue(s[0]), Pow10(|s| - 1), DecimalValue(s[1..]));
    }
  }

  lemma LeadingDigitBound(d: nat, p: nat, rest: nat)
    requires d <= 9 && rest < p
    ensures d * p + rest < 10 * p
  {
  }

  /** A text that starts with neither a sign nor a digit reads as 0, however
      long it is. */
  lemma LetterFirstReadsAsZero(s: string)
    requires s != [] && !IsDigit(s[0]) && s[0] != '+' && s[0] != '-'
    ensures Atoi(s) == 0
  {
    assert LeadingDigits(Unsigned(s)) == [];
  }

  /** Twenty letters: too long for the short-text argument, still 0. */
  lemma LongWordReadsAsZero()
    ensures Atoi("abcdefghijklmnopqrst") == 0
  {
    LetterFirstReadsAsZero("abcdefghijklmnopqrst");
  }

  /** The digit loop from accumulator `n` over a text that is not all digits
      stops at the first non-digit with a syntax error, unless the leading
      run of digits drives the accumulator above MaxUint64 first. */
  lemma {:induction false} ScanLeading(s: string, n: nat)
    requires n <= MaxUint64
    requires exists i | 0 <= i < |s| :: !IsDigit(s[i])
    ensures var lead := LeadingDigits(s);
      var v := n * Pow10(|lead|) + DecimalValue(lead);
      ScanDigits(s, n) == if v > MaxUint64 then RangeError else SyntaxError
    decreases |s|
  {
    var lead := LeadingDigits(s);
    if IsDigit(s[0]) {
      var rest := LeadingDigits(s[1..]);
      var d := DigitValue(s[0]);
      var p := Pow10(|rest|);
      assert lead == [s[0]] + rest && lead[1..] == rest;
      assert forall i | 0 <= i < |s[1..]| :: s[1..][i] == s[i + 1];
      Pow10Monotone(0, |rest|);
      assert Pow10(|lead|) == 10 * p;
      ShiftDigit(n, d, p, DecimalValue(rest));
      if n < Cutoff && n * 10 + d <= MaxUint64 {
        ScanLeading(s[1..], n * 10 + d);
      }
    } else {
      assert lead == [];
    }
  }

  lemma ScanNonDecimal(s: string)
    ensures s != [] && !IsDecimal(s) ==>
      ScanDigits(s, 0) == if DecimalValue(LeadingDigits(s)) > MaxUint64 then RangeError else SyntaxError
  {
    if s != [] && !IsDecimal(s) {
      ScanLeading(s, 0);
    }
  }

  /** The digit loop from accumulator `n` over the digits `s` computes
      `n * 10^|s| + value(s)`, and fails with a range error exactly when that
      exceeds MaxUint64. */
  lemma {:induction false} ScanValue(s: string, n: nat)
    requires forall i | 0 <= i < |s| :: IsDigit(s[i])
    requires n <= MaxUint64
    ensures var v := n * Pow10(|s|) + DecimalValue(s);
      ScanDigits(s, n) == if v > MaxUint64 then RangeError else Parsed(v)
    decreases |s|
  {
    if s != [] {
      var d := DigitValue(s[0]);
      var p := Pow10(|s| - 1);
      assert forall i | 0 <= i < |s[1..]| :: s[1..][i] == s[i + 1];
      Pow10Monotone(0, |s| - 1);
      assert Pow10(|s|) == 10 * p;
      ShiftDigit(n, d, p, DecimalValue(s[1..]));
      if n * 10 + d <= MaxUint64 {
        ScanValue(s[1..], n * 10 + d);
      }
    }
  }

  /** Moving one digit into the accumulator. */
  lemma ShiftDigit(n: nat, d: nat, p: nat, rest: nat)
    requires p >= 1
    ensures n * (10 * p) + (d * p + rest) == (n * 10 + d) * p + rest
    ensures (n * 10 + d) * p + rest >= n * 10 + d
  {
    assert (n * 10 + d) * p == (n * 10 + d) * (p - 1) + (n * 10 + d);
  }

  lemma ScanDecimal(s: string)
    ensures IsDecimal(s) ==>
      ScanDigits(s, 0) == if DecimalValue(s) > MaxUint64 then RangeError else Parsed(DecimalValue(s))
  {
    if IsDecimal(s) {
      ScanValue(s, 0);
    }
  }

  /** The digit loop parses a value only when every character is a digit. */
  lemma {:induction false} ScanParsedIsDecimal(s: string, n: nat)
    ensures ScanDigits(s, n).Parsed? ==> forall i | 0 <= i < |s| :: IsDigit(s[i])
    decreases |s|
  {
    if s != [] && IsDigit(s[0]) && n < Cutoff && n * 10 + DigitValue(s[0]) <= MaxUint64 {
      ScanParsedIsDecimal(s[1..], n * 10 + DigitValue(s[0]));
      assert forall i | 1 <= i < |s| :: s[i] == s[1..][i - 1];
    }
  }

  /** Once the digit loop has overflowed, later characters make no
      difference: the overflow is reported even before a non-digit. */
  lemma {:induction false} ScanRangeErrorAppend(a: string, b: string, n: nat)
    requires ScanDigits(a, n).RangeError?
    ensures ScanDigits(a + b, n).RangeError?
    decreases |a|
  {
    assert (a + b)[0] == a[0] && (a + b)[1..] == a[1..] + b;
    if IsDigit(a[0]) && n < Cutoff && n * 10 + DigitValue(a[0]) <= MaxUint64 {
      ScanRangeErrorAppend(a[1..], b, n * 10 + DigitValue(a[0]));
    }
  }

  /** A decimal above MaxUint64 reads as MaxInt64 whatever follows it. */
  lemma OverflowIgnoresTail(d: string, tail: string)
    requires IsDecimal(d) && DecimalValue(d) > MaxUint64
    ensures Atoi(d + tail) == MaxInt64
  {
    var s := d + tail;
    assert s[0] == d[0];
    assert Unsigned(s) == s;
    ScanValue(d, 0);
    ScanRangeErrorAppend(d, tail, 0);
    assert ParseUint(s) == RangeError;
  }

  /** A run of k nines denotes 10^k - 1. */
  lemma {:induction false} NinesValue(s: string)
    requires forall i | 0 <= i < |s| :: s[i] == '9'
    ensures DecimalValue(s) == Pow10(|s|) - 1
    decreases |s|
  {
    if s != [] {
      assert forall i | 0 <= i < |s[1..]| :: s[1..][i] == s[i + 1];
      NinesValue(s[1..]);
    }
  }

  /** Twenty nines and a letter. */
  const Overflowing: string := "99999999999999999999x"

  /** `Atoi` is not parse-or-zero: twenty nines followed by a letter are not a
      number, yet they read as MaxInt64, because the overflow is found before
      the letter is reached. */
  lemma OverflowingTextIsNotZero()
    ensures Atoi(Overflowing) == MaxInt64
    ensures !IsSignedDecimal(Overflowing)
  {
    var d := Overflowing[..20];
    assert |d| == 20;
    NinesValue(d);
    Pow10Bound(19);
    assert Pow10(20) == 10 * Pow10(19);
    OverflowIgnoresTail(d, "x");
    assert d + "x" == Overflowing;
    assert !IsDigit(Overflowing[20]);
  }

  /** What the handlers evidently intend: `n, err := strconv.Atoi(s)` with
      `n` replaced by 0 whenever `err` is not nil. Go's `Atoi` reports an
      error for every text that is not a signed decimal and for every value
      outside the int64 range. */
  function AtoiOrZero(s: string): (r: int)
    ensures MinInt64 <= r <= MaxInt64
    ensures !IsSignedDecimal(s) ==> r == 0
    ensures IsSignedDecimal(s) && MinInt64 <= SignedValue(s) <= MaxInt64 ==> r == SignedValue(s)
    ensures IsSignedDecimal(s) && !(MinInt64 <= SignedValue(s) <= MaxInt64) ==> r == 0
  {
    if IsSignedDecimal(s) && MinInt64 <= SignedValue(s) <= MaxInt64 then SignedValue(s) else 0
  }

  /** The corrected parse agrees with `Atoi` exactly on the in-range signed
      decimals and on the other texts whose leading digits do not overflow;
      they differ on every out-of-range decimal and every overflowing run. */
  lemma AtoiOrZeroAgrees(s: string)
    ensures IsSignedDecimal(s) ==> (AtoiOrZero(s) == Atoi(s) <==> MinInt64 <= SignedValue(s) <= MaxInt64)
    ensures !IsSignedDecimal(s) ==> (AtoiOrZero(s) == Atoi(s) <==> !LeadingRunOverflows(s))
  {
  }
}
