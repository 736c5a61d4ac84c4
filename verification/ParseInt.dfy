/** fmt's parser of non-negative integers (fmt-11.2.0/include/fmt/base.h:1293-1316). */
module ParseInt {
  import opened Common

  const INT_MAX: nat := 0x7FFF_FFFF

  predicate IsDigit(c: char) { '0' <= c <= '9' }

  predicate AllDigits(s: string) { forall i :: 0 <= i < |s| ==> IsDigit(s[i]) }

  function DigitValue(c: char): (d: nat)
    requires IsDigit(c)
    ensures d <= 9
  {
    (c - '0') as nat
  }

  /** The number a run of digits stands for. */
  function Decimal(s: string): nat
    requires AllDigits(s)
  {
    if s == "" then 0 else Decimal(s[..|s| - 1]) * 10 + DigitValue(s[|s| - 1])
  }

  function Pow10(n: nat): nat { if n == 0 then 1 else 10 * Pow10(n - 1) }

  lemma {:induction false} DecimalBound(s: string)
    requires AllDigits(s)
    ensures Decimal(s) < Pow10(|s|)
  {
    if s != "" { DecimalBound(s[..|s| - 1]); }
  }

  lemma NineDigits(s: string)
    requires AllDigits(s) && |s| <= 9
    ensures Decimal(s) < 1000000000
  {
    DecimalBound(s);
    assert Pow10(3) == 1000;
    assert Pow10(6) == 1000000;
    assert Pow10(9) == 1000000000;
    PowGrows(|s|, 9);
  }

  lemma {:induction false} PowGrows(m: nat, n: nat)
    requires m <= n
    ensures Pow10(m) <= Pow10(n)
  {
    if m < n { PowGrows(m, n - 1); }
  }

  /** The run of digits that starts at a position ends at the first character that is none. */
  predicate DigitRun(s: string, begin: nat, end: nat) {
    begin <= end <= |s| && AllDigits(s[begin..end]) && (end < |s| ==> !IsDigit(s[end]))
  }

  /** One turn of the accumulator, which wraps at 2^32. */
  lemma Accumulate(run: string, c: char)
    requires AllDigits(run) && IsDigit(c)
    ensures AllDigits(run + [c]) && (run + [c])[..|run|] == run
    ensures (Decimal(run) % TWO_32 * 10 + DigitValue(c)) % TWO_32 == Decimal(run + [c]) % TWO_32
  {
    assert (run + [c])[..|run|] == run;
    WrapStep(Decimal(run), DigitValue(c));
  }

  lemma WrapStep(n: nat, d: nat)
    ensures (n % TWO_32 * 10 + d) % TWO_32 == (n * 10 + d) % TWO_32
  {
    var q, r := n / TWO_32, n % TWO_32;
    var m := r * 10 + d;
    assert n * 10 + d == m + 10 * q * TWO_32;
    WrapTurns(m, 10 * q);
  }

  lemma {:induction false} WrapTurns(m: nat, k: nat)
    ensures (m + k * TWO_32) % TWO_32 == m % TWO_32
  {
    if k > 0 { WrapTurns(m, k - 1); }
  }

  /** The loop, base.h:1298-1304: `prev` is one turn behind `value`. */
  method Scan(s: string, begin: nat) returns (value: nat, prev: nat, end: nat)
    requires begin < |s| && IsDigit(s[begin])
    ensures begin < end && DigitRun(s, begin, end)
    ensures value == Decimal(s[begin..end]) % TWO_32
    ensures prev == Decimal(s[begin..end][..end - begin - 1]) % TWO_32
  {
    value, prev := 0, 0;
    var p := begin;
    ghost var run := "";
    while p == begin || (p != |s| && IsDigit(s[p]))
      invariant begin <= p <= |s| && run == s[begin..p] && AllDigits(run)
      invariant value == Decimal(run) % TWO_32
      invariant p > begin ==> prev == Decimal(run[..p - begin - 1]) % TWO_32
      decreases |s| - p
    {
      Accumulate(run, s[p]);
      run := run + [s[p]];
      prev := value;
      value := (value * 10 + DigitValue(s[p])) % TWO_32;
      p := p + 1;
    }
    end := p;
  }

  /** parse_nonnegative_int: it stops behind the run of digits, and although the accumulator wraps
      at 2^32 the result is the exact value if the run has at most ten digits and the value fits an
      int, and the error value otherwise. */
  method ParseNonnegativeInt(s: string, begin: nat, errorValue: int) returns (result: int, end: nat)
    requires begin < |s| && IsDigit(s[begin])
    ensures begin < end && DigitRun(s, begin, end)
    ensures result == if end - begin <= 10 && Decimal(s[begin..end]) <= INT_MAX then Decimal(s[begin..end])
                      else errorValue
  {
    var value, prev;
    value, prev, end := Scan(s, begin);
    var numDigits := end - begin;
    var digits10 := 4 * 8 * 3 / 10;
    if numDigits <= digits10 {
      NineDigits(s[begin..end]);
      return value, end;
    }
    if numDigits == digits10 + 1 {
      NineDigits(s[begin..end][..digits10]);
    }
    result := if numDigits == digits10 + 1 && prev * 10 + DigitValue(s[end - 1]) <= INT_MAX then value else errorValue;
  }

  // ---------------------------------------------------------------------------------------
  // Printed and parsed again

  const NUMERALS := "0123456789"

  /** The decimal numeral of a number, by repeated division. */
  function Numeral(n: nat): (s: string)
    ensures s != ""
  {
    if n < 10 then [NUMERALS[n]] else Numeral(n / 10) + [NUMERALS[n % 10]]
  }

  lemma DigitsAreNumerals(c: char)
    ensures IsDigit(c) <==> c in NUMERALS
  {
    if IsDigit(c) {
      assert NUMERALS[(c - '0') as int] == c;
    }
  }

  lemma {:induction false} NumeralMeans(n: nat)
    ensures AllDigits(Numeral(n)) && Decimal(Numeral(n)) == n
  {
    if n >= 10 {
      NumeralMeans(n / 10);
      assert Numeral(n)[..|Numeral(n)| - 1] == Numeral(n / 10);
    } else {
      assert Numeral(n)[..0] == "";
    }
  }

  lemma {:induction false} NumeralFits(n: nat, k: nat)
    requires n < Pow10(k) && k > 0
    ensures |Numeral(n)| <= k
  {
    if n >= 10 { NumeralFits(n / 10, k - 1); }
  }

  /** Parsing the numeral of any number gives that number if it is an int, and the error value if not; and
      it stops where the numeral ends, whatever follows it but another digit. */
  method ParseNumeral(n: nat, rest: string, errorValue: int) returns (result: int, end: nat)
    requires rest == "" || rest[0] !in "0123456789"
    ensures result == (if n <= 0x7FFF_FFFF then n else errorValue) && end == |Numeral(n)|
  {
    var s := Numeral(n) + rest;
    NumeralMeans(n);
    forall c: char { DigitsAreNumerals(c); }
    assert IsDigit(s[0]) by { assert s[0] == Numeral(n)[0]; }
    result, end := ParseNonnegativeInt(s, 0, errorValue);
    assert s[..|Numeral(n)|] == Numeral(n);
    DigitsOfRun(s, end);
    DigitsOfRun(s, |Numeral(n)|);
    if n <= INT_MAX {
      assert Pow10(5) == 100000 && Pow10(10) == 10000000000;
      NumeralFits(n, 10);
    }
  }

  lemma DigitsOfRun(s: string, end: nat)
    requires DigitRun(s, 0, end)
    ensures forall i :: 0 <= i < end ==> IsDigit(s[i])
  {
    forall i | 0 <= i < end ensures IsDigit(s[i]) {
      assert s[0..end][i] == s[i];
    }
  }
}
