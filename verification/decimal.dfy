/** Decimal rendering and parsing of job ids, as the service uses them:
    `fmt.Sprintf("%d", id)` writes a job id into the body of a POST /hash
    response, and `strconv.Atoi` reads it back from the path of GET /hash/{id}.
    Go's `int` is taken to be 64 bits wide. */
module Decimal {

  import opened Wrappers

  const MaxInt64: int := 0x7fff_ffff_ffff_ffff
  const MinInt64: int := -0x8000_0000_0000_0000

  predicate IsDigit(c: char) {
    '0' <= c <= '9'
  }

  predicate AllDigits(s: string) {
    forall i :: 0 <= i < |s| ==> IsDigit(s[i])
  }

  function DigitChar(d: nat): (c: char)
    requires d < 10
    ensures IsDigit(c) && c as int - '0' as int == d
  {
    ('0' as int + d) as char
  }

  /** The value of a run of decimal digits, most significant first. */
  function DigitsValue(s: string): nat
    requires AllDigits(s)
  {
    if s == [] then 0 else DigitsValue(s[..|s| - 1]) * 10 + (s[|s| - 1] as int - '0' as int)
  }

  /** `%d` of a non-negative int: digits only, never empty, and no leading zero. */
  function Itoa(n: nat): (s: string)
    ensures |s| > 0 && AllDigits(s)
    ensures s[0] == '0' ==> n == 0
  {
    if n < 10 then [DigitChar(n)] else Itoa(n / 10) + [DigitChar(n % 10)]
  }

  /** The part of `s` after an optional leading sign. */
  function Unsigned(s: string): string {
    if |s| > 0 && (s[0] == '+' || s[0] == '-') then s[1..] else s
  }

  /** What base-10 `strconv.Atoi` accepts as syntax: an optional sign, then at least one digit. */
  predicate IsDecimalSyntax(s: string) {
    Unsigned(s) != [] && AllDigits(Unsigned(s))
  }

  /** `strconv.Atoi`: `None` stands for a non-nil error, both for bad syntax and
      for a value outside the 64-bit range. */
  function Atoi(s: string): (r: Option<int>)
    ensures r.Some? ==> IsDecimalSyntax(s)
    ensures r.Some? ==> MinInt64 <= r.value <= MaxInt64
    ensures r.Some? ==> (r.value < 0 ==> s[0] == '-')
  {
    var u := Unsigned(s);
    if u == [] || !AllDigits(u) then None
    else
      var v: int := if s[0] == '-' then 0 - DigitsValue(u) else DigitsValue(u) as int;
      if MinInt64 <= v <= MaxInt64 then Some(v) else None
  }

  /** Reading the digits of `Itoa(n)` gives `n` back. */
  lemma {:induction false} ItoaValue(n: nat)
    ensures DigitsValue(Itoa(n)) == n
  {
    if n >= 10 {
      var s := Itoa(n);
      assert s[..|s| - 1] == Itoa(n / 10);
      ItoaValue(n / 10);
    }
  }

  /** Every id the service renders with `%d` parses back to itself. */
  lemma AtoiItoa(n: nat)
    requires n <= MaxInt64
    ensures Atoi(Itoa(n)) == Some(n)
  {
    ItoaValue(n);
  }

  /** A leading minus sign gives the negated value, down to the smallest 64-bit int. */
  lemma AtoiNegative(n: nat)
    requires n <= -MinInt64
    ensures Atoi("-" + Itoa(n)) == Some(-(n as int))
  {
    var s := "-" + Itoa(n);
    assert Unsigned(s) == Itoa(n);
    ItoaValue(n);
  }

  /** A run of `k` zero digits. */
  function Zeros(k: nat): (z: string)
    ensures |z| == k && AllDigits(z)
    ensures forall i :: 0 <= i < k ==> z[i] == '0'
  {
    seq(k, _ => '0')
  }

  /** Leading zeros add nothing to the value of a run of digits. */
  lemma {:induction false} ZerosPrefixValue(k: nat, s: string)
    requires AllDigits(s)
    ensures AllDigits(Zeros(k) + s)
    ensures DigitsValue(Zeros(k) + s) == DigitsValue(s)
  {
    var t := Zeros(k) + s;
    if s == [] {
      assert t == Zeros(k);
      if k > 0 {
        assert Zeros(k)[..k - 1] == Zeros(k - 1);
        ZerosPrefixValue(k - 1, s);
        assert Zeros(k - 1) + s == Zeros(k - 1);
      }
    } else {
      assert t[..|t| - 1] == Zeros(k) + s[..|s| - 1];
      assert t[|t| - 1] == s[|s| - 1];
      ZerosPrefixValue(k, s[..|s| - 1]);
    }
  }

  /** Any in-range run of digits, bare or after a plus sign, reads as its value. */
  lemma AtoiDigits(u: string)
    requires u != [] && AllDigits(u) && DigitsValue(u) <= MaxInt64
    ensures Atoi(u) == Some(DigitsValue(u))
    ensures Atoi("+" + u) == Some(DigitsValue(u))
  {
  }

  /** Leading zeros and a leading plus sign are accepted: `01` and `+1` both read as 1. */
  lemma AtoiNonCanonical(k: nat, n: nat)
    requires n <= MaxInt64
    ensures Atoi(Zeros(k) + Itoa(n)) == Some(n)
    ensures Atoi("+" + (Zeros(k) + Itoa(n))) == Some(n)
  {
    ItoaValue(n);
    ZerosPrefixValue(k, Itoa(n));
    AtoiDigits(Zeros(k) + Itoa(n));
  }

  /** Any run of digits after a sign, with or without leading zeros: after a
      minus it reads as its negated value down to the smallest 64-bit int, and
      a value past the largest 64-bit int is an error whether bare or after a plus. */
  lemma AtoiSigned(u: string)
    requires u != [] && AllDigits(u)
    ensures Atoi("-" + u) == if DigitsValue(u) <= -MinInt64 then Some(0 - DigitsValue(u) as int) else None
    ensures MaxInt64 < DigitsValue(u) ==> Atoi(u) == None && Atoi("+" + u) == None
  {
  }

  /** Values past the 64-bit range are an error, not a wrapped-around id. */
  lemma AtoiOutOfRange(n: nat)
    requires MaxInt64 < n
    ensures Atoi(Itoa(n)) == None
  {
    ItoaValue(n);
  }

  /** A character that is neither a digit nor a leading sign makes the parse
      fail: a corollary of the syntax `Atoi` accepts. */
  lemma AtoiRejectsNonDigit(s: string, i: nat)
    requires i < |s| && !IsDigit(s[i])
    requires i > 0 || (s[i] != '+' && s[i] != '-')
    ensures Atoi(s) == None
  {
  }
}
