/**
 * Go's `strconv.Atoi` on a 64-bit platform, as MatchHandler calls it on the
 * trimmed matcher output: the fast path for inputs of 1 to 18 characters, and
 * otherwise `ParseInt(s, 10, 0)` over `ParseUint`, whose left-to-right scan
 * reports a range error as soon as the digits read so far pass the uint64
 * maximum, even when a non-digit follows.
 */
module Strconv {
  import opened Wrappers

  datatype NumError = ErrSyntax | ErrRange

  const MinInt64: int := -0x8000_0000_0000_0000
  const MaxInt64: int := 0x7FFF_FFFF_FFFF_FFFF
  const MaxUint64: int := 0xFFFF_FFFF_FFFF_FFFF

  predicate IsDigit(c: char)
  {
    '0' <= c <= '9'
  }

  predicate AllDigits(s: string)
  {
    forall i | 0 <= i < |s| :: IsDigit(s[i])
  }

  function DigitValue(c: char): nat
    requires IsDigit(c)
  {
    (c as int) - ('0' as int)
  }

  /** The value of a string of decimal digits, most significant first. */
  function DigitsValue(ds: string): nat
    requires AllDigits(ds)
  {
    if ds == [] then 0 else 10 * DigitsValue(ds[..|ds| - 1]) + DigitValue(ds[|ds| - 1])
  }

  // ------------------------------------------------- reference definition

  /** The text after an optional leading `+` or `-`. */
  function Unsigned(s: string): string
  {
    if s != [] && (s[0] == '+' || s[0] == '-') then s[1..] else s
  }

  predicate Negative(s: string)
  {
    s != [] && s[0] == '-'
  }

  /** An optional sign followed by one or more decimal digits. */
  predicate SignedDigits(s: string)
  {
    Unsigned(s) != [] && AllDigits(Unsigned(s))
  }

  function SignedValue(s: string): int
    requires SignedDigits(s)
  {
    var magnitude: int := DigitsValue(Unsigned(s));
    if Negative(s) then -magnitude else magnitude
  }

  /** Some all-digit prefix of `t` longer than `i` is above the uint64 maximum. */
  ghost predicate OverflowAfter(t: string, i: nat)
  {
    exists k | i < k <= |t| :: AllDigits(t[..k]) && DigitsValue(t[..k]) > MaxUint64
  }

  // ---------------------------------------------------------- Go's code

  /**
   * The loop of `ParseUint(s, 10, 64)` from byte `i`, where `n` is the value
   * of the digits before it. Go first compares `n` with the cutoff
   * `maxUint64/10 + 1`, then checks `n*10 + d` against `maxUint64`.
   */
  function ScanUint(t: string, i: nat, n: nat): Result<nat, NumError>
    requires i <= |t|
    decreases |t| - i
  {
    if i == |t| then Success(n)
    else if !IsDigit(t[i]) then Failure(ErrSyntax)
    else if n >= MaxUint64 / 10 + 1 then Failure(ErrRange)
    else if n * 10 + DigitValue(t[i]) > MaxUint64 then Failure(ErrRange)
    else ScanUint(t, i + 1, n * 10 + DigitValue(t[i]))
  }

  function ParseUint(t: string): Result<nat, NumError>
  {
    if t == [] then Failure(ErrSyntax) else ScanUint(t, 0, 0)
  }

  /**
   * `ParseInt(s, 10, 64)`: strip the sign, parse the rest as unsigned (a
   * range error there leaves the maximum, which is above both cutoffs),
   * then check the int64 bounds.
   */
  function ParseInt(s: string): Result<int, NumError>
  {
    if s == [] then Failure(ErrSyntax)
    else
      match ParseUint(Unsigned(s))
      case Failure(e) => Failure(e)
      case Success(un) =>
        if !Negative(s) && un > MaxInt64 then Failure(ErrRange)
        else if Negative(s) && un > -MinInt64 then Failure(ErrRange)
        else
          var magnitude: int := un;
          Success(if Negative(s) then -magnitude else magnitude)
  }

  /** The fast path's loop: any byte outside `0`-`9` is a syntax error. */
  function FastScan(t: string, i: nat, n: nat): Result<nat, NumError>
    requires i <= |t|
    decreases |t| - i
  {
    if i == |t| then Success(n)
    else if !IsDigit(t[i]) then Failure(ErrSyntax)
    else FastScan(t, i + 1, n * 10 + DigitValue(t[i]))
  }

  /** Atoi's fast path for 1 to 18 characters, which needs no range check. */
  function AtoiFast(s: string): Result<int, NumError>
    requires 0 < |s| < 19
  {
    var t := Unsigned(s);
    if t == [] then Failure(ErrSyntax)
    else
      match FastScan(t, 0, 0)
      case Failure(e) => Failure(e)
      case Success(n) =>
        var magnitude: int := n;
        Success(if Negative(s) then -magnitude else magnitude)
  }

  /**
   * `strconv.Atoi`: an optional sign and then digits (no spaces, no
   * underscores) give their value when it fits int64 and a range error
   * otherwise. Anything else is a syntax error, except that a range error
   * wins when the digits before the first bad byte already pass the uint64
   * maximum.
   */
  function Atoi(s: string): (r: Result<int, NumError>)
    ensures SignedDigits(s) && MinInt64 <= SignedValue(s) <= MaxInt64 ==> r == Success(SignedValue(s))
    ensures SignedDigits(s) && !(MinInt64 <= SignedValue(s) <= MaxInt64) ==> r == Failure(ErrRange)
    ensures !SignedDigits(s) ==>
      r == if OverflowAfter(Unsigned(s), 0) then Failure(ErrRange) else Failure(ErrSyntax)
    ensures r.Success? ==> MinInt64 <= r.value <= MaxInt64
    ensures r.Success? ==> s != [] && (IsDigit(s[0]) || s[0] == '+' || s[0] == '-')
    ensures r.Success? ==> forall i | 0 < i < |s| :: IsDigit(s[i])
    ensures s != [] && AllDigits(s) && DigitsValue(s) <= MaxInt64 ==> r == Success(DigitsValue(s))
  {
    ParseIntMeaning(s);
    if 0 < |s| < 19 then
      FastPathAgrees(s);
      AtoiFast(s)
    else
      ParseInt(s)
  }

  // -------------------------------------------------------------- proofs

  lemma PrefixStep(t: string, i: nat)
    requires i < |t| && AllDigits(t[..i]) && IsDigit(t[i])
    ensures AllDigits(t[..i + 1])
    ensures DigitsValue(t[..i + 1]) == 10 * DigitsValue(t[..i]) + DigitValue(t[i])
  {
    assert t[..i + 1][..i] == t[..i];
    assert t[..i + 1][i] == t[i];
  }

  /** A prefix of a digit string is worth no more than the whole string. */
  lemma {:induction false} PrefixValueBound(t: string, k: nat)
    requires AllDigits(t) && k <= |t|
    ensures AllDigits(t[..k]) && DigitsValue(t[..k]) <= DigitsValue(t)
  {
    if k == |t| {
      assert t[..k] == t;
    } else {
      var u := t[..|t| - 1];
      assert AllDigits(u) by {
        forall j | 0 <= j < |u| ensures IsDigit(u[j]) {
          assert u[j] == t[j];
        }
      }
      PrefixValueBound(u, k);
      assert u[..k] == t[..k];
    }
  }

  /** ParseUint's scan from `i`: it succeeds with the value of `t` exactly
      when no prefix overflows and every byte is a digit. */
  lemma {:induction false} ScanUintMeaning(t: string, i: nat, n: nat)
    requires i <= |t| && AllDigits(t[..i]) && n == DigitsValue(t[..i]) && n <= MaxUint64
    ensures ScanUint(t, i, n).Success? ==>
      AllDigits(t) && ScanUint(t, i, n).value == DigitsValue(t) <= MaxUint64
    ensures ScanUint(t, i, n) == Failure(ErrRange) <==> OverflowAfter(t, i)
    ensures ScanUint(t, i, n) == Failure(ErrSyntax) ==> !AllDigits(t)
    decreases |t| - i
  {
    if i == |t| {
      assert t[..i] == t;
    } else if !IsDigit(t[i]) {
      forall k | i < k <= |t| ensures !AllDigits(t[..k]) {
        assert t[..k][i] == t[i];
      }
    } else {
      PrefixStep(t, i);
      var m := n * 10 + DigitValue(t[i]);
      if n >= MaxUint64 / 10 + 1 || m > MaxUint64 {
        assert AllDigits(t[..i + 1]) && DigitsValue(t[..i + 1]) > MaxUint64;
      } else {
        ScanUintMeaning(t, i + 1, m);
        if OverflowAfter(t, i) {
          var k :| i < k <= |t| && AllDigits(t[..k]) && DigitsValue(t[..k]) > MaxUint64;
          assert k != i + 1;
        }
      }
    }
  }

  lemma ParseUintMeaning(t: string)
    ensures ParseUint(t).Success? <==> t != [] && AllDigits(t) && DigitsValue(t) <= MaxUint64
    ensures ParseUint(t).Success? ==> ParseUint(t).value == DigitsValue(t)
    ensures ParseUint(t) == Failure(ErrRange) <==> OverflowAfter(t, 0)
  {
    if t != [] {
      assert t[..0] == [];
      ScanUintMeaning(t, 0, 0);
      var r := ScanUint(t, 0, 0);
      assert ParseUint(t) == r;
      if AllDigits(t) && DigitsValue(t) <= MaxUint64 {
        NoOverflowBelowMax(t);
        match r
        case Success(_) =>
        case Failure(e) => match e { case ErrRange => case ErrSyntax => }
      }
    }
  }

  /** No prefix of a digit string within the uint64 range overflows. */
  lemma NoOverflowBelowMax(t: string)
    requires AllDigits(t) && DigitsValue(t) <= MaxUint64
    ensures !OverflowAfter(t, 0)
  {
    forall k | 0 < k <= |t| ensures AllDigits(t[..k]) && DigitsValue(t[..k]) <= MaxUint64 {
      PrefixValueBound(t, k);
    }
  }

  /** `ParseInt` meets the reference definition. */
  lemma ParseIntMeaning(s: string)
    ensures SignedDigits(s) && MinInt64 <= SignedValue(s) <= MaxInt64 ==> ParseInt(s) == Success(SignedValue(s))
    ensures SignedDigits(s) && !(MinInt64 <= SignedValue(s) <= MaxInt64) ==> ParseInt(s) == Failure(ErrRange)
    ensures !SignedDigits(s) ==>
      ParseInt(s) == if OverflowAfter(Unsigned(s), 0) then Failure(ErrRange) else Failure(ErrSyntax)
  {
    var t := Unsigned(s);
    ParseUintMeaning(t);
    if s == [] {
      assert !OverflowAfter(t, 0);
    } else if !SignedDigits(s) {
      match ParseUint(t)
      case Failure(e) => assert e == ErrRange <==> OverflowAfter(t, 0);
    } else if DigitsValue(t) > MaxUint64 {
      assert t[..|t|] == t;
    }
  }

  function Pow10(n: nat): nat
  {
    if n == 0 then 1 else 10 * Pow10(n - 1)
  }

  lemma {:induction false} Pow10Grows(a: nat, b: nat)
    requires a <= b
    ensures Pow10(a) <= Pow10(b)
    decreases b
  {
    if a < b {
      Pow10Grows(a, b - 1);
    }
  }

  lemma {:induction false} DigitsBelowPow10(t: string)
    requires AllDigits(t)
    ensures DigitsValue(t) < Pow10(|t|)
  {
    if t != [] {
      var u := t[..|t| - 1];
      assert AllDigits(u) by {
        forall j | 0 <= j < |u| ensures IsDigit(u[j]) {
          assert u[j] == t[j];
        }
      }
      DigitsBelowPow10(u);
    }
  }

  /** At most 18 digits are worth less than 10^18. */
  lemma ShortDigitsSmall(t: string)
    requires AllDigits(t) && |t| <= 18
    ensures DigitsValue(t) < 1_000_000_000_000_000_000
  {
    DigitsBelowPow10(t);
    Pow10Grows(|t|, 18);
    assert Pow10(6) == 1_000_000;
    assert Pow10(12) == 1_000_000_000_000;
  }

  /** The fast path's scan from `i` yields the value of `t`, or a syntax error. */
  lemma {:induction false} FastScanMeaning(t: string, i: nat, n: nat)
    requires i <= |t| && AllDigits(t[..i]) && n == DigitsValue(t[..i])
    ensures FastScan(t, i, n) == if AllDigits(t) then Success(DigitsValue(t)) else Failure(ErrSyntax)
    decreases |t| - i
  {
    if i == |t| {
      assert t[..i] == t;
    } else if IsDigit(t[i]) {
      PrefixStep(t, i);
      FastScanMeaning(t, i + 1, n * 10 + DigitValue(t[i]));
    } else {
      assert !AllDigits(t);
    }
  }

  /** Below 19 bytes the fast path answers exactly as `ParseInt` does. */
  lemma FastPathAgrees(s: string)
    requires 0 < |s| < 19
    ensures AtoiFast(s) == ParseInt(s)
  {
    var t := Unsigned(s);
    ParseIntMeaning(s);
    if t != [] {
      assert t[..0] == [];
      FastScanMeaning(t, 0, 0);
      if AllDigits(t) {
        ShortDigitsSmall(t);
      } else {
        forall k | 0 < k <= |t| && AllDigits(t[..k]) ensures DigitsValue(t[..k]) <= MaxUint64 {
          ShortDigitsSmall(t[..k]);
        }
      }
    }
  }

  lemma {:induction false} Pow10Add(a: nat, b: nat)
    ensures Pow10(a + b) == Pow10(a) * Pow10(b)
    decreases b
  {
    if b > 0 {
      Pow10Add(a, b - 1);
    }
  }

  /** A string of n nines is worth 10^n - 1. */
  lemma {:induction false} AllNines(p: string)
    requires AllDigits(p) && forall i | 0 <= i < |p| :: p[i] == '9'
    ensures DigitsValue(p) + 1 == Pow10(|p|)
  {
    if p != [] {
      var u := p[..|p| - 1];
      assert forall i | 0 <= i < |u| :: u[i] == p[i];
      AllNines(u);
    }
  }

  /**
   * Twenty leading nines are a range error whatever follows, a non-digit
   * included: `ParseUint` passes the uint64 maximum at the twentieth byte,
   * before it reads the rest.
   */
  lemma LeadingNinesOutOfRange(s: string)
    requires |s| >= 20 && forall i | 0 <= i < 20 :: s[i] == '9'
    ensures Atoi(s) == Failure(ErrRange)
  {
    assert Unsigned(s) == s;
    var p := s[..20];
    assert AllDigits(p);
    AllNines(p);
    assert Pow10(10) == 10_000_000_000;
    assert Pow10(20) == 100_000_000_000_000_000_000 by {
      Pow10Add(10, 10);
    }
    if SignedDigits(s) {
      PrefixValueBound(s, 20);
    } else {
      assert OverflowAfter(s, 0) by {
        assert 0 < 20 <= |s| && AllDigits(s[..20]) && DigitsValue(s[..20]) > MaxUint64;
      }
    }
  }

  /** Decimal digits of a natural number, as Python's `str` and Go's `strconv.Itoa` print them. */
  function NatDigits(n: nat): string
  {
    if n < 10 then [('0' as int + n) as char] else NatDigits(n / 10) + [('0' as int + n % 10) as char]
  }

  /** Decimal form of an integer, with a leading `-` when negative. */
  function FormatInt(n: int): string
  {
    if n < 0 then "-" + NatDigits(-n) else NatDigits(n)
  }

  lemma {:induction false} NatDigitsValue(n: nat)
    ensures NatDigits(n) != [] && AllDigits(NatDigits(n))
    ensures DigitsValue(NatDigits(n)) == n
  {
    if n >= 10 {
      NatDigitsValue(n / 10);
      var ds := NatDigits(n);
      assert ds[..|ds| - 1] == NatDigits(n / 10);
    }
  }

  /** `Atoi` reads back every int64 written in decimal. */
  lemma AtoiFormatInt(n: int)
    requires MinInt64 <= n <= MaxInt64
    ensures Atoi(FormatInt(n)) == Success(n)
  {
    if n < 0 {
      NatDigitsValue(-n);
      assert FormatInt(n)[1..] == NatDigits(-n);
    } else {
      NatDigitsValue(n);
    }
  }
}
