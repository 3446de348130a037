/**
 * Decimal text of integers as Go writes and reads it: `fmt.Sprintf("%d", n)` (equivalently
 * `strconv.Itoa`) and `strconv.Atoi` on a 64-bit platform. The result store, the registration
 * ledger and the command-line client all key or parse GPU ids through these two functions.
 */
module Decimal {
  import opened Wrappers

  /** The range of Go's `int` on a 64-bit platform, which `strconv.Atoi` accepts. */
  const IntMin: int := -0x8000_0000_0000_0000
  const IntMax: int := 0x7fff_ffff_ffff_ffff

  predicate IsDigit(c: char) { '0' <= c <= '9' }

  predicate AllDigits(s: string) { forall i :: 0 <= i < |s| ==> IsDigit(s[i]) }

  function DigitChar(d: nat): (c: char)
    requires d < 10
    ensures IsDigit(c) && c as int - '0' as int == d
  {
    (('0' as int) + d) as char
  }

  /** Digits of `n`, most significant first, with no leading zero (zero is "0"). */
  function NatDigits(n: nat): (s: string)
    ensures |s| >= 1 && AllDigits(s)
    ensures |s| > 1 ==> s[0] != '0'
    decreases n
  {
    if n < 10 then [DigitChar(n)] else NatDigits(n / 10) + [DigitChar(n % 10)]
  }

  /** Go's `%d`: a minus sign for negative numbers, then the digits of the magnitude. */
  function Itoa(n: int): (s: string)
    ensures |s| >= 1
    ensures forall i :: 0 <= i < |s| ==> s[i] == '-' || IsDigit(s[i])
    ensures (n < 0) == (s[0] == '-')
  {
    if n < 0 then "-" + NatDigits(-n) else NatDigits(n)
  }

  /** The value of a run of decimal digits (leading zeros allowed, as `strconv.Atoi` allows them). */
  function DigitsValue(s: string): nat
    requires AllDigits(s)
  {
    if s == [] then 0
    else DigitsValue(s[..|s| - 1]) * 10 + (s[|s| - 1] as int - '0' as int)
  }

  /** `strconv.Atoi`: an optional sign, at least one digit and nothing else, in the 64-bit range. */
  function Atoi(s: string): (r: Option<int>)
    ensures r.Some? ==> IntMin <= r.value <= IntMax
    ensures r.Some? ==> |s| >= 1
  {
    var signed := |s| > 0 && (s[0] == '+' || s[0] == '-');
    var body := if signed then s[1..] else s;
    if body == [] || !AllDigits(body) then None
    else
      var magnitude: int := DigitsValue(body);
      var v := if signed && s[0] == '-' then -magnitude else magnitude;
      if IntMin <= v <= IntMax then Some(v) else None
  }

  /** A run of `k` zero digits. */
  function Zeros(k: nat): string {
    seq(k, _ => '0')
  }

  function Abs(n: int): nat {
    if n < 0 then -n else n
  }

  /**
   * `s` spells `n` as `strconv.Atoi` reads it: no sign, a '+' or a '-' (the '-' only when `n` is
   * not positive, a missing or '+' sign only when it is not negative), then `zeros` leading
   * zeros, then the canonical digits of the magnitude of `n`.
   */
  predicate SpelledAs(s: string, n: int, sign: string, zeros: nat) {
    && (sign == "" || sign == "+" || sign == "-")
    && (if sign == "-" then n <= 0 else n >= 0)
    && s == sign + Zeros(zeros) + NatDigits(Abs(n))
  }

  lemma {:induction false} DigitsValueOfNatDigits(n: nat)
    ensures DigitsValue(NatDigits(n)) == n
    decreases n
  {
    var s := NatDigits(n);
    if n >= 10 {
      DigitsValueOfNatDigits(n / 10);
      assert s[..|s| - 1] == NatDigits(n / 10);
    }
  }

  /** Reading back what `%d` wrote gives the number again, for every 64-bit int. */
  lemma AtoiItoa(n: int)
    requires IntMin <= n <= IntMax
    ensures Atoi(Itoa(n)) == Some(n)
  {
    var s := Itoa(n);
    if n < 0 {
      DigitsValueOfNatDigits(-n);
      assert s[1..] == NatDigits(-n);
    } else {
      DigitsValueOfNatDigits(n);
    }
  }

  lemma NatDigitsInjective(m: nat, n: nat)
    requires NatDigits(m) == NatDigits(n)
    ensures m == n
  {
    DigitsValueOfNatDigits(m);
    DigitsValueOfNatDigits(n);
  }

  /** Distinct ints have distinct decimal texts (for all ints, not only the 64-bit ones). */
  lemma ItoaInjective(a: int, b: int)
    requires Itoa(a) == Itoa(b)
    ensures a == b
  {
    assert (a < 0) == (b < 0) by {
      assert (a < 0) == (Itoa(a)[0] == '-') && (b < 0) == (Itoa(b)[0] == '-');
    }
    if a < 0 {
      var s := Itoa(a);
      assert s == "-" + NatDigits(-a) && Itoa(b) == "-" + NatDigits(-b);
      assert NatDigits(-a) == s[1..] == NatDigits(-b);
      NatDigitsInjective(-a, -b);
    } else {
      NatDigitsInjective(a, b);
    }
  }

  /** The decimal text of an int never holds a colon (what makes `"%s:%d"` keys unambiguous). */
  lemma ItoaHasNoColon(n: int)
    ensures ':' !in Itoa(n)
  {
  }

  lemma {:induction false} ZerosValue(k: nat)
    ensures AllDigits(Zeros(k)) && DigitsValue(Zeros(k)) == 0
    decreases k
  {
    if k > 0 {
      assert Zeros(k)[..k - 1] == Zeros(k - 1);
      ZerosValue(k - 1);
    }
  }

  /** Leading zeros do not change the value of a digit run. */
  lemma {:induction false} LeadingZerosIgnored(k: nat, t: string)
    requires AllDigits(t)
    ensures AllDigits(Zeros(k) + t) && DigitsValue(Zeros(k) + t) == DigitsValue(t)
    decreases |t|
  {
    var u := Zeros(k) + t;
    if t == [] {
      assert u == Zeros(k);
      ZerosValue(k);
    } else {
      assert u[..|u| - 1] == Zeros(k) + t[..|t| - 1];
      LeadingZerosIgnored(k, t[..|t| - 1]);
    }
  }

  /** A digit run without a leading zero is the canonical spelling of its value. */
  lemma {:induction false} CanonicalDigits(d: string)
    requires |d| >= 1 && AllDigits(d)
    requires |d| > 1 ==> d[0] != '0'
    ensures NatDigits(DigitsValue(d)) == d
    decreases |d|
  {
    if |d| > 1 {
      var prefix := d[..|d| - 1];
      var m := DigitsValue(prefix);
      var c := d[|d| - 1] as int - '0' as int;
      CanonicalDigits(prefix);
      assert m >= 1 by {
        if |prefix| == 1 {
          assert prefix == [prefix[0]] && prefix[0] == d[0];
          assert DigitsValue(prefix[..0]) == 0;
        } else {
          assert |NatDigits(m)| > 1;
        }
      }
      var v := m * 10 + c;
      assert v == DigitsValue(d);
      assert v / 10 == m && v % 10 == c;
      assert NatDigits(v) == NatDigits(m) + [DigitChar(c)];
    }
  }

  /** Every non-empty digit run is some leading zeros and then the canonical digits of its value. */
  lemma {:induction false} StripZeros(d: string) returns (k: nat)
    requires |d| >= 1 && AllDigits(d)
    ensures d == Zeros(k) + NatDigits(DigitsValue(d))
    decreases |d|
  {
    if |d| == 1 || d[0] != '0' {
      CanonicalDigits(d);
      k := 0;
      assert Zeros(0) == [];
    } else {
      var rest := d[1..];
      var j := StripZeros(rest);
      assert d == Zeros(1) + rest;
      LeadingZerosIgnored(1, rest);
      k := j + 1;
      assert Zeros(k) == Zeros(1) + Zeros(j);
    }
  }

  /** Every spelling of a 64-bit int reads back as that int. */
  lemma AtoiOfSpelling(s: string, n: int, sign: string, zeros: nat)
    requires IntMin <= n <= IntMax
    requires SpelledAs(s, n, sign, zeros)
    ensures Atoi(s) == Some(n)
  {
    var digits := NatDigits(Abs(n));
    var body := Zeros(zeros) + digits;
    LeadingZerosIgnored(zeros, digits);
    DigitsValueOfNatDigits(Abs(n));
    assert IsDigit(body[0]) by {
      if zeros == 0 {
        assert body[0] == digits[0];
      }
    }
    if sign == "" {
      assert s == body;
    } else {
      assert s[0] == sign[0] && s[1..] == body;
    }
  }

  /** Whatever `strconv.Atoi` accepts is a spelling of the int it returns. */
  lemma AtoiSpelling(s: string, n: int)
    requires Atoi(s) == Some(n)
    ensures exists sign: string, zeros: nat :: SpelledAs(s, n, sign, zeros)
  {
    var signed := |s| > 0 && (s[0] == '+' || s[0] == '-');
    var body := if signed then s[1..] else s;
    var k := StripZeros(body);
    var sign := if signed then [s[0]] else "";
    assert s == sign + body;
    assert Abs(n) == DigitsValue(body);
    assert SpelledAs(s, n, sign, k);
  }

  /**
   * `strconv.Atoi(s)` succeeds with `n` exactly when `n` is a 64-bit int and `s` is one of its
   * spellings: an optional sign, leading zeros, the canonical digits, and nothing else (no
   * blanks, no underscores, no other characters).
   */
  lemma AtoiIff(s: string, n: int)
    ensures Atoi(s) == Some(n) <==>
            IntMin <= n <= IntMax && exists sign: string, zeros: nat :: SpelledAs(s, n, sign, zeros)
  {
    if Atoi(s) == Some(n) {
      AtoiSpelling(s, n);
    }
    if IntMin <= n <= IntMax && exists sign: string, zeros: nat :: SpelledAs(s, n, sign, zeros) {
      var sign: string, zeros: nat :| SpelledAs(s, n, sign, zeros);
      AtoiOfSpelling(s, n, sign, zeros);
    }
  }

  /** Inputs `strconv.Atoi` rejects and one it reads despite a sign and leading zeros. */
  lemma AtoiExamples()
    ensures Atoi(" 5") == None && Atoi("5a") == None && Atoi("+") == None
    ensures Atoi("") == None && Atoi("1_000") == None
    ensures Atoi("+007") == Some(7) && Atoi("-0") == Some(0)
  {
    assert !AllDigits(" 5") by { assert !IsDigit(" 5"[0]); }
    assert !AllDigits("5a") by { assert !IsDigit("5a"[1]); }
    assert !AllDigits("1_000") by { assert !IsDigit("1_000"[1]); }
    AtoiOfSpelling("+007", 7, "+", 2);
    AtoiOfSpelling("-0", 0, "-", 0);
  }
}
