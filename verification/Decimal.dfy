module Options {
  datatype Option<+T> = None | Some(value: T)
}

/** Decimal printing and checked decimal parsing of unsigned integers. */
module Decimal {
  import opened Options

  predicate IsDigit(c: char) {
    '0' <= c <= '9'
  }

  predicate AllDigits(s: string) {
    forall i | 0 <= i < |s| :: IsDigit(s[i])
  }

  function DigitValue(c: char): (v: nat)
    requires IsDigit(c)
  {
    c as int - '0' as int
  }

  function DigitChar(d: nat): (c: char)
    requires d < 10
    ensures IsDigit(c) && DigitValue(c) == d
  {
    '0' + d as char
  }

  function Print(n: nat): (s: string)
    ensures s != "" && AllDigits(s)
  {
    if n < 10 then [DigitChar(n)] else Print(n / 10) + [DigitChar(n % 10)]
  }

  /** Value of a digit string read after a prefix worth `acc`. */
  function ValueFrom(s: string, acc: nat): (v: nat)
    requires AllDigits(s)
    ensures v >= acc
  {
    if s == "" then acc else ValueFrom(s[1..], acc * 10 + DigitValue(s[0]))
  }

  function Value(s: string): nat
    requires AllDigits(s)
  {
    ValueFrom(s, 0)
  }

  /** The digit loop with `checked_mul` and `checked_add`: it gives up at the first prefix above `max`. */
  function Accumulate(s: string, acc: nat, max: nat): Option<nat> {
    if s == "" then Some(acc)
    else if !IsDigit(s[0]) then None
    else
      var v := acc * 10 + DigitValue(s[0]);
      if v > max then None else Accumulate(s[1..], v, max)
  }

  /** `str::parse` for an unsigned type with largest value `max`: an optional plus sign, then digits. */
  function ParseUnsigned(s: string, max: nat): Option<nat> {
    var digits := if s != "" && s[0] == '+' then s[1..] else s;
    if digits == "" then None else Accumulate(digits, 0, max)
  }

  lemma {:induction false} AccumulateIsValue(s: string, acc: nat, max: nat)
    requires acc <= max
    ensures Accumulate(s, acc, max)
         == if AllDigits(s) && ValueFrom(s, acc) <= max then Some(ValueFrom(s, acc)) else None
  {
    if s != "" && IsDigit(s[0]) {
      var v := acc * 10 + DigitValue(s[0]);
      assert s == [s[0]] + s[1..];
      assert AllDigits(s) <==> AllDigits(s[1..]);
      if v <= max {
        AccumulateIsValue(s[1..], v, max);
      }
    }
  }

  lemma {:induction false} ValueSnoc(s: string, acc: nat, c: char)
    requires AllDigits(s) && IsDigit(c)
    ensures AllDigits(s + [c])
    ensures ValueFrom(s + [c], acc) == ValueFrom(s, acc) * 10 + DigitValue(c)
  {
    if s != "" {
      assert (s + [c])[1..] == s[1..] + [c];
      ValueSnoc(s[1..], acc * 10 + DigitValue(s[0]), c);
    }
  }

  /** Parsing a printed number gives it back. */
  lemma {:induction false} ValueOfPrint(n: nat)
    ensures Value(Print(n)) == n
  {
    if n >= 10 {
      ValueOfPrint(n / 10);
      ValueSnoc(Print(n / 10), 0, DigitChar(n % 10));
    } else {
      assert Print(n) == "" + [DigitChar(n)];
      ValueSnoc("", 0, DigitChar(n));
    }
  }

  /** The printed form is the shortest digit string of its value: re-printing drops leading zeros only. */
  lemma {:induction false} PrintShortest(s: string)
    requires s != "" && AllDigits(s)
    ensures |Print(Value(s))| <= |s|
  {
    var n := |s| - 1;
    assert s == s[..n] + [s[n]];
    ValueSnoc(s[..n], 0, s[n]);
    if n > 0 {
      PrintShortest(s[..n]);
    }
  }

  /** A digit string without a leading zero is the printed form of its value. */
  lemma {:induction false} PrintOfValue(s: string)
    requires s != "" && AllDigits(s) && (s[0] == '0' ==> |s| == 1)
    ensures Print(Value(s)) == s
    ensures s[0] != '0' ==> Value(s) > 0
  {
    var n := |s| - 1;
    assert s == s[..n] + [s[n]];
    ValueSnoc(s[..n], 0, s[n]);
    if n > 0 {
      PrintOfValue(s[..n]);
      assert Value(s) / 10 == Value(s[..n]) && Value(s) % 10 == DigitValue(s[n]);
    }
  }

  /** Parsing accepts exactly the digit strings whose value fits, so it rejects every overflow. */
  lemma ParseUnsignedExact(s: string, max: nat)
    requires s != "" && s[0] != '+'
    ensures ParseUnsigned(s, max) == if AllDigits(s) && Value(s) <= max then Some(Value(s)) else None
  {
    AccumulateIsValue(s, 0, max);
  }

  /** With a plus sign in front it is the same, but the sign needs digits after it. */
  lemma ParseUnsignedPlus(s: string, max: nat)
    ensures ParseUnsigned("+" + s, max) == if s != "" && AllDigits(s) && Value(s) <= max then Some(Value(s)) else None
    ensures ParseUnsigned("", max) == None
  {
    assert ("+" + s)[1..] == s;
    AccumulateIsValue(s, 0, max);
  }

  /** A printed number parses back into a type exactly when it fits the type. */
  lemma ParseUnsignedOfPrint(n: nat, max: nat)
    ensures ParseUnsigned(Print(n), max) == if n <= max then Some(n) else None
  {
    assert IsDigit(Print(n)[0]);
    ParseUnsignedExact(Print(n), max);
    ValueOfPrint(n);
  }

  function Pow10(k: nat): nat {
    if k == 0 then 1 else 10 * Pow10(k - 1)
  }

  lemma {:induction false} PrintLength(n: nat, k: nat)
    requires k > 0 && n < Pow10(k)
    ensures |Print(n)| <= k
  {
    if n >= 10 {
      PrintLength(n / 10, k - 1);
    }
  }
}
