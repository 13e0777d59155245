/** Decimal numerals, as `to_string` and zero-padded formatting write them. */
module Decimal {

  const DIGITS := "0123456789"

  function Digits(n: nat): (s: string)
    ensures s != "" && forall ch :: ch in s ==> ch in DIGITS
  {
    if n < 10 then [DIGITS[n]]
    else
      var front := Digits(n / 10);
      front + [DIGITS[n % 10]]
  }

  function DigitValue(c: char): nat { if '0' <= c <= '9' then (c - '0') as int else 0 }

  function Value(s: string): nat {
    if s == "" then 0 else 10 * Value(s[..|s| - 1]) + DigitValue(s[|s| - 1])
  }

  lemma DigitReads(d: nat)
    requires d < 10
    ensures DigitValue(DIGITS[d]) == d
  {
  }

  lemma {:induction false} DigitsRead(n: nat)
    ensures Value(Digits(n)) == n
  {
    DigitReads(n % 10);
    var s := Digits(n);
    if n < 10 {
      assert s[..|s| - 1] == "";
    } else {
      DigitsRead(n / 10);
      assert s[..|s| - 1] == Digits(n / 10);
    }
  }

  /** Different numbers have different numerals. */
  lemma DigitsDiffer(m: nat, n: nat)
    ensures Digits(m) == Digits(n) <==> m == n
  {
    DigitsRead(m);
    DigitsRead(n);
  }

  function Padding(n: nat): (s: string)
    ensures |s| == n
  {
    if n == 0 then "" else "0" + Padding(n - 1)
  }

  /** `{n:04}`: at least `width` characters, padded with zeros on the left. */
  function Padded(n: nat, width: nat): string {
    var s := Digits(n);
    if |s| >= width then s else Padding(width - |s|) + s
  }

  lemma {:induction false} PaddingIsZero(k: nat, s: string)
    ensures Value(Padding(k) + s) == Value(s)
    decreases k, |s|
  {
    var all := Padding(k) + s;
    if s != "" {
      assert all[..|all| - 1] == Padding(k) + s[..|s| - 1];
      PaddingIsZero(k, s[..|s| - 1]);
    } else if k > 0 {
      PaddingIsZero(k - 1, "0");
      PaddingZeros(k);
      assert all == Padding(k - 1) + "0";
      assert "0"[..0] == "" && Value("0") == 0;
    }
  }

  lemma {:induction false} PaddingZeros(k: nat)
    requires k > 0
    ensures Padding(k) == Padding(k - 1) + "0"
  {
    if k > 1 { PaddingZeros(k - 1); }
  }

  /** Padding keeps numerals apart, whatever the numbers' sizes. */
  lemma PaddedDiffer(m: nat, n: nat, width: nat)
    ensures Padded(m, width) == Padded(n, width) <==> m == n
  {
    DigitsRead(m);
    DigitsRead(n);
    PaddingIsZero(if |Digits(m)| < width then width - |Digits(m)| else 0, Digits(m));
    PaddingIsZero(if |Digits(n)| < width then width - |Digits(n)| else 0, Digits(n));
  }

  lemma {:induction false} PaddedIsDigits(n: nat, width: nat)
    ensures forall ch :: ch in Padded(n, width) ==> ch in DIGITS
  {
    PaddingIsDigits(if |Digits(n)| < width then width - |Digits(n)| else 0);
  }

  lemma {:induction false} PaddingIsDigits(n: nat)
    ensures forall ch :: ch in Padding(n) ==> ch in DIGITS
  {
    if n > 0 { PaddingIsDigits(n - 1); }
  }
}
