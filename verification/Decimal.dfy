/** Decimal printing as the program's formatter does it, and reading back. */
module Decimal {

  function Digit(n: nat): char
    requires n < 10
  {
    '0' + n as char
  }

  function DigitsOf(n: nat): string {
    if n < 10 then [Digit(n)] else DigitsOf(n / 10) + [Digit(n % 10)]
  }

  function Zeros(n: nat): string {
    seq(n, _ => '0')
  }

  /** Decimal, zero-padded to at least `width` characters. */
  function Padded(n: nat, width: nat): string {
    var digits := DigitsOf(n);
    if |digits| < width then Zeros(width - |digits|) + digits else digits
  }

  function Power(width: nat): nat {
    if width == 0 then 1 else 10 * Power(width - 1)
  }

  predicate IsDigit(c: char) {
    '0' <= c <= '9'
  }

  function DigitValue(c: char): (v: nat)
    requires IsDigit(c)
    ensures v < 10
  {
    (c - '0') as nat
  }

  /** The number a digit string stands for. */
  function Value(s: string): nat
    requires forall c <- s :: IsDigit(c)
  {
    if s == [] then 0
    else
      assert forall c <- s[..|s| - 1] :: c in s;
      10 * Value(s[..|s| - 1]) + DigitValue(s[|s| - 1])
  }

  predicate AllDigits(s: string) {
    forall c <- s :: IsDigit(c)
  }

  /** The last digit apart, padding pads the rest. */
  lemma {:induction false} PaddedLast(n: nat, width: nat)
    requires width > 1
    ensures Padded(n, width) == Padded(n / 10, width - 1) + [Digit(n % 10)]
  {
    if n < 10 {
      assert DigitsOf(n) == [Digit(n)] && DigitsOf(0) == [Digit(0)];
      assert Padded(n, width) == Zeros(width - 1) + [Digit(n)];
      if width == 2 {
        assert Padded(0, 1) == ['0'] == Zeros(1);
      } else {
        assert Padded(0, width - 1) == Zeros(width - 2) + ['0'] == Zeros(width - 1);
      }
    } else {
      var rest := DigitsOf(n / 10);
      assert DigitsOf(n) == rest + [Digit(n % 10)];
      if |rest| < width - 1 {
        assert Zeros(width - |rest| - 1) + (rest + [Digit(n % 10)]) ==
            Zeros(width - 1 - |rest|) + rest + [Digit(n % 10)];
      }
    }
  }

  /** A number that fits is printed in exactly `width` digits and read back. */
  lemma {:induction false} PaddedReads(n: nat, width: nat)
    requires width >= 1 && n < Power(width)
    ensures var s := Padded(n, width); |s| == width && AllDigits(s) && Value(s) == n
    decreases width
  {
    var s := Padded(n, width);
    if width == 1 {
      assert Power(1) == 10 * Power(0);
      assert s == [Digit(n)] && s[..0] == [];
      assert Value(s) == 10 * Value(s[..0]) + DigitValue(s[0]);
    } else {
      PaddedLast(n, width);
      PaddedReads(n / 10, width - 1);
      assert s[..|s| - 1] == Padded(n / 10, width - 1);
    }
  }

  lemma DigitReads(c: char)
    requires IsDigit(c)
    ensures Digit(DigitValue(c)) == c
  {}

  lemma ValueLast(s: string)
    requires |s| >= 1 && AllDigits(s)
    ensures AllDigits(s[..|s| - 1]) && IsDigit(s[|s| - 1])
    ensures Value(s) / 10 == Value(s[..|s| - 1]) && Value(s) % 10 == DigitValue(s[|s| - 1])
  {
    assert s[|s| - 1] in s;
    assert forall c <- s[..|s| - 1] :: c in s;
  }

  /** Conversely every string of `width` digits is printed from its value. */
  lemma {:induction false} ReadsPadded(s: string)
    requires |s| >= 1 && AllDigits(s)
    ensures Value(s) < Power(|s|) && Padded(Value(s), |s|) == s
    decreases |s|
  {
    var n := |s| - 1;
    ValueLast(s);
    DigitReads(s[n]);
    assert s == s[..n] + [s[n]];
    if n == 0 {
      assert Value(s[..0]) == 0 && Power(1) == 10 * Power(0);
      assert Value(s) == DigitValue(s[0]) && DigitsOf(Value(s)) == [Digit(Value(s))];
    } else {
      ReadsPadded(s[..n]);
      PaddedLast(Value(s), |s|);
      assert Power(|s|) == 10 * Power(n);
    }
  }

  /** A printed number reads back, has only digits, and no leading zero. */
  lemma {:induction false} DigitsRead(n: nat)
    ensures var s := DigitsOf(n);
            && |s| >= 1 && AllDigits(s) && Value(s) == n && (s[0] == '0' <==> n == 0) && (n == 0 ==> |s| == 1)
    decreases n
  {
    var s := DigitsOf(n);
    if n < 10 {
      assert s == [Digit(n)] && Value(s[..0]) == 0;
    } else {
      DigitsRead(n / 10);
      assert s[..|s| - 1] == DigitsOf(n / 10);
    }
  }

  /** A digit string without leading zero is how its value is printed. */
  lemma {:induction false} ReadsDigits(s: string)
    requires |s| >= 1 && AllDigits(s) && (|s| > 1 ==> s[0] != '0')
    ensures DigitsOf(Value(s)) == s
    decreases |s|
  {
    var n := |s| - 1;
    ValueLast(s);
    DigitReads(s[n]);
    assert s == s[..n] + [s[n]];
    if n == 0 {
      assert Value(s[..0]) == 0 && Value(s) == DigitValue(s[0]);
    } else {
      ReadsDigits(s[..n]);
      DigitsRead(Value(s[..n]));
    }
  }
}
