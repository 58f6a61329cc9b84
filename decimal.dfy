/** Decimal text of a non-negative integer, as Go's fmt.Sprintf("%d", n)
    writes it, and the reading of such text back into the integer. */
module Decimal {

  predicate IsDigit(c: char) {
    '0' <= c <= '9'
  }

  predicate AllDigits(s: string) {
    forall i :: 0 <= i < |s| ==> IsDigit(s[i])
  }

  /** The character of one decimal digit. */
  function DigitChar(d: nat): (c: char)
    requires d < 10
    ensures IsDigit(c)
    ensures c as int - '0' as int == d
  {
    ('0' as int + d) as char
  }

  /** The shortest base-10 text of n: only digits, never empty, and a
      leading '0' exactly when n is zero ("0" for 0, "8080" for 8080). */
  function Format(n: nat): (s: string)
    ensures |s| >= 1
    ensures AllDigits(s)
    ensures (s[0] == '0') == (n == 0)
    ensures n == 0 ==> s == "0"
    decreases n
  {
    if n < 10 then [DigitChar(n)] else Format(n / 10) + [DigitChar(n % 10)]
  }

  /** The number a text of digits stands for, most significant digit first. */
  function Value(s: string): nat
    requires AllDigits(s)
  {
    if s == [] then 0 else Value(s[..|s| - 1]) * 10 + (s[|s| - 1] as int - '0' as int)
  }

  /** A canonical decimal text: non-empty, only digits, no superfluous leading zero. */
  predicate Canonical(s: string) {
    |s| >= 1 && AllDigits(s) && (s[0] == '0' ==> |s| == 1)
  }

  /** Reading back what Format wrote gives the number that was formatted. */
  lemma {:induction false} ValueOfFormat(n: nat)
    ensures Value(Format(n)) == n
  {
    var s := Format(n);
    if n < 10 {
      assert s[..|s| - 1] == [];
    } else {
      assert s[..|s| - 1] == Format(n / 10);
      ValueOfFormat(n / 10);
    }
  }

  /** Two numbers with the same decimal text are the same number. */
  lemma FormatInjective(m: nat, n: nat)
    requires Format(m) == Format(n)
    ensures m == n
  {
    ValueOfFormat(m);
    ValueOfFormat(n);
  }

  /** Format writes only canonical texts. */
  lemma FormatCanonical(n: nat)
    ensures Canonical(Format(n))
  {
  }

  /** A canonical text whose first digit is not '0' stands for a positive number. */
  lemma {:induction false} ValuePositive(s: string)
    requires |s| >= 1 && AllDigits(s) && s[0] != '0'
    ensures Value(s) >= 1
  {
    if |s| > 1 {
      ValuePositive(s[..|s| - 1]);
    }
  }

  /** Every canonical text is what Format writes for its value: Format is a
      bijection between naturals and canonical texts. */
  lemma {:induction false} FormatOfValue(s: string)
    requires Canonical(s)
    ensures Format(Value(s)) == s
  {
    var init := s[..|s| - 1];
    var d := s[|s| - 1] as int - '0' as int;
    if |s| == 1 {
      assert init == [];
      assert Value(s) == d;
      assert Format(d) == [DigitChar(d)];
    } else {
      assert init[0] == s[0] != '0';
      ValuePositive(init);
      FormatOfValue(init);
      var v := Value(init);
      assert Value(s) == v * 10 + d;
      assert Value(s) / 10 == v && Value(s) % 10 == d;
      assert s == init + [s[|s| - 1]];
    }
  }
}
