/** Decimal numbers as they appear in bencoded data. */
module Decimal {
  import opened Base

  const ZERO := 48
  const MINUS := 45

  predicate IsDigit(b: Byte) { ZERO <= b <= ZERO + 9 }

  predicate AllDigits(s: Bytes) { forall i :: 0 <= i < |s| ==> IsDigit(s[i]) }

  /** The digits of a natural number, without leading zeros. */
  function Print(n: nat): (s: Bytes)
    ensures |s| >= 1
  {
    if n < 10 then [ZERO + n] else Print(n / 10) + [ZERO + n % 10]
  }

  /** The number some digits stand for, leading zeros and all. */
  function Number(s: Bytes): nat
    requires AllDigits(s)
  {
    if s == [] then 0
    else
      var digit: int := s[|s| - 1];
      Number(s[..|s| - 1]) * 10 + digit - ZERO
  }

  predicate Padded(s: Bytes) { |s| > 1 && s[0] == ZERO }

  lemma {:induction false} PrintedIsCanonical(n: nat)
    ensures AllDigits(Print(n)) && !Padded(Print(n)) && Number(Print(n)) == n
    ensures Print(n)[0] == ZERO ==> n == 0
  {
    var s := Print(n);
    if n >= 10 {
      PrintedIsCanonical(n / 10);
      assert s[..|s| - 1] == Print(n / 10);
    } else {
      assert s[..0] == [];
    }
  }

  /** Printing a number that was read drops its leading zeros and nothing else. */
  lemma {:induction false} ReadThenPrint(s: Bytes)
    requires AllDigits(s) && s != []
    ensures |Print(Number(s))| <= |s|
    ensures Print(Number(s)) == s <==> !Padded(s)
    ensures |Print(Number(s))| == |s| <==> !Padded(s)
    ensures Number(s) == 0 ==> s[0] == ZERO
  {
    var init, last := s[..|s| - 1], s[|s| - 1];
    if init == [] {
      assert Number(init) == 0;
      assert s == [last];
    } else {
      ReadThenPrint(init);
      assert s == init + [last];
      var n, digit: int := Number(init), last;
      assert Number(s) == n * 10 + digit - ZERO;
      if n > 0 {
        assert Number(s) / 10 == n && Number(s) % 10 == digit - ZERO;
        assert Print(Number(s)) == Print(n) + [last];
      } else {
        assert init[0] == ZERO && Padded(s);
        assert |Print(Number(s))| == 1;
      }
    }
  }
}
