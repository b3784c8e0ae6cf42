/** Decimal text of natural numbers: printf("%d") and the scanf/atoi reader. */
module Decimal {
  import opened Wrappers

  function Digit(n: nat): char
    requires n < 10
  {
    ('0' as int + n) as char
  }

  function Digits(n: nat): string {
    if n < 10 then [Digit(n)] else Digits(n / 10) + [Digit(n % 10)]
  }

  predicate IsDigit(c: char) { '0' <= c <= '9' }

  /** The number at the front of a text, continuing from the digits read so far. */
  function ScanNat(s: string, acc: Option<nat>): Option<nat> {
    if s == "" || !IsDigit(s[0]) then acc
    else ScanNat(s[1..], Some((if acc.Some? then acc.value else 0) * 10 + (s[0] as int - '0' as int)))
  }

  lemma {:induction false} ScanFront(n: nat, t: string)
    ensures ScanNat(Digits(n) + t, None) == ScanNat(t, Some(n))
  {
    if n < 10 {
      assert (Digits(n) + t)[1..] == t;
    } else {
      var d := Digit(n % 10);
      assert Digits(n) + t == Digits(n / 10) + ([d] + t);
      ScanFront(n / 10, [d] + t);
      assert ([d] + t)[1..] == t;
    }
  }

  /** A printed number is read back, whatever follows it. */
  lemma ScanDigits(n: nat, t: string)
    requires t == "" || !IsDigit(t[0])
    ensures ScanNat(Digits(n) + t, None) == Some(n)
  {
    ScanFront(n, t);
  }

  lemma {:induction false} DigitsAreDigits(n: nat)
    ensures Digits(n) != "" && forall i | 0 <= i < |Digits(n)| :: IsDigit(Digits(n)[i])
  {
    if n >= 10 { DigitsAreDigits(n / 10); }
  }
}
