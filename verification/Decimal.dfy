/** Base-10 numerals: the printing of an integer and the reading of a string of digits. */
module Decimal {
  function DigitChar(d: nat): char
    requires d < 10
  {
    '0' + d as char
  }

  predicate IsDigit(c: char) {
    '0' <= c <= '9'
  }

  function DigitValue(c: char): nat
    requires IsDigit(c)
  {
    (c - '0') as int
  }

  predicate AllDigits(s: string) {
    forall i :: 0 <= i < |s| ==> IsDigit(s[i])
  }

  /** The number a string of digits denotes; leading zeros are allowed, and the empty
      string denotes zero. */
  function ReadNat(s: string): nat
    requires AllDigits(s)
  {
    if s == "" then 0 else 10 * ReadNat(s[..|s| - 1]) + DigitValue(s[|s| - 1])
  }

  function PrintNat(n: nat): string {
    if n < 10 then [DigitChar(n)] else PrintNat(n / 10) + [DigitChar(n % 10)]
  }

  /** `toString(10)` */
  function Print(n: int): string {
    if n < 0 then "-" + PrintNat(-n) else PrintNat(n)
  }

  /** `0`, or digits that do not start with a zero. */
  predicate Canonical(s: string) {
    s != "" && AllDigits(s) && (s[0] == '0' ==> |s| == 1)
  }

  /** A canonical numeral, negated or not, where zero is not negated. */
  predicate CanonicalInt(s: string) {
    Canonical(s) || (s != "" && s[0] == '-' && Canonical(s[1..]) && s[1] != '0')
  }

  function ReadInt(s: string): int
    requires CanonicalInt(s)
  {
    if s[0] == '-' then -(ReadNat(s[1..]) as int) else ReadNat(s)
  }

  lemma Snoc(s: string, c: char)
    requires AllDigits(s) && IsDigit(c)
    ensures AllDigits(s + [c]) && ReadNat(s + [c]) == 10 * ReadNat(s) + DigitValue(c)
  {
    assert (s + [c])[..|s|] == s;
  }

  lemma {:induction false} PrintedIsCanonical(n: nat)
    ensures Canonical(PrintNat(n)) && ReadNat(PrintNat(n)) == n
    ensures PrintNat(n)[0] == '0' <==> n == 0
  {
    if n < 10 {
      assert PrintNat(n)[..0] == "";
    } else {
      PrintedIsCanonical(n / 10);
      Snoc(PrintNat(n / 10), DigitChar(n % 10));
    }
  }

  lemma {:induction false} CanonicalIsPrinted(s: string)
    requires Canonical(s)
    ensures PrintNat(ReadNat(s)) == s
    ensures ReadNat(s) == 0 <==> s == "0"
  {
    var n := |s| - 1;
    assert s == s[..n] + [s[n]];
    if n == 0 {
      assert s[..0] == "";
    } else {
      CanonicalIsPrinted(s[..n]);
      TenAnd(ReadNat(s[..n]), DigitValue(s[n]));
    }
  }

  lemma TenAnd(q: nat, d: nat)
    requires d < 10
    ensures (10 * q + d) / 10 == q && (10 * q + d) % 10 == d
  {}

  /** Reading undoes printing. */
  lemma ReadPrinted(n: int)
    ensures CanonicalInt(Print(n)) && ReadInt(Print(n)) == n
  {
    if n < 0 {
      PrintedIsCanonical(-n);
      assert Print(n)[1..] == PrintNat(-n);
    } else {
      PrintedIsCanonical(n);
    }
  }

  /** Printing undoes reading. */
  lemma PrintRead(s: string)
    requires CanonicalInt(s)
    ensures Print(ReadInt(s)) == s
  {
    if s[0] == '-' {
      CanonicalIsPrinted(s[1..]);
      assert s == "-" + s[1..];
    } else {
      CanonicalIsPrinted(s);
    }
  }
}
