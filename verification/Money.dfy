/** Money and quantity strings on the wire (packages/validation/src/money.ts and
    packages/module-kit/src/canonical.ts). `bigint` is Dafny's unbounded `int`. */
module Money {
  import opened Options
  import opened Decimal

  const INT64_MIN: int := -9223372036854775808
  const INT64_MAX: int := 9223372036854775807
  const QUANTITY_MILLI_SCALE: nat := 1000

  predicate IsInt64(n: int) {
    INT64_MIN <= n <= INT64_MAX
  }

  predicate NonZeroDigits(s: string) {
    s != "" && '1' <= s[0] <= '9' && AllDigits(s[1..])
  }

  /** `/^(0|-?[1-9][0-9]*)$/` */
  predicate CanonicalInt64(s: string) {
    s == "0" || NonZeroDigits(s) || (s != "" && s[0] == '-' && NonZeroDigits(s[1..]))
  }

  lemma NonZeroDigitsAre(s: string)
    ensures NonZeroDigits(s) <==> Canonical(s) && s != "0"
  {
    if s != "" { assert s == [s[0]] + s[1..]; }
  }

  /** The regular expression is the canonical form. */
  lemma CanonicalInt64Is(s: string)
    ensures CanonicalInt64(s) <==> CanonicalInt(s)
  {
    NonZeroDigitsAre(s);
    if s != "" { NonZeroDigitsAre(s[1..]); }
  }

  predicate IsMoneyWire(value: string) {
    CanonicalInt64(value) && (CanonicalInt64Is(value); IsInt64(ReadInt(value)))
  }

  function MoneyToCanonical(minor: int): string {
    Print(minor)
  }

  /** `BigInt` on the strings it is given. */
  function MoneyFromCanonical(encoded: string): int
    requires CanonicalInt(encoded)
  {
    ReadInt(encoded)
  }

  /** The accepted strings are exactly the printings of the int64 values. */
  lemma MoneyWireIsInt64(value: string)
    ensures IsMoneyWire(value) <==> exists n :: IsInt64(n) && value == MoneyToCanonical(n)
  {
    CanonicalInt64Is(value);
    if IsMoneyWire(value) {
      PrintRead(value);
      assert value == MoneyToCanonical(ReadInt(value));
    }
    forall n | IsInt64(n) && value == MoneyToCanonical(n) ensures IsMoneyWire(value) {
      ReadPrinted(n);
    }
  }

  /** Printing and reading are inverse, each way round. */
  lemma MoneyRoundTrips(minor: int, wire: string)
    requires IsInt64(minor) && IsMoneyWire(wire)
    ensures IsMoneyWire(MoneyToCanonical(minor)) && MoneyFromCanonical(MoneyToCanonical(minor)) == minor
    ensures CanonicalInt(wire) && MoneyToCanonical(MoneyFromCanonical(wire)) == wire
  {
    ReadPrinted(minor);
    CanonicalInt64Is(MoneyToCanonical(minor));
    CanonicalInt64Is(wire);
    PrintRead(wire);
  }

  // ------------------------------------------------------------ quantities

  /** The length of the digits before the point, or of the whole. */
  function PointAt(s: string): (i: nat)
    ensures i <= |s| && (i < |s| ==> s[i] == '.') && '.' !in s[..i]
  {
    if s == "" || s[0] == '.' then 0
    else
      var j := PointAt(s[1..]);
      assert s[..j + 1] == [s[0]] + s[1..][..j];
      j + 1
  }

  function Whole(s: string): string {
    s[..PointAt(s)]
  }

  function Fraction(s: string): string {
    if PointAt(s) < |s| then s[PointAt(s) + 1..] else ""
  }

  /** `/^(?:0|[1-9][0-9]*)(?:\.[0-9]{1,3})?$/` */
  predicate DecimalQuantity(s: string) {
    && (Whole(s) == "0" || NonZeroDigits(Whole(s)))
    && AllDigits(Fraction(s)) && |Fraction(s)| <= 3 && (PointAt(s) < |s| ==> Fraction(s) != "")
  }

  lemma DecimalParts(s: string)
    requires DecimalQuantity(s)
    ensures Canonical(Whole(s)) && AllDigits(Whole(s) + Fraction(s))
  {
    NonZeroDigitsAre(Whole(s));
  }

  /** `padEnd(3, "0")` */
  function PadEnd3(f: string): (r: string)
    requires |f| <= 3
    ensures |r| == 3 && f <= r
    decreases 3 - |f|
  {
    if |f| == 3 then f else PadEnd3(f + "0")
  }

  function DecimalQuantityToMilli(decimal: string): Option<int> {
    if !DecimalQuantity(decimal) then None
    else
      var milli := Milli(decimal);
      if milli <= 0 || milli > INT64_MAX then None else Some(milli)
  }

  function Milli(s: string): nat
    requires DecimalQuantity(s)
  {
    DecimalParts(s);
    PaddedValue(Fraction(s));
    ReadNat(Whole(s)) * QUANTITY_MILLI_SCALE + ReadNat(PadEnd3(Fraction(s)))
  }

  /** The digits of `s` without the point. */
  function Numerator(s: string): nat
    requires DecimalQuantity(s)
  {
    DecimalParts(s);
    ReadNat(Whole(s) + Fraction(s))
  }

  function TenTo(k: nat): (n: nat)
    ensures n > 0
  {
    if k == 0 then 1 else 10 * TenTo(k - 1)
  }

  /** The digits of `s`, without the point, are `m` thousandths, at the scale of its fraction:
      `s` denotes exactly `m / 1000`. */
  predicate DenotesThousandths(s: string, m: int)
    requires DecimalQuantity(s)
  {
    Numerator(s) * 1000 == m * TenTo(|Fraction(s)|)
  }

  lemma {:induction false} PaddedValue(f: string)
    requires AllDigits(f) && |f| <= 3
    ensures AllDigits(PadEnd3(f)) && ReadNat(PadEnd3(f)) * TenTo(|f|) == ReadNat(f) * 1000
    decreases 3 - |f|
  {
    assert TenTo(1) == 10 && TenTo(2) == 100 && TenTo(3) == 1000;
    if |f| < 3 {
      PaddedValue(f + "0");
      Snoc(f, '0');
    }
  }

  lemma {:induction false} ReadAppend(a: string, b: string)
    requires AllDigits(a) && AllDigits(b)
    ensures AllDigits(a + b) && ReadNat(a + b) == ReadNat(a) * TenTo(|b|) + ReadNat(b)
    decreases |b|
  {
    if b == "" {
      assert a + b == a;
    } else {
      var n := |b| - 1;
      assert a + b == (a + b[..n]) + [b[n]];
      ReadAppend(a, b[..n]);
      Snoc(a + b[..n], b[n]);
      Distribute(ReadNat(a), TenTo(n), ReadNat(b[..n]));
    }
  }

  lemma Distribute(a: nat, p: nat, b: nat)
    ensures 10 * (a * p + b) == a * (10 * p) + 10 * b
  {}

  /** The thousandths a quantity string denotes are what the conversion computes. */
  lemma MilliIsDenoted(s: string, m: int)
    requires DecimalQuantity(s)
    ensures DenotesThousandths(s, m) <==> m == Milli(s)
  {
    DecimalParts(s);
    var w, f := Whole(s), Fraction(s);
    PaddedValue(f);
    ReadAppend(w, f);
    var p, x, y := TenTo(|f|), ReadNat(w), ReadNat(PadEnd3(f));
    Scaled(x, y, p);
    if DenotesThousandths(s, m) { SameFactor(m, Milli(s), p); }
  }

  lemma Scaled(x: nat, y: nat, p: nat)
    ensures (x * 1000 + y) * p == x * p * 1000 + y * p
  {}

  lemma StrictIn(a: int, b: int, p: nat)
    requires p > 0
    ensures a < b ==> a * p < b * p
  {
    if a < b { assert b * p == a * p + (b - a) * p; }
  }

  lemma SameFactor(a: int, b: int, p: nat)
    requires p > 0 && a * p == b * p
    ensures a == b
  {
    assert a < b ==> a * p < b * p by { StrictIn(a, b, p); }
    assert b < a ==> b * p < a * p by { StrictIn(b, a, p); }
  }

  /** The conversion answers `m` exactly for the accepted strings that denote `m / 1000`,
      where `m` is positive and fits int64. */
  lemma QuantityIsExact(s: string, m: int)
    ensures DecimalQuantityToMilli(s) == Some(m) <==>
      DecimalQuantity(s) && 0 < m <= INT64_MAX && DenotesThousandths(s, m)
  {
    if DecimalQuantity(s) { MilliIsDenoted(s, m); }
  }

  /** Two spellings of one number, `s` and `t` as fractions of powers of ten. */
  predicate SameQuantity(s: string, t: string)
    requires DecimalQuantity(s) && DecimalQuantity(t)
  {
    Numerator(s) * TenTo(|Fraction(t)|) == Numerator(t) * TenTo(|Fraction(s)|)
  }

  /** They convert alike, whatever trailing zeros they carry. */
  lemma EqualQuantitiesAgree(s: string, t: string)
    requires DecimalQuantity(s) && DecimalQuantity(t) && SameQuantity(s, t)
    ensures DecimalQuantityToMilli(s) == DecimalQuantityToMilli(t)
  {
    var m := Milli(s);
    MilliIsDenoted(s, m);
    Carried(Numerator(s), Numerator(t), TenTo(|Fraction(s)|), TenTo(|Fraction(t)|), m);
    MilliIsDenoted(t, m);
  }

  lemma Carried(a: nat, b: nat, p: nat, q: nat, m: nat)
    requires p > 0 && a * 1000 == m * p && a * q == b * p
    ensures b * 1000 == m * q
  {
    calc {
      b * 1000 * p;
      (b * p) * 1000;
      (a * 1000) * q;
      (m * p) * q;
      m * q * p;
    }
    SameFactor(b * 1000, m * q, p);
  }
}
