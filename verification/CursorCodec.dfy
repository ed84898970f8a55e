/** The pipe-separated cursor codec (`createCursorCodec` in packages/validation/src/pagination.ts).
    A cursor is handled as the list of its field values, in field order; `toISOString` is an
    abstract printing. */
module CursorCodec {
  import opened Options
  import opened Decimal
  import opened Separated

  datatype Kind = IsoDatetime | Uuid | BooleanFlag | IntKind | Remainder

  datatype Value = DateValue(ms: int) | TextValue(s: string) | FlagValue(b: bool) | IntValue(n: int)

  /** What a decoded field holds; a date comes back as its text. */
  datatype Plain = PlainText(s: string) | PlainFlag(b: bool) | PlainInt(n: int)

  type Printer = int -> string

  /** The value has the type that the field kind asks of its callers. */
  predicate Fits(kind: Kind, v: Value) {
    match kind
    case IsoDatetime => v.DateValue?
    case BooleanFlag => v.FlagValue?
    case IntKind => v.IntValue?
    case Uuid => v.TextValue?
    case Remainder => v.TextValue?
  }

  predicate AllFit(fields: seq<Kind>, values: seq<Value>) {
    |values| == |fields| && forall i :: 0 <= i < |fields| ==> Fits(fields[i], values[i])
  }

  function EncodeField(iso: Printer, v: Value): string {
    match v
    case DateValue(ms) => iso(ms)
    case FlagValue(b) => if b then "1" else "0"
    case IntValue(n) => Print(n)
    case TextValue(s) => s
  }

  /** `/^-?\d+$/` */
  predicate IntText(raw: string) {
    raw != "" && if raw[0] == '-' then raw[1..] != "" && AllDigits(raw[1..]) else AllDigits(raw)
  }

  function ParseInt(raw: string): int
    requires IntText(raw)
  {
    if raw[0] == '-' then -(ReadNat(raw[1..]) as int) else ReadNat(raw)
  }

  function DecodeField(kind: Kind, raw: string): Option<Plain> {
    match kind
    case BooleanFlag => if raw != "0" && raw != "1" then None else Some(PlainFlag(raw == "1"))
    case IntKind => if !IntText(raw) then None else Some(PlainInt(ParseInt(raw)))
    case _ => Some(PlainText(raw))
  }

  // ------------------------------------------------------------ the codec

  function Texts(iso: Printer, values: seq<Value>): (r: seq<string>)
    ensures |r| == |values| && forall i :: 0 <= i < |values| ==> r[i] == EncodeField(iso, values[i])
  {
    if values == [] then [] else [EncodeField(iso, values[0])] + Texts(iso, values[1..])
  }

  function Encode(iso: Printer, values: seq<Value>): string {
    Join(Texts(iso, values), '|')
  }

  /** The index of a last `remainder` field, or -1. */
  function RemainderLast(fields: seq<Kind>): int {
    if fields != [] && fields[|fields| - 1] == Remainder then |fields| - 1 else -1
  }

  predicate EnoughParts(fields: seq<Kind>, parts: seq<string>) {
    if RemainderLast(fields) == -1 then |parts| == |fields| else |parts| >= |fields|
  }

  function RawAt(fields: seq<Kind>, parts: seq<string>, i: nat): string
    requires EnoughParts(fields, parts) && i < |fields|
  {
    if i == RemainderLast(fields) then Join(parts[i..], '|') else parts[i]
  }

  /** The first `n` fields decoded. */
  function DecodeUpTo(fields: seq<Kind>, parts: seq<string>, n: nat): Option<seq<Plain>>
    requires EnoughParts(fields, parts) && n <= |fields|
  {
    if n == 0 then Some([])
    else
      var before := DecodeUpTo(fields, parts, n - 1);
      var last := DecodeField(fields[n - 1], RawAt(fields, parts, n - 1));
      if before.None? || last.None? then None else Some(before.value + [last.value])
  }

  function Decode(fields: seq<Kind>, cursor: string): Option<seq<Plain>> {
    var parts := Split(cursor, '|');
    if EnoughParts(fields, parts) then DecodeUpTo(fields, parts, |fields|) else None
  }

  lemma {:induction false} NoneStays(fields: seq<Kind>, parts: seq<string>, n: nat)
    requires EnoughParts(fields, parts) && n <= |fields| && DecodeUpTo(fields, parts, n).None?
    ensures DecodeUpTo(fields, parts, |fields|).None?
    decreases |fields| - n
  {
    if n < |fields| { NoneStays(fields, parts, n + 1); }
  }

  /** `decode`, up to the payload schema. */
  method DecodeCursor(fields: seq<Kind>, cursor: string) returns (decoded: Option<seq<Plain>>)
    ensures decoded == Decode(fields, cursor)
  {
    var parts := Split(cursor, '|');
    if !EnoughParts(fields, parts) {
      return None;
    }
    var values: seq<Plain> := [];
    for i := 0 to |fields|
      invariant DecodeUpTo(fields, parts, i) == Some(values)
    {
      var raw := RawAt(fields, parts, i);
      var value := DecodeField(fields[i], raw);
      if value.None? {
        NoneStays(fields, parts, i + 1);
        return None;
      }
      values := values + [value.value];
    }
    return Some(values);
  }

  // ------------------------------------------------------------ round trip

  /** What a value looks like after a round trip. */
  function Seen(iso: Printer, v: Value): Plain {
    match v
    case DateValue(ms) => PlainText(iso(ms))
    case FlagValue(b) => PlainFlag(b)
    case IntValue(n) => PlainInt(n)
    case TextValue(s) => PlainText(s)
  }

  ghost predicate SeenUpTo(iso: Printer, values: seq<Value>, n: nat, decoded: Option<seq<Plain>>)
    requires n <= |values|
  {
    decoded.Some? && |decoded.value| == n && forall i :: 0 <= i < n ==> decoded.value[i] == Seen(iso, values[i])
  }

  ghost predicate SeenAll(iso: Printer, values: seq<Value>, decoded: Option<seq<Plain>>) {
    SeenUpTo(iso, values, |values|, decoded)
  }

  /** Every field but a last remainder is free of the separator. */
  predicate BarFree(iso: Printer, fields: seq<Kind>, values: seq<Value>)
    requires |values| == |fields|
  {
    forall i :: 0 <= i < |fields| && i != RemainderLast(fields) ==> '|' !in EncodeField(iso, values[i])
  }

  lemma NumeralText(n: int)
    ensures IntText(Print(n)) && ParseInt(Print(n)) == n && '|' !in Print(n)
  {
    ReadPrinted(n);
    var s := Print(n);
    if s[0] == '-' { assert s == "-" + s[1..]; }
  }

  lemma FieldRoundTrips(iso: Printer, kind: Kind, v: Value)
    requires Fits(kind, v)
    ensures DecodeField(kind, EncodeField(iso, v)) == Some(Seen(iso, v))
  {
    if v.IntValue? { NumeralText(v.n); }
  }

  /** Only a text can hold a bar, and a text decodes to itself. */
  lemma BarredFieldIsText(iso: Printer, kind: Kind, v: Value, raw: string)
    requires Fits(kind, v) && '|' in EncodeField(iso, v) && (v.DateValue? ==> '|' !in iso(v.ms))
    ensures DecodeField(kind, raw) == Some(Seen(iso, v)) <==> raw == EncodeField(iso, v)
  {
    if v.IntValue? { NumeralText(v.n); }
  }

  lemma {:induction false} DecodedAt(fields: seq<Kind>, parts: seq<string>, n: nat, i: nat)
    requires EnoughParts(fields, parts) && i < n <= |fields| && DecodeUpTo(fields, parts, n).Some?
    ensures |DecodeUpTo(fields, parts, n).value| == n
    ensures DecodeField(fields[i], RawAt(fields, parts, i)) == Some(DecodeUpTo(fields, parts, n).value[i])
    decreases n
  {
    if n > 1 { DecodedAt(fields, parts, n - 1, if i < n - 1 then i else 0); }
  }

  lemma {:induction false} AllDecode(iso: Printer, fields: seq<Kind>, parts: seq<string>, values: seq<Value>, n: nat)
    requires AllFit(fields, values) && EnoughParts(fields, parts) && n <= |fields|
    requires forall i :: 0 <= i < n ==> RawAt(fields, parts, i) == EncodeField(iso, values[i])
    ensures SeenUpTo(iso, values, n, DecodeUpTo(fields, parts, n))
  {
    if n > 0 {
      AllDecode(iso, fields, parts, values, n - 1);
      FieldRoundTrips(iso, fields[n - 1], values[n - 1]);
      DecodeStep(fields, parts, n, DecodeUpTo(fields, parts, n - 1).value, Seen(iso, values[n - 1]));
    }
  }

  lemma DecodeStep(fields: seq<Kind>, parts: seq<string>, n: nat, before: seq<Plain>, v: Plain)
    requires EnoughParts(fields, parts) && 0 < n <= |fields|
    requires DecodeUpTo(fields, parts, n - 1) == Some(before)
    requires DecodeField(fields[n - 1], RawAt(fields, parts, n - 1)) == Some(v)
    ensures DecodeUpTo(fields, parts, n) == Some(before + [v])
  {}

  /** Joined and split again, every field but the last finds its own text, and the rest is the last. */
  lemma PartsAre(texts: seq<string>, n: nat)
    requires |texts| == n + 1 && forall i :: 0 <= i < n ==> '|' !in texts[i]
    ensures Split(Join(texts, '|'), '|') == texts[..n] + Split(texts[n], '|')
  {
    SplitOfJoin(texts, n, '|');
    assert texts[n..] == [texts[n]];
  }

  lemma RawsAreTexts(fields: seq<Kind>, texts: seq<string>)
    requires |texts| == |fields| > 0
    requires forall i :: 0 <= i < |texts| && i != RemainderLast(fields) ==> '|' !in texts[i]
    ensures var parts := Split(Join(texts, '|'), '|');
      EnoughParts(fields, parts) && forall i :: 0 <= i < |fields| ==> RawAt(fields, parts, i) == texts[i]
  {
    var n := |fields| - 1;
    PartsAre(texts, n);
    JoinOfSplit(texts[n], '|');
    if RemainderLast(fields) == -1 { SplitWhole(texts[n], '|'); }
    RawsOf(fields, texts, Split(texts[n], '|'));
  }

  lemma RawsOf(fields: seq<Kind>, texts: seq<string>, last: seq<string>)
    requires |texts| == |fields| > 0 && last != []
    requires if RemainderLast(fields) == -1 then last == [texts[|texts| - 1]] else Join(last, '|') == texts[|texts| - 1]
    ensures var parts := texts[..|texts| - 1] + last;
      EnoughParts(fields, parts) && forall i :: 0 <= i < |fields| ==> RawAt(fields, parts, i) == texts[i]
  {
    var parts := texts[..|texts| - 1] + last;
    assert parts[|texts| - 1..] == last;
  }

  lemma BarFreeRoundTrips(iso: Printer, fields: seq<Kind>, values: seq<Value>)
    requires AllFit(fields, values) && fields != [] && BarFree(iso, fields, values)
    ensures SeenAll(iso, values, Decode(fields, Encode(iso, values)))
  {
    var texts := Texts(iso, values);
    RawsAreTexts(fields, texts);
    AllDecode(iso, fields, Split(Join(texts, '|'), '|'), values, |fields|);
  }

  /** The first part of a text with a bar in front of the separator is not that text. */
  lemma FirstPartIsShorter(parts: seq<string>)
    requires parts != [] && '|' in parts[0]
    ensures Split(Join(parts, '|'), '|')[0] != parts[0]
  {
    assert '|' !in Split(Join(parts, '|'), '|')[0];
  }

  lemma BarSpoils(iso: Printer, fields: seq<Kind>, values: seq<Value>, k: nat)
    requires AllFit(fields, values) && k < |fields| && k != RemainderLast(fields)
    requires '|' in EncodeField(iso, values[k]) && (values[k].DateValue? ==> '|' !in iso(values[k].ms))
    requires forall i :: 0 <= i < k ==> '|' !in EncodeField(iso, values[i])
    ensures !SeenAll(iso, values, Decode(fields, Encode(iso, values)))
  {
    var texts := Texts(iso, values);
    var parts := Split(Join(texts, '|'), '|');
    SplitOfJoin(texts, k, '|');
    FirstPartIsShorter(texts[k..]);
    assert parts[k] == Split(Join(texts[k..], '|'), '|')[0];
    BarredFieldIsText(iso, fields[k], values[k], parts[k]);
    if EnoughParts(fields, parts) && DecodeUpTo(fields, parts, |fields|).Some? {
      DecodedAt(fields, parts, |fields|, k);
    }
  }

  lemma {:induction false} FirstBarred(iso: Printer, fields: seq<Kind>, values: seq<Value>, n: nat) returns (k: nat)
    requires |values| == |fields| && n <= |fields|
    requires exists i :: 0 <= i < n && i != RemainderLast(fields) && '|' in EncodeField(iso, values[i])
    ensures k < n && k != RemainderLast(fields) && '|' in EncodeField(iso, values[k])
    ensures forall i :: 0 <= i < k ==> '|' !in EncodeField(iso, values[i])
  {
    if exists i :: 0 <= i < n - 1 && i != RemainderLast(fields) && '|' in EncodeField(iso, values[i]) {
      k := FirstBarred(iso, fields, values, n - 1);
    } else {
      k := n - 1;
    }
  }

  /** A cursor decodes to the values it was made of exactly when there is a field at all and
      only a last `remainder` holds the separator. */
  lemma CursorRoundTripsExactly(iso: Printer, fields: seq<Kind>, values: seq<Value>)
    requires AllFit(fields, values) && forall ms :: '|' !in iso(ms)
    ensures SeenAll(iso, values, Decode(fields, Encode(iso, values))) <==> fields != [] && BarFree(iso, fields, values)
  {
    if fields == [] {
      assert Split("", '|') == [""];
    } else if BarFree(iso, fields, values) {
      BarFreeRoundTrips(iso, fields, values);
    } else {
      var k := FirstBarred(iso, fields, values, |fields|);
      BarSpoils(iso, fields, values, k);
    }
  }
}
