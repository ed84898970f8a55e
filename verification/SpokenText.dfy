/** UTF-16 text and the two readers of a `{ "spoken": "..." }` reply
    (packages/ai/src/spoken-reply.ts): the strict one for a complete object and the
    best-effort one for a text that is still arriving. */
module SpokenText {
  import opened Options

  type unit = u: int | 0 <= u < 0x1_0000

  type Text = seq<unit>

  const QUOTE: unit := 34
  const BACKSLASH: unit := 92
  const COLON: unit := 58
  const OPEN_BRACE: unit := 123
  const CLOSE_BRACE: unit := 125
  const LOWER_U: unit := 117

  /** `"spoken"`, with its quotes. */
  const KEY: Text := [34, 115, 112, 111, 107, 101, 110, 34]

  /** White space of the JSON grammar. */
  predicate IsJsonSpace(c: unit) {
    c == 9 || c == 10 || c == 13 || c == 32
  }

  /** What `trim` and `trimStart` strip. */
  predicate IsJsSpace(c: unit) {
    || 9 <= c <= 13 || c == 32 || c == 160 || c == 0x1680 || 0x2000 <= c <= 0x200a
    || c == 0x2028 || c == 0x2029 || c == 0x202f || c == 0x205f || c == 0x3000 || c == 0xfeff
  }

  function SkipJson(t: Text): Text {
    if t != [] && IsJsonSpace(t[0]) then SkipJson(t[1..]) else t
  }

  function TrimStart(t: Text): Text {
    if t != [] && IsJsSpace(t[0]) then TrimStart(t[1..]) else t
  }

  function TrimEnd(t: Text): Text {
    if t != [] && IsJsSpace(t[|t| - 1]) then TrimEnd(t[..|t| - 1]) else t
  }

  /** The escapes that the partial decoder turns into another character. */
  function Unescape(c: unit): unit {
    if c == 110 then 10 else if c == 116 then 9 else if c == 114 then 13 else c
  }

  /** The one-letter escapes of JSON. */
  predicate IsEscape(c: unit) {
    c == QUOTE || c == BACKSLASH || c == 47 || c == 98 || c == 102 || c == 110 || c == 114 || c == 116
  }

  function JsonEscape(c: unit): unit {
    if c == 98 then 8 else if c == 102 then 12 else Unescape(c)
  }

  predicate IsHex(c: unit) {
    48 <= c <= 57 || 65 <= c <= 70 || 97 <= c <= 102
  }

  function HexValue(c: unit): (v: int)
    requires IsHex(c)
    ensures 0 <= v < 16
  {
    if c <= 57 then c - 48 else if c <= 70 then c - 55 else c - 87
  }

  function HexUnit(a: unit, b: unit, c: unit, d: unit): unit
    requires IsHex(a) && IsHex(b) && IsHex(c) && IsHex(d)
  {
    4096 * HexValue(a) + 256 * HexValue(b) + 16 * HexValue(c) + HexValue(d)
  }

  datatype Scanned = Scanned(value: Text, rest: Text)

  /** The rest of a JSON string literal, after its opening quote. */
  function ScanString(t: Text): Option<Scanned> {
    if t == [] || t[0] < 32 then None
    else if t[0] == QUOTE then Some(Scanned([], t[1..]))
    else if t[0] != BACKSLASH then Prepend(t[0], ScanString(t[1..]))
    else if |t| >= 2 && IsEscape(t[1]) then Prepend(JsonEscape(t[1]), ScanString(t[2..]))
    else if |t| >= 6 && t[1] == LOWER_U && IsHex(t[2]) && IsHex(t[3]) && IsHex(t[4]) && IsHex(t[5]) then
      Prepend(HexUnit(t[2], t[3], t[4], t[5]), ScanString(t[6..]))
    else None
  }

  function Prepend(c: unit, s: Option<Scanned>): Option<Scanned> {
    if s.None? then None else Some(Scanned([c] + s.value.value, s.value.rest))
  }

  /** Up to and with the opening quote of the value. */
  function ScanHead(t: Text): Option<Text> {
    if t == [] || t[0] != OPEN_BRACE then None
    else
      var a := SkipJson(t[1..]);
      if !(KEY <= a) then None
      else
        var b := SkipJson(a[8..]);
        if b == [] || b[0] != COLON then None
        else
          var c := SkipJson(b[1..]);
          if c == [] || c[0] != QUOTE then None else Some(c[1..])
  }

  /** `spokenFromModelText`, for objects with the one member `spoken`. */
  function SpokenFromComplete(text: Text): Option<Text> {
    var head := ScanHead(TrimEnd(TrimStart(text)));
    if head.None? then None
    else
      var s := ScanString(head.value);
      if s.None? || SkipJson(s.value.rest) != [CLOSE_BRACE] then None else Some(s.value.value)
  }

  function IndexOfKey(t: Text): (i: nat)
    ensures i <= |t|
  {
    if t == [] || KEY <= t then 0 else 1 + IndexOfKey(t[1..])
  }

  function IndexOfColon(t: Text): (i: nat)
    ensures i <= |t|
  {
    if t == [] || t[0] == COLON then 0 else 1 + IndexOfColon(t[1..])
  }

  /** The decoding loop, over what follows the opening quote. */
  function PartialDecode(t: Text): Text {
    if t == [] || t[0] == QUOTE then []
    else if t[0] != BACKSLASH then [t[0]] + PartialDecode(t[1..])
    else if |t| == 1 then []
    else [Unescape(t[1])] + PartialDecode(t[2..])
  }

  /** What follows the opening quote of the value, found by searching for the key. */
  function PartialHead(text: Text): Option<Text> {
    var k := IndexOfKey(text);
    if !(KEY <= text[k..]) then None else ValueHead(text[k + 8..])
  }

  function ValueHead(afterKey: Text): Option<Text> {
    var colon := IndexOfColon(afterKey);
    if colon == |afterKey| then None
    else
      var rest := TrimStart(afterKey[colon + 1..]);
      if rest == [] || rest[0] != QUOTE then None else Some(rest[1..])
  }

  function SpokenFromPartial(text: Text): Option<Text> {
    var head := PartialHead(text);
    if head.None? then None else Some(PartialDecode(head.value))
  }

  /** `spokenPrefixFromPartialJson` */
  function SpokenPrefix(text: Text): Option<Text> {
    var complete := SpokenFromComplete(text);
    if complete.Some? then complete else SpokenFromPartial(text)
  }

  lemma DecodeAt(t: Text, i: nat)
    requires i < |t|
    ensures PartialDecode(t[i..]) ==
      if t[i] == QUOTE then []
      else if t[i] != BACKSLASH then [t[i]] + PartialDecode(t[i + 1..])
      else if i + 1 == |t| then []
      else [Unescape(t[i + 1])] + PartialDecode(t[i + 2..])
  {
    assert t[i..][1..] == t[i + 1..];
    if i + 1 < |t| { assert t[i..][2..] == t[i + 2..]; }
  }

  lemma Regrouped(a: Text, x: unit, b: Text)
    ensures a + ([x] + b) == (a + [x]) + b
  {}

  /** The decoding loop as it runs over an index. */
  method DecodePartial(rest: Text) returns (spoken: Text)
    requires rest != [] && rest[0] == QUOTE
    ensures spoken == PartialDecode(rest[1..])
  {
    spoken := [];
    var index := 1;
    while index < |rest|
      invariant 1 <= index <= |rest|
      invariant PartialDecode(rest[1..]) == spoken + PartialDecode(rest[index..])
    {
      var c := rest[index];
      DecodeAt(rest, index);
      if c == BACKSLASH {
        if index + 1 == |rest| {
          assert spoken + [] == spoken;
          return;
        }
        Regrouped(spoken, Unescape(rest[index + 1]), PartialDecode(rest[index + 2..]));
        spoken := spoken + [Unescape(rest[index + 1])];
        index := index + 2;
      } else if c == QUOTE {
        assert spoken + [] == spoken;
        return;
      } else {
        Regrouped(spoken, c, PartialDecode(rest[index + 1..]));
        spoken := spoken + [c];
        index := index + 1;
      }
    }
  }

  /** `spokenContainsMarkdownDump`: a pipe, two asterisks, or three backquotes. */
  predicate HasMark(t: Text) {
    exists i :: 0 <= i < |t| && MarkAt(t, i)
  }

  predicate MarkAt(t: Text, i: nat)
    requires i < |t|
  {
    || t[i] == 124
    || (i + 1 < |t| && t[i] == 42 && t[i + 1] == 42)
    || (i + 2 < |t| && t[i] == 96 && t[i + 1] == 96 && t[i + 2] == 96)
  }
}
