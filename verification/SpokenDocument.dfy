/** Every JSON text of one reply `{ "spoken": s }`, and what the two readers make of
    each of its prefixes. */
module SpokenDocument {
  import opened Options
  import opened SpokenText

  /** One character of a JSON string literal, as it is written. */
  datatype Token = Raw(c: unit) | Escaped(e: unit) | Unicode(a: unit, b: unit, c: unit, d: unit)

  predicate TokenOk(t: Token) {
    match t
    case Raw(c) => c >= 32 && c != QUOTE && c != BACKSLASH
    case Escaped(e) => IsEscape(e)
    case Unicode(a, b, c, d) => IsHex(a) && IsHex(b) && IsHex(c) && IsHex(d)
  }

  /** The escapes that the partial decoder reads as JSON does. */
  predicate Supported(t: Token) {
    match t
    case Raw(_) => true
    case Escaped(e) => e != 98 && e != 102
    case Unicode(_, _, _, _) => false
  }

  function Written(t: Token): Text {
    match t
    case Raw(c) => [c]
    case Escaped(e) => [BACKSLASH, e]
    case Unicode(a, b, c, d) => [BACKSLASH, LOWER_U, a, b, c, d]
  }

  /** The character the token denotes. */
  function Denoted(t: Token): unit
    requires TokenOk(t)
  {
    match t
    case Raw(c) => c
    case Escaped(e) => JsonEscape(e)
    case Unicode(a, b, c, d) => HexUnit(a, b, c, d)
  }

  /** What the partial decoder shows for the token. */
  function ShownFor(t: Token): Text {
    match t
    case Raw(c) => [c]
    case Escaped(e) => [Unescape(e)]
    case Unicode(a, b, c, d) => [LOWER_U, a, b, c, d]
  }

  predicate TokensOk(ts: seq<Token>) {
    forall t :: t in ts ==> TokenOk(t)
  }

  predicate AllSupported(ts: seq<Token>) {
    forall t :: t in ts ==> Supported(t)
  }

  function Body(ts: seq<Token>): Text {
    if ts == [] then [] else Written(ts[0]) + Body(ts[1..])
  }

  function Meaning(ts: seq<Token>): Text
    requires TokensOk(ts)
  {
    if ts == [] then [] else [Denoted(ts[0])] + Meaning(ts[1..])
  }

  function Shown(ts: seq<Token>): Text {
    if ts == [] then [] else ShownFor(ts[0]) + Shown(ts[1..])
  }

  /** The white space is free wherever JSON allows it. */
  datatype Doc = Doc(w0: Text, w1: Text, w2: Text, w3: Text, tokens: seq<Token>, w4: Text, w5: Text)

  predicate AllSpace(w: Text) {
    forall c :: c in w ==> IsJsonSpace(c)
  }

  predicate DocOk(d: Doc) {
    && TokensOk(d.tokens)
    && AllSpace(d.w0) && AllSpace(d.w1) && AllSpace(d.w2) && AllSpace(d.w3) && AllSpace(d.w4) && AllSpace(d.w5)
  }

  function HeadText(d: Doc): Text {
    [OPEN_BRACE] + (d.w1 + (KEY + (d.w2 + ([COLON] + (d.w3 + [QUOTE])))))
  }

  /** From after the opening quote to the end of the object. */
  function ValueText(d: Doc): Text {
    Body(d.tokens) + ([QUOTE] + d.w4)
  }

  function DocText(d: Doc): Text {
    d.w0 + (HeadText(d) + (ValueText(d) + ([CLOSE_BRACE] + d.w5)))
  }

  // ------------------------------------------------------------ scanning more text

  lemma {:induction false} SkipJsonMore(x: Text, y: Text)
    ensures SkipJson(x) != [] ==> SkipJson(x + y) == SkipJson(x) + y
  {
    if x != [] && IsJsonSpace(x[0]) {
      assert (x + y)[1..] == x[1..] + y;
      SkipJsonMore(x[1..], y);
    }
  }

  lemma {:induction false} SkipJsonSpace(w: Text, x: Text)
    requires AllSpace(w)
    ensures SkipJson(w + x) == SkipJson(x)
  {
    if w == [] {
      assert w + x == x;
    } else {
      assert (w + x)[1..] == w[1..] + x;
      SkipJsonSpace(w[1..], x);
    }
  }

  lemma {:induction false} TrimStartMore(x: Text, y: Text)
    ensures TrimStart(x) != [] ==> TrimStart(x + y) == TrimStart(x) + y
  {
    if x != [] && IsJsSpace(x[0]) {
      assert (x + y)[1..] == x[1..] + y;
      TrimStartMore(x[1..], y);
    }
  }

  lemma {:induction false} TrimStartSpace(w: Text, x: Text)
    requires AllSpace(w)
    ensures TrimStart(w + x) == TrimStart(x)
  {
    if w == [] {
      assert w + x == x;
    } else {
      assert w[0] in w && (w + x)[1..] == w[1..] + x;
      TrimStartSpace(w[1..], x);
    }
  }

  lemma {:induction false} TrimEndSpace(x: Text, w: Text)
    requires AllSpace(w)
    ensures TrimEnd(x + w) == TrimEnd(x)
  {
    if w == [] {
      assert x + w == x;
    } else {
      var n := |w| - 1;
      assert w[n] in w && (x + w)[..|x + w| - 1] == x + w[..n];
      TrimEndSpace(x, w[..n]);
    }
  }

  lemma {:induction false} TrimEndPrefix(x: Text)
    ensures TrimEnd(x) <= x
  {
    if x != [] && IsJsSpace(x[|x| - 1]) { TrimEndPrefix(x[..|x| - 1]); }
  }

  lemma ScanHeadMore(x: Text, y: Text)
    requires ScanHead(x).Some?
    ensures ScanHead(x + y) == Some(ScanHead(x).value + y)
  {
    var a := SkipJson(x[1..]);
    assert (x + y)[1..] == x[1..] + y;
    SkipJsonMore(x[1..], y);
    var b := SkipJson(a[8..]);
    assert (a + y)[8..] == a[8..] + y;
    SkipJsonMore(a[8..], y);
    var c := SkipJson(b[1..]);
    assert (b + y)[1..] == b[1..] + y;
    SkipJsonMore(b[1..], y);
    assert (c + y)[1..] == c[1..] + y;
  }

  lemma Assoc(a: Text, b: Text, c: Text)
    ensures (a + b) + c == a + (b + c)
  {}

  lemma HeadGroups(d: Doc, x: Text)
    ensures HeadText(d) + x
         == [OPEN_BRACE] + (d.w1 + (KEY + (d.w2 + ([COLON] + (d.w3 + ([QUOTE] + x))))))
  {
    Assoc([OPEN_BRACE], d.w1 + (KEY + (d.w2 + ([COLON] + (d.w3 + [QUOTE])))), x);
    Assoc(d.w1, KEY + (d.w2 + ([COLON] + (d.w3 + [QUOTE]))), x);
    Assoc(KEY, d.w2 + ([COLON] + (d.w3 + [QUOTE])), x);
    Assoc(d.w2, [COLON] + (d.w3 + [QUOTE]), x);
    Assoc([COLON], d.w3 + [QUOTE], x);
    Assoc(d.w3, [QUOTE], x);
  }

  lemma Behind(c: unit, x: Text)
    ensures ([c] + x)[0] == c && ([c] + x)[1..] == x
  {}

  lemma BehindKey(x: Text)
    ensures KEY <= KEY + x && (KEY + x)[8..] == x && !IsJsonSpace((KEY + x)[0])
  {}

  lemma HeadScans(d: Doc, x: Text)
    requires DocOk(d)
    ensures ScanHead(HeadText(d) + x) == Some(x)
  {
    var t5 := [QUOTE] + x;
    var t4 := [COLON] + (d.w3 + t5);
    var t3 := KEY + (d.w2 + t4);
    HeadGroups(d, x);
    Behind(OPEN_BRACE, d.w1 + t3);
    SkipJsonSpace(d.w1, t3);
    BehindKey(d.w2 + t4);
    SkipJsonSpace(d.w2, t4);
    Behind(COLON, d.w3 + t5);
    SkipJsonSpace(d.w3, t5);
    Behind(QUOTE, x);
  }

  lemma {:induction false} ScanStringMore(x: Text, y: Text)
    requires ScanString(x).Some?
    ensures ScanString(x + y) == Some(Scanned(ScanString(x).value.value, ScanString(x).value.rest + y))
    decreases |x|
  {
    if x[0] == QUOTE {
      assert (x + y)[1..] == x[1..] + y;
    } else if x[0] != BACKSLASH {
      assert (x + y)[1..] == x[1..] + y;
      ScanStringMore(x[1..], y);
    } else if IsEscape(x[1]) {
      assert (x + y)[2..] == x[2..] + y;
      ScanStringMore(x[2..], y);
    } else {
      assert (x + y)[6..] == x[6..] + y;
      ScanStringMore(x[6..], y);
    }
  }

  lemma {:induction false} BodyScans(ts: seq<Token>, x: Text)
    requires TokensOk(ts)
    ensures ScanString(Body(ts) + ([QUOTE] + x)) == Some(Scanned(Meaning(ts), x))
  {
    var tail := [QUOTE] + x;
    if ts == [] {
      assert Body(ts) + tail == tail;
    } else {
      var rest := Body(ts[1..]) + tail;
      assert Body(ts) + tail == Written(ts[0]) + rest;
      BodyScans(ts[1..], x);
      assert TokenOk(ts[0]);
      TokenScans(ts[0], rest);
    }
  }

  lemma TokenScans(t: Token, rest: Text)
    requires TokenOk(t)
    ensures ScanString(Written(t) + rest) == Prepend(Denoted(t), ScanString(rest))
  {
    var all := Written(t) + rest;
    match t
    case Raw(_) => assert all[1..] == rest;
    case Escaped(_) => assert all[2..] == rest;
    case Unicode(_, _, _, _) => assert all[6..] == rest;
  }

  lemma {:induction false} BodyDecodes(ts: seq<Token>, x: Text)
    requires TokensOk(ts)
    ensures PartialDecode(Body(ts) + ([QUOTE] + x)) == Shown(ts)
  {
    var tail := [QUOTE] + x;
    if ts == [] {
      assert Body(ts) + tail == tail;
    } else {
      var rest := Body(ts[1..]) + tail;
      assert Body(ts) + tail == Written(ts[0]) + rest;
      BodyDecodes(ts[1..], x);
      assert TokenOk(ts[0]);
      TokenDecodes(ts[0], rest);
    }
  }

  lemma TokenDecodes(t: Token, rest: Text)
    requires TokenOk(t)
    ensures PartialDecode(Written(t) + rest) == ShownFor(t) + PartialDecode(rest)
  {
    var all := Written(t) + rest;
    match t
    case Raw(_) => assert all[1..] == rest;
    case Escaped(_) => assert all[2..] == rest;
    case Unicode(a, b, c, d) =>
      assert all[2..] == [a] + ([b] + ([c] + ([d] + rest)));
      PlainDecodes(d, rest);
      PlainDecodes(c, [d] + rest);
      PlainDecodes(b, [c] + ([d] + rest));
      PlainDecodes(a, [b] + ([c] + ([d] + rest)));
  }

  lemma PlainDecodes(c: unit, rest: Text)
    requires c != QUOTE && c != BACKSLASH
    ensures PartialDecode([c] + rest) == [c] + PartialDecode(rest)
  {
    assert ([c] + rest)[1..] == rest;
  }

  /** More text only adds to what is decoded. */
  lemma {:induction false} PartialDecodeGrows(x: Text, y: Text)
    ensures PartialDecode(x) <= PartialDecode(x + y)
    decreases |x|
  {
    if x == [] || x[0] == QUOTE {
    } else if x[0] != BACKSLASH {
      assert (x + y)[1..] == x[1..] + y;
      PartialDecodeGrows(x[1..], y);
    } else if |x| > 1 {
      assert (x + y)[2..] == x[2..] + y;
      PartialDecodeGrows(x[2..], y);
    }
  }

  // ------------------------------------------------------------ the searching reader

  lemma {:induction false} IndexOfKeyMore(x: Text, y: Text)
    requires KEY <= x[IndexOfKey(x)..]
    ensures IndexOfKey(x + y) == IndexOfKey(x)
  {
    if x != [] && !(KEY <= x) {
      assert x[IndexOfKey(x)..] == x[1..][IndexOfKey(x[1..])..];
      assert |x| >= 8;
      assert (x + y)[..8] == x[..8];
      assert (x + y)[1..] == x[1..] + y;
      IndexOfKeyMore(x[1..], y);
    }
  }

  lemma {:induction false} IndexOfColonMore(x: Text, y: Text)
    requires IndexOfColon(x) < |x|
    ensures IndexOfColon(x + y) == IndexOfColon(x)
  {
    if x[0] != COLON {
      assert (x + y)[1..] == x[1..] + y;
      IndexOfColonMore(x[1..], y);
    }
  }

  lemma DropMore(x: Text, y: Text, k: nat)
    requires k <= |x|
    ensures (x + y)[k..] == x[k..] + y
  {}

  lemma KeyStays(a: Text, y: Text)
    requires KEY <= a
    ensures |a| >= 8 && KEY <= a + y
  {}

  lemma PartialHeadMore(x: Text, y: Text)
    requires PartialHead(x).Some?
    ensures PartialHead(x + y) == Some(PartialHead(x).value + y)
  {
    var k := IndexOfKey(x);
    IndexOfKeyMore(x, y);
    DropMore(x, y, k);
    KeyStays(x[k..], y);
    DropMore(x, y, k + 8);
    ValueHeadMore(x[k + 8..], y);
  }

  lemma ValueHeadMore(a: Text, y: Text)
    requires ValueHead(a).Some?
    ensures ValueHead(a + y) == Some(ValueHead(a).value + y)
  {
    var n := IndexOfColon(a);
    IndexOfColonMore(a, y);
    assert (a + y)[n + 1..] == a[n + 1..] + y;
    TrimStartMore(a[n + 1..], y);
    var r := TrimStart(a[n + 1..]);
    assert (r + y)[1..] == r[1..] + y;
  }

  lemma {:induction false} IndexOfKeySkips(a: Text, x: Text)
    requires QUOTE !in a
    ensures IndexOfKey(a + (KEY + x)) == |a|
  {
    var t := a + (KEY + x);
    if a == [] {
      assert t == KEY + x;
    } else {
      assert t[0] != KEY[0];
      assert t[1..] == a[1..] + (KEY + x);
      IndexOfKeySkips(a[1..], x);
    }
  }

  lemma {:induction false} IndexOfColonSkips(w: Text, x: Text)
    requires AllSpace(w)
    ensures IndexOfColon(w + ([COLON] + x)) == |w|
  {
    var t := w + ([COLON] + x);
    if w != [] {
      assert w[0] in w && t[1..] == w[1..] + ([COLON] + x);
      IndexOfColonSkips(w[1..], x);
    }
  }

  lemma KeyIsFound(front: Text, x: Text)
    requires QUOTE !in front
    ensures var t := front + (KEY + x);
            IndexOfKey(t) == |front| && |front| + 8 <= |t| && KEY <= t[|front|..] && t[|front| + 8..] == x
  {
    var t := front + (KEY + x);
    IndexOfKeySkips(front, x);
    assert t[|front|..] == KEY + x;
    assert t[|front| + 8..] == x;
  }

  lemma ColonIsFound(w: Text, x: Text)
    requires AllSpace(w)
    ensures var t := w + ([COLON] + x); IndexOfColon(t) == |w| < |t| && t[|w| + 1..] == x
  {
    IndexOfColonSkips(w, x);
  }

  lemma QuoteIsFound(w: Text, x: Text)
    requires AllSpace(w)
    ensures TrimStart(w + ([QUOTE] + x)) == [QUOTE] + x && ([QUOTE] + x)[1..] == x
  {
    TrimStartSpace(w, [QUOTE] + x);
  }

  lemma HeadIsFoundBehind(front: Text, w2: Text, w3: Text, x: Text)
    requires QUOTE !in front && AllSpace(w2) && AllSpace(w3)
    ensures PartialHead(front + (KEY + (w2 + ([COLON] + (w3 + ([QUOTE] + x)))))) == Some(x)
  {
    var afterColon := w3 + ([QUOTE] + x);
    var afterKey := w2 + ([COLON] + afterColon);
    KeyIsFound(front, afterKey);
    ColonIsFound(w2, afterColon);
    QuoteIsFound(w3, x);
  }

  /** The document text regrouped around the key. */
  lemma Regroup(w0: Text, w1: Text, w2: Text, w3: Text, x: Text)
    ensures w0 + (([OPEN_BRACE] + (w1 + (KEY + (w2 + ([COLON] + (w3 + [QUOTE])))))) + x)
         == (w0 + [OPEN_BRACE] + w1) + (KEY + (w2 + ([COLON] + (w3 + ([QUOTE] + x)))))
  {}

  lemma HeadIsFound(d: Doc, x: Text)
    requires DocOk(d)
    ensures PartialHead(d.w0 + (HeadText(d) + x)) == Some(x)
  {
    Regroup(d.w0, d.w1, d.w2, d.w3, x);
    HeadIsFoundBehind(d.w0 + [OPEN_BRACE] + d.w1, d.w2, d.w3, x);
  }

  // ------------------------------------------------------------ prefixes

  function HeadEnd(d: Doc): nat {
    |d.w0| + |HeadText(d)|
  }

  /** Where the closing brace is. */
  function ObjectEnd(d: Doc): nat {
    HeadEnd(d) + |ValueText(d)|
  }

  lemma PartialOfPrefix(d: Doc, n: nat)
    requires DocOk(d) && n <= |DocText(d)|
    ensures n < HeadEnd(d) ==> SpokenFromPartial(DocText(d)[..n]) == None
    ensures n >= HeadEnd(d) ==> SpokenFromPartial(DocText(d)[..n]) == Some(PartialDecode(DocText(d)[HeadEnd(d)..n]))
  {
    var t := DocText(d);
    var p := t[..n];
    if n < HeadEnd(d) {
      var y := t[n..HeadEnd(d)];
      assert p + y == d.w0 + (HeadText(d) + []);
      HeadIsFound(d, []);
      if PartialHead(p).Some? {
        PartialHeadMore(p, y);
      }
    } else {
      var x := t[HeadEnd(d)..n];
      assert p == d.w0 + (HeadText(d) + x);
      HeadIsFound(d, x);
    }
  }

  /** Before its closing brace the text is not a complete object. */
  lemma IncompleteObject(d: Doc, q: Text, y: Text)
    requires DocOk(d) && q + y == HeadText(d) + ValueText(d)
    ensures ScanHead(q).Some? ==>
              ScanString(ScanHead(q).value).None? || SkipJson(ScanString(ScanHead(q).value).value.rest) != [CLOSE_BRACE]
  {
    if ScanHead(q).Some? {
      var r := ScanHead(q).value;
      ScanHeadMore(q, y);
      HeadScans(d, ValueText(d));
      assert r + y == ValueText(d);
      if ScanString(r).Some? {
        ScanStringMore(r, y);
        BodyScans(d.tokens, d.w4);
        var rest := ScanString(r).value.rest;
        assert rest + y == d.w4;
        assert AllSpace(rest) by {
          assert forall c :: c in rest ==> c in rest + y;
        }
        SkipJsonSpace(rest, []);
        assert rest + [] == rest;
      }
    }
  }

  lemma CompleteOfSpace(w: Text)
    requires AllSpace(w)
    ensures SpokenFromComplete(w) == None
  {
    assert w == w + [];
    TrimStartSpace(w, []);
  }

  lemma CompleteOfCut(d: Doc, m: nat)
    requires DocOk(d) && m <= |HeadText(d) + ValueText(d)|
    ensures SpokenFromComplete(d.w0 + (HeadText(d) + ValueText(d))[..m]) == None
  {
    var x := HeadText(d) + ValueText(d);
    TrimStartSpace(d.w0, x[..m]);
    var q := TrimEnd(x[..m]);
    TrimEndPrefix(x[..m]);
    assert q + x[|q|..] == x;
    IncompleteObject(d, q, x[|q|..]);
  }

  lemma CompleteOfShort(d: Doc, n: nat)
    requires DocOk(d) && n <= ObjectEnd(d)
    ensures SpokenFromComplete(DocText(d)[..n]) == None
  {
    if n <= |d.w0| {
      assert DocText(d)[..n] == d.w0[..n];
      CompleteOfSpace(d.w0[..n]);
    } else {
      assert DocText(d)[..n] == d.w0 + (HeadText(d) + ValueText(d))[..n - |d.w0|];
      CompleteOfCut(d, n - |d.w0|);
    }
  }

  lemma CompleteOfLong(d: Doc, n: nat)
    requires DocOk(d) && ObjectEnd(d) < n <= |DocText(d)|
    ensures SpokenFromComplete(DocText(d)[..n]) == Some(Meaning(d.tokens))
  {
    var t := DocText(d);
    var x := HeadText(d) + (ValueText(d) + [CLOSE_BRACE]);
    var k := n - ObjectEnd(d) - 1;
    var w := d.w5[..k];
    assert t[..n] == d.w0 + (x + w);
    TrimStartSpace(d.w0, x + w);
    assert AllSpace(w);
    TrimEndSpace(x, w);
    assert TrimEnd(x) == x;
    HeadScans(d, ValueText(d) + [CLOSE_BRACE]);
    var rest := d.w4 + [CLOSE_BRACE];
    assert ValueText(d) + [CLOSE_BRACE] == Body(d.tokens) + ([QUOTE] + rest);
    BodyScans(d.tokens, rest);
    SkipJsonSpace(d.w4, [CLOSE_BRACE]);
  }

  lemma DecodedIsShown(d: Doc, n: nat)
    requires DocOk(d) && HeadEnd(d) <= n <= |DocText(d)|
    ensures PartialDecode(DocText(d)[HeadEnd(d)..n]) <= Shown(d.tokens)
  {
    var t := DocText(d);
    var tail := d.w4 + ([CLOSE_BRACE] + d.w5);
    var x, y := t[HeadEnd(d)..n], t[n..];
    assert x + y == Body(d.tokens) + ([QUOTE] + tail);
    BodyDecodes(d.tokens, tail);
    PartialDecodeGrows(x, y);
  }

  /** What the reader makes of each prefix of a document: nothing before the value
      starts; then a growing piece of the shown text; the meaning once the object is
      closed. */
  lemma PrefixReads(d: Doc, n: nat)
    requires DocOk(d) && n <= |DocText(d)|
    ensures n < HeadEnd(d) ==> SpokenPrefix(DocText(d)[..n]) == None
    ensures HeadEnd(d) <= n <= ObjectEnd(d) ==>
              SpokenPrefix(DocText(d)[..n]) == Some(PartialDecode(DocText(d)[HeadEnd(d)..n]))
              && PartialDecode(DocText(d)[HeadEnd(d)..n]) <= Shown(d.tokens)
    ensures n > ObjectEnd(d) ==> SpokenPrefix(DocText(d)[..n]) == Some(Meaning(d.tokens))
  {
    if n > ObjectEnd(d) {
      CompleteOfLong(d, n);
    } else {
      CompleteOfShort(d, n);
      PartialOfPrefix(d, n);
      if n >= HeadEnd(d) { DecodedIsShown(d, n); }
    }
  }

  /** What a reader may answer on the first `n` characters of a document: nothing before
      the value starts, then a piece of the shown text, and its meaning once it is closed. */
  ghost predicate ReadsAs(d: Doc, n: nat, r: Option<Text>)
    requires DocOk(d)
  {
    && (n < HeadEnd(d) ==> r == None)
    && (HeadEnd(d) <= n <= ObjectEnd(d) ==> r.Some? && r.value <= Shown(d.tokens))
    && (n > ObjectEnd(d) ==> r == Some(Meaning(d.tokens)))
  }

  /** `spokenPrefixFromPartialJson`, on any text and on the prefixes of documents. */
  method SpokenPrefixFromPartialJson(text: Text) returns (r: Option<Text>)
    ensures r == SpokenPrefix(text)
    ensures forall d: Doc, n: nat :: DocOk(d) && n <= |DocText(d)| && text == DocText(d)[..n] ==> ReadsAs(d, n, r)
  {
    forall d: Doc, n: nat | DocOk(d) && n <= |DocText(d)| && text == DocText(d)[..n]
      ensures ReadsAs(d, n, SpokenPrefix(text))
    {
      PrefixReads(d, n);
    }
    var complete := SpokenFromComplete(text);
    if complete.Some? {
      return complete;
    }
    var k := IndexOfKey(text);
    if !(KEY <= text[k..]) {
      return None;
    }
    var afterKey := text[k + 8..];
    var colon := IndexOfColon(afterKey);
    if colon == |afterKey| {
      return None;
    }
    var rest := TrimStart(afterKey[colon + 1..]);
    if rest == [] || rest[0] != QUOTE {
      return None;
    }
    var spoken := DecodePartial(rest);
    return Some(spoken);
  }

  /** Before the brace, a longer prefix decodes to a longer text. */
  lemma PrefixReadsGrow(d: Doc, m: nat, n: nat)
    requires DocOk(d) && HeadEnd(d) <= m <= n <= |DocText(d)|
    ensures PartialDecode(DocText(d)[HeadEnd(d)..m]) <= PartialDecode(DocText(d)[HeadEnd(d)..n])
  {
    var t := DocText(d);
    assert t[HeadEnd(d)..n] == t[HeadEnd(d)..m] + t[m..n];
    PartialDecodeGrows(t[HeadEnd(d)..m], t[m..n]);
  }

  /** With the closing quote in the text, the partial decoder shows all of `Shown`. */
  lemma QuotedPrefixShowsAll(d: Doc)
    requires DocOk(d)
    ensures HeadEnd(d) + |Body(d.tokens)| + 1 <= ObjectEnd(d) <= |DocText(d)|
    ensures PartialDecode(DocText(d)[HeadEnd(d)..HeadEnd(d) + |Body(d.tokens)| + 1]) == Shown(d.tokens)
  {
    BodyDecodes(d.tokens, []);
    assert DocText(d)[HeadEnd(d)..HeadEnd(d) + |Body(d.tokens)| + 1] == Body(d.tokens) + ([QUOTE] + []);
  }

  // ------------------------------------------------------------ shown against meant

  lemma {:induction false} SupportedShowsMeaning(ts: seq<Token>)
    requires TokensOk(ts) && AllSupported(ts)
    ensures Shown(ts) == Meaning(ts)
  {
    if ts != [] {
      assert TokenOk(ts[0]) && Supported(ts[0]);
      SupportedShowsMeaning(ts[1..]);
    }
  }

  lemma {:induction false} ShownIsLonger(ts: seq<Token>)
    requires TokensOk(ts)
    ensures |Shown(ts)| >= |Meaning(ts)| == |ts|
    ensures |Shown(ts)| == |ts| ==> forall t :: t in ts ==> !t.Unicode?
  {
    if ts != [] {
      ShownIsLonger(ts[1..]);
      assert TokenOk(ts[0]);
    }
  }

  /** The shown text is a prefix of the meaning only when they are equal, which is
      exactly when every escape is supported. */
  lemma {:induction false} ShownPrefixOfMeaning(ts: seq<Token>)
    requires TokensOk(ts)
    ensures Shown(ts) <= Meaning(ts) <==> AllSupported(ts)
  {
    if AllSupported(ts) {
      SupportedShowsMeaning(ts);
    }
    if Shown(ts) <= Meaning(ts) {
      ShownIsLonger(ts);
      SameTextSupported(ts);
    }
  }

  lemma {:induction false} SameTextSupported(ts: seq<Token>)
    requires TokensOk(ts) && Shown(ts) == Meaning(ts)
    ensures AllSupported(ts)
  {
    if ts != [] {
      ShownIsLonger(ts);
      assert TokenOk(ts[0]) && !ts[0].Unicode?;
      assert Shown(ts)[0] == ShownFor(ts[0])[0] && Meaning(ts)[0] == Denoted(ts[0]);
      assert Shown(ts)[1..] == Shown(ts[1..]) && Meaning(ts)[1..] == Meaning(ts[1..]);
      SameTextSupported(ts[1..]);
    }
  }

  predicate IsMarkUnit(c: unit) {
    c == 124 || c == 42 || c == 96
  }

  /** A mark character at the front of the shown text was written as itself. */
  lemma MarkUnitIsRaw(ts: seq<Token>)
    requires TokensOk(ts) && Shown(ts) != [] && IsMarkUnit(Shown(ts)[0])
    ensures ts != [] && Meaning(ts)[0] == Shown(ts)[0]
    ensures Shown(ts)[1..] == Shown(ts[1..]) && Meaning(ts)[1..] == Meaning(ts[1..])
  {
    assert TokenOk(ts[0]);
    assert Shown(ts)[0] == ShownFor(ts[0])[0];
  }

  lemma MarkAtFront(ts: seq<Token>)
    requires TokensOk(ts) && Shown(ts) != [] && MarkAt(Shown(ts), 0)
    ensures HasMark(Meaning(ts))
  {
    MarkUnitIsRaw(ts);
    if Shown(ts)[0] != 124 {
      assert Shown(ts)[1] == Shown(ts[1..])[0];
      MarkUnitIsRaw(ts[1..]);
      if Shown(ts)[0] == 96 {
        assert Shown(ts)[2] == Shown(ts[1..][1..])[0];
        MarkUnitIsRaw(ts[1..][1..]);
      }
    }
    assert MarkAt(Meaning(ts), 0);
  }

  lemma MarkShifts(x: Text, y: Text, i: nat)
    requires i < |x + y| && MarkAt(x + y, i) && i >= |x|
    ensures MarkAt(y, i - |x|)
  {}

  lemma MarkBehind(c: unit, y: Text)
    requires HasMark(y)
    ensures HasMark([c] + y)
  {
    var i :| 0 <= i < |y| && MarkAt(y, i);
    assert MarkAt([c] + y, i + 1);
  }

  lemma NoMarkInside(t: Token, rest: Text)
    requires TokenOk(t)
    ensures forall k :: 0 < k < |ShownFor(t)| ==> !MarkAt(ShownFor(t) + rest, k)
  {}

  /** The partial decoder never shows a markdown mark that the meaning does not have. */
  lemma {:induction false} ShownMarksAreMeant(ts: seq<Token>)
    requires TokensOk(ts) && HasMark(Shown(ts))
    ensures HasMark(Meaning(ts))
  {
    var i :| 0 <= i < |Shown(ts)| && MarkAt(Shown(ts), i);
    assert TokenOk(ts[0]);
    if i == 0 {
      MarkAtFront(ts);
    } else {
      var first := ShownFor(ts[0]);
      NoMarkInside(ts[0], Shown(ts[1..]));
      MarkShifts(first, Shown(ts[1..]), i);
      ShownMarksAreMeant(ts[1..]);
      MarkBehind(Denoted(ts[0]), Meaning(ts[1..]));
    }
  }
}
