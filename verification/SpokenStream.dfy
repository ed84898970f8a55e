/** The stream filter that turns the deltas of a `{ spoken }` reply into prose
    (`createSpokenReplyUiTransform` of packages/ai/src/spoken-reply.ts). */
module SpokenStream {
  import opened Options
  import opened SpokenText
  import opened SpokenDocument

  datatype Kind = TextStart | TextDelta | TextEnd | OtherKind

  /** A stream part; an absent tool name is the empty text. */
  datatype Part = Part(kind: Kind, id: Option<string>, toolCallId: Option<string>, toolName: string, text: Text)

  datatype Filter = Filter(accumulated: Text, published: Text, held: Option<Part>, dropped: set<string>)

  const SYNTHETIC_TOOL: string := "json"

  /** A text delta under any reader of partial texts: the new state, and the prose to
      emit, if any. */
  function OnDeltaBy(read: Text -> Option<Text>, f: Filter, delta: Text): (Filter, Option<Text>) {
    var g := f.(accumulated := f.accumulated + delta);
    var spoken := read(g.accumulated);
    if spoken.None? || HasMark(spoken.value) then (g, None)
    else if !(f.published <= spoken.value) then (g.(published := spoken.value), Some(spoken.value))
    else
      var next := spoken.value[|f.published|..];
      (g.(published := spoken.value), if next == [] then None else Some(next))
  }

  function OnDelta(f: Filter, delta: Text): (Filter, Option<Text>) {
    OnDeltaBy(SpokenPrefix, f, delta)
  }

  predicate LooksLikeJson(t: Text) {
    var s := TrimStart(t);
    s != [] && s[0] == OPEN_BRACE
  }

  function HeldParts(f: Filter, fallback: Text): seq<Part> {
    if f.held.None? then [] else [f.held.value.(kind := TextDelta, text := fallback), f.held.value]
  }

  predicate IsBlank(t: Text) {
    TrimStart(t) == []
  }

  /** A text end: hold it back when the whole reply was a markdown dump. */
  function OnEnd(f: Filter, part: Part): (Filter, seq<Part>) {
    if f.published != [] || IsBlank(f.accumulated) then (f, [part])
    else if !LooksLikeJson(f.accumulated) then
      if HasMark(f.accumulated) then (f.(held := Some(part)), [])
      else (f, [part.(kind := TextDelta, text := f.accumulated), part])
    else
      var parsed := SpokenFromComplete(f.accumulated);
      if parsed.Some? && HasMark(parsed.value) then (f.(held := Some(part)), []) else (f, [part])
  }

  /** The call that an id names; the empty text names none. */
  function Named(id: Option<string>): set<string> {
    if id.Some? && id.value != "" then {id.value} else {}
  }

  predicate OfDroppedCall(f: Filter, part: Part) {
    var callId := if part.toolCallId.Some? then part.toolCallId else part.id;
    callId.Some? && callId.value != "" && callId.value in f.dropped
  }

  function OnPart(f: Filter, part: Part, fallback: Text): (Filter, seq<Part>) {
    if part.toolName == SYNTHETIC_TOOL then (f.(dropped := f.dropped + Named(part.id) + Named(part.toolCallId)), [])
    else if part.kind == OtherKind && OfDroppedCall(f, part) then (f, [])
    else match part.kind
      case TextStart => (f.(held := None, accumulated := [], published := []), HeldParts(f, fallback) + [part])
      case TextDelta =>
        var (g, prose) := OnDelta(f, part.text);
        (g, if prose.None? then [] else [part.(text := prose.value)])
      case TextEnd => OnEnd(f, part)
      case OtherKind => (f, [part])
  }

  lemma SuffixHasNoMark(t: Text, n: nat)
    requires n <= |t| && !HasMark(t)
    ensures !HasMark(t[n..])
  {
    if HasMark(t[n..]) {
      var i :| 0 <= i < |t[n..]| && MarkAt(t[n..], i);
      assert MarkAt(t, n + i);
    }
  }

  class SpokenReplyTransform {
    var accumulatedJson: Text
    var publishedSpoken: Text
    var heldMarkdownTextEnd: Option<Part>
    var droppedCallIds: set<string>

    constructor ()
      ensures State() == Filter([], [], None, {})
    {
      accumulatedJson, publishedSpoken := [], [];
      heldMarkdownTextEnd := None;
      droppedCallIds := {};
    }

    ghost function State(): Filter
      reads this
    {
      Filter(accumulatedJson, publishedSpoken, heldMarkdownTextEnd, droppedCallIds)
    }

    method EmitHeld(fallback: Text) returns (queue: seq<Part>)
      modifies this
      ensures queue == HeldParts(old(State()), fallback)
      ensures State() == old(State()).(held := None)
    {
      if heldMarkdownTextEnd.None? {
        return [];
      }
      var held := heldMarkdownTextEnd.value;
      heldMarkdownTextEnd := None;
      return [held.(kind := TextDelta, text := fallback), held];
    }

    method Transform(part: Part, fallback: Text) returns (queue: seq<Part>)
      modifies this
      ensures (State(), queue) == OnPart(old(State()), part, fallback)
      ensures part.kind == TextDelta ==> forall p :: p in queue ==> !HasMark(p.text)
    {
      if part.toolName == SYNTHETIC_TOOL {
        if part.id.Some? && part.id.value != "" {
          droppedCallIds := droppedCallIds + {part.id.value};
        }
        if part.toolCallId.Some? && part.toolCallId.value != "" {
          droppedCallIds := droppedCallIds + {part.toolCallId.value};
        }
        assert droppedCallIds == old(droppedCallIds) + Named(part.id) + Named(part.toolCallId);
        return [];
      }
      var callId := if part.toolCallId.Some? then part.toolCallId else part.id;
      if callId.Some? && callId.value != "" && callId.value in droppedCallIds && part.kind == OtherKind {
        return [];
      }
      if part.kind == TextStart {
        queue := EmitHeld(fallback);
        accumulatedJson := [];
        publishedSpoken := [];
        return queue + [part];
      }
      if part.kind == TextDelta {
        accumulatedJson := accumulatedJson + part.text;
        var spoken := SpokenPrefixFromPartialJson(accumulatedJson);
        if spoken.None? || HasMark(spoken.value) {
          return [];
        }
        if !(publishedSpoken <= spoken.value) {
          publishedSpoken := spoken.value;
          return [part.(text := spoken.value)];
        }
        var next := spoken.value[|publishedSpoken|..];
        SuffixHasNoMark(spoken.value, |publishedSpoken|);
        publishedSpoken := spoken.value;
        if next == [] {
          return [];
        }
        return [part.(text := next)];
      }
      if part.kind == TextEnd {
        if publishedSpoken == [] && !IsBlank(accumulatedJson) {
          if !LooksLikeJson(accumulatedJson) {
            if HasMark(accumulatedJson) {
              heldMarkdownTextEnd := Some(part);
              return [];
            }
            return [part.(kind := TextDelta, text := accumulatedJson), part];
          }
          var parsed := SpokenFromComplete(accumulatedJson);
          if parsed.Some? && HasMark(parsed.value) {
            heldMarkdownTextEnd := Some(part);
            return [];
          }
        }
        return [part];
      }
      return [part];
    }
  }

  // ------------------------------------------------------------ runs of deltas

  function Join(chunks: seq<Text>): Text {
    if chunks == [] then [] else chunks[0] + Join(chunks[1..])
  }

  function TextOf(prose: Option<Text>): Text {
    if prose.None? then [] else prose.value
  }

  /** All the prose emitted while the chunks arrive one by one. */
  function EmittedBy(read: Text -> Option<Text>, f: Filter, chunks: seq<Text>): Text
    decreases |chunks|
  {
    if chunks == [] then []
    else
      var (g, prose) := OnDeltaBy(read, f, chunks[0]);
      TextOf(prose) + EmittedBy(read, g, chunks[1..])
  }

  function Emitted(f: Filter, chunks: seq<Text>): Text {
    EmittedBy(SpokenPrefix, f, chunks)
  }

  /** The filter right after a text start. */
  function Started(f: Filter): Filter {
    f.(held := None, accumulated := [], published := [])
  }

  /** What has been said once `n` characters of the document are in. */
  function Said(d: Doc, n: nat): Text
    requires n <= |DocText(d)|
  {
    var s := SpokenPrefix(DocText(d)[..n]);
    if s.None? then [] else s.value
  }

  /** A reply whose escapes the partial decoder knows and that is no markdown dump. */
  predicate Plain(d: Doc)
    requires DocOk(d)
  {
    AllSupported(d.tokens) && !HasMark(Meaning(d.tokens))
  }

  lemma PrefixHasNoMark(x: Text, y: Text)
    requires x <= y && !HasMark(y)
    ensures !HasMark(x)
  {
    if HasMark(x) {
      var i :| 0 <= i < |x| && MarkAt(x, i);
      assert MarkAt(y, i);
    }
  }

  lemma SaidGrows(d: Doc, m: nat, n: nat)
    requires DocOk(d) && AllSupported(d.tokens) && m <= n <= |DocText(d)|
    ensures Said(d, m) <= Said(d, n) <= Meaning(d.tokens)
  {
    SupportedShowsMeaning(d.tokens);
    PrefixReads(d, m);
    PrefixReads(d, n);
    if HeadEnd(d) <= m { PrefixReadsGrow(d, m, n); }
  }

  lemma CutAt(t: Text, n: nat, chunk: Text, rest: Text)
    requires n <= |t| && t[n..] == chunk + rest
    ensures n + |chunk| <= |t| && t[..n + |chunk|] == t[..n] + chunk && t[n + |chunk|..] == rest
  {
    assert t[n + |chunk|..] == t[n..][|chunk|..];
    assert t[..n + |chunk|] == t[..n] + t[n..][..|chunk|];
  }

  /** `read` makes of each prefix of `t` nothing or `said`, which only grows. */
  ghost predicate Grows(read: Text -> Option<Text>, t: Text, said: nat -> Text) {
    && (forall i: nat :: i <= |t| ==> Reads(read, t, said, i))
    && (forall i: nat, j: nat :: i <= j <= |t| ==> Extends(said, i, j))
  }

  ghost predicate Reads(read: Text -> Option<Text>, t: Text, said: nat -> Text, i: nat)
    requires i <= |t|
  {
    !HasMark(said(i)) && if read(t[..i]).None? then said(i) == [] else read(t[..i]) == Some(said(i))
  }

  ghost predicate Extends(said: nat -> Text, i: nat, j: nat) {
    said(i) <= said(j)
  }

  lemma DeltaAdvances(read: Text -> Option<Text>, t: Text, said: nat -> Text, f: Filter, n: nat, chunk: Text)
    requires Grows(read, t, said) && n + |chunk| <= |t| && t[..n + |chunk|] == t[..n] + chunk
    requires f.accumulated == t[..n] && f.published == said(n)
    ensures var (g, prose) := OnDeltaBy(read, f, chunk);
      && said(n) + TextOf(prose) == said(n + |chunk|)
      && g.accumulated == t[..n + |chunk|] && g.published == said(n + |chunk|)
  {
    assert Extends(said, n, n + |chunk|) && Reads(read, t, said, n) && Reads(read, t, said, n + |chunk|);
  }

  lemma {:induction false} RestIsEmitted(
    read: Text -> Option<Text>, t: Text, said: nat -> Text, f: Filter, n: nat, chunks: seq<Text>)
    requires Grows(read, t, said) && n <= |t|
    requires f.accumulated == t[..n] && f.published == said(n)
    requires Join(chunks) == t[n..]
    ensures said(n) + EmittedBy(read, f, chunks) == said(|t|)
    decreases |chunks|
  {
    if chunks == [] {
      assert n == |t|;
    } else {
      var m := n + |chunks[0]|;
      CutAt(t, n, chunks[0], Join(chunks[1..]));
      DeltaAdvances(read, t, said, f, n, chunks[0]);
      var (g, prose) := OnDeltaBy(read, f, chunks[0]);
      var rest := EmittedBy(read, g, chunks[1..]);
      RestIsEmitted(read, t, said, g, m, chunks[1..]);
      assert said(n) + (TextOf(prose) + rest) == (said(n) + TextOf(prose)) + rest;
    }
  }

  lemma PlainGrows(d: Doc)
    requires DocOk(d) && Plain(d)
    ensures Grows(SpokenPrefix, DocText(d), (n: nat) => if n <= |DocText(d)| then Said(d, n) else [])
  {
    var t := DocText(d);
    forall i, j | 0 <= i <= j <= |t| ensures Said(d, i) <= Said(d, j) && !HasMark(Said(d, i)) {
      SaidGrows(d, i, j);
      PrefixHasNoMark(Said(d, i), Meaning(d.tokens));
    }
  }

  /** However the document is cut into deltas, the emitted prose is exactly its text. */
  lemma ChunksDoNotMatter(d: Doc, f: Filter, chunks: seq<Text>)
    requires DocOk(d) && Plain(d) && Join(chunks) == DocText(d)
    ensures Emitted(Started(f), chunks) == Meaning(d.tokens)
  {
    var t := DocText(d);
    assert t[..0] == [] && t[0..] == t;
    PrefixReads(d, 0);
    PrefixReads(d, |t|);
    PlainGrows(d);
    RestIsEmitted(SpokenPrefix, t, (n: nat) => if n <= |DocText(d)| then Said(d, n) else [], Started(f), 0, chunks);
  }

  /** Two chunks, the second of which takes back what the first one said. */
  lemma TakenBack(read: Text -> Option<Text>, f: Filter, a: Text, b: Text, first: Text, second: Text)
    requires read(a) == Some(first) && read(a + b) == Some(second)
    requires !HasMark(first) && !HasMark(second) && first != [] && !(first <= second)
    ensures Join([a, b]) == a + b && EmittedBy(read, Started(f), [a, b]) == first + second
  {
    assert [a, b][1..] == [b] && [b][1..] == [] && b + [] == b;
    assert Join([b]) == b;
    assert [] + a == a;
    var (g, p) := OnDeltaBy(read, Started(f), a);
    assert g.published == first && p == Some(first);
    var (h, q) := OnDeltaBy(read, g, b);
    assert q == Some(second);
    assert EmittedBy(read, h, []) == [];
    assert EmittedBy(read, g, [b]) == second + EmittedBy(read, h, []);
  }

  lemma OneChunk(f: Filter, a: Text)
    ensures Join([a]) == a
    ensures Emitted(f, [a]) == TextOf(OnDelta(f, a).1)
  {
    assert [a][1..] == [];
    var (g, p) := OnDeltaBy(SpokenPrefix, f, a);
    assert EmittedBy(SpokenPrefix, g, []) == [];
  }

  /** With an escape the partial decoder misreads, a cut after the closing quote makes
      the filter say the misread text and then the whole reply again. */
  lemma CutBehindQuoteRepeats(d: Doc, f: Filter)
    requires DocOk(d) && !AllSupported(d.tokens) && !HasMark(Meaning(d.tokens))
    ensures var t := DocText(d);
            var cut := HeadEnd(d) + |Body(d.tokens)| + 1;
            && cut <= |t| && Join([t[..cut], t[cut..]]) == t
            && Emitted(Started(f), [t[..cut], t[cut..]]) == Shown(d.tokens) + Meaning(d.tokens)
            && Shown(d.tokens) != []
  {
    var t := DocText(d);
    var cut := HeadEnd(d) + |Body(d.tokens)| + 1;
    QuotedPrefixShowsAll(d);
    PrefixReads(d, cut);
    PrefixReads(d, |t|);
    ShownIsLonger(d.tokens);
    ShownPrefixOfMeaning(d.tokens);
    if HasMark(Shown(d.tokens)) { ShownMarksAreMeant(d.tokens); }
    assert t[..cut] + t[cut..] == t && t[..|t|] == t;
    TakenBack(SpokenPrefix, f, t[..cut], t[cut..], Shown(d.tokens), Meaning(d.tokens));
  }

  /** A markdown dump that arrives whole is not said at all. */
  lemma MarkedReplyInOneChunk(d: Doc, f: Filter)
    requires DocOk(d) && HasMark(Meaning(d.tokens))
    ensures Join([DocText(d)]) == DocText(d) && Emitted(Started(f), [DocText(d)]) == []
  {
    var t := DocText(d);
    OneChunk(Started(f), t);
    PrefixReads(d, |t|);
    assert t[..|t|] == t && [] + t == t;
  }

  /** Every cut spells the reply exactly for the replies with no `\b`, `\f` or `\u`
      escape and no markdown mark. */
  lemma ChunksDoNotMatterExactly(d: Doc, f: Filter)
    requires DocOk(d)
    ensures (forall chunks :: Join(chunks) == DocText(d) ==> Emitted(Started(f), chunks) == Meaning(d.tokens)) <==>
            Plain(d)
  {
    if Plain(d) {
      forall chunks | Join(chunks) == DocText(d) ensures Emitted(Started(f), chunks) == Meaning(d.tokens) {
        ChunksDoNotMatter(d, f, chunks);
      }
    } else {
      var chunks := SpoilingChunks(d, f);
    }
  }

  lemma SpoilingChunks(d: Doc, f: Filter) returns (chunks: seq<Text>)
    requires DocOk(d) && !Plain(d)
    ensures Join(chunks) == DocText(d) && Emitted(Started(f), chunks) != Meaning(d.tokens)
  {
    if HasMark(Meaning(d.tokens)) {
      MarkedReplyInOneChunk(d, f);
      chunks := [DocText(d)];
    } else {
      chunks := RepeatingChunks(d, f);
    }
  }

  lemma RepeatingChunks(d: Doc, f: Filter) returns (chunks: seq<Text>)
    requires DocOk(d) && !AllSupported(d.tokens) && !HasMark(Meaning(d.tokens))
    ensures Join(chunks) == DocText(d) && |Emitted(Started(f), chunks)| > |Meaning(d.tokens)|
  {
    CutBehindQuoteRepeats(d, f);
    var cut := HeadEnd(d) + |Body(d.tokens)| + 1;
    chunks := [DocText(d)[..cut], DocText(d)[cut..]];
  }

  // ------------------------------------------------------------ cuts against each other

  const PIPE: unit := 124

  /** The reply opens with a pipe, so that nothing of it is ever said. */
  predicate OpensWithPipe(d: Doc) {
    d.tokens != [] && d.tokens[0] == Raw(PIPE)
  }

  /** What is read of each prefix of `t` is nothing, marked or empty. */
  ghost predicate Mute(read: Text -> Option<Text>, t: Text) {
    forall i: nat :: i <= |t| ==> Withheld(read(t[..i]))
  }

  predicate Withheld(spoken: Option<Text>) {
    spoken.None? || HasMark(spoken.value) || spoken.value == []
  }

  lemma {:induction false} MuteSaysNothing(
    read: Text -> Option<Text>, t: Text, f: Filter, n: nat, chunks: seq<Text>)
    requires Mute(read, t) && n <= |t| && f.accumulated == t[..n] && f.published == []
    requires Join(chunks) == t[n..]
    ensures EmittedBy(read, f, chunks) == []
    decreases |chunks|
  {
    if chunks != [] {
      CutAt(t, n, chunks[0], Join(chunks[1..]));
      assert Withheld(read(t[..n + |chunks[0]|]));
      MuteSaysNothing(read, t, OnDeltaBy(read, f, chunks[0]).0, n + |chunks[0]|, chunks[1..]);
    }
  }

  lemma PipeIsMarked(t: Text)
    requires t != [] && t[0] == PIPE
    ensures HasMark(t)
  {
    assert MarkAt(t, 0);
  }

  lemma OpenedPipeIsMute(d: Doc)
    requires DocOk(d) && OpensWithPipe(d)
    ensures Mute(SpokenPrefix, DocText(d)) && HasMark(Meaning(d.tokens))
  {
    PipeIsMarked(Meaning(d.tokens));
    forall n: nat | n <= |DocText(d)| ensures Withheld(SpokenPrefix(DocText(d)[..n])) {
      PrefixReads(d, n);
      if HeadEnd(d) <= n <= ObjectEnd(d) {
        var said := PartialDecode(DocText(d)[HeadEnd(d)..n]);
        assert said <= Shown(d.tokens) && Shown(d.tokens)[0] == PIPE;
        if said != [] { PipeIsMarked(said); }
      }
    }
  }

  /** How much of a token shows its first character. */
  function FirstWritten(t: Token): nat {
    if t.Raw? then 1 else 2
  }

  lemma FirstCharacterShows(t: Token)
    requires TokenOk(t) && t != Raw(PIPE)
    ensures FirstWritten(t) <= |Written(t)|
    ensures !Withheld(Some(PartialDecode(Written(t)[..FirstWritten(t)])))
  {
    var seen := Written(t)[..FirstWritten(t)];
    assert seen[|seen|..] == [] && seen[0..] == seen;
    DecodeAt(seen, 0);
    var said := PartialDecode(seen);
    assert |said| == 1 && said[0] != PIPE;
    assert forall i :: 0 <= i < |said| ==> !MarkAt(said, i);
  }

  /** Right behind the first character of any other reply, that character is said. */
  lemma FirstCharacterIsSaid(d: Doc) returns (cut: nat)
    requires DocOk(d) && d.tokens != [] && !OpensWithPipe(d)
    ensures cut <= |DocText(d)| && !Withheld(SpokenPrefix(DocText(d)[..cut]))
  {
    var t := d.tokens[0];
    assert t in d.tokens && TokenOk(t);
    FirstCharacterShows(t);
    BodyStarts(d, FirstWritten(t));
    cut := HeadEnd(d) + FirstWritten(t);
    PrefixReads(d, cut);
  }

  lemma BodyStarts(d: Doc, w: nat)
    requires DocOk(d) && d.tokens != [] && w <= |Written(d.tokens[0])|
    ensures HeadEnd(d) + w <= ObjectEnd(d) <= |DocText(d)|
    ensures DocText(d)[HeadEnd(d)..HeadEnd(d) + w] == Written(d.tokens[0])[..w]
  {
    QuotedPrefixShowsAll(d);
    assert DocText(d)[HeadEnd(d)..HeadEnd(d) + |Body(d.tokens)|] == Body(d.tokens);
    assert Body(d.tokens)[..w] == Written(d.tokens[0])[..w];
    assert DocText(d)[HeadEnd(d)..HeadEnd(d) + w] == DocText(d)[HeadEnd(d)..HeadEnd(d) + |Body(d.tokens)|][..w];
  }

  lemma SaidFirst(read: Text -> Option<Text>, f: Filter, a: Text, b: Text)
    requires !Withheld(read(a))
    ensures Join([a, b]) == a + b && EmittedBy(read, Started(f), [a, b]) != []
  {
    assert [a, b][1..] == [b] && [b][1..] == [] && b + [] == b;
    assert Join([b]) == b;
    assert [] + a == a;
    var (g, p) := OnDeltaBy(read, Started(f), a);
    assert p == Some(read(a).value);
  }

  /** A cut at which something is said. */
  lemma SaidAtCut(read: Text -> Option<Text>, f: Filter, t: Text, cut: nat)
    requires cut <= |t| && !Withheld(read(t[..cut]))
    ensures Join([t[..cut], t[cut..]]) == t && EmittedBy(read, Started(f), [t[..cut], t[cut..]]) != []
  {
    SaidFirst(read, f, t[..cut], t[cut..]);
    assert t[..cut] + t[cut..] == t;
  }

  lemma WholeIsSaid(d: Doc, f: Filter)
    requires DocOk(d) && !HasMark(Meaning(d.tokens))
    ensures Join([DocText(d)]) == DocText(d) && Emitted(Started(f), [DocText(d)]) == Meaning(d.tokens)
  {
    var t := DocText(d);
    OneChunk(Started(f), t);
    PrefixReads(d, |t|);
    assert t[..|t|] == t && [] + t == t;
  }

  ghost predicate AllCutsAgree(t: Text, f: Filter) {
    forall a, b :: Join(a) == t && Join(b) == t ==> Emitted(Started(f), a) == Emitted(Started(f), b)
  }

  lemma TwoCutsDiffer(t: Text, f: Filter, a: seq<Text>, b: seq<Text>, said: Text, other: Text)
    requires Join(a) == t && Join(b) == t && said != other
    requires Emitted(Started(f), a) == said && Emitted(Started(f), b) == other
    ensures !AllCutsAgree(t, f)
  {}

  /** The cuts of a reply into deltas agree with each other exactly when every one of
      them spells it, or none ever says anything because it opens with a pipe. */
  lemma CutsAgreeExactly(d: Doc, f: Filter)
    requires DocOk(d)
    ensures AllCutsAgree(DocText(d), f) <==> Plain(d) || OpensWithPipe(d)
  {
    if Plain(d) {
      forall a | Join(a) == DocText(d) ensures Emitted(Started(f), a) == Meaning(d.tokens) {
        ChunksDoNotMatter(d, f, a);
      }
    } else if OpensWithPipe(d) {
      OpenedPipeIsMute(d);
      assert DocText(d)[..0] == [] && DocText(d)[0..] == DocText(d);
      forall a | Join(a) == DocText(d) ensures Emitted(Started(f), a) == [] {
        MuteSaysNothing(SpokenPrefix, DocText(d), Started(f), 0, a);
      }
    } else if HasMark(Meaning(d.tokens)) {
      MarkedCutsDisagree(d, f);
    } else {
      RepeatingCutsDisagree(d, f);
    }
  }

  lemma MarkedCutsDisagree(d: Doc, f: Filter)
    requires DocOk(d) && HasMark(Meaning(d.tokens)) && !OpensWithPipe(d)
    ensures !AllCutsAgree(DocText(d), f)
  {
    MarkedReplyInOneChunk(d, f);
    var cut := FirstCharacterIsSaid(d);
    SaidAtCut(SpokenPrefix, f, DocText(d), cut);
    var chunks := [DocText(d)[..cut], DocText(d)[cut..]];
    TwoCutsDiffer(DocText(d), f, [DocText(d)], chunks, [], Emitted(Started(f), chunks));
  }

  lemma RepeatingCutsDisagree(d: Doc, f: Filter)
    requires DocOk(d) && !HasMark(Meaning(d.tokens)) && !AllSupported(d.tokens)
    ensures !AllCutsAgree(DocText(d), f)
  {
    WholeIsSaid(d, f);
    var chunks := RepeatingChunks(d, f);
    TwoCutsDiffer(DocText(d), f, [DocText(d)], chunks, Meaning(d.tokens), Emitted(Started(f), chunks));
  }

  // ------------------------------------------------------------ whole streams

  function RunParts(f: Filter, parts: seq<Part>, fallback: Text): (Filter, seq<Part>)
    decreases |parts|
  {
    if parts == [] then (f, [])
    else
      var (g, out) := OnPart(f, parts[0], fallback);
      var (h, more) := RunParts(g, parts[1..], fallback);
      (h, out + more)
  }

  /** The text that the parts of a stream spell. */
  function DeltaText(parts: seq<Part>): Text {
    if parts == [] then []
    else (if parts[0].kind == TextDelta then parts[0].text else []) + DeltaText(parts[1..])
  }

  lemma {:induction false} DeltaTextAppend(a: seq<Part>, b: seq<Part>)
    ensures DeltaText(a + b) == DeltaText(a) + DeltaText(b)
  {
    if a == [] {
      assert a + b == b;
    } else {
      assert (a + b)[1..] == a[1..] + b;
      DeltaTextAppend(a[1..], b);
    }
  }

  /** The deltas among the parts, without those of the synthetic tool. */
  function Deltas(parts: seq<Part>): seq<Text> {
    if parts == [] then []
    else
      var first := if parts[0].kind == TextDelta && parts[0].toolName != SYNTHETIC_TOOL then [parts[0].text] else [];
      first + Deltas(parts[1..])
  }

  /** Parts that neither start nor end a text: deltas, parts of the synthetic tool,
      whatever else a step streams. */
  predicate Inside(parts: seq<Part>) {
    forall p :: p in parts ==> p.toolName == SYNTHETIC_TOOL || p.kind == TextDelta || p.kind == OtherKind
  }

  /** The same filter, whatever calls it has dropped. */
  predicate Alike(f: Filter, g: Filter) {
    f.accumulated == g.accumulated && f.published == g.published && f.held == g.held
  }

  /** A part inside a text moves the filter like its delta, or not at all. */
  lemma InsidePart(f: Filter, g: Filter, p: Part, fallback: Text)
    requires Alike(f, g) && (p.toolName == SYNTHETIC_TOOL || p.kind == TextDelta || p.kind == OtherKind)
    ensures var (h, out) := OnPart(f, p, fallback);
            if p.kind == TextDelta && p.toolName != SYNTHETIC_TOOL
            then Alike(h, OnDelta(g, p.text).0) && DeltaText(out) == TextOf(OnDelta(g, p.text).1)
            else Alike(h, g) && DeltaText(out) == []
  {
    var (h, out) := OnPart(f, p, fallback);
    assert out == [] || (|out| == 1 && out[1..] == []);
  }

  /** The filter after all the chunks. */
  function AfterBy(read: Text -> Option<Text>, f: Filter, chunks: seq<Text>): Filter
    decreases |chunks|
  {
    if chunks == [] then f else AfterBy(read, OnDeltaBy(read, f, chunks[0]).0, chunks[1..])
  }

  function After(f: Filter, chunks: seq<Text>): Filter {
    AfterBy(SpokenPrefix, f, chunks)
  }

  lemma {:induction false} InsideSpells(f: Filter, g: Filter, parts: seq<Part>, fallback: Text)
    requires Alike(f, g) && Inside(parts)
    ensures DeltaText(RunParts(f, parts, fallback).1) == Emitted(g, Deltas(parts))
    ensures Alike(RunParts(f, parts, fallback).0, After(g, Deltas(parts)))
    decreases |parts|
  {
    if parts != [] {
      var p, rest := parts[0], parts[1..];
      var (h, out) := OnPart(f, p, fallback);
      InsidePart(f, g, p, fallback);
      DeltaTextAppend(out, RunParts(h, rest, fallback).1);
      if p.kind == TextDelta && p.toolName != SYNTHETIC_TOOL {
        assert Deltas(parts)[1..] == Deltas(rest);
        InsideSpells(h, OnDelta(g, p.text).0, rest, fallback);
      } else {
        assert Deltas(parts) == Deltas(rest);
        InsideSpells(h, g, rest, fallback);
      }
    }
  }

  lemma {:induction false} AfterAll(
    read: Text -> Option<Text>, t: Text, said: nat -> Text, f: Filter, n: nat, chunks: seq<Text>)
    requires Grows(read, t, said) && n <= |t|
    requires f.accumulated == t[..n] && f.published == said(n) && Join(chunks) == t[n..]
    ensures AfterBy(read, f, chunks) == f.(accumulated := t, published := said(|t|))
    decreases |chunks|
  {
    if chunks == [] {
      assert n == |t| && t[..n] == t;
    } else {
      CutAt(t, n, chunks[0], Join(chunks[1..]));
      DeltaAdvances(read, t, said, f, n, chunks[0]);
      AfterAll(read, t, said, OnDeltaBy(read, f, chunks[0]).0, n + |chunks[0]|, chunks[1..]);
    }
  }

  lemma {:induction false} RunPartsAppend(f: Filter, a: seq<Part>, b: seq<Part>, fallback: Text)
    ensures var (g, x) := RunParts(f, a, fallback);
            var (h, y) := RunParts(g, b, fallback);
            RunParts(f, a + b, fallback) == (h, x + y)
    decreases |a|
  {
    if a == [] {
      assert a + b == b;
      assert [] + RunParts(f, b, fallback).1 == RunParts(f, b, fallback).1;
    } else {
      assert (a + b)[1..] == a[1..] + b;
      var (g, out) := OnPart(f, a[0], fallback);
      RunPartsAppend(g, a[1..], b, fallback);
      var (h, x) := RunParts(g, a[1..], fallback);
      var (_, y) := RunParts(h, b, fallback);
      assert out + (x + y) == (out + x) + y;
    }
  }

  /** A document opens with a brace. */
  lemma DocLooksLikeJson(d: Doc)
    requires DocOk(d)
    ensures LooksLikeJson(DocText(d))
  {
    TrimStartSpace(d.w0, HeadText(d) + (ValueText(d) + ([CLOSE_BRACE] + d.w5)));
  }

  /** At its end, a reply that has been spelled is neither repeated nor held back, and
      an empty one says nothing. */
  lemma SpelledReplyEnds(d: Doc, f: Filter, end: Part)
    requires DocOk(d) && Plain(d) && f.accumulated == DocText(d) && f.published == Meaning(d.tokens)
    ensures OnEnd(f, end) == (f, [end])
  {
    DocLooksLikeJson(d);
    CompleteOfLong(d, |DocText(d)|);
    assert DocText(d)[..|DocText(d)|] == DocText(d);
  }

  predicate IsText(p: Part, kind: Kind) {
    p.kind == kind && p.toolName != SYNTHETIC_TOOL
  }

  lemma StartAndEnd(f: Filter, start: Part, inside: seq<Part>, end: Part, fallback: Text)
    requires IsText(start, TextStart) && IsText(end, TextEnd)
    ensures var (g, x) := RunParts(Started(f), inside, fallback);
            var (h, y) := OnEnd(g, end);
            RunParts(f, [start] + (inside + [end]), fallback) == (h, (HeldParts(f, fallback) + [start]) + (x + y))
  {
    var all := [start] + (inside + [end]);
    assert all[1..] == inside + [end];
    RunPartsAppend(Started(f), inside, [end], fallback);
    assert [end][1..] == [];
    var (g, x) := RunParts(Started(f), inside, fallback);
    assert OnEnd(g, end).1 + [] == OnEnd(g, end).1;
  }

  lemma TextOfWhole(held: seq<Part>, start: Part, x: seq<Part>, y: seq<Part>)
    requires start.kind == TextStart
    ensures DeltaText((held + [start]) + (x + y)) == DeltaText(held) + (DeltaText(x) + DeltaText(y))
  {
    DeltaTextAppend(held + [start], x + y);
    DeltaTextAppend(held, [start]);
    DeltaTextAppend(x, y);
    assert DeltaText([start]) == [];
    assert DeltaText(held) + [] == DeltaText(held);
  }

  /** What the parts inside a text spell, and the filter they leave. */
  lemma InsideOfWhole(d: Doc, f: Filter, inside: seq<Part>, fallback: Text)
    requires DocOk(d) && Plain(d) && Inside(inside) && Join(Deltas(inside)) == DocText(d)
    ensures var (g, x) := RunParts(Started(f), inside, fallback);
            && DeltaText(x) == Meaning(d.tokens)
            && g.accumulated == DocText(d) && g.published == Meaning(d.tokens) && g.held == None
  {
    InsideSpells(Started(f), Started(f), inside, fallback);
    ChunksDoNotMatter(d, f, Deltas(inside));
    AfterWholeReply(d, f, Deltas(inside));
  }

  /** A whole text, from its start part to its end part, with parts of the synthetic
      tool and any others among its deltas: for every cut, what leaves the filter (and
      what a flush would still send) spells the reply once, after whatever an earlier
      text left to be said, and nothing is held back. */
  lemma StreamSpellsTheReply(d: Doc, f: Filter, start: Part, inside: seq<Part>, end: Part, fallback: Text)
    requires DocOk(d) && Plain(d) && Inside(inside) && Join(Deltas(inside)) == DocText(d)
    requires IsText(start, TextStart) && IsText(end, TextEnd)
    ensures var (g, out) := RunParts(f, [start] + (inside + [end]), fallback);
            && DeltaText(out) == DeltaText(HeldParts(f, fallback)) + Meaning(d.tokens)
            && HeldParts(g, fallback) == [] && out != [] && out[|out| - 1] == end
  {
    InsideOfWhole(d, f, inside, fallback);
    var (g, x) := RunParts(Started(f), inside, fallback);
    SpelledReplyEnds(d, g, end);
    StartAndEnd(f, start, inside, end, fallback);
    TextOfWhole(HeldParts(f, fallback), start, x, [end]);
    assert DeltaText([end]) == [] && DeltaText(x) + [] == DeltaText(x);
  }

  lemma AfterWholeReply(d: Doc, f: Filter, chunks: seq<Text>)
    requires DocOk(d) && Plain(d) && Join(chunks) == DocText(d)
    ensures After(Started(f), chunks) == Started(f).(accumulated := DocText(d), published := Meaning(d.tokens))
  {
    var t := DocText(d);
    assert t[..0] == [] && t[0..] == t && t[..|t|] == t;
    PrefixReads(d, 0);
    PrefixReads(d, |t|);
    PlainGrows(d);
    AfterAll(SpokenPrefix, t, (n: nat) => if n <= |DocText(d)| then Said(d, n) else [], Started(f), 0, chunks);
  }

  lemma MarkedReplyIsHeld(d: Doc, f: Filter, end: Part)
    requires DocOk(d) && HasMark(Meaning(d.tokens)) && f.accumulated == DocText(d) && f.published == []
    ensures OnEnd(f, end) == (f.(held := Some(end)), [])
  {
    DocLooksLikeJson(d);
    CompleteOfLong(d, |DocText(d)|);
    assert DocText(d)[..|DocText(d)|] == DocText(d);
  }

  lemma OneMarkedChunk(read: Text -> Option<Text>, f: Filter, t: Text)
    requires read(t).Some? && HasMark(read(t).value)
    ensures AfterBy(read, Started(f), [t]) == Started(f).(accumulated := t) && EmittedBy(read, Started(f), [t]) == []
  {
    assert [t][1..] == [] && [] + t == t;
    var g := OnDeltaBy(read, Started(f), t).0;
    assert AfterBy(read, g, []) == g && EmittedBy(read, g, []) == [];
  }

  lemma AfterMarkedReply(d: Doc, f: Filter, chunks: seq<Text>)
    requires DocOk(d) && HasMark(Meaning(d.tokens)) && chunks == [DocText(d)]
    ensures After(Started(f), chunks) == Started(f).(accumulated := DocText(d)) && Emitted(Started(f), chunks) == []
  {
    PrefixReads(d, |DocText(d)|);
    assert DocText(d)[..|DocText(d)|] == DocText(d);
    OneMarkedChunk(SpokenPrefix, f, DocText(d));
  }

  /** A markdown dump that arrives in one delta is not said; when the stream is flushed
      it is answered with the fallback. */
  lemma MarkedStreamSaysTheFallback(d: Doc, f: Filter, start: Part, inside: seq<Part>, end: Part, fallback: Text)
    requires DocOk(d) && HasMark(Meaning(d.tokens)) && Inside(inside) && Deltas(inside) == [DocText(d)]
    requires IsText(start, TextStart) && IsText(end, TextEnd)
    ensures var (g, out) := RunParts(f, [start] + (inside + [end]), fallback);
            && DeltaText(out) == DeltaText(HeldParts(f, fallback))
            && HeldParts(g, fallback) == [end.(kind := TextDelta, text := fallback), end]
  {
    InsideSpells(Started(f), Started(f), inside, fallback);
    AfterMarkedReply(d, f, Deltas(inside));
    var (g, x) := RunParts(Started(f), inside, fallback);
    MarkedReplyIsHeld(d, g, end);
    StartAndEnd(f, start, inside, end, fallback);
    TextOfWhole(HeldParts(f, fallback), start, x, []);
    assert DeltaText(x) == [] && DeltaText(HeldParts(f, fallback)) + ([] + []) == DeltaText(HeldParts(f, fallback));
  }
}
