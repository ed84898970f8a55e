/** What the IPv6 reader of `ClientIp` accepts: exactly the text forms of section 2.2 of RFC 4291.

    A form is eight hexadecimal groups, or fewer around one `::` that stands for at least one zero
    group, where a dotted IPv4 quad may stand for the last two groups. Every form is read as the
    hextets it denotes and reduced by them alone (section 2.5.5 of RFC 4291, section 2.1 of
    RFC 6052, section 2 of RFC 3056), and what it is reduced to is a fixed point. */
module Ipv6Forms {
  import opened Options
  import opened Decimal
  import opened Separated
  import opened ClientIp

  // ------------------------------------------------------------ joined text

  lemma {:induction false} JoinSnoc(parts: seq<string>, last: string, sep: char)
    requires parts != []
    ensures Join(parts + [last], sep) == Join(parts, sep) + [sep] + last
  {
    var a, rest := parts[0], parts[1..];
    assert parts + [last] == [a] + (rest + [last]);
    if rest == [] {
      assert rest + [last] == [last];
    } else {
      JoinSnoc(rest, last, sep);
      JoinCons(a, rest + [last], sep);
    }
  }

  lemma SplitJoined(parts: seq<string>, sep: char)
    requires parts != [] && forall i :: 0 <= i < |parts| ==> sep !in parts[i]
    ensures Split(Join(parts, sep), sep) == parts
  {
    var n := |parts| - 1;
    SplitOfJoin(parts, n, sep);
    assert parts[n..] == [parts[n]];
    SplitWhole(parts[n], sep);
    assert parts == parts[..n] + [parts[n]];
  }

  ghost predicate Every(s: string, ok: char -> bool) {
    forall i :: 0 <= i < |s| ==> ok(s[i])
  }

  lemma {:induction false} JoinEvery(parts: seq<string>, sep: char, ok: char -> bool)
    requires ok(sep) && forall i :: 0 <= i < |parts| ==> Every(parts[i], ok)
    ensures Every(Join(parts, sep), ok)
  {
    if |parts| > 1 { JoinEvery(parts[1..], sep, ok); }
  }

  // ------------------------------------------------------------ text forms

  /** An address as it may be written: hexadecimal groups, with `::` between `left` and `right`
      or without it, and the last two hextets possibly as a dotted quad. */
  datatype Form = Form(compressed: bool, left: seq<string>, right: seq<string>, quad: Option<seq<string>>)

  predicate QuadOk(q: seq<string>) {
    |q| == 4 && forall i :: 0 <= i < 4 ==> 1 <= |q[i]| <= 3 && AllDigits(q[i]) && ReadNat(q[i]) <= 255
  }

  function Count(f: Form): nat {
    |f.left| + |f.right| + if f.quad.Some? then 2 else 0
  }

  predicate FormOk(f: Form) {
    && AllGroups(f.left) && AllGroups(f.right) && (f.quad.Some? ==> QuadOk(f.quad.value))
    && if f.compressed then Count(f) <= 7 else f.left == [] && Count(f) == 8
  }

  function Text(f: Form): string {
    var tail := f.right + if f.quad.Some? then [Join(f.quad.value, '.')] else [];
    if f.compressed then Join(f.left, ':') + "::" + Join(tail, ':') else Join(tail, ':')
  }

  function High(q: seq<string>): nat
    requires QuadOk(q)
  {
    Hextet(ReadNat(q[0]), ReadNat(q[1]))
  }

  function Low(q: seq<string>): nat
    requires QuadOk(q)
  {
    Hextet(ReadNat(q[2]), ReadNat(q[3]))
  }

  /** The eight hextets that the form denotes. */
  function Meaning(f: Form): seq<nat>
    requires FormOk(f)
  {
    var tail := Values(f.right) + if f.quad.Some? then [High(f.quad.value), Low(f.quad.value)] else [];
    Values(f.left) + Zeros(8 - Count(f)) + tail
  }

  /** The same address with its dotted quad in hexadecimal. */
  function Expanded(f: Form): Form
    requires FormOk(f)
  {
    if f.quad.None? then f
    else f.(right := f.right + [PrintHex(High(f.quad.value)), PrintHex(Low(f.quad.value))], quad := None)
  }

  lemma {:induction false} ValuesSnoc(gs: seq<string>, g: string)
    requires AllGroups(gs) && IsHexGroup(g)
    ensures AllGroups(gs + [g]) && Values(gs + [g]) == Values(gs) + [ReadHex(g)]
  {
    assert (gs + [g])[..|gs|] == gs;
  }

  lemma ExpandedMeansTheSame(f: Form)
    requires FormOk(f)
    ensures FormOk(Expanded(f)) && Meaning(Expanded(f)) == Meaning(f)
  {
    if f.quad.Some? {
      var a, b := PrintHex(High(f.quad.value)), PrintHex(Low(f.quad.value));
      HextetPrints(High(f.quad.value));
      HextetPrints(Low(f.quad.value));
      ValuesSnoc(f.right, a);
      ValuesSnoc(f.right + [a], b);
      assert f.right + [a, b] == f.right + [a] + [b];
    }
  }

  // ------------------------------------------------------------ reading hexadecimal forms

  ghost predicate NoDouble(s: string) {
    forall i :: 0 <= i < |s| - 1 ==> s[i] != ':' || s[i + 1] != ':'
  }

  lemma {:induction false} NoDoubleFound(s: string)
    requires NoDouble(s)
    ensures DoubleAt(s) == |s|
  {
    if |s| >= 2 {
      assert s[0] != ':' || s[1] != ':';
      var t := s[1..];
      forall i | 0 <= i < |t| - 1 ensures t[i] != ':' || t[i + 1] != ':' {
        assert s[i + 1] != ':' || s[i + 1 + 1] != ':';
      }
      NoDoubleFound(t);
    }
  }

  lemma {:induction false} DoubleFound(x: string, y: string)
    requires NoDouble(x) && (x != "" ==> x[|x| - 1] != ':')
    ensures DoubleAt(x + "::" + y) == |x|
  {
    var t := x + "::" + y;
    if x != "" {
      assert t[1..] == x[1..] + "::" + y;
      assert |x| >= 2 ==> t[1] == x[1];
      DoubleFound(x[1..], y);
    }
  }

  /** Joined groups neither double a colon nor start or end with one. */
  lemma {:induction false} JoinedGroups(gs: seq<string>)
    requires AllGroups(gs)
    ensures var s := Join(gs, ':');
      NoDouble(s) && (gs != [] <==> s != "") && (s != "" ==> s[0] != ':' && s[|s| - 1] != ':')
  {
    if gs != [] {
      var a := gs[0];
      HextetValue(a);
      assert a[0] != ':' && a[|a| - 1] != ':';
      if |gs| > 1 { JoinedGroups(gs[1..]); }
    }
  }

  lemma GroupsRead(gs: seq<string>)
    requires AllGroups(gs)
    ensures Groups(Join(gs, ':')) == Some(Values(gs))
  {
    if gs != [] {
      JoinedGroups(gs);
      forall i | 0 <= i < |gs| ensures ':' !in gs[i] { HextetValue(gs[i]); }
      SplitJoined(gs, ':');
    }
  }

  /** Two texts around `::`, neither with a doubled colon. */
  lemma CompressedReads(x: string, y: string)
    requires NoDouble(x) && (x != "" ==> x[|x| - 1] != ':')
    ensures Hextets(x + "::" + y) == AroundDouble(x, y)
  {
    DoubleFound(x, y);
    var t := x + "::" + y;
    assert t[..|x|] == x && t[|x| + 2..] == y;
  }

  lemma SidesRead(left: seq<string>, right: seq<string>)
    requires AllGroups(left) && AllGroups(right) && |left| + |right| <= 7
    ensures AroundDouble(Join(left, ':'), Join(right, ':'))
         == Some(Values(left) + Zeros(8 - |left| - |right|) + Values(right))
  {
    JoinedGroups(right);
    GroupsRead(left);
    GroupsRead(right);
    AroundReads(Join(left, ':'), Join(right, ':'), Values(left), Values(right));
  }

  lemma AroundReads(x: string, y: string, l: seq<nat>, r: seq<nat>)
    requires NoDouble(y) && Groups(x) == Some(l) && Groups(y) == Some(r) && |l| + |r| <= 7
    ensures AroundDouble(x, y) == Some(l + Zeros(8 - |l| - |r|) + r)
  {
    NoDoubleFound(y);
  }

  lemma PlainReads(groups: seq<string>)
    requires AllGroups(groups) && |groups| == 8
    ensures Hextets(Join(groups, ':')) == Some(Values(groups))
  {
    JoinedGroups(groups);
    GroupsRead(groups);
    NoDoubleFound(Join(groups, ':'));
  }

  lemma HexText(f: Form)
    requires FormOk(f) && f.quad.None?
    ensures Text(f) == if f.compressed then Join(f.left, ':') + "::" + Join(f.right, ':') else Join(f.right, ':')
  {
    assert f.right + [] == f.right;
  }

  lemma HexMeaning(f: Form)
    requires FormOk(f) && f.quad.None?
    ensures Meaning(f) ==
      if f.compressed then Values(f.left) + Zeros(8 - |f.left| - |f.right|) + Values(f.right) else Values(f.right)
  {
    assert Values(f.right) + [] == Values(f.right);
    if !f.compressed { assert Values(f.left) + Zeros(0) + Values(f.right) == Values(f.right); }
  }

  lemma SidesTextReads(left: seq<string>, right: seq<string>)
    requires AllGroups(left) && AllGroups(right) && |left| + |right| <= 7
    ensures Hextets(Join(left, ':') + "::" + Join(right, ':'))
         == Some(Values(left) + Zeros(8 - |left| - |right|) + Values(right))
  {
    JoinedGroups(left);
    CompressedReads(Join(left, ':'), Join(right, ':'));
    SidesRead(left, right);
  }

  lemma HexFormReads(f: Form)
    requires FormOk(f) && f.quad.None?
    ensures Hextets(Text(f)) == Some(Meaning(f))
  {
    HexText(f);
    HexMeaning(f);
    if f.compressed { SidesTextReads(f.left, f.right); } else { PlainReads(f.right); }
  }

  // ------------------------------------------------------------ rewriting a dotted tail

  lemma {:induction false} LastColonIs(x: string, q: string)
    requires ':' !in q
    ensures AfterLastColon(x + ":" + q) == |x| + 1
  {
    var t := x + ":" + q;
    if q != "" {
      assert t[..|t| - 1] == x + ":" + q[..|q| - 1];
      LastColonIs(x, q[..|q| - 1]);
    }
  }

  predicate DigitOrDot(c: char) {
    IsDigit(c) || c == '.'
  }

  lemma QuadReads(q: seq<string>)
    requires QuadOk(q)
    ensures var s := Join(q, '.');
      ':' !in s && IsQuad(s) && Octets(s) == [ReadNat(q[0]), ReadNat(q[1]), ReadNat(q[2]), ReadNat(q[3])]
  {
    SplitJoined(q, '.');
    assert forall i :: 0 <= i < |q| ==> Every(q[i], DigitOrDot);
    JoinEvery(q, '.', DigitOrDot);
  }

  /** A dotted tail behind any one-line prefix becomes two hexadecimal groups. */
  lemma RewriteQuad(x: string, q: seq<string>)
    requires QuadOk(q) && x != "" && OneLine(x)
    ensures Rewrite(x + ":" + Join(q, '.')) == Some(x + ":" + PrintHex(High(q)) + ":" + PrintHex(Low(q)))
  {
    var s := Join(q, '.');
    var t := x + ":" + s;
    QuadReads(q);
    LastColonIs(x, s);
    Appended(x, PrintHex(High(q)), PrintHex(Low(q)));
    assert t[..|x| + 1] == x + ":" && t[|x| + 1..] == s && t[..|x|] == x;
  }

  predicate HexOrColon(c: char) {
    IsHex(c) || c == ':'
  }

  lemma RewriteHex(s: string)
    requires Every(s, HexOrColon)
    ensures Rewrite(s) == Some(s)
  {
    var k := AfterLastColon(s);
    SplitWhole(s[k..], '.');
  }

  lemma GroupsEvery(gs: seq<string>)
    requires AllGroups(gs)
    ensures Every(Join(gs, ':'), HexOrColon)
  {
    assert forall i :: 0 <= i < |gs| ==> Every(gs[i], HexOrColon);
    JoinEvery(gs, ':', HexOrColon);
  }

  /** What stands before the dotted quad of a form, without its last colon. */
  function Front(f: Form): string {
    if f.compressed then Join(f.left, ':') + (if f.right == [] then ":" else "::" + Join(f.right, ':'))
    else Join(f.right, ':')
  }

  lemma FrontIs(f: Form)
    requires FormOk(f) && f.quad.Some?
    ensures Front(f) != "" && OneLine(Front(f))
    ensures Text(f) == Front(f) + ":" + Join(f.quad.value, '.')
  {
    var s := Join(f.quad.value, '.');
    GroupsEvery(f.left);
    GroupsEvery(f.right);
    JoinedGroups(f.right);
    if f.right != [] { JoinSnoc(f.right, s, ':'); }
  }

  lemma FrontOfExpanded(f: Form, a: string, b: string)
    requires FormOk(f) && f.quad.Some?
    ensures Text(f.(right := f.right + [a, b], quad := None)) == Front(f) + ":" + a + ":" + b
  {
    assert f.right + [a, b] + [] == f.right + [a] + [b];
    TwoMore(f.right, a, b);
  }

  lemma TwoMore(parts: seq<string>, a: string, b: string)
    ensures Join(parts + [a] + [b], ':') == (if parts == [] then a else Join(parts, ':') + ":" + a) + ":" + b
  {
    if parts == [] {
      assert parts + [a] == [a];
    } else {
      JoinSnoc(parts, a, ':');
    }
    JoinSnoc(parts + [a], b, ':');
  }

  lemma RewriteForm(f: Form)
    requires FormOk(f)
    ensures Rewrite(Text(f)) == Some(Text(Expanded(f)))
  {
    if f.quad.Some? {
      FrontIs(f);
      RewriteQuad(Front(f), f.quad.value);
      FrontOfExpanded(f, PrintHex(High(f.quad.value)), PrintHex(Low(f.quad.value)));
    } else {
      GroupsEvery(f.left);
      GroupsEvery(f.right);
      assert f.right + [] == f.right;
      RewriteHex(Text(f));
    }
  }

  /** Every legal spelling of an address is read as its eight hextets. */
  lemma EveryFormIsRead(f: Form)
    requires FormOk(f)
    ensures ParseIpv6(Text(f)) == Some(Meaning(f))
  {
    RewriteForm(f);
    ExpandedMeansTheSame(f);
    HexFormReads(Expanded(f));
  }

  // ------------------------------------------------------------ and nothing else is

  lemma {:induction false} SplitLast(x: string, y: string, sep: char)
    requires sep !in y
    ensures Split(x + [sep] + y, sep) == Split(x, sep) + [y]
    decreases |x|
  {
    var i := SepAt(x, sep);
    if i == |x| {
      SplitFirst(x, y, sep);
      SplitWhole(x, sep);
      SplitWhole(y, sep);
    } else {
      var rest := x[i + 1..];
      assert x == x[..i] + [sep] + rest;
      assert x + [sep] + y == x[..i] + [sep] + (rest + [sep] + y);
      SplitFirst(x[..i], rest, sep);
      SplitFirst(x[..i], rest + [sep] + y, sep);
      SplitLast(rest, y, sep);
      Separated.Regrouped(x[..i], Split(rest, sep), [y]);
    }
  }

  /** The groups of a part that `Groups` accepts. */
  function Parts(part: string): seq<string> {
    if part == "" then [] else Split(part, ':')
  }

  lemma PartsJoin(part: string)
    ensures Join(Parts(part), ':') == part
    ensures Groups(part).Some? ==> AllGroups(Parts(part)) && Groups(part).value == Values(Parts(part))
  {
    if part != "" { JoinOfSplit(part, ':'); }
  }

  /** The form of a text without dotted tail. */
  function HexFormOf(t: string): Form {
    var i := DoubleAt(t);
    if i < |t| then Form(true, Parts(t[..i]), Parts(t[i + 2..]), None) else Form(false, [], Parts(t), None)
  }

  /** The texts on both sides of `::`. */
  predicate Sides(l: string, r: string) {
    AllGroups(Parts(l)) && AllGroups(Parts(r)) && |Parts(l)| + |Parts(r)| <= 7
  }

  lemma CompressedParts(t: string)
    requires Hextets(t).Some? && DoubleAt(t) < |t|
    ensures Sides(t[..DoubleAt(t)], t[DoubleAt(t) + 2..])
  {
    PartsJoin(t[..DoubleAt(t)]);
    PartsJoin(t[DoubleAt(t) + 2..]);
  }

  lemma PlainParts(t: string)
    requires Hextets(t).Some? && DoubleAt(t) == |t|
    ensures AllGroups(Parts(t)) && |Parts(t)| == 8
  {
    PartsJoin(t);
  }

  lemma SidesForm(l: string, r: string)
    requires Sides(l, r)
    ensures var f := Form(true, Parts(l), Parts(r), None); FormOk(f) && Text(f) == l + "::" + r
  {
    PartsJoin(l);
    PartsJoin(r);
    assert Parts(r) + [] == Parts(r);
  }

  lemma PlainForm(t: string)
    requires AllGroups(Parts(t)) && |Parts(t)| == 8
    ensures var f := Form(false, [], Parts(t), None); FormOk(f) && Text(f) == t
  {
    PartsJoin(t);
    assert Parts(t) + [] == Parts(t);
  }

  lemma SidesAround(t: string, i: nat)
    requires i + 1 < |t| && t[i] == ':' && t[i + 1] == ':'
    ensures t[..i] + "::" + t[i + 2..] == t
  {}

  lemma HexFormIs(t: string)
    requires Hextets(t).Some?
    ensures FormOk(HexFormOf(t)) && Text(HexFormOf(t)) == t
  {
    var i := DoubleAt(t);
    if i < |t| {
      CompressedParts(t);
      SidesForm(t[..i], t[i + 2..]);
      SidesAround(t, i);
    } else {
      PlainParts(t);
      PlainForm(t);
    }
  }

  /** Where a text that ends in two groups has its `::`. */
  lemma DoubleBeforeGroups(x: string, a: string, b: string)
    requires a != "" && b != "" && ':' !in a && ':' !in b
    ensures var t := x + ":" + a + ":" + b; DoubleAt(t) < |t| ==> DoubleAt(t) + 1 <= |x|
  {
    var t := x + ":" + a + ":" + b;
    var i := DoubleAt(t);
    assert t[|x|] == ':' && t[|x| + 1] == a[0] && t[|x| + 1 + |a|] == ':' && t[|x| + |a|] == a[|a| - 1];
    assert forall j :: |x| < j < |x| + 1 + |a| ==> t[j] == a[j - |x| - 1];
    assert forall j :: |x| + 1 + |a| < j < |t| ==> t[j] == b[j - |x| - |a| - 2];
  }

  /** The last two groups of such a text are groups of its form. */
  lemma LastTwoParts(x: string, a: string, b: string)
    requires ':' !in a && ':' !in b && AllGroups(Split(x + ":" + a + ":" + b, ':'))
    ensures x != "" && Split(x + ":" + a + ":" + b, ':') == Parts(x) + [a] + [b]
    ensures AllGroups(Parts(x))
  {
    SplitLast(x + ":" + a, b, ':');
    SplitLast(x, a, ':');
    var p := Split(x, ':');
    assert Split(x + ":" + a + ":" + b, ':') == p + [a] + [b];
    forall i | 0 <= i < |p| ensures IsHexGroup(p[i]) { assert p[i] == (p + [a] + [b])[i]; }
    SplitWhole("", ':');
    assert |p[0]| >= 1;
  }

  lemma CompressedFront(l: string, a: string, b: string, q: seq<string>) returns (f: Form)
    requires QuadOk(q) && ':' !in a && ':' !in b && Sides(l, a + ":" + b)
    ensures FormOk(f) && Text(f) == l + "::" + Join(q, '.')
  {
    SplitFirst(a, b, ':');
    SplitWhole(b, ':');
    PartsJoin(l);
    f := Form(true, Parts(l), [], Some(q));
    assert [] + [Join(q, '.')] == [Join(q, '.')];
  }

  lemma CompressedMiddle(l: string, y: string, a: string, b: string, q: seq<string>) returns (f: Form)
    requires QuadOk(q) && ':' !in a && ':' !in b && Sides(l, y + ":" + a + ":" + b)
    ensures FormOk(f) && Text(f) == l + "::" + y + ":" + Join(q, '.')
  {
    LastTwoParts(y, a, b);
    PartsJoin(l);
    PartsJoin(y);
    f := Form(true, Parts(l), Parts(y), Some(q));
    JoinSnoc(Parts(y), Join(q, '.'), ':');
    Behind(l, y, Join(q, '.'));
  }

  lemma Behind(l: string, y: string, s: string)
    ensures l + "::" + (y + ":" + s) == l + "::" + y + ":" + s
  {}

  lemma PlainMiddle(x: string, a: string, b: string, q: seq<string>) returns (f: Form)
    requires QuadOk(q) && ':' !in a && ':' !in b
    requires AllGroups(Parts(x + ":" + a + ":" + b)) && |Parts(x + ":" + a + ":" + b)| == 8
    ensures FormOk(f) && Text(f) == x + ":" + Join(q, '.')
  {
    LastTwoParts(x, a, b);
    PartsJoin(x);
    f := Form(false, [], Parts(x), Some(q));
    JoinSnoc(Parts(x), Join(q, '.'), ':');
  }

  /** The sides of a `::` in front of two last groups. */
  lemma SidesOf(x: string, tail: string, i: nat)
    requires i + 1 <= |x| && (x + ":" + tail)[i] == ':' && (x + ":" + tail)[i + 1] == ':'
    ensures var t := x + ":" + tail;
      && t[..i] == x[..i]
      && (i + 1 == |x| ==> x == x[..i] + ":" && t[i + 2..] == tail)
      && (i + 1 < |x| ==> x == x[..i] + "::" + x[i + 2..] && t[i + 2..] == x[i + 2..] + ":" + tail)
  {
    var t := x + ":" + tail;
    assert t[i] == x[i];
    if i + 1 < |x| { assert t[i + 1] == x[i + 1]; }
  }

  /** A text that was rewritten has the form of its rewriting, with the quad put back. */
  lemma QuadFormIs(x: string, q: seq<string>) returns (f: Form)
    requires QuadOk(q) && Hextets(x + ":" + PrintHex(High(q)) + ":" + PrintHex(Low(q))).Some?
    ensures FormOk(f) && Text(f) == x + ":" + Join(q, '.')
  {
    var a, b := PrintHex(High(q)), PrintHex(Low(q));
    HextetPrints(High(q));
    HextetPrints(Low(q));
    HextetValue(a);
    HextetValue(b);
    f := TwoGroupsForm(x, a, b, q);
  }

  lemma TwoGroupsForm(x: string, a: string, b: string, q: seq<string>) returns (f: Form)
    requires QuadOk(q) && a != "" && b != "" && ':' !in a && ':' !in b && Hextets(x + ":" + a + ":" + b).Some?
    ensures FormOk(f) && Text(f) == x + ":" + Join(q, '.')
  {
    var t := x + ":" + a + ":" + b;
    var i := DoubleAt(t);
    if i == |t| {
      PlainParts(t);
      f := PlainMiddle(x, a, b, q);
    } else {
      CompressedParts(t);
      DoubleBeforeGroups(x, a, b);
      f := SidesWithQuad(x, a, b, q, i);
    }
  }

  lemma SidesWithQuad(x: string, a: string, b: string, q: seq<string>, i: nat) returns (f: Form)
    requires QuadOk(q) && ':' !in a && ':' !in b && i + 1 <= |x|
    requires var t := x + ":" + a + ":" + b; t[i] == ':' && t[i + 1] == ':' && Sides(t[..i], t[i + 2..])
    ensures FormOk(f) && Text(f) == x + ":" + Join(q, '.')
  {
    Appended(x, a, b);
    SidesOf(x, a + ":" + b, i);
    if i + 1 == |x| {
      f := CompressedFront(x[..i], a, b, q);
    } else {
      var y := x[i + 2..];
      Appended(y, a, b);
      f := CompressedMiddle(x[..i], y, a, b, q);
    }
  }

  lemma RewrittenQuad(tail: string)
    requires IsQuad(tail) && RewriteQuadText(tail).Some?
    ensures var q := Split(tail, '.');
      QuadOk(q) && RewriteQuadText(tail).value == PrintHex(High(q)) + ":" + PrintHex(Low(q))
  {}

  lemma RewrittenText(s: string, k: nat)
    requires k == AfterLastColon(s) >= 2 && OneLine(s[..k - 1]) && IsQuad(s[k..]) && Rewrite(s).Some?
    ensures RewriteQuadText(s[k..]).Some? && Rewrite(s).value == s[..k - 1] + ":" + RewriteQuadText(s[k..]).value
  {
    assert s[..k] == s[..k - 1] + ":";
  }

  lemma Appended(x: string, a: string, b: string)
    ensures x + ":" + (a + ":" + b) == x + ":" + a + ":" + b
  {}

  lemma RewrittenParts(s: string, k: nat)
    requires k == AfterLastColon(s) >= 2 && OneLine(s[..k - 1]) && IsQuad(s[k..]) && Rewrite(s).Some?
    ensures var x, q := s[..k - 1], Split(s[k..], '.');
      QuadOk(q) && Rewrite(s).value == x + ":" + PrintHex(High(q)) + ":" + PrintHex(Low(q))
  {
    RewrittenText(s, k);
    RewrittenQuad(s[k..]);
    var q := Split(s[k..], '.');
    Appended(s[..k - 1], PrintHex(High(q)), PrintHex(Low(q)));
  }

  lemma RewrittenIsForm(s: string, k: nat) returns (f: Form)
    requires k == AfterLastColon(s) >= 2 && OneLine(s[..k - 1]) && IsQuad(s[k..])
    requires Rewrite(s).Some? && Hextets(Rewrite(s).value).Some?
    ensures FormOk(f) && Text(f) == s
  {
    RewrittenParts(s, k);
    f := QuadFormIs(s[..k - 1], Split(s[k..], '.'));
    QuadTail(s, k);
  }

  lemma QuadTail(s: string, k: nat)
    requires 1 <= k <= |s| && s[k - 1] == ':'
    ensures s[..k - 1] + ":" + Join(Split(s[k..], '.'), '.') == s
  {
    JoinOfSplit(s[k..], '.');
  }

  /** The reader accepts exactly the legal spellings. */
  lemma AcceptsExactlyTheForms(s: string)
    ensures ParseIpv6(s).Some? <==> exists f :: FormOk(f) && Text(f) == s
  {
    if ParseIpv6(s).Some? {
      var k := AfterLastColon(s);
      if k < 2 || !OneLine(s[..k - 1]) || !IsQuad(s[k..]) {
        HexFormIs(s);
      } else {
        var f := RewrittenIsForm(s, k);
      }
    }
    forall f | FormOk(f) && Text(f) == s ensures ParseIpv6(s).Some? { EveryFormIsRead(f); }
  }

  // ------------------------------------------------------------ dotted quads

  function QuadOf(high: nat, low: nat): seq<string> {
    [Print(high / 256 % 256), Print(high % 256), Print(low / 256 % 256), Print(low % 256)]
  }

  lemma OctetPrints(n: nat)
    requires n < 256
    ensures IsOctet(Print(n)) && 1 <= |Print(n)| <= 3 && ReadNat(Print(n)) == n && '.' !in Print(n)
  {
    PrintedIsCanonical(n);
    assert n / 10 < 26 && n / 10 / 10 < 3;
    assert |PrintNat(n / 10 / 10)| == 1 && |PrintNat(n / 10)| <= 2;
  }

  lemma BytesOfHextet(n: nat)
    requires n < 65536
    ensures Hextet(n / 256 % 256, n % 256) == n
  {}

  lemma HextetOfBytes(a: nat, b: nat)
    requires a < 256 && b < 256
    ensures Hextet(a, b) / 256 % 256 == a && Hextet(a, b) % 256 == b
  {}

  lemma QuadOfIsQuad(high: nat, low: nat)
    requires high < 65536 && low < 65536
    ensures QuadOk(QuadOf(high, low)) && High(QuadOf(high, low)) == high && Low(QuadOf(high, low)) == low
  {
    BytesOfHextet(high);
    BytesOfHextet(low);
    PrintedQuad(high / 256 % 256, high % 256, low / 256 % 256, low % 256);
  }

  lemma PrintedQuad(a: nat, b: nat, c: nat, d: nat)
    requires a < 256 && b < 256 && c < 256 && d < 256
    ensures var q := [Print(a), Print(b), Print(c), Print(d)];
      QuadOk(q) && High(q) == Hextet(a, b) && Low(q) == Hextet(c, d)
  {
    OctetPrints(a);
    OctetPrints(b);
    OctetPrints(c);
    OctetPrints(d);
  }

  lemma ToIpv4IsIpv4(high: nat, low: nat)
    ensures IsIpv4(ToIpv4(high, low))
  {
    OctetPrints(high / 256 % 256);
    OctetPrints(high % 256);
    OctetPrints(low / 256 % 256);
    OctetPrints(low % 256);
    SplitJoined(QuadOf(high, low), '.');
  }

  /** Printing two hextets as IPv4 and rewriting a dotted tail undo each other. */
  lemma DottedTailRoundTrips(x: string, high: nat, low: nat)
    requires high < 65536 && low < 65536 && x != "" && OneLine(x)
    ensures Rewrite(x + ":" + ToIpv4(high, low)) == Some(x + ":" + PrintHex(high) + ":" + PrintHex(low))
  {
    QuadOfIsQuad(high, low);
    RewriteQuad(x, QuadOf(high, low));
  }

  lemma OctetReads(p: string)
    requires IsOctet(p)
    ensures 1 <= |p| <= 3 && AllDigits(p) && ReadNat(p) < 256 && Print(ReadNat(p)) == p
  {
    CanonicalIsPrinted(p);
    OctetPrints(ReadNat(p));
  }

  lemma QuadPrintsBack(q: seq<string>)
    requires |q| == 4 && forall i :: 0 <= i < 4 ==> IsOctet(q[i])
    ensures QuadOk(q) && QuadOf(High(q), Low(q)) == q
  {
    OctetReads(q[0]);
    OctetReads(q[1]);
    OctetReads(q[2]);
    OctetReads(q[3]);
    HextetOfBytes(ReadNat(q[0]), ReadNat(q[1]));
    HextetOfBytes(ReadNat(q[2]), ReadNat(q[3]));
  }

  lemma Ipv4RoundTrips(s: string)
    requires IsIpv4(s)
    ensures QuadOk(Split(s, '.')) && ToIpv4(High(Split(s, '.')), Low(Split(s, '.'))) == s
  {
    QuadPrintsBack(Split(s, '.'));
    JoinOfSplit(s, '.');
  }

  // ------------------------------------------------------------ canonical form

  predicate PlainChar(c: char) {
    IsHex(c) || c == ':' || c == '.'
  }

  lemma {:induction false} NoZone(s: string)
    requires '%' !in s
    ensures DropZone(s) == s
  {
    if s != "" { NoZone(s[1..]); }
  }

  lemma StripPlain(s: string)
    requires Every(s, PlainChar)
    ensures Strip(s) == s
  {
    NoZone(s);
  }

  lemma GroupsAreHex(part: string)
    requires Groups(part).Some?
    ensures Every(part, PlainChar)
  {
    if part != "" {
      JoinOfSplit(part, ':');
      assert forall i :: 0 <= i < |Split(part, ':')| ==>
             IsHexGroup(Split(part, ':')[i]) && Every(Split(part, ':')[i], PlainChar);
      JoinEvery(Split(part, ':'), ':', PlainChar);
    }
  }

  lemma AroundIsPlain(l: string, r: string)
    requires AroundDouble(l, r).Some?
    ensures Every(l, PlainChar) && Every(r, PlainChar)
  {
    GroupsAreHex(l);
    GroupsAreHex(r);
  }

  lemma HextetsArePlain(t: string)
    requires Hextets(t).Some?
    ensures Every(t, PlainChar)
  {
    var i := DoubleAt(t);
    if i < |t| {
      AroundIsPlain(t[..i], t[i + 2..]);
      PlainAround(t, i);
    } else {
      GroupsAreHex(t);
    }
  }

  lemma PlainAround(t: string, i: nat)
    requires i + 1 < |t| && t[i] == ':' && t[i + 1] == ':' && Every(t[..i], PlainChar) && Every(t[i + 2..], PlainChar)
    ensures Every(t, PlainChar)
  {
    SidesAround(t, i);
  }

  lemma QuadIsPlain(s: string)
    requires IsQuad(s)
    ensures Every(s, PlainChar)
  {
    JoinOfSplit(s, '.');
    assert forall i :: 0 <= i < 4 ==> AllDigits(Split(s, '.')[i]) && Every(Split(s, '.')[i], PlainChar);
    JoinEvery(Split(s, '.'), '.', PlainChar);
  }

  lemma ParsedIsPlain(s: string)
    requires ParseIpv6(s).Some?
    ensures Every(s, PlainChar)
  {
    var k, t := AfterLastColon(s), Rewrite(s).value;
    HextetsArePlain(t);
    if t != s {
      assert forall i :: 0 <= i < k ==> s[i] == t[i];
      QuadIsPlain(s[k..]);
      assert forall i :: k <= i < |s| ==> s[i] == s[k..][i - k];
    }
  }

  /** A dotted quad is no IPv6 text, so reducing it again changes nothing. */
  lemma Ipv4IsCanonical(s: string)
    requires IsIpv4(s)
    ensures TryCanonical(s) == Some(s)
  {
    var p := Split(s, '.');
    JoinOfSplit(s, '.');
    assert forall i :: 0 <= i < 4 ==> AllDigits(p[i]) && Every(p[i], DigitOrDot) && Every(p[i], PlainChar);
    JoinEvery(p, '.', DigitOrDot);
    JoinEvery(p, '.', PlainChar);
    StripPlain(s);
    assert ':' !in s;
    NoColon(s);
  }

  lemma NoColon(s: string)
    requires ':' !in s
    ensures ParseIpv6(s).None?
  {
    assert AfterLastColon(s) == 0;
    assert NoDouble(s);
    NoDoubleFound(s);
    if s != "" { SplitWhole(s, ':'); }
  }

  /** Whatever is read, it is eight numbers of sixteen bits. */
  lemma HextetsAreSmall(s: string)
    requires ParseIpv6(s).Some?
    ensures |ParseIpv6(s).value| == 8 && AllSmall(ParseIpv6(s).value)
  {
    HextetsOfTextAreSmall(Rewrite(s).value);
  }

  lemma HextetsOfTextAreSmall(t: string)
    requires Hextets(t).Some?
    ensures AllSmall(Hextets(t).value)
  {
    var i := DoubleAt(t);
    if i < |t| { AroundIsSmall(t[..i], t[i + 2..]); } else { GroupsAreSmall(t); }
  }

  lemma AroundIsSmall(l: string, r: string)
    requires AroundDouble(l, r).Some?
    ensures AllSmall(AroundDouble(l, r).value)
  {
    GroupsAreSmall(l);
    GroupsAreSmall(r);
  }

  ghost predicate AllSmall(values: seq<nat>) {
    forall i :: 0 <= i < |values| ==> values[i] < 65536
  }

  lemma GroupsAreSmall(part: string)
    ensures Groups(part).Some? ==> AllSmall(Groups(part).value)
  {
    if part != "" && AllGroups(Split(part, ':')) {
      forall i | 0 <= i < |Split(part, ':')| ensures ReadHex(Split(part, ':')[i]) < 65536 {
        HextetValue(Split(part, ':')[i]);
      }
    }
  }

  lemma EmbeddedIsIpv4(s: string)
    requires EmbeddedIpv4(s).Some?
    ensures IsIpv4(EmbeddedIpv4(s).value)
  {
    EmbeddedInIsIpv4(ParseIpv6(s).value);
  }

  lemma EmbeddedInIsIpv4(g: seq<nat>)
    requires |g| == 8 && EmbeddedIn(g).Some?
    ensures IsIpv4(EmbeddedIn(g).value)
  {
    ToIpv4IsIpv4(g[6], g[7]);
    ToIpv4IsIpv4(g[1], g[2]);
  }

  /** Every canonical address is a fixed point: an IPv4 in dotted form, or an IPv6 text that
      embeds none. */
  lemma CanonicalIsFixed(address: string)
    requires TryCanonical(address).Some?
    ensures TryCanonical(TryCanonical(address).value) == TryCanonical(address)
    ensures IsIpv4(TryCanonical(address).value) || EmbeddedIpv4(TryCanonical(address).value).None?
  {
    var stripped := Strip(address);
    if EmbeddedIpv4(stripped).Some? {
      EmbeddedIsIpv4(stripped);
      Ipv4IsCanonical(EmbeddedIpv4(stripped).value);
    } else if IsIpv4(stripped) {
      Ipv4IsCanonical(stripped);
    } else {
      ParsedIsPlain(stripped);
      StripPlain(stripped);
    }
  }

  /** IPv4-mapped, IPv4-translated, NAT64, or IPv4-compatible other than `::` and `::1`. */
  predicate Wraps(h: seq<nat>)
    requires |h| == 8
  {
    || h[..6] == [0, 0, 0, 0, 0, 0xffff] || h[..6] == [0, 0, 0, 0, 0xffff, 0] || h[..6] == [0x64, 0xff9b, 0, 0, 0, 0]
    || (h[..6] == [0, 0, 0, 0, 0, 0] && !(h[6] == 0 && h[7] <= 1))
  }

  lemma ToIpv4Determines(high: nat, low: nat, h: nat, l: nat)
    requires high < 65536 && low < 65536 && h < 65536 && l < 65536 && ToIpv4(high, low) == ToIpv4(h, l)
    ensures high == h && low == l
  {
    QuadOfIsQuad(high, low);
    QuadOfIsQuad(h, l);
    forall q | q == QuadOf(high, low) || q == QuadOf(h, l) ensures Split(Join(q, '.'), '.') == q { SplitQuad(q); }
  }

  lemma SplitQuad(q: seq<string>)
    requires QuadOk(q)
    ensures Split(Join(q, '.'), '.') == q
  {
    SplitJoined(q, '.');
  }

  lemma NativeIsLow(high: nat, low: nat)
    requires high < 65536 && low < 65536
    ensures ToIpv4(high, low) == "0.0.0.0" || ToIpv4(high, low) == "0.0.0.1" <==> high == 0 && low <= 1
  {
    NativeTexts();
    if ToIpv4(high, low) == ToIpv4(0, 0) {
      ToIpv4Determines(high, low, 0, 0);
    } else if ToIpv4(high, low) == ToIpv4(0, 1) {
      ToIpv4Determines(high, low, 0, 1);
    }
  }

  lemma NativeTexts()
    ensures ToIpv4(0, 0) == "0.0.0.0" && ToIpv4(0, 1) == "0.0.0.1"
  {
    assert QuadOf(0, 0) == ["0", "0", "0", "0"] && QuadOf(0, 1) == ["0", "0", "0", "1"];
    FourParts("0");
    FourParts("1");
  }

  lemma FourParts(d: string)
    ensures Join(["0", "0", "0", d], '.') == "0.0.0." + d
  {
    JoinCons("0", [d], '.');
    JoinCons("0", ["0", d], '.');
    JoinCons("0", ["0", "0", d], '.');
    assert ["0"] + [d] == ["0", d] && ["0"] + ["0", d] == ["0", "0", d] && ["0"] + ["0", "0", d] == ["0", "0", "0", d];
  }

  // ------------------------------------------------------------ what is stripped

  /** What may stand around an address: space, brackets or one of them, and a zone. */
  datatype Dress = Dress(left: string, open: bool, zone: string, close: bool, right: string)

  ghost predicate DressOk(d: Dress) {
    && Every(d.left, IsSpace) && Every(d.right, IsSpace)
    && (d.zone == "" || (d.zone[0] == '%' && |d.zone| > 1 && OneLine(d.zone[1..])
                         && (d.close || !(IsSpace(d.zone[|d.zone| - 1]) || d.zone[|d.zone| - 1] == ']'))))
  }

  function Dressed(d: Dress, address: string): string {
    d.left + ((if d.open then "[" else "") + address + d.zone + (if d.close then "]" else "")) + d.right
  }

  lemma {:induction false} TrimLeftOf(left: string, t: string)
    requires Every(left, IsSpace) && t != "" && !IsSpace(t[0])
    ensures TrimLeft(left + t) == t
  {
    if left == "" {
      assert left + t == t;
    } else {
      assert (left + t)[1..] == left[1..] + t;
      TrimLeftOf(left[1..], t);
    }
  }

  lemma {:induction false} TrimRightOf(t: string, right: string)
    requires Every(right, IsSpace) && t != "" && !IsSpace(t[|t| - 1])
    ensures TrimRight(t + right) == t
  {
    if right == "" {
      assert t + right == t;
    } else {
      var n := |right| - 1;
      assert (t + right)[..|t| + n] == t + right[..n];
      TrimRightOf(t, right[..n]);
    }
  }

  lemma {:induction false} DropZoneOf(s: string, zone: string)
    requires Every(s, PlainChar)
    requires zone == "" || (zone[0] == '%' && |zone| > 1 && OneLine(zone[1..]))
    ensures DropZone(s + zone) == s
  {
    if s == "" {
      assert s + zone == zone;
    } else {
      assert (s + zone)[1..] == s[1..] + zone;
      DropZoneOf(s[1..], zone);
    }
  }

  lemma DropBracketsOf(open: bool, s: string, close: bool)
    requires s != "" && s[0] != '[' && (close || s[|s| - 1] != ']')
    ensures DropBrackets((if open then "[" else "") + s + (if close then "]" else "")) == s
  {
    var t := s + (if close then "]" else "");
    assert ((if open then "[" else "") + s + (if close then "]" else "")) == (if open then "[" else "") + t;
    assert ("[" + t)[1..] == t;
  }

  /** Stripping undoes any of it. */
  lemma StripOfDressed(d: Dress, address: string)
    requires DressOk(d) && address != "" && Every(address, PlainChar)
    ensures Strip(Dressed(d, address)) == address
  {
    var inner := address + d.zone;
    var core := (if d.open then "[" else "") + inner + (if d.close then "]" else "");
    assert (if d.open then "[" else "") + address + d.zone + (if d.close then "]" else "") == core;
    assert Dressed(d, address) == d.left + (core + d.right);
    TrimLeftOf(d.left, core + d.right);
    TrimRightOf(core, d.right);
    DropBracketsOf(d.open, inner, d.close);
    DropZoneOf(address, d.zone);
  }

  lemma StrippedAlike(x: string, y: string)
    requires Strip(x) == Strip(y)
    ensures TryCanonical(x) == TryCanonical(y)
  {}

  /** The address a text form reduces to, by its hextets alone and whatever stands around it:
      the wrapped IPv4, the IPv4 of a 6to4 prefix, or itself. All spellings of one wrapping
      address reduce alike. */
  lemma EveryFormReduces(f: Form, d: Dress)
    requires FormOk(f) && DressOk(d)
    ensures var h := Meaning(f);
      TryCanonical(Dressed(d, Text(f))) == Some(
        if Wraps(h) then ToIpv4(h[6], h[7]) else if h[0] == 0x2002 then ToIpv4(h[1], h[2]) else Text(f))
  {
    EveryFormIsRead(f);
    ParsedIsPlain(Text(f));
    StripPlain(Text(f));
    StripOfDressed(d, Text(f));
    StrippedAlike(Dressed(d, Text(f)), Text(f));
    HextetsAreSmall(Text(f));
    EmbeddedByHextets(Meaning(f));
  }

  lemma EmbeddedByHextets(h: seq<nat>)
    requires |h| == 8 && AllSmall(h)
    ensures EmbeddedIn(h) ==
      if Wraps(h) then Some(ToIpv4(h[6], h[7])) else if h[0] == 0x2002 then Some(ToIpv4(h[1], h[2])) else None
  {
    NativeIsLow(h[6], h[7]);
  }
}
