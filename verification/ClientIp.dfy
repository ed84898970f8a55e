/** IPv6 text, embedded IPv4 and the client address of a request (apps/api/src/http/client-ip.ts). */
module ClientIp {
  import opened Options
  import opened Decimal
  import opened Separated

  // ------------------------------------------------------------ hexadecimal groups

  predicate IsHex(c: char) {
    '0' <= c <= '9' || 'a' <= c <= 'f' || 'A' <= c <= 'F'
  }

  function HexValue(c: char): nat
    requires IsHex(c)
  {
    if '0' <= c <= '9' then (c - '0') as int
    else if 'a' <= c <= 'f' then 10 + (c - 'a') as int else 10 + (c - 'A') as int
  }

  predicate AllHex(g: string) {
    forall i :: 0 <= i < |g| ==> IsHex(g[i])
  }

  /** `HEX_GROUP` */
  predicate IsHexGroup(g: string) {
    1 <= |g| <= 4 && AllHex(g)
  }

  /** `parseInt(…, 16)` */
  function ReadHex(g: string): nat
    requires AllHex(g)
  {
    if g == "" then 0 else 16 * ReadHex(g[..|g| - 1]) + HexValue(g[|g| - 1])
  }

  function HexChar(d: nat): char
    requires d < 16
  {
    if d < 10 then '0' + d as char else 'a' + (d - 10) as char
  }

  /** `toString(16)` */
  function PrintHex(n: nat): string {
    if n < 16 then [HexChar(n)] else PrintHex(n / 16) + [HexChar(n % 16)]
  }

  lemma SnocHex(g: string, c: char)
    requires AllHex(g) && IsHex(c)
    ensures AllHex(g + [c]) && ReadHex(g + [c]) == 16 * ReadHex(g) + HexValue(c)
  {
    assert (g + [c])[..|g|] == g;
  }

  lemma {:induction false} HexReadsBack(n: nat)
    ensures AllHex(PrintHex(n)) && ReadHex(PrintHex(n)) == n && PrintHex(n) != ""
  {
    if n < 16 {
      assert PrintHex(n)[..0] == "";
    } else {
      HexReadsBack(n / 16);
      SnocHex(PrintHex(n / 16), HexChar(n % 16));
    }
  }

  lemma HextetPrints(n: nat)
    requires n < 65536
    ensures IsHexGroup(PrintHex(n)) && ReadHex(PrintHex(n)) == n
  {
    HexReadsBack(n);
    assert n / 16 < 4096 && n / 16 / 16 < 256 && n / 16 / 16 / 16 < 16;
    assert |PrintHex(n / 16 / 16)| <= 2;
    assert |PrintHex(n / 16)| <= 3;
  }

  lemma HextetValue(g: string)
    requires IsHexGroup(g)
    ensures ReadHex(g) < 65536 && ':' !in g
  {
    assert SixteenTo(1) == 16 && SixteenTo(2) == 256 && SixteenTo(3) == 4096 && SixteenTo(4) == 65536;
    HexBound(g);
  }

  function SixteenTo(k: nat): nat {
    if k == 0 then 1 else 16 * SixteenTo(k - 1)
  }

  lemma {:induction false} HexBound(g: string)
    requires AllHex(g)
    ensures ReadHex(g) < SixteenTo(|g|)
  {
    if g != "" { HexBound(g[..|g| - 1]); }
  }

  predicate AllGroups(gs: seq<string>) {
    forall i :: 0 <= i < |gs| ==> IsHexGroup(gs[i])
  }

  function Values(gs: seq<string>): (r: seq<nat>)
    requires AllGroups(gs)
    ensures |r| == |gs| && forall i :: 0 <= i < |gs| ==> r[i] == ReadHex(gs[i])
  {
    if gs == [] then [] else Values(gs[..|gs| - 1]) + [ReadHex(gs[|gs| - 1])]
  }

  function Groups(part: string): Option<seq<nat>> {
    if part == "" then Some([])
    else if AllGroups(Split(part, ':')) then Some(Values(Split(part, ':'))) else None
  }

  method ParseHexGroups(part: string) returns (groups: Option<seq<nat>>)
    ensures groups == Groups(part)
  {
    if part == "" {
      return Some([]);
    }
    var parts := Split(part, ':');
    var read: seq<nat> := [];
    for i := 0 to |parts|
      invariant AllGroups(parts[..i]) && read == Values(parts[..i])
    {
      if !IsHexGroup(parts[i]) {
        return None;
      }
      assert parts[..i + 1][..i] == parts[..i];
      read := read + [ReadHex(parts[i])];
    }
    assert parts[..|parts|] == parts;
    return Some(read);
  }

  // ------------------------------------------------------------ compression

  /** Where the first `::` stands, or the length of the text. */
  function DoubleAt(t: string): (i: nat)
    ensures i <= |t| && (i < |t| ==> i + 1 < |t| && t[i] == ':' && t[i + 1] == ':')
  {
    if |t| < 2 then |t|
    else if t[0] == ':' && t[1] == ':' then 0
    else 1 + DoubleAt(t[1..])
  }

  function Zeros(n: nat): seq<nat> {
    seq(n, _ => 0)
  }

  /** The texts on both sides of the first `::`. */
  function AroundDouble(leftText: string, rightText: string): (r: Option<seq<nat>>)
    ensures r.Some? ==> |r.value| == 8
  {
    var left, right := Groups(leftText), Groups(rightText);
    if DoubleAt(rightText) < |rightText| || left.None? || right.None? then None
    else if |left.value| + |right.value| > 7 then None
    else Some(left.value + Zeros(8 - |left.value| - |right.value|) + right.value)
  }

  function EightGroups(t: string): (r: Option<seq<nat>>)
    ensures r.Some? ==> |r.value| == 8
  {
    var groups := Groups(t);
    if groups.None? || |groups.value| != 8 then None else groups
  }

  /** `parseIpv6Hextets`, behind the rewriting of a dotted tail. */
  function Hextets(t: string): (r: Option<seq<nat>>)
    ensures r.Some? ==> |r.value| == 8
  {
    var i := DoubleAt(t);
    if i < |t| then AroundDouble(t[..i], t[i + 2..]) else EightGroups(t)
  }

  // ------------------------------------------------------------ dotted tail

  predicate IsLineBreak(c: char) {
    c == '\n' || c == '\r' || c == '\U{2028}' || c == '\U{2029}'
  }

  predicate OneLine(s: string) {
    forall i :: 0 <= i < |s| ==> !IsLineBreak(s[i])
  }

  /** Behind the last colon, or 0. */
  function AfterLastColon(s: string): (k: nat)
    ensures k <= |s| && ':' !in s[k..] && (k > 0 ==> s[k - 1] == ':')
  {
    if s == "" then 0
    else if s[|s| - 1] == ':' then |s|
    else
      var k := AfterLastColon(s[..|s| - 1]);
      assert s[k..] == s[..|s| - 1][k..] + [s[|s| - 1]];
      k
  }

  /** Four runs of one to three digits between dots. */
  predicate IsQuad(tail: string) {
    |Split(tail, '.')| == 4
    && forall i :: 0 <= i < 4 ==> 1 <= |Split(tail, '.')[i]| <= 3 && AllDigits(Split(tail, '.')[i])
  }

  function Octets(tail: string): (r: seq<nat>)
    requires IsQuad(tail)
    ensures |r| == 4
  {
    var p := Split(tail, '.');
    [ReadNat(p[0]), ReadNat(p[1]), ReadNat(p[2]), ReadNat(p[3])]
  }

  function Hextet(high: nat, low: nat): nat {
    256 * high + low
  }

  /** Four octets as two hexadecimal groups. */
  function RewriteQuadText(tail: string): Option<string>
    requires IsQuad(tail)
  {
    var o := Octets(tail);
    if o[0] > 255 || o[1] > 255 || o[2] > 255 || o[3] > 255 then None
    else Some(PrintHex(Hextet(o[0], o[1])) + ":" + PrintHex(Hextet(o[2], o[3])))
  }

  /** `rewriteDottedIpv4Suffix` */
  function Rewrite(address: string): Option<string> {
    var k := AfterLastColon(address);
    if k < 2 || !OneLine(address[..k - 1]) || !IsQuad(address[k..]) then Some(address)
    else
      var tail := RewriteQuadText(address[k..]);
      if tail.None? then None else Some(address[..k] + tail.value)
  }

  function ParseIpv6(address: string): (r: Option<seq<nat>>)
    ensures r.Some? ==> |r.value| == 8
  {
    var rewritten := Rewrite(address);
    if rewritten.None? then None else Hextets(rewritten.value)
  }

  /** `hextetsToIpv4` */
  function ToIpv4(high: nat, low: nat): string {
    Join([Print(high / 256 % 256), Print(high % 256), Print(low / 256 % 256), Print(low % 256)], '.')
  }

  /** `embeddedIpv4` */
  function EmbeddedIpv4(address: string): Option<string> {
    var hextets := ParseIpv6(address);
    if hextets.None? then None else EmbeddedIn(hextets.value)
  }

  function EmbeddedIn(g: seq<nat>): Option<string>
    requires |g| == 8
  {
    if g[..6] == [0, 0, 0, 0, 0, 0xffff] then Some(ToIpv4(g[6], g[7]))
    else if g[..6] == [0, 0, 0, 0, 0xffff, 0] then Some(ToIpv4(g[6], g[7]))
    else if g[..6] == [0, 0, 0, 0, 0, 0] then
      var ipv4 := ToIpv4(g[6], g[7]);
      if ipv4 == "0.0.0.0" || ipv4 == "0.0.0.1" then None else Some(ipv4)
    else if g[..6] == [0x64, 0xff9b, 0, 0, 0, 0] then Some(ToIpv4(g[6], g[7]))
    else if g[0] == 0x2002 then Some(ToIpv4(g[1], g[2]))
    else None
  }

  // ------------------------------------------------------------ canonical form

  predicate IsSpace(c: char) {
    || '\t' <= c <= '\r' || c == ' ' || c == '\U{00A0}' || c == '\U{1680}' || '\U{2000}' <= c <= '\U{200A}'
    || IsLineBreak(c) || c == '\U{202F}' || c == '\U{205F}' || c == '\U{3000}' || c == '\U{FEFF}'
  }

  function TrimLeft(s: string): string {
    if s != "" && IsSpace(s[0]) then TrimLeft(s[1..]) else s
  }

  function TrimRight(s: string): string {
    if s != "" && IsSpace(s[|s| - 1]) then TrimRight(s[..|s| - 1]) else s
  }

  function DropBrackets(s: string): string {
    var t := if s != "" && s[0] == '[' then s[1..] else s;
    if t != "" && t[|t| - 1] == ']' then t[..|t| - 1] else t
  }

  /** `replace(/%.+$/, "")` */
  function DropZone(s: string): string {
    if s == "" then ""
    else if s[0] == '%' && |s| > 1 && OneLine(s[1..]) then ""
    else [s[0]] + DropZone(s[1..])
  }

  /** `stripIp` */
  function Strip(address: string): string {
    DropZone(DropBrackets(TrimRight(TrimLeft(address))))
  }

  /** A decimal octet without leading zeros, as `isIP` asks for it. */
  predicate IsOctet(p: string) {
    Canonical(p) && ReadNat(p) <= 255
  }

  predicate IsIpv4(s: string) {
    |Split(s, '.')| == 4 && forall i :: 0 <= i < 4 ==> IsOctet(Split(s, '.')[i])
  }

  /** `tryCanonicalDestinationIp` */
  function TryCanonical(address: string): Option<string> {
    var stripped := Strip(address);
    var embedded := EmbeddedIpv4(stripped);
    if embedded.Some? then embedded
    else if IsIpv4(stripped) then Some(stripped)
    else if ParseIpv6(stripped).Some? then Some(stripped)
    else None
  }

  /** `normalizeIp` */
  function NormalizeIp(address: string): string {
    var canonical := TryCanonical(address);
    if canonical.Some? then canonical.value else Strip(address)
  }

  // ------------------------------------------------------------ the client

  function NonEmpty(entries: seq<string>): seq<string> {
    if entries == [] then []
    else
      var n := NormalizeIp(entries[0]);
      (if n != "" then [n] else []) + NonEmpty(entries[1..])
  }

  /** `parseForwardedFor` */
  function Hops(header: Option<string>): seq<string> {
    if header.None? || TrimLeft(header.value) == "" then [] else NonEmpty(Split(header.value, ','))
  }

  /** The client behind the trusted proxies: the rightmost hop that none of them accounts for,
      else the leftmost hop, else the peer. */
  predicate IsClient(hops: seq<string>, peer: string, isTrusted: string -> bool, client: string) {
    if forall i :: 0 <= i < |hops| ==> isTrusted(hops[i]) then client == if hops == [] then peer else hops[0]
    else exists i :: 0 <= i < |hops| && client == hops[i] && !isTrusted(hops[i])
                     && forall j :: i < j < |hops| ==> isTrusted(hops[j])
  }

  method WalkHops(hops: seq<string>, peer: string, isTrusted: string -> bool) returns (client: string)
    ensures IsClient(hops, peer, isTrusted, client)
  {
    var i := |hops|;
    while i > 0
      invariant 0 <= i <= |hops|
      invariant forall j :: i <= j < |hops| ==> isTrusted(hops[j])
    {
      i := i - 1;
      if !isTrusted(hops[i]) {
        return hops[i];
      }
    }
    return if hops == [] then peer else hops[0];
  }

  /** `resolveClientIp`: an untrusted peer is itself the client, whatever the header says. */
  method ResolveClientIp(peerAddress: string, forwardedFor: Option<string>, isTrusted: string -> bool)
    returns (client: string)
    ensures !isTrusted(NormalizeIp(peerAddress)) ==> client == NormalizeIp(peerAddress)
    ensures isTrusted(NormalizeIp(peerAddress)) ==>
      IsClient(Hops(forwardedFor), NormalizeIp(peerAddress), isTrusted, client)
  {
    var peer := NormalizeIp(peerAddress);
    if !isTrusted(peer) {
      return peer;
    }
    client := WalkHops(Hops(forwardedFor), peer, isTrusted);
  }
}
