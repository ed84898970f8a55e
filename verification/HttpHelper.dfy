/** Base64 and the URI shuffle of the document-signing bridge
    (packages/document-signing/cpp-bridge/http-helper-native.cpp). The decoder's `int val` is a
    32-bit two's-complement number that is shifted left at every symbol and never masked. */
module HttpHelper {
  import opened ByteStrings
  import opened Options

  const PAD: byte := 61

  /** `table[i]` of the encoder. */
  function Symbol(i: nat): byte
    requires i < 64
  {
    if i < 26 then 65 + i
    else if i < 52 then 97 + (i - 26)
    else if i < 62 then 48 + (i - 52)
    else if i == 62 then 43 else 47
  }

  /** `T[c]` of the decoder. */
  function Sextet(c: byte): int {
    if 65 <= c <= 90 then c - 65
    else if 97 <= c <= 122 then c - 97 + 26
    else if 48 <= c <= 57 then c - 48 + 52
    else if c == 43 then 62
    else if c == 47 then 63 else -1
  }

  function TwoTo(k: nat): (n: nat)
    ensures n > 0
  {
    if k == 0 then 1 else 2 * TwoTo(k - 1)
  }

  // ------------------------------------------------------------ what the texts denote

  /** The number whose base-256 digits are `b`. */
  function Value256(b: Bytes): nat {
    if b == [] then 0 else 256 * Value256(b[..|b| - 1]) + b[|b| - 1]
  }

  predicate AllSymbols(p: Bytes) {
    forall i :: 0 <= i < |p| ==> Sextet(p[i]) != -1
  }

  /** The number whose base-64 digits the symbols `p` stand for. */
  function Value64(p: Bytes): nat
    requires AllSymbols(p)
  {
    if p == [] then 0 else 64 * Value64(p[..|p| - 1]) + Sextet(p[|p| - 1])
  }

  /** The symbols before the first character that is none. */
  function Symbols(s: Bytes): (p: Bytes)
    ensures AllSymbols(p) && p <= s
    ensures |p| < |s| ==> Sextet(s[|p|]) == -1
  {
    if s == [] || Sextet(s[0]) == -1 then [] else [s[0]] + Symbols(s[1..])
  }

  /** What base64 says the text denotes: the whole bytes of its symbols' bit string
      (RFC 4648, section 4), as many of them as fit. */
  predicate Denotes(p: Bytes, out: Bytes)
    requires AllSymbols(p)
  {
    |out| == 6 * |p| / 8 && Value256(out) == Value64(p) / TwoTo(6 * |p| % 8)
  }

  // ------------------------------------------------------------ encoder

  function Joined(x: nat, y: nat, z: nat): nat {
    65536 * x + 256 * y + z
  }

  /** `(n >> 18) & 0x3F` and so on. */
  function Digits(n: nat): (r: seq<nat>)
    ensures |r| == 4 && forall i :: 0 <= i < 4 ==> r[i] < 64
  {
    [n / 262144 % 64, n / 4096 % 64, n / 64 % 64, n % 64]
  }

  function Triple(x: byte, y: byte, z: byte): Bytes {
    var r := Digits(Joined(x, y, z));
    [Symbol(r[0]), Symbol(r[1]), Symbol(r[2]), Symbol(r[3])]
  }

  type Group = (byte, byte, byte) -> Bytes

  /** The groups of the first `k` triples. */
  function Full(group: Group, d: Bytes, k: nat): Bytes
    requires 3 * k <= |d|
  {
    if k == 0 then [] else Full(group, d, k - 1) + group(d[3 * k - 3], d[3 * k - 2], d[3 * k - 1])
  }

  /** The group of what is left behind `k` triples. */
  function Last(group: Group, d: Bytes, k: nat): Bytes
    requires 3 * k <= |d| < 3 * k + 3
  {
    if |d| == 3 * k then []
    else if |d| == 3 * k + 1 then Cut(group(d[3 * k], 0, 0), 2)
    else Cut(group(d[3 * k], d[3 * k + 1], 0), 3)
  }

  /** A group whose symbols from the `n`th on are padding. */
  function Cut(t: Bytes, n: nat): Bytes {
    if |t| == 4 && n <= 4 then t[..n] + seq(4 - n, _ => PAD) else t
  }

  function EncodeBy(group: Group, d: Bytes): Bytes {
    Full(group, d, |d| / 3) + Last(group, d, |d| / 3)
  }

  function Encode(d: Bytes): Bytes {
    EncodeBy(Triple, d)
  }

  lemma EncodeIs(group: Group, d: Bytes, k: nat)
    requires 3 * k <= |d| < 3 * k + 3
    ensures EncodeBy(group, d) == Full(group, d, k) + Last(group, d, k)
  {
    assert |d| / 3 == k;
  }

  /** The four characters of one turn of the loop. */
  method GroupAt(data: Bytes, i: nat) returns (group: Bytes)
    requires i < |data|
    ensures i + 2 < |data| ==> group == Triple(data[i], data[i + 1], data[i + 2])
    ensures i + 2 == |data| ==> group == Cut(Triple(data[i], data[i + 1], 0), 3)
    ensures i + 1 == |data| ==> group == Cut(Triple(data[i], 0, 0), 2)
  {
    var second := if i + 1 < |data| then data[i + 1] else 0;
    var third := if i + 2 < |data| then data[i + 2] else 0;
    var r := Digits(Joined(data[i], second, third));
    group := [Symbol(r[0]), Symbol(r[1]),
              if i + 1 < |data| then Symbol(r[2]) else PAD,
              if i + 2 < |data| then Symbol(r[3]) else PAD];
  }

  /** `base64Encode` */
  method Base64Encode(data: Bytes) returns (result: Bytes)
    ensures result == Encode(data)
  {
    result := [];
    var i := 0;
    ghost var k := 0;
    while i < |data|
      invariant i == 3 * k
      invariant (3 * k <= |data| && result == Full(Triple, data, k)) || (3 * k > |data| && result == Encode(data))
    {
      var group := GroupAt(data, i);
      if i + 2 < |data| { FullNext(Triple, data, k); } else { EncodeIs(Triple, data, k); }
      result := result + group;
      i := i + 3;
      k := k + 1;
    }
    if 3 * k == |data| { EncodeIs(Triple, data, k); }
  }

  // ------------------------------------------------------------ decoder

  /** A 32-bit two's-complement number. */
  function Int32(x: int): int {
    var m := x % 0x1_0000_0000;
    if m >= 0x8000_0000 then m - 0x1_0000_0000 else m
  }

  datatype Decoder = Decoder(val: int, valb: int, out: Bytes)

  /** One turn of the loop: `val = (val << 6) + T[c]`, and a byte when eight bits are there. */
  function Feed(a: Decoder, x: nat): Decoder
    requires x < 64 && -8 <= a.valb < 0
  {
    var val := Int32(64 * a.val) + x;
    var valb := a.valb + 6;
    if valb >= 0 then Decoder(val, valb - 8, a.out + [val / TwoTo(valb) % 256]) else Decoder(val, valb, a.out)
  }

  /** The decoder knows the low bits of the number read so far, and has written the rest. */
  ghost predicate Follows(a: Decoder, p: Bytes)
    requires AllSymbols(p)
  {
    && a.valb == 6 * |p| % 8 - 8
    && a.val % 4096 == Value64(p) % 4096
    && Denotes(p, a.out)
  }

  lemma WrapKeepsLowBits(v: int, x: nat)
    requires x < 64
    ensures (Int32(64 * v) + x) % 4096 == (64 * (v % 4096) + x) % 4096
  {
    var w := Int32(64 * v);
    var m := 64 * v / 0x1_0000_0000;
    assert w == 64 * v - 0x1_0000_0000 * m || w == 64 * v - 0x1_0000_0000 * (m + 1);
    var q := v / 4096;
    assert v == 4096 * q + v % 4096;
    var a := 64 * (v % 4096) + x;
    assert w + x == a + 4096 * (64 * q - 1048576 * m) || w + x == a + 4096 * (64 * q - 1048576 * (m + 1));
    ModShift(a, 64 * q - 1048576 * m);
    ModShift(a, 64 * q - 1048576 * (m + 1));
  }

  lemma ModShift(a: int, k: int)
    ensures (a + 4096 * k) % 4096 == a % 4096
  {}

  lemma ShiftedByte(n: int, j: int)
    ensures (n + 4096 * j) % 256 == n % 256
    ensures (n + 4096 * j) / 4 % 256 == n / 4 % 256
    ensures (n + 4096 * j) / 16 % 256 == n / 16 % 256
  {
    assert (n + 4096 * j) / 4 == n / 4 + 1024 * j;
    assert (n + 4096 * j) / 16 == n / 16 + 256 * j;
    ByteShift(n, 16 * j);
    ByteShift(n / 4, 4 * j);
    ByteShift(n / 16, j);
  }

  lemma ByteShift(a: int, k: int)
    ensures (a + 256 * k) % 256 == a % 256
  {}

  /** A byte read from the unmasked `val` is the byte of the true number. */
  lemma ByteOfLowBits(v: int, n: nat, k: nat)
    requires v % 4096 == n % 4096 && k in {0, 2, 4}
    ensures v / TwoTo(k) % 256 == n / TwoTo(k) % 256
  {
    assert TwoTo(2) == 4 && TwoTo(4) == 16;
    assert v == n + 4096 * (v / 4096 - n / 4096);
    ShiftedByte(n, v / 4096 - n / 4096);
  }

  /** The bytes so far are the number so far without its `6 * |p| % 8` pending bits. */
  lemma FeedValue(v: nat, n: nat, x: nat, pending: nat)
    requires x < 64 && pending in {0, 2, 4, 6} && v == n / TwoTo(pending)
    ensures pending == 0 ==> v == (64 * n + x) / TwoTo(6)
    ensures pending > 0 ==> 256 * v + (64 * n + x) / TwoTo(pending - 2) % 256 == (64 * n + x) / TwoTo(pending - 2)
  {
    assert TwoTo(2) == 4 && TwoTo(4) == 16 && TwoTo(6) == 64;
    if pending == 2 {
      assert (64 * n + x) / 256 == n / 4;
    } else if pending == 4 {
      assert (64 * n + x) / 4 / 256 == n / 16;
    } else if pending == 6 {
      assert (64 * n + x) / 16 / 256 == n / 64;
    }
  }

  lemma SnocValue256(b: Bytes, x: byte)
    ensures Value256(b + [x]) == 256 * Value256(b) + x
  {
    assert (b + [x])[..|b|] == b;
  }

  lemma SnocValue64(p: Bytes, c: byte)
    requires AllSymbols(p) && Sextet(c) != -1
    ensures AllSymbols(p + [c]) && Value64(p + [c]) == 64 * Value64(p) + Sextet(c)
  {
    assert (p + [c])[..|p|] == p;
  }

  lemma LowBitsFollow(a: Decoder, n: nat, x: nat)
    requires x < 64 && -8 <= a.valb < 0 && a.val % 4096 == n % 4096
    ensures Feed(a, x).val % 4096 == (64 * n + x) % 4096
  {
    WrapKeepsLowBits(a.val, x);
    var q := n / 4096;
    assert 64 * n + x == 64 * (n % 4096) + x + 4096 * (64 * q);
    ModShift(64 * (n % 4096) + x, 64 * q);
  }

  lemma Pending(k: nat)
    ensures var r := 6 * k % 8;
      && r in {0, 2, 4, 6}
      && (r == 0 ==> 6 * (k + 1) % 8 == 6 && 6 * (k + 1) / 8 == 6 * k / 8)
      && (r > 0 ==> 6 * (k + 1) % 8 == r - 2 && 6 * (k + 1) / 8 == 6 * k / 8 + 1)
  {}

  lemma FeedDenotes(a: Decoder, n: nat, x: nat, pending: nat)
    requires x < 64 && pending in {0, 2, 4, 6} && a.valb == pending - 8 && a.val % 4096 == n % 4096
    requires Value256(a.out) == n / TwoTo(pending)
    ensures var b := Feed(a, x);
      && |b.out| == |a.out| + (if pending == 0 then 0 else 1)
      && b.valb == (if pending == 0 then -2 else pending - 10)
      && Value256(b.out) == (64 * n + x) / TwoTo(if pending == 0 then 6 else pending - 2)
  {
    FeedValue(Value256(a.out), n, x, pending);
    if pending > 0 {
      LowBitsFollow(a, n, x);
      ByteOfLowBits(Feed(a, x).val, 64 * n + x, pending - 2);
      SnocValue256(a.out, (64 * n + x) / TwoTo(pending - 2) % 256);
    }
  }

  lemma FeedFollows(a: Decoder, p: Bytes, c: byte)
    requires AllSymbols(p) && Follows(a, p) && Sextet(c) != -1
    ensures AllSymbols(p + [c]) && Follows(Feed(a, Sextet(c)), p + [c])
  {
    SnocValue64(p, c);
    Pending(|p|);
    LowBitsFollow(a, Value64(p), Sextet(c));
    FeedDenotes(a, Value64(p), Sextet(c), 6 * |p| % 8);
  }

  lemma FeedNext(a: Decoder, b64: Bytes, i: nat)
    requires i < |b64| && AllSymbols(b64[..i]) && Follows(a, b64[..i]) && Sextet(b64[i]) != -1
    ensures AllSymbols(b64[..i + 1]) && Follows(Feed(a, Sextet(b64[i])), b64[..i + 1])
  {
    assert b64[..i + 1] == b64[..i] + [b64[i]];
    FeedFollows(a, b64[..i], b64[i]);
  }

  /** `base64Decode`: for every text, well-formed or not, exactly the bytes its symbols denote. */
  method Base64Decode(b64: Bytes) returns (out: Bytes)
    ensures Denotes(Symbols(b64), out)
  {
    var a := Decoder(0, -8, []);
    var i := 0;
    while i < |b64|
      invariant i <= |b64| && AllSymbols(b64[..i]) && Follows(a, b64[..i])
    {
      if Sextet(b64[i]) == -1 { break; }
      FeedNext(a, b64, i);
      a := Feed(a, Sextet(b64[i]));
      i := i + 1;
    }
    SymbolsAre(b64, i);
    out := a.out;
  }

  lemma {:induction false} SymbolsAre(s: Bytes, n: nat)
    requires n <= |s| && AllSymbols(s[..n]) && (n < |s| ==> Sextet(s[n]) == -1)
    ensures Symbols(s) == s[..n]
  {
    if n > 0 {
      assert Sextet(s[..n][0]) != -1;
      assert forall i :: 0 <= i < n - 1 ==> s[1..][i] == s[..n][i + 1];
      SymbolsAre(s[1..], n - 1);
      assert s[..n] == [s[0]] + s[1..][..n - 1];
    }
  }

  // ------------------------------------------------------------ round trip

  lemma SymbolReads(i: nat)
    requires i < 64
    ensures Sextet(Symbol(i)) == i
  {}

  /** Digits of a fixed number of places are determined by their value. */
  lemma {:induction false} ValueDetermines(a: Bytes, b: Bytes)
    requires |a| == |b| && Value256(a) == Value256(b)
    ensures a == b
  {
    if a != [] {
      var n := |a| - 1;
      var x, y: nat := Value256(a[..n]), Value256(b[..n]);
      assert 256 * x + a[n] == 256 * y + b[n];
      assert x == y && a[n] == b[n];
      ValueDetermines(a[..n], b[..n]);
      assert a == a[..n] + [a[n]] && b == b[..n] + [b[n]];
    }
  }

  /** A text denotes one byte string only. */
  lemma DenotesOne(p: Bytes, a: Bytes, b: Bytes)
    requires AllSymbols(p) && Denotes(p, a) && Denotes(p, b)
    ensures a == b
  {
    ValueDetermines(a, b);
  }

  lemma DigitsRead(n: nat)
    requires n < 16777216
    ensures var r := Digits(n); 64 * (64 * (64 * r[0] + r[1]) + r[2]) + r[3] == n
  {
    var a, b, c := n / 262144, n / 4096, n / 64;
    assert b / 64 == a && c / 64 == b && a < 64;
  }

  /** Four symbols that stand for the 24 bits of `n`. */
  ghost predicate Spells(t: Bytes, n: nat) {
    |t| == 4 && AllSymbols(t) && 64 * (64 * (64 * Sextet(t[0]) + Sextet(t[1])) + Sextet(t[2])) + Sextet(t[3]) == n
  }

  ghost predicate Spelling(group: Group) {
    forall x: byte, y: byte, z: byte :: Spells(group(x, y, z), Joined(x, y, z))
  }

  lemma TripleSpells()
    ensures Spelling(Triple)
  {
    forall x: byte, y: byte, z: byte ensures Spells(Triple(x, y, z), Joined(x, y, z)) {
      var r := Digits(Joined(x, y, z));
      DigitsRead(Joined(x, y, z));
      SymbolReads(r[0]); SymbolReads(r[1]); SymbolReads(r[2]); SymbolReads(r[3]);
    }
  }

  /** A group appended whole, and without its last one or two symbols. */
  lemma GroupValue(p: Bytes, t: Bytes, n: nat)
    requires AllSymbols(p) && Spells(t, n)
    ensures AllSymbols(p + t) && Value64(p + t) == 16777216 * Value64(p) + n
    ensures AllSymbols(p + t[..3]) && Value64(p + t[..3]) == (16777216 * Value64(p) + n) / 64
    ensures AllSymbols(p + t[..2]) && Value64(p + t[..2]) == (16777216 * Value64(p) + n) / 4096
  {
    assert p + t[..1] == p + [t[0]];
    assert p + t[..2] == p + t[..1] + [t[1]];
    assert p + t[..3] == p + t[..2] + [t[2]];
    assert p + t == p + t[..3] + [t[3]];
    SnocValue64(p, t[0]);
    SnocValue64(p + t[..1], t[1]);
    SnocValue64(p + t[..2], t[2]);
    SnocValue64(p + t[..3], t[3]);
  }

  lemma TakeValue256(d: Bytes, n: nat)
    requires n < |d|
    ensures Value256(d[..n + 1]) == 256 * Value256(d[..n]) + d[n]
  {
    assert d[..n + 1] == d[..n] + [d[n]];
    SnocValue256(d[..n], d[n]);
  }

  lemma TakeThree(d: Bytes, n: nat)
    requires n + 3 <= |d|
    ensures Value256(d[..n + 3]) == 16777216 * Value256(d[..n]) + Joined(d[n], d[n + 1], d[n + 2])
  {
    TakeValue256(d, n);
    TakeValue256(d, n + 1);
    TakeValue256(d, n + 2);
  }

  lemma {:induction false} FullLength(group: Group, d: Bytes, k: nat)
    requires 3 * k <= |d| && Spelling(group)
    ensures |Full(group, d, k)| == 4 * k
  {
    if k > 0 {
      FullLength(group, d, k - 1);
      assert Spells(group(d[3 * k - 3], d[3 * k - 2], d[3 * k - 1]), Joined(d[3 * k - 3], d[3 * k - 2], d[3 * k - 1]));
    }
  }

  lemma {:induction false} FullValue(group: Group, d: Bytes, k: nat)
    requires 3 * k <= |d| && Spelling(group)
    ensures AllSymbols(Full(group, d, k)) && Value64(Full(group, d, k)) == Value256(d[..3 * k])
  {
    if k == 0 {
      assert d[..0] == [];
    } else {
      var n := 3 * (k - 1);
      FullValue(group, d, k - 1);
      var t := group(d[n], d[n + 1], d[n + 2]);
      FullNext(group, d, k - 1);
      Appended(Full(group, d, k - 1), t, Full(group, d, k), d, n);
      assert d[..n + 3] == d[..3 * k];
    }
  }

  lemma FullNext(group: Group, d: Bytes, k: nat)
    requires 3 * k + 3 <= |d|
    ensures Full(group, d, k + 1) == Full(group, d, k) + group(d[3 * k], d[3 * k + 1], d[3 * k + 2])
  {}

  lemma Appended(f: Bytes, t: Bytes, g: Bytes, d: Bytes, n: nat)
    requires n + 3 <= |d| && g == f + t && Spells(t, Joined(d[n], d[n + 1], d[n + 2]))
    requires AllSymbols(f) && Value64(f) == Value256(d[..n])
    ensures AllSymbols(g) && Value64(g) == Value256(d[..n + 3])
  {
    GroupValue(f, t, Joined(d[n], d[n + 1], d[n + 2]));
    TakeThree(d, n);
  }

  lemma LastLength(group: Group, d: Bytes, k: nat)
    requires 3 * k <= |d| < 3 * k + 3 && Spelling(group)
    ensures |Last(group, d, k)| == if |d| == 3 * k then 0 else 4
  {}

  /** Four characters for every three bytes begun. */
  lemma EncodedLength(d: Bytes)
    ensures |Encode(d)| == (|d| + 2) / 3 * 4
  {
    TripleSpells();
    EncodedByLength(Triple, d, |d| / 3);
  }

  lemma EncodedByLength(group: Group, d: Bytes, k: nat)
    requires 3 * k <= |d| < 3 * k + 3 && Spelling(group)
    ensures |Full(group, d, k) + Last(group, d, k)| == (|d| + 2) / 3 * 4
  {
    FullLength(group, d, k);
    LastLength(group, d, k);
    GroupsBegun(|d|, k);
  }

  lemma GroupsBegun(n: nat, k: nat)
    requires 3 * k <= n < 3 * k + 3
    ensures (n + 2) / 3 == if n == 3 * k then k else k + 1
  {}

  lemma DenotesScaled(p: Bytes, d: Bytes, k: nat, more: nat)
    requires AllSymbols(p) && more < 3 && |d| == 3 * k + more && |p| == 4 * k + (if more == 0 then 0 else more + 1)
    requires Value64(p) == (if more == 0 then 1 else if more == 1 then 16 else 4) * Value256(d)
    ensures Denotes(p, d)
  {
    assert TwoTo(0) == 1 && TwoTo(2) == 4 && TwoTo(4) == 16;
  }

  /** What stands before the padding denotes the whole. */
  lemma PaddedDenotes(f: Bytes, t: Bytes, d: Bytes, k: nat, more: nat)
    requires 1 <= more <= 2 && |d| == 3 * k + more && AllSymbols(f) && |f| == 4 * k && |t| == 4
    requires AllSymbols(f + t[..more + 1])
    requires Value64(f + t[..more + 1]) == (if more == 1 then 16 else 4) * Value256(d)
    ensures Denotes(Symbols(f + Cut(t, more + 1)), d)
  {
    var e := f + Cut(t, more + 1);
    assert e[..4 * k + more + 1] == f + t[..more + 1];
    assert e[4 * k + more + 1] == PAD;
    SymbolsAre(e, 4 * k + more + 1);
    DenotesScaled(f + t[..more + 1], d, k, more);
  }

  lemma LastOneValue(f: Bytes, t: Bytes, d: Bytes, n: nat)
    requires |d| == n + 1 && AllSymbols(f) && Value64(f) == Value256(d[..n]) && Spells(t, Joined(d[n], 0, 0))
    ensures AllSymbols(f + t[..2]) && Value64(f + t[..2]) == 16 * Value256(d)
  {
    GroupValue(f, t, Joined(d[n], 0, 0));
    TakeValue256(d, n);
    assert d[..n + 1] == d;
  }

  lemma LastTwoValue(f: Bytes, t: Bytes, d: Bytes, n: nat)
    requires |d| == n + 2 && AllSymbols(f) && Value64(f) == Value256(d[..n]) && Spells(t, Joined(d[n], d[n + 1], 0))
    ensures AllSymbols(f + t[..3]) && Value64(f + t[..3]) == 4 * Value256(d)
  {
    GroupValue(f, t, Joined(d[n], d[n + 1], 0));
    TakeValue256(d, n);
    TakeValue256(d, n + 1);
    assert d[..n + 2] == d;
  }

  lemma EncodedByDenotes(group: Group, d: Bytes, k: nat)
    requires 3 * k <= |d| < 3 * k + 3 && Spelling(group)
    ensures Denotes(Symbols(Full(group, d, k) + Last(group, d, k)), d)
  {
    var f := Full(group, d, k);
    FullLength(group, d, k);
    FullValue(group, d, k);
    if |d| == 3 * k {
      assert d[..3 * k] == d && f + [] == f && f[..4 * k] == f;
      SymbolsAre(f, 4 * k);
      DenotesScaled(f, d, k, 0);
    } else if |d| == 3 * k + 1 {
      LastOneValue(f, group(d[3 * k], 0, 0), d, 3 * k);
      PaddedDenotes(f, group(d[3 * k], 0, 0), d, k, 1);
    } else {
      LastTwoValue(f, group(d[3 * k], d[3 * k + 1], 0), d, 3 * k);
      PaddedDenotes(f, group(d[3 * k], d[3 * k + 1], 0), d, k, 2);
    }
  }

  /** The symbols of an encoding denote the bytes that were encoded. */
  lemma EncodingDenotes(d: Bytes)
    ensures Denotes(Symbols(Encode(d)), d)
  {
    TripleSpells();
    EncodedByDenotes(Triple, d, |d| / 3);
  }

  /** Whatever the decoder's contract allows it to return for an encoding is the original. */
  lemma RoundTrip(d: Bytes, decoded: Bytes)
    requires Denotes(Symbols(Encode(d)), decoded)
    ensures decoded == d
  {
    EncodingDenotes(d);
    DenotesOne(Symbols(Encode(d)), decoded, d);
  }

  method EncodeThenDecode(data: Bytes) returns (back: Bytes)
    ensures back == data
  {
    var text := Base64Encode(data);
    back := Base64Decode(text);
    RoundTrip(data, back);
  }

  // ------------------------------------------------------------ shuffle

  /** `randomURIs`: whatever the random bytes, the URIs in another order. */
  method RandomUris(uris: seq<string>, random: Option<Bytes>) returns (shuffled: seq<string>)
    requires random.Some? && |uris| >= 2 ==> |random.value| == |uris| - 1
    ensures multiset(shuffled) == multiset(uris)
    ensures random.None? ==> shuffled == uris
  {
    if |uris| < 2 || random.None? {
      return uris;
    }
    var src := uris;
    shuffled := [];
    for i := 0 to |uris| - 1
      invariant |src| == |uris| - i
      invariant multiset(shuffled) + multiset(src) == multiset(uris)
    {
      var rnd := random.value[i] % |src|;
      assert src == src[..rnd] + [src[rnd]] + src[rnd + 1..];
      shuffled := shuffled + [src[rnd]];
      src := src[..rnd] + src[rnd + 1..];
    }
    assert src == [src[0]];
    shuffled := shuffled + [src[0]];
  }
}
