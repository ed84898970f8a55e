/** Byte strings, little-endian fields, and reading a known piece of a larger file. */
module ByteStrings {
  type byte = b: int | 0 <= b < 256
  type u32 = n: int | 0 <= n < 0x1_0000_0000
  type Bytes = seq<byte>

  /** `setUint16(…, true)`: the value is reduced modulo 2^16. */
  function U16(v: nat): (r: Bytes)
    ensures |r| == 2
  {
    [v % 256, v / 256 % 256]
  }

  /** `setUint32(…, true)`: the value is reduced modulo 2^32. */
  function U32(v: nat): (r: Bytes)
    ensures |r| == 4
  {
    [v % 256, v / 256 % 256, v / 65536 % 256, v / 16777216 % 256]
  }

  function GetU16(b: Bytes, offset: nat): nat
    requires offset + 2 <= |b|
  {
    (b[offset] as int) + 256 * (b[offset + 1] as int)
  }

  function GetU32(b: Bytes, offset: nat): u32
    requires offset + 4 <= |b|
  {
    (b[offset] as int) + 256 * (b[offset + 1] as int) + 65536 * (b[offset + 2] as int)
        + 16777216 * (b[offset + 3] as int)
  }

  /** `piece` stands in `b` at `offset`. */
  ghost predicate At(b: Bytes, offset: nat, piece: Bytes) {
    offset + |piece| <= |b| && b[offset..offset + |piece|] == piece
  }

  lemma AtPrefix(b: Bytes, offset: nat, x: Bytes, y: Bytes)
    requires At(b, offset, x + y)
    ensures At(b, offset, x) && At(b, offset + |x|, y)
  {
    var s := b[offset..offset + |x + y|];
    assert s[..|x|] == x && s[|x|..] == y;
    assert b[offset..offset + |x|] == s[..|x|];
    assert b[offset + |x|..offset + |x| + |y|] == s[|x|..];
  }

  lemma AtMiddle(b: Bytes, offset: nat, whole: Bytes, x: Bytes, y: Bytes, z: Bytes)
    requires At(b, offset, whole) && whole == x + (y + z)
    ensures At(b, offset + |x|, y)
  {
    AtPrefix(b, offset, x, y + z);
    AtPrefix(b, offset + |x|, y, z);
  }

  lemma AtWhole(x: Bytes, y: Bytes, z: Bytes)
    ensures At(x + y + z, |x|, y)
  {
    assert (x + y + z)[|x|..|x| + |y|] == y;
  }

  lemma DigitsOf(v: nat)
    ensures v < 65536 ==> v % 256 + 256 * (v / 256 % 256) == v
    ensures v < 0x1_0000_0000 ==>
              v % 256 + 256 * (v / 256 % 256) + 65536 * (v / 65536 % 256) + 16777216 * (v / 16777216 % 256) == v
  {
    assert v / 65536 == v / 256 / 256;
    assert v / 16777216 == v / 65536 / 256;
  }

  /** A field that fits is read back as it was written. */
  lemma ReadBackU16(b: Bytes, offset: nat, v: nat)
    requires At(b, offset, U16(v)) && v < 65536
    ensures GetU16(b, offset) == v
  {
    DigitsOf(v);
    var s := b[offset..offset + 2];
    assert b[offset] == s[0] && b[offset + 1] == s[1];
  }

  lemma ReadBackU32(b: Bytes, offset: nat, v: nat)
    requires At(b, offset, U32(v)) && v < 0x1_0000_0000
    ensures GetU32(b, offset) == v
  {
    DigitsOf(v);
    var s := b[offset..offset + 4];
    assert b[offset] == s[0] && b[offset + 1] == s[1] && b[offset + 2] == s[2] && b[offset + 3] == s[3];
  }

  function Flatten(parts: seq<Bytes>): Bytes {
    if parts == [] then [] else Flatten(parts[..|parts| - 1]) + parts[|parts| - 1]
  }

  lemma FlattenSnoc(parts: seq<Bytes>, last: Bytes)
    ensures Flatten(parts + [last]) == Flatten(parts) + last
  {
    assert (parts + [last])[..|parts|] == parts;
  }

  lemma {:induction false} FlattenAppend(a: seq<Bytes>, b: seq<Bytes>)
    ensures Flatten(a + b) == Flatten(a) + Flatten(b)
    decreases |b|
  {
    if b == [] {
      assert a + b == a;
    } else {
      var n := |b| - 1;
      assert a + b == (a + b[..n]) + [b[n]];
      FlattenSnoc(a + b[..n], b[n]);
      FlattenAppend(a, b[..n]);
    }
  }

  /** Where field `k` of a record of fields starts. */
  function FieldOffset(fields: seq<Bytes>, k: nat): nat
    requires k <= |fields|
  {
    if k == 0 then 0 else FieldOffset(fields, k - 1) + |fields[k - 1]|
  }

  lemma {:induction false} FieldOffsetIsLength(fields: seq<Bytes>, k: nat)
    requires k <= |fields|
    ensures |Flatten(fields[..k])| == FieldOffset(fields, k)
  {
    if k > 0 {
      assert fields[..k] == fields[..k - 1] + [fields[k - 1]];
      FlattenSnoc(fields[..k - 1], fields[k - 1]);
      FieldOffsetIsLength(fields, k - 1);
    }
  }

  lemma FlattenTake(parts: seq<Bytes>, k: nat)
    requires k < |parts|
    ensures Flatten(parts[..k + 1]) == Flatten(parts[..k]) + parts[k]
  {
    assert parts[..k + 1] == parts[..k] + [parts[k]];
    FlattenSnoc(parts[..k], parts[k]);
  }

  lemma FlattenCut(parts: seq<Bytes>, k: nat)
    requires k <= |parts|
    ensures Flatten(parts) == Flatten(parts[..k]) + Flatten(parts[k..])
  {
    FlattenAppend(parts[..k], parts[k..]);
    assert parts[..k] + parts[k..] == parts;
  }

  lemma FlattenSplit(parts: seq<Bytes>, k: nat)
    requires k < |parts|
    ensures Flatten(parts) == Flatten(parts[..k]) + (parts[k] + Flatten(parts[k + 1..]))
  {
    var x, y, z := Flatten(parts[..k]), parts[k], Flatten(parts[k + 1..]);
    FlattenCut(parts, k + 1);
    FlattenTake(parts, k);
    Regrouped(x, y, z);
  }

  lemma Regrouped(x: Bytes, y: Bytes, z: Bytes)
    ensures (x + y) + z == x + (y + z)
  {}

  /** Every field of a record that stands in a file can be found there. */
  lemma FieldAt(b: Bytes, offset: nat, fields: seq<Bytes>, k: nat)
    requires At(b, offset, Flatten(fields)) && k < |fields|
    ensures At(b, offset + FieldOffset(fields, k), fields[k])
  {
    var x, y, z := Flatten(fields[..k]), fields[k], Flatten(fields[k + 1..]);
    FlattenSplit(fields, k);
    FieldOffsetIsLength(fields, k);
    AtMiddle(b, offset, Flatten(fields), x, y, z);
  }

  /** `concat`: one buffer of the total size, filled part by part. */
  method Concat(parts: seq<Bytes>) returns (joined: Bytes)
    ensures joined == Flatten(parts)
  {
    var total := 0;
    for i := 0 to |parts|
      invariant total == |Flatten(parts[..i])|
    {
      FlattenTake(parts, i);
      total := total + |parts[i]|;
    }
    assert parts[..|parts|] == parts;
    var out := new byte[total](_ => 0);
    var offset := 0;
    for i := 0 to |parts|
      invariant offset == |Flatten(parts[..i])| <= total
      invariant out[..offset] == Flatten(parts[..i])
    {
      FlattenTake(parts, i);
      FlattenSplit(parts, i);
      SetAt(out, offset, parts[i]);
      offset := offset + |parts[i]|;
    }
    assert parts[..|parts|] == parts;
    joined := out[..];
    assert out[..] == out[..offset];
  }

  /** `out.set(part, offset)` */
  method SetAt(out: array<byte>, offset: nat, part: Bytes)
    requires offset + |part| <= out.Length
    modifies out
    ensures out[..] == old(out[..offset]) + part + old(out[offset + |part|..])
  {
    forall k | 0 <= k < |part| {
      out[offset + k] := part[k];
    }
  }
}
