/** Packing and unpacking undo each other, and what any successful read guarantees. */
module AsicRoundTrip {
  import opened Options
  import opened ByteStrings
  import opened AsicContainer

  /** A name that survives UTF-8 encoding and the 16-bit length field. */
  predicate NameOk(lib: Library, name: string) {
    |lib.encode(name)| < 65536 && lib.decode(lib.encode(name)) == name
  }

  predicate NamesOk(lib: Library, es: seq<Entry>) {
    forall i :: 0 <= i < |es| ==> NameOk(lib, es[i].name)
  }

  /** The size limits of the reader. */
  predicate WithinBudget(es: seq<Entry>) {
    && |es| <= MAX_ENTRIES
    && (forall i :: 0 <= i < |es| ==> |es[i].bytes| <= MAX_ENTRY)
    && TotalBytes(es) <= MAX_TOTAL
  }

  // ------------------------------------------------------------ layouts

  lemma LocalLayout(lib: Library, e: Entry)
    ensures var f := LocalFields(lib, e);
            && FieldOffset(f, 2) == 6 && FieldOffset(f, 3) == 8
            && FieldOffset(f, 9) == 26 && FieldOffset(f, 10) == 28
            && FieldOffset(f, 11) == 30 && FieldOffset(f, 12) == 30 + |lib.encode(e.name)|
            && |Flatten(f)| == 30 + |lib.encode(e.name)| + |e.bytes|
  {
    var f := LocalFields(lib, e);
    assert FieldOffset(f, 1) == 4;
    assert FieldOffset(f, 2) == 6;
    assert FieldOffset(f, 3) == 8;
    assert FieldOffset(f, 4) == 10;
    assert FieldOffset(f, 5) == 12;
    assert FieldOffset(f, 6) == 14;
    assert FieldOffset(f, 7) == 18;
    assert FieldOffset(f, 8) == 22;
    assert FieldOffset(f, 9) == 26;
    assert FieldOffset(f, 10) == 28;
    assert FieldOffset(f, 11) == 30;
    assert FieldOffset(f, 12) == 30 + |lib.encode(e.name)|;
    assert FieldOffset(f, 13) == 30 + |lib.encode(e.name)| + |e.bytes|;
    FieldOffsetIsLength(f, 13);
    assert f[..13] == f;
  }

  lemma CentralLayout(lib: Library, e: Entry, offset: nat)
    ensures var f := CentralFields(lib, e, offset);
            && FieldOffset(f, 3) == 8 && FieldOffset(f, 4) == 10
            && FieldOffset(f, 7) == 16 && FieldOffset(f, 8) == 20 && FieldOffset(f, 9) == 24
            && FieldOffset(f, 10) == 28 && FieldOffset(f, 11) == 30 && FieldOffset(f, 12) == 32
            && FieldOffset(f, 16) == 42 && FieldOffset(f, 17) == 46
            && |Flatten(f)| == 46 + |lib.encode(e.name)|
  {
    var f := CentralFields(lib, e, offset);
    assert FieldOffset(f, 1) == 4;
    assert FieldOffset(f, 2) == 6;
    assert FieldOffset(f, 3) == 8;
    assert FieldOffset(f, 4) == 10;
    assert FieldOffset(f, 5) == 12;
    assert FieldOffset(f, 6) == 14;
    assert FieldOffset(f, 7) == 16;
    assert FieldOffset(f, 8) == 20;
    assert FieldOffset(f, 9) == 24;
    assert FieldOffset(f, 10) == 28;
    assert FieldOffset(f, 11) == 30;
    assert FieldOffset(f, 12) == 32;
    assert FieldOffset(f, 13) == 34;
    assert FieldOffset(f, 14) == 36;
    assert FieldOffset(f, 15) == 38;
    assert FieldOffset(f, 16) == 42;
    assert FieldOffset(f, 17) == 46;
    assert FieldOffset(f, 18) == 46 + |lib.encode(e.name)|;
    FieldOffsetIsLength(f, 18);
    assert f[..18] == f;
  }

  lemma EocdLayout(count: nat, size: nat, offset: nat)
    ensures var f := EocdFields(count, size, offset);
            && FieldOffset(f, 4) == 10 && FieldOffset(f, 5) == 12 && FieldOffset(f, 6) == 16 && |Flatten(f)| == 22
  {
    var f := EocdFields(count, size, offset);
    assert FieldOffset(f, 1) == 4;
    assert FieldOffset(f, 2) == 6;
    assert FieldOffset(f, 3) == 8;
    assert FieldOffset(f, 4) == 10;
    assert FieldOffset(f, 5) == 12;
    assert FieldOffset(f, 6) == 16;
    assert FieldOffset(f, 7) == 20;
    assert FieldOffset(f, 8) == 22;
    FieldOffsetIsLength(f, 8);
    assert f[..8] == f;
  }

  /** What the reader finds in a local record of `e` at `at`. */
  ghost predicate LocalSays(lib: Library, b: Bytes, at: nat, e: Entry) {
    var n := |lib.encode(e.name)|;
    && at + 30 + n + |e.bytes| <= |b|
    && GetU32(b, at) == LOCAL_SIG
    && GetU16(b, at + 6) == 0 && GetU16(b, at + 8) == STORED
    && GetU16(b, at + 26) == n && GetU16(b, at + 28) == 0
    && b[at + 30..at + 30 + n] == lib.encode(e.name)
    && b[at + 30 + n..at + 30 + n + |e.bytes|] == e.bytes
  }

  /** What the reader finds in a central record of `e` at `at`. */
  ghost predicate CentralSays(lib: Library, b: Bytes, at: nat, e: Entry, offset: nat, comment: nat) {
    var n := |lib.encode(e.name)|;
    && at + 46 + n <= |b|
    && GetU32(b, at) == CENTRAL_SIG
    && GetU16(b, at + 8) == 0 && GetU16(b, at + 10) == STORED
    && GetU32(b, at + 16) == lib.crc(e.bytes)
    && GetU32(b, at + 20) == |e.bytes| && GetU32(b, at + 24) == |e.bytes|
    && GetU16(b, at + 28) == n && GetU16(b, at + 30) == 0 && GetU16(b, at + 32) == comment
    && GetU32(b, at + 42) == offset
    && b[at + 46..at + 46 + n] == lib.encode(e.name)
  }

  lemma LocalReads(lib: Library, b: Bytes, at: nat, e: Entry)
    requires At(b, at, Flatten(LocalFields(lib, e))) && |lib.encode(e.name)| < 65536
    ensures LocalSays(lib, b, at, e)
  {
    var f := LocalFields(lib, e);
    LocalLayout(lib, e);
    FieldAt(b, at, f, 0); ReadBackU32(b, at, LOCAL_SIG);
    FieldAt(b, at, f, 2); ReadBackU16(b, at + 6, 0);
    FieldAt(b, at, f, 3); ReadBackU16(b, at + 8, STORED);
    FieldAt(b, at, f, 9); ReadBackU16(b, at + 26, |lib.encode(e.name)|);
    FieldAt(b, at, f, 10); ReadBackU16(b, at + 28, 0);
    FieldAt(b, at, f, 11);
    FieldAt(b, at, f, 12);
  }

  lemma CentralReads(lib: Library, b: Bytes, at: nat, e: Entry, offset: nat)
    requires At(b, at, Flatten(CentralFields(lib, e, offset)))
    requires |lib.encode(e.name)| < 65536 && |e.bytes| < 0x1_0000_0000 && offset < 0x1_0000_0000
    ensures CentralSays(lib, b, at, e, offset, 0)
  {
    var f := CentralFields(lib, e, offset);
    CentralLayout(lib, e, offset);
    FieldAt(b, at, f, 0); ReadBackU32(b, at, CENTRAL_SIG);
    FieldAt(b, at, f, 3); ReadBackU16(b, at + 8, 0);
    FieldAt(b, at, f, 4); ReadBackU16(b, at + 10, STORED);
    FieldAt(b, at, f, 7); ReadBackU32(b, at + 16, lib.crc(e.bytes));
    FieldAt(b, at, f, 8); ReadBackU32(b, at + 20, |e.bytes|);
    FieldAt(b, at, f, 9); ReadBackU32(b, at + 24, |e.bytes|);
    FieldAt(b, at, f, 10); ReadBackU16(b, at + 28, |lib.encode(e.name)|);
    FieldAt(b, at, f, 11); ReadBackU16(b, at + 30, 0);
    FieldAt(b, at, f, 12); ReadBackU16(b, at + 32, 0);
    FieldAt(b, at, f, 16); ReadBackU32(b, at + 42, offset);
    FieldAt(b, at, f, 17);
  }

  lemma EocdReads(b: Bytes, at: nat, count: nat, size: nat, offset: nat)
    requires At(b, at, Flatten(EocdFields(count, size, offset)))
    requires count < 65536 && size < 0x1_0000_0000 && offset < 0x1_0000_0000
    ensures at + 22 <= |b| && GetU32(b, at) == EOCD_SIG
    ensures GetU16(b, at + 10) == count && GetU32(b, at + 12) == size && GetU32(b, at + 16) == offset
  {
    var f := EocdFields(count, size, offset);
    EocdLayout(count, size, offset);
    FieldAt(b, at, f, 0); ReadBackU32(b, at, EOCD_SIG);
    FieldAt(b, at, f, 4); ReadBackU16(b, at + 10, count);
    FieldAt(b, at, f, 5); ReadBackU32(b, at + 12, size);
    FieldAt(b, at, f, 6); ReadBackU32(b, at + 16, offset);
  }

  // ------------------------------------------------------------ positions

  function LocalStart(lib: Library, es: seq<Entry>, i: nat): nat
    requires i <= |es|
  {
    |Flatten(Locals(lib, es[..i]))|
  }

  function CentralStart(lib: Library, es: seq<Entry>, i: nat): nat
    requires i <= |es|
  {
    |Flatten(Locals(lib, es))| + |Flatten(Centrals(lib, es[..i]))|
  }

  lemma {:induction false} LocalsIndex(lib: Library, es: seq<Entry>, i: nat)
    requires i < |es|
    ensures |Locals(lib, es)| == |es|
    ensures Locals(lib, es)[i] == Flatten(LocalFields(lib, es[i])) && Locals(lib, es)[..i] == Locals(lib, es[..i])
  {
    var n := |es| - 1;
    if n > 0 { LocalsIndex(lib, es[..n], if i < n then i else n - 1); }
    if i < n {
      assert es[..n][..i] == es[..i];
      assert Locals(lib, es)[..i] == Locals(lib, es[..n])[..i];
    }
  }

  lemma {:induction false} CentralsIndex(lib: Library, es: seq<Entry>, i: nat)
    requires i < |es|
    ensures |Centrals(lib, es)| == |es|
    ensures Centrals(lib, es)[i] == Flatten(CentralFields(lib, es[i], LocalStart(lib, es, i)))
            && Centrals(lib, es)[..i] == Centrals(lib, es[..i])
  {
    var n := |es| - 1;
    if n > 0 { CentralsIndex(lib, es[..n], if i < n then i else n - 1); }
    if i < n {
      assert es[..n][..i] == es[..i];
      assert Centrals(lib, es)[..i] == Centrals(lib, es[..n])[..i];
    }
  }

  lemma AtInFirst(x: Bytes, y: Bytes, z: Bytes, central: Bytes, eocd: Bytes)
    ensures At((x + (y + z)) + central + eocd, |x|, y)
  {
    assert (x + (y + z)) + central + eocd == x + y + (z + central + eocd);
    AtWhole(x, y, z + central + eocd);
  }

  lemma AtInSecond(locals: Bytes, x: Bytes, y: Bytes, z: Bytes, eocd: Bytes)
    ensures At(locals + (x + (y + z)) + eocd, |locals| + |x|, y)
  {
    assert locals + (x + (y + z)) + eocd == (locals + x) + y + (z + eocd);
    AtWhole(locals + x, y, z + eocd);
  }

  lemma LocalStands(lib: Library, es: seq<Entry>, i: nat)
    requires i < |es|
    ensures At(PackOrdered(lib, es), LocalStart(lib, es, i), Flatten(LocalFields(lib, es[i])))
  {
    LocalsIndex(lib, es, i);
    var parts := Locals(lib, es);
    var x, y, z := Flatten(parts[..i]), parts[i], Flatten(parts[i + 1..]);
    assert Flatten(parts) == x + (y + z) by { FlattenSplit(parts, i); }
    var central := Flatten(Centrals(lib, es));
    AtInFirst(x, y, z, central, Flatten(EocdFields(|es|, |central|, |Flatten(parts)|)));
  }

  lemma CentralsSplit(lib: Library, es: seq<Entry>, i: nat) returns (rest: Bytes)
    requires i < |es|
    ensures Flatten(Centrals(lib, es))
         == Flatten(Centrals(lib, es[..i])) + (Flatten(CentralFields(lib, es[i], LocalStart(lib, es, i))) + rest)
  {
    CentralsIndex(lib, es, i);
    FlattenSplit(Centrals(lib, es), i);
    rest := Flatten(Centrals(lib, es)[i + 1..]);
  }

  lemma CentralStands(lib: Library, es: seq<Entry>, i: nat)
    requires i < |es|
    ensures At(PackOrdered(lib, es), CentralStart(lib, es, i),
            Flatten(CentralFields(lib, es[i], LocalStart(lib, es, i))))
  {
    var z := CentralsSplit(lib, es, i);
    var locals, central := Flatten(Locals(lib, es)), Flatten(Centrals(lib, es));
    AtInSecond(locals, Flatten(Centrals(lib, es[..i])), Flatten(CentralFields(lib, es[i], LocalStart(lib, es, i))), z,
               Flatten(EocdFields(|es|, |central|, |locals|)));
  }

  lemma CentralNext(lib: Library, es: seq<Entry>, i: nat)
    requires i < |es|
    ensures CentralStart(lib, es, i + 1) == CentralStart(lib, es, i) + 46 + |lib.encode(es[i].name)|
    ensures TotalBytes(es[..i + 1]) == TotalBytes(es[..i]) + |es[i].bytes|
  {
    RecordsTake(lib, es, i);
    FlattenSnoc(Centrals(lib, es[..i]), Flatten(CentralFields(lib, es[i], LocalStart(lib, es, i))));
    CentralLayout(lib, es[i], LocalStart(lib, es, i));
    assert es[..i + 1] == es[..i] + [es[i]];
    TotalSnoc(es[..i], es[i]);
  }

  lemma LocalNext(lib: Library, es: seq<Entry>, i: nat)
    requires i < |es|
    ensures LocalStart(lib, es, i + 1) == LocalStart(lib, es, i) + 30 + |lib.encode(es[i].name)| + |es[i].bytes|
  {
    RecordsTake(lib, es, i);
    FlattenSnoc(Locals(lib, es[..i]), Flatten(LocalFields(lib, es[i])));
    LocalLayout(lib, es[i]);
  }

  lemma {:induction false} LengthsBounded(lib: Library, es: seq<Entry>, i: nat)
    requires i <= |es| && NamesOk(lib, es)
    ensures LocalStart(lib, es, i) <= 65565 * i + TotalBytes(es[..i])
    ensures |Flatten(Centrals(lib, es[..i]))| <= 65581 * i
  {
    if i > 0 {
      LengthsBounded(lib, es, i - 1);
      LocalNext(lib, es, i - 1);
      CentralNext(lib, es, i - 1);
      assert NameOk(lib, es[i - 1].name);
    }
  }

  lemma {:induction false} TotalMonotone(es: seq<Entry>, i: nat)
    requires i <= |es|
    ensures TotalBytes(es[..i]) <= TotalBytes(es)
    decreases |es| - i
  {
    if i < |es| {
      assert es[..i + 1] == es[..i] + [es[i]];
      TotalSnoc(es[..i], es[i]);
      TotalMonotone(es, i + 1);
    } else {
      assert es[..i] == es;
    }
  }

  /** Within the budget, every offset and size fits its 32-bit field. */
  lemma OffsetsFit(lib: Library, es: seq<Entry>, i: nat)
    requires WithinBudget(es) && NamesOk(lib, es) && i <= |es|
    ensures LocalStart(lib, es, i) < 0x1_0000_0000
    ensures |Flatten(Locals(lib, es))| < 0x1_0000_0000 && |Flatten(Centrals(lib, es))| < 0x1_0000_0000
    ensures |PackOrdered(lib, es)| < 0x1_0000_0000
  {
    LengthsBounded(lib, es, i);
    LengthsBounded(lib, es, |es|);
    TotalMonotone(es, i);
    assert es[..|es|] == es;
    EocdLayout(|es|, |Flatten(Centrals(lib, es))|, |Flatten(Locals(lib, es))|);
  }

  // ------------------------------------------------------------ round trip

  /** The reader finds the end record at its first probe. */
  ghost predicate EndFound(lib: Library, es: seq<Entry>, b: Bytes) {
    && |b| >= 22
    && EocdBelow(b, |b| - 22, EocdFloor(b)) == Ok(|b| - 22)
    && GetU16(b, |b| - 12) == |es|
    && GetU32(b, |b| - 10) == |Flatten(Centrals(lib, es))|
    && GetU32(b, |b| - 6) == |Flatten(Locals(lib, es))|
  }

  lemma EocdAtFirstProbe(lib: Library, es: seq<Entry>)
    requires |es| < 65536 && |PackOrdered(lib, es)| < 0x1_0000_0000
    ensures EndFound(lib, es, PackOrdered(lib, es))
  {
    var locals, central := Flatten(Locals(lib, es)), Flatten(Centrals(lib, es));
    var eocd := Flatten(EocdFields(|es|, |central|, |locals|));
    EocdLayout(|es|, |central|, |locals|);
    var b := PackOrdered(lib, es);
    assert b == (locals + central) + eocd + [];
    AtWhole(locals + central, eocd, []);
    EocdReads(b, |b| - 22, |es|, |central|, |locals|);
  }

  /** A central record whose local record stands where it points is read as its entry. */
  lemma RecordReadsBack(lib: Library, b: Bytes, e: Entry, at: nat, offset: nat, comment: nat, total: nat)
    requires CentralSays(lib, b, at, e, offset, comment) && LocalSays(lib, b, offset, e)
    requires NameOk(lib, e.name) && |e.bytes| <= MAX_ENTRY && total + |e.bytes| <= MAX_TOTAL
    ensures ParseRecord(lib, b, at, total) == Ok(Parsed(e, |e.bytes|, at + 46 + |lib.encode(e.name)| + comment))
  {
    StoredBytes(lib, b, e, offset);
  }

  lemma StoredBytes(lib: Library, b: Bytes, e: Entry, offset: nat)
    requires LocalSays(lib, b, offset, e)
    ensures FileBytes(lib, b, STORED, |e.bytes|, |e.bytes|, offset) == Ok(e.bytes)
  {}

  lemma LoopStep(read: (nat, nat) -> Result<Parsed>, e: Entry, rest: seq<Entry>, at: nat, next: nat, total: nat)
    requires read(at, total) == Ok(Parsed(e, |e.bytes|, next))
    requires ParseLoop(read, next, total + |e.bytes|, |rest|) == Ok(rest)
    ensures ParseLoop(read, at, total, |rest| + 1) == Ok([e] + rest)
  {
    ParseLoopUnfold(read, at, total, |rest| + 1);
  }

  /** The file holds, for entry `i`, both of its records where the reader looks. */
  ghost predicate RecordsStand(lib: Library, b: Bytes, es: seq<Entry>, i: nat)
    requires i < |es|
  {
    && CentralSays(lib, b, CentralStart(lib, es, i), es[i], LocalStart(lib, es, i), 0)
    && LocalSays(lib, b, LocalStart(lib, es, i), es[i])
  }

  lemma PackedRecordsStand(lib: Library, es: seq<Entry>, i: nat)
    requires WithinBudget(es) && NamesOk(lib, es) && i < |es|
    ensures RecordsStand(lib, PackOrdered(lib, es), es, i)
  {
    assert NameOk(lib, es[i].name);
    OffsetsFit(lib, es, i);
    CentralStands(lib, es, i);
    LocalStands(lib, es, i);
    CentralReads(lib, PackOrdered(lib, es), CentralStart(lib, es, i), es[i], LocalStart(lib, es, i));
    LocalReads(lib, PackOrdered(lib, es), LocalStart(lib, es, i), es[i]);
  }

  lemma RecordDelivers(lib: Library, b: Bytes, es: seq<Entry>, i: nat)
    requires WithinBudget(es) && NamesOk(lib, es) && i < |es| && RecordsStand(lib, b, es, i)
    ensures ParseRecord(lib, b, CentralStart(lib, es, i), TotalBytes(es[..i]))
              == Ok(Parsed(es[i], |es[i].bytes|, CentralStart(lib, es, i + 1)))
    ensures TotalBytes(es[..i + 1]) == TotalBytes(es[..i]) + |es[i].bytes|
  {
    assert NameOk(lib, es[i].name);
    CentralNext(lib, es, i);
    TotalMonotone(es, i + 1);
    RecordReadsBack(lib, b, es[i], CentralStart(lib, es, i), LocalStart(lib, es, i), 0, TotalBytes(es[..i]));
  }

  /** `read` delivers entry `i` from its place. */
  ghost predicate Delivers(read: (nat, nat) -> Result<Parsed>, es: seq<Entry>, at: nat -> nat, total: nat -> nat,
      i: nat)
    requires i < |es|
  {
    && read(at(i), total(i)) == Ok(Parsed(es[i], |es[i].bytes|, at(i + 1)))
    && total(i + 1) == total(i) + |es[i].bytes|
  }

  /** A reader that delivers every entry from its place delivers them all in order. */
  lemma {:induction false} LoopDelivers(
    read: (nat, nat) -> Result<Parsed>, es: seq<Entry>, at: nat -> nat, total: nat -> nat, i: nat)
    requires i <= |es| && forall k :: 0 <= k < |es| ==> Delivers(read, es, at, total, k)
    ensures ParseLoop(read, at(i), total(i), |es| - i) == Ok(es[i..])
    decreases |es| - i
  {
    if i < |es| {
      LoopDelivers(read, es, at, total, i + 1);
      assert Delivers(read, es, at, total, i);
      LoopStep(read, es[i], es[i + 1..], at(i), at(i + 1), total(i));
      assert es[i..] == [es[i]] + es[i + 1..];
    }
  }

  ghost function Starts(lib: Library, es: seq<Entry>): nat -> nat {
    (i: nat) => if i <= |es| then CentralStart(lib, es, i) else 0
  }

  ghost function Totals(es: seq<Entry>): nat -> nat {
    (i: nat) => if i <= |es| then TotalBytes(es[..i]) else 0
  }

  lemma PackedDelivers(lib: Library, es: seq<Entry>, i: nat)
    requires WithinBudget(es) && NamesOk(lib, es) && i < |es|
    ensures Delivers(Reader(lib, PackOrdered(lib, es)), es, Starts(lib, es), Totals(es), i)
  {
    PackedRecordsStand(lib, es, i);
    RecordDelivers(lib, PackOrdered(lib, es), es, i);
  }

  lemma CentralReadsBack(lib: Library, es: seq<Entry>)
    requires WithinBudget(es) && NamesOk(lib, es)
    ensures ParseCentral(lib, PackOrdered(lib, es)) == Ok(es)
  {
    OffsetsFit(lib, es, 0);
    EocdAtFirstProbe(lib, es);
    forall i | 0 <= i < |es| ensures Delivers(Reader(lib, PackOrdered(lib, es)), es, Starts(lib, es), Totals(es), i) {
      PackedDelivers(lib, es, i);
    }
    LoopDelivers(Reader(lib, PackOrdered(lib, es)), es, Starts(lib, es), Totals(es), 0);
    assert es[..0] == [] && es[0..] == es;
  }

  lemma OnDiskReadsBack(lib: Library, b: Bytes, e: Entry)
    requires LocalSays(lib, b, 0, e) && e.name == "mimetype" && NameOk(lib, e.name)
    ensures OnDiskMimetypeFirst(lib, b) == Ok(())
  {}

  lemma MimetypeFirstLeads(lib: Library, es: seq<Entry>)
    requires MimetypeFirst(lib, es).Ok?
    ensures var o := MimetypeFirst(lib, es).value;
            && o != [] && o[0].name == "mimetype" && lib.decode(o[0].bytes) == ASIC_E_MIMETYPE
            && |o| == |es| && multiset(o) == multiset(es)
            && (forall i :: 0 <= i < |o| ==> o[i] in es)
            && MimetypeFirst(lib, o) == Ok(o)
  {
    var i := IndexOfName(es, "mimetype");
    var o := MimetypeFirst(lib, es).value;
    assert es == es[..i] + [es[i]] + es[i + 1..];
    assert [o[0]] + o[..0] + o[1..] == o;
  }

  /** Pack, then unpack: exactly the entries with `mimetype` moved first, and the same
      verdict on manifest, signature and payload as on the entries themselves. */
  lemma UnpackOfPack(lib: Library, es: seq<Entry>)
    requires MimetypeFirst(lib, es).Ok? && NamesOk(lib, es)
    requires WithinBudget(MimetypeFirst(lib, es).value)
    ensures Pack(lib, es).Ok?
    ensures Unpack(lib, Pack(lib, es).value) == SelectParts(lib, MimetypeFirst(lib, es).value)
  {
    var o := MimetypeFirst(lib, es).value;
    MimetypeFirstLeads(lib, es);
    assert NamesOk(lib, o);
    PackedRecordsStand(lib, o, 0);
    assert NameOk(lib, o[0].name) && o[..0] == [];
    OnDiskReadsBack(lib, PackOrdered(lib, o), o[0]);
    CentralReadsBack(lib, o);
  }

  // ------------------------------------------------------------ soundness

  /** The central record at `cursor` declares the size, the checksum and the name of
      the entry, and points to its data. A name that runs over the end of the file is
      cut there. */
  ghost predicate Declares(lib: Library, b: Bytes, cursor: nat, e: Entry) {
    && cursor + 46 <= |b| && GetU32(b, cursor) == CENTRAL_SIG
    && |e.bytes| == GetU32(b, cursor + 24) <= MAX_ENTRY
    && lib.crc(e.bytes) == GetU32(b, cursor + 16)
    && e.name == lib.decode(Subarray(b, cursor + 46, cursor + 46 + GetU16(b, cursor + 28)))
    && FileBytes(lib, b, GetU16(b, cursor + 10), GetU32(b, cursor + 20), GetU32(b, cursor + 24), GetU32(b, cursor + 42))
         == Ok(e.bytes)
    && (GetU16(b, cursor + 10) == STORED || (GetU16(b, cursor + 10) == DEFLATE && e.name != "mimetype"))
  }

  /** Where a central record ends by its own account. */
  function RecordEnd(b: Bytes, cursor: nat): nat {
    if cursor + 46 <= |b|
    then cursor + 46 + GetU16(b, cursor + 28) + GetU16(b, cursor + 30) + GetU16(b, cursor + 32)
    else cursor
  }

  lemma ParsedRecordSound(lib: Library, b: Bytes, cursor: nat, total: nat)
    requires ParseRecord(lib, b, cursor, total).Ok?
    ensures var p := ParseRecord(lib, b, cursor, total).value;
            && Declares(lib, b, cursor, p.entry) && p.next == RecordEnd(b, cursor)
            && |p.entry.bytes| == p.size <= MAX_ENTRY && total + p.size <= MAX_TOTAL
  {}

  /** `n` steps of `next`. */
  function Walk(next: nat -> nat, start: nat, n: nat): nat
    decreases n
  {
    if n == 0 then start else Walk(next, next(start), n - 1)
  }

  /** What a reader returns satisfies `says` of the cursor it was called with. */
  ghost predicate Tells(read: (nat, nat) -> Result<Parsed>, says: (nat, Entry) -> bool, next: nat -> nat) {
    forall cursor: nat, total: nat :: read(cursor, total).Ok? ==>
      says(cursor, read(cursor, total).value.entry) && read(cursor, total).value.next == next(cursor)
  }

  lemma {:induction false} LoopTells(
    read: (nat, nat) -> Result<Parsed>, says: (nat, Entry) -> bool, next: nat -> nat, cursor: nat, total: nat,
        count: nat)
    requires Tells(read, says, next) && ParseLoop(read, cursor, total, count).Ok?
    ensures |ParseLoop(read, cursor, total, count).value| == count
    ensures forall i :: 0 <= i < count ==> says(Walk(next, cursor, i), ParseLoop(read, cursor, total, count).value[i])
    decreases count
  {
    if count > 0 {
      var p := read(cursor, total).value;
      LoopTells(read, says, next, p.next, total + p.size, count - 1);
      var rest := ParseLoop(read, p.next, total + p.size, count - 1).value;
      var es := ParseLoop(read, cursor, total, count).value;
      assert es == [p.entry] + rest;
      forall i | 0 <= i < count ensures says(Walk(next, cursor, i), es[i]) {
        if i > 0 { assert es[i] == rest[i - 1] && Walk(next, cursor, i) == Walk(next, next(cursor), i - 1); }
      }
    }
  }

  ghost function Saying(lib: Library, b: Bytes): (nat, Entry) -> bool {
    (cursor: nat, e: Entry) => Declares(lib, b, cursor, e)
  }

  function Ending(b: Bytes): nat -> nat {
    (cursor: nat) => RecordEnd(b, cursor)
  }

  lemma ReaderTells(lib: Library, b: Bytes)
    ensures Tells(Reader(lib, b), Saying(lib, b), Ending(b))
  {
    forall cursor: nat, total: nat | Reader(lib, b)(cursor, total).Ok?
      ensures var p := Reader(lib, b)(cursor, total).value;
        Saying(lib, b)(cursor, p.entry) && p.next == Ending(b)(cursor)
    {
      ParsedRecordSound(lib, b, cursor, total);
    }
  }

  /** Where the end record says that the central directory starts, and how many records
      it announces. */
  function Directory(b: Bytes): (nat, nat) {
    match EocdBelow(b, |b| - 22, EocdFloor(b))
    case Err(_) => (0, 0)
    case Ok(eocd) => (GetU32(b, eocd + 16), GetU16(b, eocd + 10))
  }

  function RecordCount(b: Bytes): nat {
    Directory(b).1
  }

  /** The start of the `n`-th central record. */
  function RecordAt(b: Bytes, n: nat): nat {
    Walk(Ending(b), Directory(b).0, n)
  }

  lemma ParseIsLoop(lib: Library, b: Bytes)
    requires ParseCentral(lib, b).Ok?
    ensures ParseCentral(lib, b) == ParseLoop(Reader(lib, b), Directory(b).0, 0, Directory(b).1)
  {}

  /** The entries of a successful parse are those that the central records declare, in
      their order. */
  lemma EntriesAreDeclared(lib: Library, b: Bytes)
    requires ParseCentral(lib, b).Ok?
    ensures |ParseCentral(lib, b).value| == RecordCount(b)
    ensures forall i :: 0 <= i < RecordCount(b) ==> Declares(lib, b, RecordAt(b, i), ParseCentral(lib, b).value[i])
  {
    ParseIsLoop(lib, b);
    ReaderTells(lib, b);
    LoopTells(Reader(lib, b), Saying(lib, b), Ending(b), Directory(b).0, 0, Directory(b).1);
    forall i | 0 <= i < RecordCount(b) ensures Declares(lib, b, RecordAt(b, i), ParseCentral(lib, b).value[i]) {
      assert Saying(lib, b)(Walk(Ending(b), Directory(b).0, i), ParseCentral(lib, b).value[i]);
    }
  }

  ghost predicate ReadsWithin(read: (nat, nat) -> Result<Parsed>) {
    forall cursor: nat, total: nat :: read(cursor, total).Ok? ==>
      var p := read(cursor, total).value; |p.entry.bytes| == p.size <= MAX_ENTRY && total + p.size <= MAX_TOTAL
  }

  lemma ReaderReadsWithin(lib: Library, b: Bytes)
    ensures ReadsWithin(Reader(lib, b))
  {
    forall cursor: nat, total: nat | Reader(lib, b)(cursor, total).Ok?
      ensures var p := Reader(lib, b)(cursor, total).value;
        |p.entry.bytes| == p.size <= MAX_ENTRY && total + p.size <= MAX_TOTAL
    {
      ParsedRecordSound(lib, b, cursor, total);
    }
  }

  /** Reading `count` records yields `count` entries within what is left of the budget. */
  lemma {:induction false} LoopSound(read: (nat, nat) -> Result<Parsed>, cursor: nat, total: nat, count: nat)
    requires ReadsWithin(read) && ParseLoop(read, cursor, total, count).Ok? && total <= MAX_TOTAL
    ensures var es := ParseLoop(read, cursor, total, count).value;
            && |es| == count
            && (forall i :: 0 <= i < |es| ==> |es[i].bytes| <= MAX_ENTRY)
            && total + TotalBytes(es) <= MAX_TOTAL
    decreases count
  {
    if count > 0 {
      var p := read(cursor, total).value;
      LoopSound(read, p.next, total + p.size, count - 1);
      var es := ParseLoop(read, cursor, total, count).value;
      assert es[1..] == ParseLoop(read, p.next, total + p.size, count - 1).value;
    }
  }

  lemma {:induction false} TotalOfMoved(a: seq<Entry>, i: nat)
    requires i < |a|
    ensures TotalBytes([a[i]] + a[..i] + a[i + 1..]) == TotalBytes(a)
  {
    if i == 0 {
      assert [a[0]] + a[..0] + a[1..] == a;
    } else {
      TotalOfMoved(a[1..], i - 1);
      var m := [a[i]] + a[..i] + a[i + 1..];
      assert m[1..] == a[..i] + a[i + 1..];
      assert m[1..][1..] == a[1..][..i - 1] + a[1..][i..];
      assert ([a[1..][i - 1]] + a[1..][..i - 1] + a[1..][i..])[1..] == a[1..][..i - 1] + a[1..][i..];
    }
  }

  lemma CentralSound(lib: Library, b: Bytes)
    requires ParseCentral(lib, b).Ok?
    ensures WithinBudget(ParseCentral(lib, b).value)
  {
    var eocd := EocdBelow(b, |b| - 22, EocdFloor(b)).value;
    ReaderReadsWithin(lib, b);
    LoopSound(Reader(lib, b), GetU32(b, eocd + 16), 0, GetU16(b, eocd + 10));
  }

  lemma ReadEntriesSound(lib: Library, b: Bytes)
    requires ReadEntries(lib, b).Ok?
    ensures var es := ReadEntries(lib, b).value;
            WithinBudget(es) && es != [] && es[0].name == "mimetype" && lib.decode(es[0].bytes) == ASIC_E_MIMETYPE
  {
    CentralSound(lib, b);
    var parsed := ParseCentral(lib, b).value;
    MimetypeFirstLeads(lib, parsed);
    TotalOfMoved(parsed, IndexOfName(parsed, "mimetype"));
  }

  /** `e` is the first entry that meets `p`. */
  ghost predicate IsFirst(es: seq<Entry>, p: Entry -> bool, e: Entry) {
    exists i :: 0 <= i < |es| && es[i] == e && p(es[i]) && forall j :: 0 <= j < i ==> !p(es[j])
  }

  lemma {:induction false} FirstWhereIsFirst(es: seq<Entry>, p: Entry -> bool)
    requires FirstWhere(es, p).Some?
    ensures IsFirst(es, p, FirstWhere(es, p).value)
  {
    if p(es[0]) {
      assert es[0] == FirstWhere(es, p).value;
    } else {
      FirstWhereIsFirst(es[1..], p);
      var e := FirstWhere(es, p).value;
      var i :| 0 <= i < |es| - 1 && es[1..][i] == e && p(es[1..][i]) && forall j :: 0 <= j < i ==> !p(es[1..][j]);
      assert es[i + 1] == e;
      assert forall j :: 0 <= j < i + 1 ==> !p(es[j]) by {
        assert forall j :: 0 < j < i + 1 ==> es[j] == es[1..][j - 1];
      }
    }
  }

  ghost predicate ToldBySome(says: (nat, Entry) -> bool, count: nat, e: Entry) {
    exists n: nat :: n < count && says(n, e)
  }

  ghost predicate TellsSome(says: (nat, Entry) -> bool, n: nat, es: seq<Entry>) {
    exists i :: 0 <= i < |es| && says(n, es[i])
  }

  /** Both ways between `count` records and the entries. */
  ghost predicate Matching(says: (nat, Entry) -> bool, count: nat, es: seq<Entry>) {
    && |es| == count
    && (forall i :: 0 <= i < |es| ==> ToldBySome(says, count, es[i]))
    && (forall n: nat :: n < count ==> TellsSome(says, n, es))
  }

  lemma MatchingMoves(says: (nat, Entry) -> bool, parsed: seq<Entry>, es: seq<Entry>)
    requires forall n :: 0 <= n < |parsed| ==> says(n, parsed[n])
    requires |es| == |parsed| && (forall i :: 0 <= i < |es| ==> es[i] in parsed)
            && (forall e :: e in parsed ==> e in es)
    ensures Matching(says, |parsed|, es)
  {
    forall i | 0 <= i < |es| ensures ToldBySome(says, |parsed|, es[i]) {
      var n: nat :| n < |parsed| && parsed[n] == es[i];
      assert says(n, parsed[n]);
    }
    forall n: nat | n < |parsed| ensures TellsSome(says, n, es) {
      assert parsed[n] in parsed;
      var i :| 0 <= i < |es| && es[i] == parsed[n];
      assert says(n, es[i]);
    }
  }

  ghost function Declaring(lib: Library, b: Bytes): (nat, Entry) -> bool {
    (n: nat, e: Entry) => Declares(lib, b, RecordAt(b, n), e)
  }

  /** The entries are those of the central directory: each one is declared by a record,
      and none that a record declares is missing. */
  ghost predicate Genuine(lib: Library, b: Bytes, es: seq<Entry>) {
    Matching(Declaring(lib, b), RecordCount(b), es)
  }

  lemma ParsedInOrder(lib: Library, b: Bytes)
    requires ParseCentral(lib, b).Ok?
    ensures |ParseCentral(lib, b).value| == RecordCount(b)
    ensures forall n :: 0 <= n < RecordCount(b) ==> Declaring(lib, b)(n, ParseCentral(lib, b).value[n])
  {
    EntriesAreDeclared(lib, b);
  }

  lemma MovedHoldsAll(lib: Library, parsed: seq<Entry>)
    requires MimetypeFirst(lib, parsed).Ok?
    ensures forall e :: e in parsed ==> e in MimetypeFirst(lib, parsed).value
  {
    MimetypeFirstLeads(lib, parsed);
    forall e | e in parsed ensures e in MimetypeFirst(lib, parsed).value {
      assert e in multiset(parsed);
    }
  }

  lemma ReadEntriesGenuine(lib: Library, b: Bytes)
    requires ReadEntries(lib, b).Ok?
    ensures Genuine(lib, b, ReadEntries(lib, b).value)
  {
    var parsed := ParseCentral(lib, b).value;
    ParsedInOrder(lib, b);
    MimetypeFirstLeads(lib, parsed);
    MovedHoldsAll(lib, parsed);
    MatchingMoves(Declaring(lib, b), parsed, MimetypeFirst(lib, parsed).value);
  }

  /** The payload is the entry that the manifest names, or else the first one that is
      neither `mimetype` nor in `META-INF`. */
  ghost predicate IsPayload(lib: Library, es: seq<Entry>, manifest: Entry, payload: Entry) {
    match lib.payloadUri(lib.decode(manifest.bytes))
    case Some(uri) => IsFirst(es, (e: Entry) => e.name == uri, payload)
    case None => IsFirst(es, (e: Entry) => e.name != "mimetype" && !lib.isMetaInf(e.name), payload)
  }

  lemma PartsAreFirst(lib: Library, es: seq<Entry>)
    requires SelectParts(lib, es).Ok?
    ensures var u := SelectParts(lib, es).value;
            && u.entries == es
            && IsFirst(es, (e: Entry) => lib.isManifest(e.name), u.manifest)
            && IsFirst(es, (e: Entry) => lib.isSignature(e.name), u.signature)
            && IsPayload(lib, es, u.manifest, u.payload)
  {
    FirstWhereIsFirst(es, (e: Entry) => lib.isManifest(e.name));
    FirstWhereIsFirst(es, (e: Entry) => lib.isSignature(e.name));
    var manifest := FirstWhere(es, (e: Entry) => lib.isManifest(e.name)).value;
    match lib.payloadUri(lib.decode(manifest.bytes))
    case Some(uri) => FirstWhereIsFirst(es, (e: Entry) => e.name == uri);
    case None => FirstWhereIsFirst(es, (e: Entry) => e.name != "mimetype" && !lib.isMetaInf(e.name));
  }

  /** What any successful read guarantees: at most 16 entries within both size budgets,
      each with the size, the checksum, the name and the data of its own central record
      and none left out; `mimetype` first with the right content; and the parts that
      the manifest's text selects. */
  ghost predicate Sound(lib: Library, b: Bytes, u: Unpacked) {
    && WithinBudget(u.entries)
    && Genuine(lib, b, u.entries)
    && u.entries != [] && u.entries[0].name == "mimetype"
    && lib.decode(u.entries[0].bytes) == ASIC_E_MIMETYPE
    && IsFirst(u.entries, (e: Entry) => lib.isManifest(e.name), u.manifest)
    && IsFirst(u.entries, (e: Entry) => lib.isSignature(e.name), u.signature)
    && IsPayload(lib, u.entries, u.manifest, u.payload)
  }

  lemma UnpackIsSound(lib: Library, b: Bytes)
    requires Unpack(lib, b).Ok?
    ensures Sound(lib, b, Unpack(lib, b).value)
  {
    ReadEntriesSound(lib, b);
    ReadEntriesGenuine(lib, b);
    PartsAreFirst(lib, ReadEntries(lib, b).value);
  }

  /** `unpackAsicE` */
  method UnpackAsicE(lib: Library, b: Bytes) returns (r: Result<Unpacked>)
    ensures r == Unpack(lib, b)
    ensures r.Ok? ==> Sound(lib, b, r.value)
  {
    var onDisk := OnDiskMimetypeFirst(lib, b);
    if onDisk.Err? {
      return Err(onDisk.error);
    }
    var parsed := ParseCentralEntries(lib, b);
    if parsed.Err? {
      return Err(parsed.error);
    }
    var entries := MimetypeFirst(lib, parsed.value);
    if entries.Err? {
      return Err(entries.error);
    }
    if entries.value == [] || entries.value[0].name != "mimetype" {
      return Err(MimetypeNotFirst);
    }
    r := SelectParts(lib, entries.value);
    if r.Ok? {
      UnpackIsSound(lib, b);
    }
  }

  /** Only the last record can run over the end of the file: the one after any other
      has been read. */
  lemma RecordsLieWithin(lib: Library, b: Bytes, n: nat)
    requires ParseCentral(lib, b).Ok? && n + 1 < RecordCount(b)
    ensures RecordEnd(b, RecordAt(b, n)) + 46 <= |b|
    ensures Subarray(b, RecordAt(b, n) + 46, RecordAt(b, n) + 46 + GetU16(b, RecordAt(b, n) + 28))
              == b[RecordAt(b, n) + 46..RecordAt(b, n) + 46 + GetU16(b, RecordAt(b, n) + 28)]
  {
    EntriesAreDeclared(lib, b);
    assert Declares(lib, b, RecordAt(b, n), ParseCentral(lib, b).value[n]);
    assert Declares(lib, b, RecordAt(b, n + 1), ParseCentral(lib, b).value[n + 1]);
    WalkOn(Ending(b), Directory(b).0, n);
  }

  lemma {:induction false} WalkOn(next: nat -> nat, start: nat, n: nat)
    ensures Walk(next, start, n + 1) == next(Walk(next, start, n))
    decreases n
  {
    if n > 0 { WalkOn(next, next(start), n - 1); }
  }

  lemma {:induction false} WalkFollows(next: nat -> nat, at: nat -> nat, n: nat)
    requires forall i: nat :: i < n ==> next(at(i)) == at(i + 1)
    ensures Walk(next, at(0), n) == at(n)
  {
    if n > 0 {
      WalkFollows(next, at, n - 1);
      WalkOn(next, at(0), n - 1);
    }
  }

  /** Two entry lists within the budgets never pack to the same file unless they are
      the same list with `mimetype` first. */
  lemma PackIsInjective(lib: Library, xs: seq<Entry>, ys: seq<Entry>)
    requires MimetypeFirst(lib, xs).Ok? && NamesOk(lib, xs) && WithinBudget(MimetypeFirst(lib, xs).value)
    requires MimetypeFirst(lib, ys).Ok? && NamesOk(lib, ys) && WithinBudget(MimetypeFirst(lib, ys).value)
    ensures Pack(lib, xs) == Pack(lib, ys) <==> MimetypeFirst(lib, xs) == MimetypeFirst(lib, ys)
  {
    MimetypeFirstLeads(lib, xs);
    MimetypeFirstLeads(lib, ys);
    assert NamesOk(lib, MimetypeFirst(lib, xs).value) && NamesOk(lib, MimetypeFirst(lib, ys).value);
    CentralReadsBack(lib, MimetypeFirst(lib, xs).value);
    CentralReadsBack(lib, MimetypeFirst(lib, ys).value);
  }
}
