/** Exactly when a packed container reads back. */
module AsicNames {
  // packages/document-signing/src/asic-container.ts. The packer takes any names; its 16-bit length
  // field wraps, and text that is not well-formed changes on its way through UTF-8.

  import opened ByteStrings
  import opened AsicContainer
  import opened AsicRoundTrip
  import opened AsicUnchecked

  /** A property of UTF-8: no text is what its encoding decodes to when at least 65536 bytes
      are cut off the end. */
  ghost predicate CutsShow(lib: Library) {
    forall name: string, n: nat :: n + 65536 <= |lib.encode(name)| ==> lib.decode(lib.encode(name)[..n]) != name
  }

  /** And one more: decoding replaces what it cannot read, but no byte by more than three. */
  ghost predicate DecodesShort(lib: Library) {
    forall b: Bytes :: |lib.encode(lib.decode(b))| <= 3 * |b|
  }

  /** What a 16-bit length field leaves of a name. */
  function ShownName(lib: Library, name: string): string {
    var bytes := lib.encode(name);
    lib.decode(bytes[..|bytes| % 65536])
  }

  lemma ShownAsItIs(lib: Library, name: string)
    requires CutsShow(lib) && ShownName(lib, name) == name
    ensures NameOk(lib, name)
  {
    var bytes := lib.encode(name);
    if |bytes| < 65536 { assert bytes[..|bytes|] == bytes; }
  }

  lemma LowDigits(v: nat, q: nat, w: nat)
    requires v == 65536 * q + w && w < 65536
    ensures v % 256 + 256 * (v / 256 % 256) == w
  {
    assert v == 256 * (256 * q + w / 256) + w % 256;
    assert v / 256 == 256 * q + w / 256;
  }

  /** A field that does not fit is read back reduced. */
  lemma WrappedU16(b: Bytes, offset: nat, v: nat)
    requires At(b, offset, U16(v))
    ensures GetU16(b, offset) == v % 65536
  {
    LowDigits(v, v / 65536, v % 65536);
    var s := b[offset..offset + 2];
    assert b[offset] == s[0] && b[offset + 1] == s[1];
  }

  lemma SliceOfPiece(b: Bytes, offset: nat, piece: Bytes, n: nat)
    requires At(b, offset, piece) && n <= |piece|
    ensures offset + n <= |b| && b[offset..offset + n] == piece[..n]
  {
    assert b[offset..offset + |piece|][..n] == b[offset..offset + n];
  }

  /** The name that a packed central record shows, and where the record ends by its own account. */
  lemma CentralShows(lib: Library, b: Bytes, at: nat, e: Entry, offset: nat)
    requires At(b, at, Flatten(CentralFields(lib, e, offset)))
    ensures at + 46 <= |b| && RecordEnd(b, at) == at + 46 + |lib.encode(e.name)| % 65536
    ensures lib.decode(Subarray(b, at + 46, at + 46 + GetU16(b, at + 28))) == ShownName(lib, e.name)
  {
    var f := CentralFields(lib, e, offset);
    CentralLayout(lib, e, offset);
    FieldAt(b, at, f, 10); WrappedU16(b, at + 28, |lib.encode(e.name)|);
    FieldAt(b, at, f, 11); ReadBackU16(b, at + 30, 0);
    FieldAt(b, at, f, 12); ReadBackU16(b, at + 32, 0);
    FieldAt(b, at, f, 17); SliceOfPiece(b, at + 46, lib.encode(e.name), |lib.encode(e.name)| % 65536);
  }

  lemma LeadShows(lib: Library, b: Bytes, e: Entry)
    requires At(b, 0, Flatten(LocalFields(lib, e))) && OnDiskMimetypeFirst(lib, b).Ok?
    ensures ShownName(lib, e.name) == "mimetype"
  {
    var f := LocalFields(lib, e);
    LocalLayout(lib, e);
    FieldAt(b, 0, f, 9); WrappedU16(b, 26, |lib.encode(e.name)|);
    FieldAt(b, 0, f, 11); SliceOfPiece(b, 30, lib.encode(e.name), |lib.encode(e.name)| % 65536);
  }

  /** An entry parsed from where the record of `e` stands has the name that record shows. */
  lemma ParsedShows(lib: Library, b: Bytes, at: nat, e: Entry, offset: nat, parsed: Entry)
    requires At(b, at, Flatten(CentralFields(lib, e, offset))) && Declares(lib, b, at, parsed)
    ensures parsed.name == ShownName(lib, e.name)
  {
    CentralShows(lib, b, at, e, offset);
  }

  lemma ParsedName(lib: Library, es: seq<Entry>, at: nat, i: nat, parsed: Entry)
    requires i < |es| && at == CentralStart(lib, es, i) && Declares(lib, PackOrdered(lib, es), at, parsed)
    ensures parsed.name == ShownName(lib, es[i].name)
  {
    CentralStands(lib, es, i);
    ParsedShows(lib, PackOrdered(lib, es), at, es[i], LocalStart(lib, es, i), parsed);
  }

  lemma RecordEnds(lib: Library, es: seq<Entry>, at: nat, i: nat)
    requires i < |es| && at == CentralStart(lib, es, i)
    ensures RecordEnd(PackOrdered(lib, es), at) == at + 46 + |lib.encode(es[i].name)| % 65536
  {
    CentralStands(lib, es, i);
    CentralShows(lib, PackOrdered(lib, es), at, es[i], LocalStart(lib, es, i));
  }

  lemma NextStart(lib: Library, es: seq<Entry>, at: nat, next: nat, i: nat)
    requires i < |es| && at == CentralStart(lib, es, i) && next == Starts(lib, es)(i + 1)
    ensures next == at + 46 + |lib.encode(es[i].name)|
  {
    CentralNext(lib, es, i);
  }

  lemma EndsThere(b: Bytes, at: nat, next: nat, n: nat)
    requires RecordEnd(b, at) == at + 46 + n % 65536 && next == at + 46 + n && n < 65536
    ensures Ending(b)(at) == next
  {}

  predicate Fits(lib: Library, name: string) {
    |lib.encode(name)| < 65536
  }

  /** A record with a name that fits ends where the next one was put. */
  lemma FittingStep(lib: Library, es: seq<Entry>, b: Bytes, at: nat, next: nat, i: nat)
    requires i < |es| && b == PackOrdered(lib, es) && at == CentralStart(lib, es, i) && Fits(lib, es[i].name)
    requires next == Starts(lib, es)(i + 1)
    ensures Ending(b)(at) == next
  {
    RecordEnds(lib, es, at, i);
    NextStart(lib, es, at, next, i);
    EndsThere(b, at, next, |lib.encode(es[i].name)|);
  }

  lemma StepsFollow(lib: Library, es: seq<Entry>, b: Bytes, at: nat -> nat, i: nat)
    requires b == PackOrdered(lib, es) && at == Starts(lib, es)
    requires i <= |es| && forall j :: 0 <= j < i ==> Fits(lib, es[j].name)
    ensures Walk(Ending(b), at(0), i) == at(i)
  {
    forall j: nat | j < i ensures Ending(b)(at(j)) == at(j + 1) { FittingStep(lib, es, b, at(j), at(j + 1), j); }
    WalkFollows(Ending(b), at, i);
  }

  /** `parsed` is declared, record by record from the start of the directory. */
  ghost predicate DeclaredFrom(lib: Library, b: Bytes, start: nat, parsed: seq<Entry>) {
    forall i :: 0 <= i < |parsed| ==> Declares(lib, b, Walk(Ending(b), start, i), parsed[i])
  }

  lemma NameAsItIs(lib: Library, es: seq<Entry>, b: Bytes, at: nat, i: nat)
    requires i < |es| && b == PackOrdered(lib, es) && at == CentralStart(lib, es, i)
    requires Declares(lib, b, at, es[i]) && CutsShow(lib)
    ensures NameOk(lib, es[i].name) && Fits(lib, es[i].name)
  {
    ParsedName(lib, es, at, i, es[i]);
    ShownAsItIs(lib, es[i].name);
  }

  ghost predicate FittingNames(lib: Library, es: seq<Entry>, n: nat)
    requires n <= |es|
  {
    forall j :: 0 <= j < n ==> NameOk(lib, es[j].name) && Fits(lib, es[j].name)
  }

  lemma NextName(lib: Library, es: seq<Entry>, b: Bytes, at: nat -> nat, i: nat)
    requires b == PackOrdered(lib, es) && at == Starts(lib, es) && i < |es|
    requires Declares(lib, b, Walk(Ending(b), at(0), i), es[i]) && CutsShow(lib) && FittingNames(lib, es, i)
    ensures FittingNames(lib, es, i + 1)
  {
    StepsFollow(lib, es, b, at, i);
    NameAsItIs(lib, es, b, at(i), i);
  }

  lemma {:induction false} NamesAsTheyAre(lib: Library, es: seq<Entry>, b: Bytes, at: nat -> nat, i: nat)
    requires b == PackOrdered(lib, es) && at == Starts(lib, es)
    requires DeclaredFrom(lib, b, at(0), es) && CutsShow(lib) && i <= |es|
    ensures FittingNames(lib, es, i)
  {
    if i > 0 {
      NamesAsTheyAre(lib, es, b, at, i - 1);
      NextName(lib, es, b, at, i - 1);
    }
  }

  lemma PackedDirectory(lib: Library, es: seq<Entry>, b: Bytes)
    requires EndFound(lib, es, b)
    ensures Directory(b) == (Starts(lib, es)(0), |es|)
  {
    assert es[..0] == [];
  }

  lemma PackedDeclares(lib: Library, count: nat, start: nat, b: Bytes)
    requires Directory(b) == (start, count) && ParseCentral(lib, b).Ok?
    ensures |ParseCentral(lib, b).value| == count
    ensures DeclaredFrom(lib, b, start, ParseCentral(lib, b).value)
  {
    EntriesAreDeclared(lib, b);
  }

  lemma FrontAlready(lib: Library, es: seq<Entry>)
    requires es != [] && es[0].name == "mimetype" && MimetypeFirst(lib, es).Ok?
    ensures MimetypeFirst(lib, es).value == es
  {
    assert [es[0]] + es[..0] + es[1..] == es;
  }

  /** What is unpacked of a packed file is what its directory was parsed to, in that order. */
  lemma ParsedAsPacked(lib: Library, es: seq<Entry>, b: Bytes)
    requires es != [] && b == PackOrdered(lib, es) && EndFound(lib, es, b) && ReadEntries(lib, b).Ok?
    ensures DeclaredFrom(lib, b, Starts(lib, es)(0), ReadEntries(lib, b).value)
  {
    LeadName(lib, es, b);
    PackedDirectory(lib, es, b);
    PackedDeclares(lib, |es|, Starts(lib, es)(0), b);
    var parsed := ParseCentral(lib, b).value;
    ParsedName(lib, es, Starts(lib, es)(0), 0, parsed[0]);
    FrontAlready(lib, parsed);
  }

  lemma LeadName(lib: Library, es: seq<Entry>, b: Bytes)
    requires es != [] && b == PackOrdered(lib, es) && OnDiskMimetypeFirst(lib, b).Ok?
    ensures ShownName(lib, es[0].name) == "mimetype"
  {
    LocalStands(lib, es, 0);
    assert es[..0] == [];
    LeadShows(lib, b, es[0]);
  }

  lemma MovedNamesOk(lib: Library, es: seq<Entry>)
    requires MimetypeFirst(lib, es).Ok? && NamesOk(lib, MimetypeFirst(lib, es).value)
    ensures NamesOk(lib, es)
  {
    MovedHoldsAll(lib, es);
    var o := MimetypeFirst(lib, es).value;
    forall i | 0 <= i < |es| ensures NameOk(lib, es[i].name) {
      assert es[i] in o;
      var j :| 0 <= j < |o| && o[j] == es[i];
      assert NameOk(lib, o[j].name);
    }
  }

  /** Only names that are read back as they are can come out of a packed file. */
  lemma ReadBackNamesOk(lib: Library, o: seq<Entry>, b: Bytes)
    requires o != [] && |o| <= MAX_ENTRIES && b == PackOrdered(lib, o) && |b| < 0x1_0000_0000 && CutsShow(lib)
    requires ReadEntries(lib, b) == Ok(o)
    ensures NamesOk(lib, o)
  {
    EocdAtFirstProbe(lib, o);
    ParsedAsPacked(lib, o, b);
    NamesAsTheyAre(lib, o, b, Starts(lib, o), |o|);
    assert FittingNames(lib, o, |o|);
  }

  lemma UnpackReads(lib: Library, b: Bytes)
    requires Unpack(lib, b).Ok?
    ensures ReadEntries(lib, b) == Ok(Unpack(lib, b).value.entries)
    ensures SelectParts(lib, Unpack(lib, b).value.entries).Ok?
  {}

  // ------------------------------------------------------------ what reads back is small

  const NAME_LIMIT: nat := 196605  // three times 65535

  lemma DeclaredNameIsShort(lib: Library, b: Bytes, cursor: nat, e: Entry)
    requires Declares(lib, b, cursor, e) && DecodesShort(lib)
    ensures |lib.encode(e.name)| <= NAME_LIMIT
  {
    var shown := Subarray(b, cursor + 46, cursor + 46 + GetU16(b, cursor + 28));
    assert |lib.encode(lib.decode(shown))| <= 3 * |shown|;
  }

  lemma ReadNameIsShort(lib: Library, b: Bytes, es: seq<Entry>, i: nat)
    requires Genuine(lib, b, es) && DecodesShort(lib) && i < |es|
    ensures |lib.encode(es[i].name)| <= NAME_LIMIT
  {
    assert ToldBySome(Declaring(lib, b), RecordCount(b), es[i]);
    var n: nat :| n < RecordCount(b) && Declaring(lib, b)(n, es[i]);
    DeclaredNameIsShort(lib, b, RecordAt(b, n), es[i]);
  }

  ghost predicate ShortNames(lib: Library, es: seq<Entry>) {
    forall i :: 0 <= i < |es| ==> |lib.encode(es[i].name)| <= NAME_LIMIT
  }

  lemma NextStarts(lib: Library, es: seq<Entry>, i: nat)
    requires i < |es| && |lib.encode(es[i].name)| <= NAME_LIMIT
    ensures LocalStart(lib, es, i + 1) - TotalBytes(es[..i + 1])
         <= LocalStart(lib, es, i) - TotalBytes(es[..i]) + 196635
    ensures CentralStart(lib, es, i + 1) <= CentralStart(lib, es, i) + 196651
  {
    LocalNext(lib, es, i);
    CentralNext(lib, es, i);
  }

  lemma {:induction false} ShortNamesBound(lib: Library, es: seq<Entry>, i: nat)
    requires i <= |es| && ShortNames(lib, es)
    ensures LocalStart(lib, es, i) - TotalBytes(es[..i]) <= 196635 * i
    ensures CentralStart(lib, es, i) <= CentralStart(lib, es, 0) + 196651 * i
  {
    if i > 0 {
      ShortNamesBound(lib, es, i - 1);
      NextStarts(lib, es, i - 1);
    } else {
      assert es[..0] == [];
    }
  }

  /** So a list that comes back whole was packed into a file of less than 4 GiB. */
  lemma ShortFile(lib: Library, es: seq<Entry>)
    requires WithinBudget(es) && ShortNames(lib, es) && es != []
    ensures |PackOrdered(lib, es)| < 0x1_0000_0000
  {
    ShortNamesBound(lib, es, |es|);
    PlacesInFile(lib, es);
  }

  lemma PlacesInFile(lib: Library, es: seq<Entry>)
    requires es != []
    ensures CentralStart(lib, es, 0) == LocalStart(lib, es, |es|) && es[..|es|] == es
    ensures |PackOrdered(lib, es)| == CentralStart(lib, es, |es|) + 22
  {
    assert es[..|es|] == es;
    Places(lib, es, 0);
  }

  lemma ReadBackIsShort(lib: Library, b: Bytes)
    requires Unpack(lib, b).Ok? && DecodesShort(lib)
    ensures |PackOrdered(lib, Unpack(lib, b).value.entries)| < 0x1_0000_0000
  {
    UnpackIsSound(lib, b);
    var es := Unpack(lib, b).value.entries;
    forall i | 0 <= i < |es| ensures |lib.encode(es[i].name)| <= NAME_LIMIT { ReadNameIsShort(lib, b, es, i); }
    ShortFile(lib, es);
  }

  /** Exactly when a packed container reads back: its entries keep the reader's size budgets,
      contain a manifest, a signature and the payload, and have names that fit their length
      field and survive UTF-8. */
  lemma RoundTripExactly(lib: Library, es: seq<Entry>, o: seq<Entry>)
    requires MimetypeFirst(lib, es) == Ok(o) && CutsShow(lib) && DecodesShort(lib)
    ensures Pack(lib, es).Ok?
    ensures var r := Unpack(lib, Pack(lib, es).value);
            r.Ok? && r.value.entries == o <==> WithinBudget(o) && SelectParts(lib, o).Ok? && NamesOk(lib, o)
  {
    var b := Pack(lib, es).value;
    if WithinBudget(o) && NamesOk(lib, o) {
      MovedNamesOk(lib, es);
      UnpackOfPack(lib, es);
    }
    if Unpack(lib, b).Ok? && Unpack(lib, b).value.entries == o {
      UnpackIsSound(lib, b);
      UnpackReads(lib, b);
      ReadBackIsShort(lib, b);
      ReadBackNamesOk(lib, o, b);
    }
  }
}
