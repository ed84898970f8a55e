/** The ASiC-E container: a STORED-only ZIP packer and its reader
    (packages/document-signing/src/asic-container.ts). Record layouts are those of
    PKWARE APPNOTE sections 4.3.7, 4.3.12 and 4.3.16. */
module AsicContainer {
  import opened Options
  import opened ByteStrings

  const MAX_ENTRY: nat := 25 * 1024 * 1024
  const MAX_TOTAL: nat := 4 * MAX_ENTRY
  const MAX_ENTRIES: nat := 16
  const LOCAL_SIG: nat := 0x04034b50
  const CENTRAL_SIG: nat := 0x02014b50
  const EOCD_SIG: nat := 0x06054b50
  const STORED: nat := 0
  const DEFLATE: nat := 8
  const ZIP_VERSION: nat := 20
  const ASIC_E_MIMETYPE: string := "application/vnd.etsi.asic-e+zip"

  datatype Entry = Entry(name: string, bytes: Bytes)

  datatype Unpacked = Unpacked(entries: seq<Entry>, payload: Entry, manifest: Entry, signature: Entry)

  /** One constructor per message the source throws. */
  datatype Error =
    | TruncatedU16 | TruncatedU32 | NotAContainer | LocalHeaderTruncated | MimetypeNotFirst | MimetypeNotStored
    | MimetypeExtra | DataDescriptors | MimetypeMissing | MimetypeWrong | EocdMissing | TooManyEntries
    | CentralTruncated | CentralCorrupt | MethodUnsupported | StoredSizeMismatch | EntryOverBudget | TotalOverBudget
    | LocalCorrupt | DataTruncated | DeflateCorrupt | SizeMismatch | CrcMismatch
    | ManifestOrSignatureMissing | PayloadMissing

  datatype Result<+T> = Ok(value: T) | Err(error: Error)

  /** What raw inflate with an output limit makes of its input. */
  datatype Inflated = Inflated(bytes: Bytes) | TooLarge | Corrupt

  /** The library functions the container relies on: UTF-8 both ways, CRC-32, raw
      inflate with an output limit, and the tests on names and on the manifest text. */
  datatype Library = Library(
    encode: string -> Bytes,
    decode: Bytes -> string,
    crc: Bytes -> u32,
    inflate: (Bytes, nat) -> Inflated,
    isManifest: string -> bool,
    isSignature: string -> bool,
    isMetaInf: string -> bool,
    payloadUri: string -> Option<string>)

  // ------------------------------------------------------------ selecting

  function IndexOfName(es: seq<Entry>, name: string): (i: nat)
    ensures i <= |es|
    ensures i < |es| ==> es[i].name == name
    ensures forall j :: 0 <= j < i ==> es[j].name != name
  {
    if es == [] || es[0].name == name then 0 else 1 + IndexOfName(es[1..], name)
  }

  /** `requireMimetypeFirst`: moves the first `mimetype` entry to the front. */
  function MimetypeFirst(lib: Library, es: seq<Entry>): Result<seq<Entry>> {
    var i := IndexOfName(es, "mimetype");
    if i == |es| then Err(MimetypeMissing)
    else if lib.decode(es[i].bytes) != ASIC_E_MIMETYPE then Err(MimetypeWrong)
    else Ok([es[i]] + es[..i] + es[i + 1..])
  }

  function FirstWhere(es: seq<Entry>, p: Entry -> bool): (r: Option<Entry>)
    ensures r.Some? ==> r.value in es && p(r.value)
    ensures r.None? ==> forall e :: e in es ==> !p(e)
  {
    if es == [] then None else if p(es[0]) then Some(es[0]) else FirstWhere(es[1..], p)
  }

  /** What `unpackAsicE` does with the entries it has read. */
  function SelectParts(lib: Library, es: seq<Entry>): Result<Unpacked> {
    var manifest := FirstWhere(es, (e: Entry) => lib.isManifest(e.name));
    var signature := FirstWhere(es, (e: Entry) => lib.isSignature(e.name));
    if manifest.None? || signature.None? then Err(ManifestOrSignatureMissing)
    else
      var uri := lib.payloadUri(lib.decode(manifest.value.bytes));
      var payload :=
        if uri.Some? then FirstWhere(es, (e: Entry) => e.name == uri.value)
        else FirstWhere(es, (e: Entry) => e.name != "mimetype" && !lib.isMetaInf(e.name));
      if payload.None? then Err(PayloadMissing)
      else Ok(Unpacked(es, payload.value, manifest.value, signature.value))
  }

  // ------------------------------------------------------------ packing

  function LocalFields(lib: Library, e: Entry): seq<Bytes> {
    var name, size := lib.encode(e.name), |e.bytes|;
    [U32(LOCAL_SIG), U16(ZIP_VERSION), U16(0), U16(STORED), U16(0), U16(0), U32(lib.crc(e.bytes)),
     U32(size), U32(size), U16(|name|), U16(0), name, e.bytes]
  }

  function CentralFields(lib: Library, e: Entry, offset: nat): seq<Bytes> {
    var name, size := lib.encode(e.name), |e.bytes|;
    [U32(CENTRAL_SIG), U16(ZIP_VERSION), U16(ZIP_VERSION), U16(0), U16(STORED), U16(0), U16(0), U32(lib.crc(e.bytes)),
     U32(size), U32(size), U16(|name|), U16(0), U16(0), U16(0), U16(0), U32(0), U32(offset), name]
  }

  function EocdFields(count: nat, size: nat, offset: nat): seq<Bytes> {
    [U32(EOCD_SIG), U16(0), U16(0), U16(count), U16(count), U32(size), U32(offset), U16(0)]
  }

  function Locals(lib: Library, es: seq<Entry>): seq<Bytes> {
    if es == [] then [] else Locals(lib, es[..|es| - 1]) + [Flatten(LocalFields(lib, es[|es| - 1]))]
  }

  function Centrals(lib: Library, es: seq<Entry>): seq<Bytes> {
    if es == [] then []
    else
      var before := es[..|es| - 1];
      Centrals(lib, before) + [Flatten(CentralFields(lib, es[|es| - 1], |Flatten(Locals(lib, before))|))]
  }

  /** The file for entries that already stand in order. */
  function PackOrdered(lib: Library, es: seq<Entry>): Bytes {
    var locals := Flatten(Locals(lib, es));
    var central := Flatten(Centrals(lib, es));
    locals + central + Flatten(EocdFields(|es|, |central|, |locals|))
  }

  function Pack(lib: Library, es: seq<Entry>): Result<Bytes> {
    match MimetypeFirst(lib, es)
    case Err(e) => Err(e)
    case Ok(ordered) => Ok(PackOrdered(lib, ordered))
  }

  lemma RecordsTake(lib: Library, es: seq<Entry>, i: nat)
    requires i < |es|
    ensures Locals(lib, es[..i + 1]) == Locals(lib, es[..i]) + [Flatten(LocalFields(lib, es[i]))]
    ensures Centrals(lib, es[..i + 1])
              == Centrals(lib, es[..i]) + [Flatten(CentralFields(lib, es[i], |Flatten(Locals(lib, es[..i]))|))]
  {
    assert es[..i + 1][..i] == es[..i];
  }

  lemma FlattenTwoMore(parts: seq<Bytes>, x: Bytes, y: Bytes)
    ensures Flatten(parts + [x, y]) == Flatten(parts) + x + y
  {
    assert parts + [x, y] == (parts + [x]) + [y];
    FlattenSnoc(parts + [x], y);
    FlattenSnoc(parts, x);
  }

  /** `packAsicE` */
  method PackAsicE(lib: Library, entries: seq<Entry>) returns (r: Result<Bytes>)
    ensures r == Pack(lib, entries)
  {
    var first := MimetypeFirst(lib, entries);
    if first.Err? {
      return Err(first.error);
    }
    var ordered := first.value;
    var locals, centrals: seq<Bytes> := [], [];
    var offset := 0;
    for i := 0 to |ordered|
      invariant locals == Locals(lib, ordered[..i])
      invariant centrals == Centrals(lib, ordered[..i])
      invariant offset == |Flatten(locals)|
    {
      RecordsTake(lib, ordered, i);
      var local := Concat(LocalFields(lib, ordered[i]));
      var central := Concat(CentralFields(lib, ordered[i], offset));
      FlattenSnoc(locals, local);
      locals := locals + [local];
      centrals := centrals + [central];
      offset := offset + |local|;
    }
    assert ordered[..|ordered|] == ordered;
    var centralDir := Concat(centrals);
    var eocd := Concat(EocdFields(|ordered|, |centralDir|, offset));
    var file := Concat(locals + [centralDir, eocd]);
    FlattenTwoMore(locals, centralDir, eocd);
    return Ok(file);
  }

  // ------------------------------------------------------------ reading

  /** `subarray` clamps both ends. */
  function Subarray(b: Bytes, lo: nat, hi: nat): Bytes
    requires lo <= hi
  {
    b[(if lo < |b| then lo else |b|)..(if hi < |b| then hi else |b|)]
  }

  /** Bit 3 of the general purpose flags. */
  predicate HasDescriptor(flags: nat) {
    flags / 8 % 2 == 1
  }

  /** `requireOnDiskMimetypeFirst` */
  function OnDiskMimetypeFirst(lib: Library, b: Bytes): Result<()> {
    if |b| < 30 || GetU32(b, 0) != LOCAL_SIG then Err(NotAContainer)
    else
      var flags := GetU16(b, 6);
      var method_ := GetU16(b, 8);
      var nameLen := GetU16(b, 26);
      var extraLen := GetU16(b, 28);
      if 30 + nameLen > |b| then Err(LocalHeaderTruncated)
      else if lib.decode(b[30..30 + nameLen]) != "mimetype" then Err(MimetypeNotFirst)
      else if method_ != STORED then Err(MimetypeNotStored)
      else if extraLen != 0 then Err(MimetypeExtra)
      else if HasDescriptor(flags) then Err(DataDescriptors)
      else Ok(())
  }

  /** The last end-of-central-directory signature at or below `i`. */
  function EocdBelow(b: Bytes, i: int, min: nat): (r: Result<nat>)
    requires i + 4 <= |b|
    ensures r.Ok? ==> min <= r.value <= i && GetU32(b, r.value) == EOCD_SIG
    ensures r.Ok? ==> forall j :: r.value < j <= i ==> GetU32(b, j) != EOCD_SIG
    ensures r.Err? ==> forall j :: min <= j <= i ==> GetU32(b, j) != EOCD_SIG
    decreases i - min
  {
    if i < min then Err(EocdMissing)
    else if GetU32(b, i) == EOCD_SIG then Ok(i)
    else EocdBelow(b, i - 1, min)
  }

  function EocdFloor(b: Bytes): nat {
    if |b| - 22 - 65535 > 0 then |b| - 22 - 65535 else 0
  }

  /** `findEocd`: the last signature that leaves room for a whole record, at most a
      full comment away from the end. */
  method FindEocd(b: Bytes) returns (r: Result<nat>)
    ensures r == EocdBelow(b, |b| - 22, EocdFloor(b))
  {
    var i := |b| - 22;
    while i >= EocdFloor(b)
      invariant i <= |b| - 22
      invariant EocdBelow(b, |b| - 22, EocdFloor(b)) == EocdBelow(b, i, EocdFloor(b))
    {
      if GetU32(b, i) == EOCD_SIG {
        return Ok(i);
      }
      i := i - 1;
    }
    return Err(EocdMissing);
  }

  datatype Parsed = Parsed(entry: Entry, size: nat, next: nat)

  /** The first read of a central record at `cursor` that would leave the file; a field
      of width `w` at distance `d` is read only when `cursor + d + w` bytes are there. */
  function CentralHeader(b: Bytes, cursor: nat): Option<Error> {
    if |b| < cursor + 4 then Some(TruncatedU32)
    else if GetU32(b, cursor) != CENTRAL_SIG then Some(CentralCorrupt)
    else if |b| < cursor + 12 then Some(TruncatedU16)
    else if |b| < cursor + 28 then Some(TruncatedU32)
    else if |b| < cursor + 34 then Some(TruncatedU16)
    else if |b| < cursor + 46 then Some(TruncatedU32)
    else None
  }

  /** The checks on the fields of a central record, before its data is touched. */
  function FieldsRefused(name: string, flags: nat, method_: nat, compressed: nat, uncompressed: nat,
      total: nat): Option<Error> {
    if HasDescriptor(flags) then Some(DataDescriptors)
    else if method_ != STORED && method_ != DEFLATE then Some(MethodUnsupported)
    else if name == "mimetype" && method_ != STORED then Some(MimetypeNotStored)
    else if method_ == STORED && compressed != uncompressed then Some(StoredSizeMismatch)
    else if uncompressed > MAX_ENTRY then Some(EntryOverBudget)
    else if total + uncompressed > MAX_TOTAL then Some(TotalOverBudget)
    else None
  }

  /** One turn of the loop of `parseCentralEntries`: the record at `cursor`, with
      `total` uncompressed bytes declared so far. */
  function ParseRecord(lib: Library, b: Bytes, cursor: nat, total: nat): Result<Parsed> {
    var broken := CentralHeader(b, cursor);
    if broken.Some? then Err(broken.value)
    else
      var method_, compressed, uncompressed := GetU16(b, cursor + 10), GetU32(b, cursor + 20), GetU32(b, cursor + 24);
      var nameEnd := cursor + 46 + GetU16(b, cursor + 28);
      var name := lib.decode(Subarray(b, cursor + 46, nameEnd));
      var refused := FieldsRefused(name, GetU16(b, cursor + 8), method_, compressed, uncompressed, total);
      if refused.Some? then Err(refused.value)
      else match FileBytes(lib, b, method_, compressed, uncompressed, GetU32(b, cursor + 42))
        case Err(e) => Err(e)
        case Ok(bytes) =>
          if |bytes| != uncompressed then Err(SizeMismatch)
          else if lib.crc(bytes) != GetU32(b, cursor + 16) then Err(CrcMismatch)
          else Ok(Parsed(Entry(name, bytes), uncompressed, nameEnd + GetU16(b, cursor + 30) + GetU16(b, cursor + 32)))
  }

  /** The data behind a local header, inflated when the method says so. */
  function FileBytes(lib: Library, b: Bytes, method_: nat, compressed: nat, uncompressed: nat,
      localOffset: nat): Result<Bytes> {
    if |b| < localOffset + 4 then Err(TruncatedU32)
    else if GetU32(b, localOffset) != LOCAL_SIG then Err(LocalCorrupt)
    else if |b| < localOffset + 30 then Err(TruncatedU16)
    else
      var start := localOffset + 30 + GetU16(b, localOffset + 26) + GetU16(b, localOffset + 28);
      if start + compressed > |b| then Err(DataTruncated)
      else if method_ == DEFLATE then
        match lib.inflate(b[start..start + compressed], if uncompressed > 0 then uncompressed else 1)
        case Inflated(bytes) => Ok(bytes)
        case TooLarge => Err(TotalOverBudget)  // the same message as for the running total
        case Corrupt => Err(DeflateCorrupt)
      else Ok(b[start..start + compressed])
  }

  /** The loop of `parseCentralEntries` over whatever reads one record: the remaining
      `count` records from `cursor`, after `total` declared bytes. */
  function ParseLoop(read: (nat, nat) -> Result<Parsed>, cursor: nat, total: nat, count: nat): Result<seq<Entry>>
    decreases count
  {
    if count == 0 then Ok([])
    else match read(cursor, total)
      case Err(e) => Err(e)
      case Ok(p) =>
        match ParseLoop(read, p.next, total + p.size, count - 1)
        case Err(e) => Err(e)
        case Ok(rest) => Ok([p.entry] + rest)
  }

  function Reader(lib: Library, b: Bytes): (nat, nat) -> Result<Parsed> {
    (cursor: nat, total: nat) => ParseRecord(lib, b, cursor, total)
  }

  /** `whole` is `rest` with `done` in front, or its error. */
  predicate Prefixed(whole: Result<seq<Entry>>, done: seq<Entry>, rest: Result<seq<Entry>>) {
    whole == if rest.Err? then Err(rest.error) else Ok(done + rest.value)
  }

  lemma PrefixedStep(whole: Result<seq<Entry>>, done: seq<Entry>, rest: Result<seq<Entry>>, e: Entry,
      next: Result<seq<Entry>>)
    requires Prefixed(whole, done, rest) && Prefixed(rest, [e], next)
    ensures Prefixed(whole, done + [e], next)
  {
    if next.Ok? { assert done + ([e] + next.value) == (done + [e]) + next.value; }
  }

  lemma ParseLoopUnfold(read: (nat, nat) -> Result<Parsed>, cursor: nat, total: nat, count: nat)
    requires count > 0
    ensures var p := read(cursor, total);
            if p.Err? then ParseLoop(read, cursor, total, count) == Err(p.error)
            else Prefixed(ParseLoop(read, cursor, total, count), [p.value.entry],
                          ParseLoop(read, p.value.next, total + p.value.size, count - 1))
  {}

  function ParseCentral(lib: Library, b: Bytes): Result<seq<Entry>> {
    match EocdBelow(b, |b| - 22, EocdFloor(b))
    case Err(e) => Err(e)
    case Ok(eocd) =>
      var entryCount := GetU16(b, eocd + 10);
      var cdSize, cdOffset := GetU32(b, eocd + 12), GetU32(b, eocd + 16);
      if entryCount > MAX_ENTRIES then Err(TooManyEntries)
      else if cdOffset + cdSize > |b| then Err(CentralTruncated)
      else ParseLoop(Reader(lib, b), cdOffset, 0, entryCount)
  }

  /** The entries of a container, `mimetype` first. */
  function ReadEntries(lib: Library, b: Bytes): Result<seq<Entry>> {
    match OnDiskMimetypeFirst(lib, b)
    case Err(e) => Err(e)
    case Ok(_) =>
      match ParseCentral(lib, b)
      case Err(e) => Err(e)
      case Ok(parsed) => MimetypeFirst(lib, parsed)
  }

  function Unpack(lib: Library, b: Bytes): Result<Unpacked> {
    match ReadEntries(lib, b)
    case Err(e) => Err(e)
    case Ok(entries) =>
      if entries == [] || entries[0].name != "mimetype" then Err(MimetypeNotFirst)
      else SelectParts(lib, entries)
  }

  function TotalBytes(es: seq<Entry>): nat {
    if es == [] then 0 else |es[0].bytes| + TotalBytes(es[1..])
  }

  lemma {:induction false} TotalSnoc(es: seq<Entry>, e: Entry)
    ensures TotalBytes(es + [e]) == TotalBytes(es) + |e.bytes|
  {
    if es != [] {
      assert (es + [e])[1..] == es[1..] + [e];
      TotalSnoc(es[1..], e);
    } else {
      assert (es + [e])[1..] == [];
    }
  }

  /** `parseCentralEntries` */
  method ParseCentralEntries(lib: Library, b: Bytes) returns (r: Result<seq<Entry>>)
    ensures r == ParseCentral(lib, b)
  {
    var eocd := FindEocd(b);
    if eocd.Err? {
      return Err(eocd.error);
    }
    var entryCount := GetU16(b, eocd.value + 10);
    var cdSize := GetU32(b, eocd.value + 12);
    var cdOffset := GetU32(b, eocd.value + 16);
    if entryCount > MAX_ENTRIES {
      return Err(TooManyEntries);
    }
    if cdOffset + cdSize > |b| {
      return Err(CentralTruncated);
    }
    r := ReadRecords(Reader(lib, b), cdOffset, entryCount);
  }

  method ReadRecords(read: (nat, nat) -> Result<Parsed>, cdOffset: nat, entryCount: nat) returns (r: Result<seq<Entry>>)
    ensures r == ParseLoop(read, cdOffset, 0, entryCount)
  {
    ghost var whole := ParseLoop(read, cdOffset, 0, entryCount);
    var entries := [];
    var cursor: nat, totalUncompressed: nat := cdOffset, 0;
    assert whole.Ok? ==> entries + whole.value == whole.value;
    for i := 0 to entryCount
      invariant Prefixed(whole, entries, ParseLoop(read, cursor, totalUncompressed, entryCount - i))
    {
      var p := read(cursor, totalUncompressed);
      ParseLoopUnfold(read, cursor, totalUncompressed, entryCount - i);
      if p.Err? {
        return Err(p.error);
      }
      PrefixedStep(whole, entries, ParseLoop(read, cursor, totalUncompressed, entryCount - i), p.value.entry,
                   ParseLoop(read, p.value.next, totalUncompressed + p.value.size, entryCount - i - 1));
      entries := entries + [p.value.entry];
      totalUncompressed := totalUncompressed + p.value.size;
      cursor := p.value.next;
    }
    assert entries + [] == entries;
    return Ok(entries);
  }
}
