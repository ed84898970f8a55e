/** What the container reader accepts without looking: files that no packer writes. */
module AsicUnchecked {
  // packages/document-signing/src/asic-container.ts. Both families of files start from a packed
  // container: one overwrites a length that is read but never used, the other hides a local file
  // in front of the one that the central directory names.

  import opened ByteStrings
  import opened AsicContainer
  import opened AsicRoundTrip

  // ------------------------------------------------------------ changing a stretch

  /** The files differ at most from `p` up to `q`. */
  ghost predicate AgreeBut(b: Bytes, c: Bytes, p: nat, q: nat) {
    |c| == |b| && forall j :: 0 <= j < |b| && !(p <= j < q) ==> c[j] == b[j]
  }

  lemma SliceStays(b: Bytes, c: Bytes, p: nat, q: nat, from: nat, to: nat)
    requires AgreeBut(b, c, p, q) && from <= to <= |b| && (to <= p || q <= from)
    ensures c[from..to] == b[from..to]
  {}

  lemma NumbersStay(b: Bytes, c: Bytes, p: nat, q: nat, at: nat)
    requires AgreeBut(b, c, p, q)
    ensures at + 2 <= |b| && (at + 2 <= p || q <= at) ==> GetU16(c, at) == GetU16(b, at)
    ensures at + 4 <= |b| && (at + 4 <= p || q <= at) ==> GetU32(c, at) == GetU32(b, at)
  {}

  lemma LocalStays(lib: Library, b: Bytes, c: Bytes, p: nat, q: nat, at: nat, e: Entry)
    requires AgreeBut(b, c, p, q) && LocalSays(lib, b, at, e)
    requires at + 30 + |lib.encode(e.name)| + |e.bytes| <= p
    ensures LocalSays(lib, c, at, e)
  {
    var n := |lib.encode(e.name)|;
    SliceStays(b, c, p, q, at + 30, at + 30 + n);
    SliceStays(b, c, p, q, at + 30 + n, at + 30 + n + |e.bytes|);
  }

  lemma CentralStays(lib: Library, b: Bytes, c: Bytes, p: nat, q: nat, at: nat, e: Entry, offset: nat, comment: nat)
    requires AgreeBut(b, c, p, q) && CentralSays(lib, b, at, e, offset, comment)
    requires at + 46 + |lib.encode(e.name)| <= p
    ensures CentralSays(lib, c, at, e, offset, comment)
  {
    SliceStays(b, c, p, q, at + 46, at + 46 + |lib.encode(e.name)|);
  }

  // ------------------------------------------------------------ the comment of the last record

  /** The central record with another comment length, and nothing else changed. */
  function WithComment(b: Bytes, record: nat, k: nat): Bytes
    requires record + 34 <= |b|
  {
    b[..record + 32] + U16(k) + b[record + 34..]
  }

  lemma WithCommentAgrees(b: Bytes, record: nat, k: nat)
    requires record + 34 <= |b| && k < 65536
    ensures AgreeBut(b, WithComment(b, record, k), record + 32, record + 34)
    ensures GetU16(WithComment(b, record, k), record + 32) == k
  {
    AtWhole(b[..record + 32], U16(k), b[record + 34..]);
    ReadBackU16(WithComment(b, record, k), record + 32, k);
  }

  lemma CentralWithComment(lib: Library, b: Bytes, at: nat, e: Entry, offset: nat, k: nat)
    requires CentralSays(lib, b, at, e, offset, 0) && k < 65536
    ensures CentralSays(lib, WithComment(b, at, k), at, e, offset, k)
  {
    var c := WithComment(b, at, k);
    WithCommentAgrees(b, at, k);
    NumbersStay(b, c, at + 32, at + 34, at);
    NumbersStay(b, c, at + 32, at + 34, at + 8);
    NumbersStay(b, c, at + 32, at + 34, at + 10);
    NumbersStay(b, c, at + 32, at + 34, at + 16);
    NumbersStay(b, c, at + 32, at + 34, at + 20);
    NumbersStay(b, c, at + 32, at + 34, at + 24);
    NumbersStay(b, c, at + 32, at + 34, at + 28);
    NumbersStay(b, c, at + 32, at + 34, at + 30);
    NumbersStay(b, c, at + 32, at + 34, at + 42);
    SliceStays(b, c, at + 32, at + 34, at + 46, at + 46 + |lib.encode(e.name)|);
  }

  // ------------------------------------------------------------ places in a packed file

  lemma {:induction false} Ascends(at: nat -> nat, i: nat, j: nat)
    requires i <= j && forall m: nat :: i <= m < j ==> at(m) <= at(m + 1)
    ensures at(i) <= at(j)
    decreases j
  {
    if i < j { Ascends(at, i, j - 1); }
  }

  ghost function LocalStarts(lib: Library, es: seq<Entry>): nat -> nat {
    (i: nat) => if i <= |es| then LocalStart(lib, es, i) else 0
  }

  lemma LocalsInOrder(lib: Library, es: seq<Entry>, i: nat, j: nat)
    requires i <= j <= |es|
    ensures LocalStart(lib, es, i) <= LocalStart(lib, es, j)
  {
    forall m: nat | i <= m < j ensures LocalStarts(lib, es)(m) <= LocalStarts(lib, es)(m + 1) {
      LocalNext(lib, es, m);
    }
    Ascends(LocalStarts(lib, es), i, j);
  }

  lemma CentralEnds(lib: Library, es: seq<Entry>, i: nat, end: nat)
    requires i < |es| && end == Starts(lib, es)(i + 1)
    ensures CentralStart(lib, es, i) + 46 + |lib.encode(es[i].name)| == end
  {
    CentralNext(lib, es, i);
  }

  lemma CentralsInOrder(lib: Library, es: seq<Entry>, i: nat, j: nat)
    requires i <= j <= |es|
    ensures CentralStart(lib, es, i) <= CentralStart(lib, es, j)
  {
    forall m: nat | i <= m < j ensures Starts(lib, es)(m) <= Starts(lib, es)(m + 1) {
      CentralEnds(lib, es, m, Starts(lib, es)(m + 1));
    }
    Ascends(Starts(lib, es), i, j);
  }

  lemma CentralBefore(lib: Library, es: seq<Entry>, i: nat, j: nat)
    requires i < j <= |es|
    ensures CentralStart(lib, es, i) + 46 + |lib.encode(es[i].name)| <= CentralStart(lib, es, j)
  {
    CentralEnds(lib, es, i, Starts(lib, es)(i + 1));
    CentralsInOrder(lib, es, i + 1, j);
  }

  /** Every local file ends before the directory, which ends 22 bytes before the file. */
  lemma Places(lib: Library, es: seq<Entry>, i: nat)
    requires i < |es|
    ensures LocalStart(lib, es, i) + 30 + |lib.encode(es[i].name)| + |es[i].bytes| <= CentralStart(lib, es, 0)
    ensures CentralStart(lib, es, 0) == |Flatten(Locals(lib, es))|
    ensures |PackOrdered(lib, es)| == CentralStart(lib, es, |es|) + 22
  {
    LocalNext(lib, es, i);
    LocalsInOrder(lib, es, i + 1, |es|);
    assert es[..|es|] == es && es[..0] == [];
    EocdLayout(|es|, |Flatten(Centrals(lib, es))|, |Flatten(Locals(lib, es))|);
  }

  /** The file holds both records of an entry, the central one with a comment length. */
  ghost predicate Stands(lib: Library, c: Bytes, at: nat, offset: nat, e: Entry, comment: nat) {
    CentralSays(lib, c, at, e, offset, comment) && LocalSays(lib, c, offset, e)
  }

  lemma StandsBefore(lib: Library, b: Bytes, last: nat, k: nat, at: nat, offset: nat, e: Entry)
    requires Stands(lib, b, at, offset, e, 0) && last + 34 <= |b| && k < 65536
    requires offset + 30 + |lib.encode(e.name)| + |e.bytes| <= last && at + 46 + |lib.encode(e.name)| <= last
    ensures Stands(lib, WithComment(b, last, k), at, offset, e, 0)
  {
    WithCommentAgrees(b, last, k);
    LocalStays(lib, b, WithComment(b, last, k), last + 32, last + 34, offset, e);
    CentralStays(lib, b, WithComment(b, last, k), last + 32, last + 34, at, e, offset, 0);
  }

  lemma StandsLast(lib: Library, b: Bytes, last: nat, k: nat, offset: nat, e: Entry)
    requires Stands(lib, b, last, offset, e, 0) && k < 65536
    requires offset + 30 + |lib.encode(e.name)| + |e.bytes| <= last
    ensures Stands(lib, WithComment(b, last, k), last, offset, e, k)
  {
    WithCommentAgrees(b, last, k);
    LocalStays(lib, b, WithComment(b, last, k), last + 32, last + 34, offset, e);
    CentralWithComment(lib, b, last, e, offset, k);
  }

  function LastRecord(lib: Library, es: seq<Entry>): nat
    requires es != []
  {
    CentralStart(lib, es, |es| - 1)
  }

  lemma LocalBeforeLast(lib: Library, es: seq<Entry>, i: nat)
    requires i < |es|
    ensures LocalStart(lib, es, i) + 30 + |lib.encode(es[i].name)| + |es[i].bytes| <= LastRecord(lib, es)
  {
    Places(lib, es, i);
    CentralsInOrder(lib, es, 0, |es| - 1);
  }

  lemma LastBeforeEnd(lib: Library, es: seq<Entry>)
    requires es != []
    ensures LastRecord(lib, es) + 46 + |lib.encode(es[|es| - 1].name)| == |PackOrdered(lib, es)| - 22
  {
    Places(lib, es, 0);
    CentralNext(lib, es, |es| - 1);
  }

  ghost predicate StandsIn(lib: Library, c: Bytes, es: seq<Entry>, k: nat, i: nat)
    requires i < |es|
  {
    Stands(lib, c, CentralStart(lib, es, i), LocalStart(lib, es, i), es[i], if i == |es| - 1 then k else 0)
  }

  /** In a file below 4 GiB the offsets and sizes of all records are as they were written. */
  lemma FileFits(lib: Library, es: seq<Entry>, i: nat)
    requires i < |es| && |PackOrdered(lib, es)| < 0x1_0000_0000
    ensures LocalStart(lib, es, i) < 0x1_0000_0000 && |es[i].bytes| < 0x1_0000_0000
  {
    Places(lib, es, i);
    CentralsInOrder(lib, es, 0, |es|);
  }

  lemma PackedStands(lib: Library, es: seq<Entry>, i: nat)
    requires |PackOrdered(lib, es)| < 0x1_0000_0000 && NamesOk(lib, es) && i < |es|
    ensures Stands(lib, PackOrdered(lib, es), CentralStart(lib, es, i), LocalStart(lib, es, i), es[i], 0)
  {
    assert NameOk(lib, es[i].name);
    FileFits(lib, es, i);
    CentralStands(lib, es, i);
    LocalStands(lib, es, i);
    CentralReads(lib, PackOrdered(lib, es), CentralStart(lib, es, i), es[i], LocalStart(lib, es, i));
    LocalReads(lib, PackOrdered(lib, es), LocalStart(lib, es, i), es[i]);
  }

  lemma StandsWithComment(lib: Library, es: seq<Entry>, k: nat, i: nat)
    requires WithinBudget(es) && NamesOk(lib, es) && i < |es| && k < 65536
    ensures LastRecord(lib, es) + 34 <= |PackOrdered(lib, es)|
    ensures StandsIn(lib, WithComment(PackOrdered(lib, es), LastRecord(lib, es), k), es, k, i)
  {
    OffsetsFit(lib, es, i);
    PackedStands(lib, es, i);
    LocalBeforeLast(lib, es, i);
    LastBeforeEnd(lib, es);
    if i == |es| - 1 {
      StandsLast(lib, PackOrdered(lib, es), LastRecord(lib, es), k, LocalStart(lib, es, i), es[i]);
    } else {
      CentralBefore(lib, es, i, |es| - 1);
      StandsBefore(lib, PackOrdered(lib, es), LastRecord(lib, es), k,
                   CentralStart(lib, es, i), LocalStart(lib, es, i), es[i]);
    }
  }

  /** Where the cursor of the reader comes: past the last record by the comment too. */
  ghost function Cursors(lib: Library, es: seq<Entry>, k: nat): nat -> nat {
    (i: nat) => if i < |es| then CentralStart(lib, es, i)
                else if i == |es| then CentralStart(lib, es, i) + k else 0
  }

  lemma StandingReads(lib: Library, c: Bytes, at: nat, offset: nat, e: Entry, comment: nat, total: nat)
    requires Stands(lib, c, at, offset, e, comment)
    requires NameOk(lib, e.name) && |e.bytes| <= MAX_ENTRY && total + |e.bytes| <= MAX_TOTAL
    ensures ParseRecord(lib, c, at, total) == Ok(Parsed(e, |e.bytes|, at + 46 + |lib.encode(e.name)| + comment))
    ensures RecordEnd(c, at) == at + 46 + |lib.encode(e.name)| + comment
  {
    RecordReadsBack(lib, c, e, at, offset, comment, total);
  }

  function CommentOf(es: seq<Entry>, k: nat, i: nat): nat {
    if i == |es| - 1 then k else 0
  }

  lemma CursorSteps(lib: Library, es: seq<Entry>, k: nat, i: nat)
    requires i < |es|
    ensures Cursors(lib, es, k)(i) == CentralStart(lib, es, i)
    ensures Cursors(lib, es, k)(i + 1)
         == Cursors(lib, es, k)(i) + 46 + |lib.encode(es[i].name)| + CommentOf(es, k, i)
  {
    CentralNext(lib, es, i);
  }

  lemma TotalSteps(es: seq<Entry>, i: nat)
    requires WithinBudget(es) && i < |es|
    ensures Totals(es)(i + 1) == Totals(es)(i) + |es[i].bytes| <= MAX_TOTAL
  {
    assert es[..i + 1] == es[..i] + [es[i]];
    TotalSnoc(es[..i], es[i]);
    TotalMonotone(es, i + 1);
  }

  lemma DeliversFrom(
    lib: Library, c: Bytes, es: seq<Entry>, at: nat -> nat, total: nat -> nat, offset: nat, comment: nat, i: nat)
    requires i < |es| && Stands(lib, c, at(i), offset, es[i], comment)
    requires NameOk(lib, es[i].name) && |es[i].bytes| <= MAX_ENTRY
    requires at(i + 1) == at(i) + 46 + |lib.encode(es[i].name)| + comment
    requires total(i + 1) == total(i) + |es[i].bytes| <= MAX_TOTAL
    ensures Delivers(Reader(lib, c), es, at, total, i) && Ending(c)(at(i)) == at(i + 1)
  {
    StandingReads(lib, c, at(i), offset, es[i], comment, total(i));
    assert Reader(lib, c)(at(i), total(i)) == ParseRecord(lib, c, at(i), total(i));
  }

  lemma StandingDelivers(lib: Library, c: Bytes, es: seq<Entry>, k: nat, i: nat)
    requires WithinBudget(es) && NamesOk(lib, es) && i < |es| && StandsIn(lib, c, es, k, i)
    ensures Delivers(Reader(lib, c), es, Cursors(lib, es, k), Totals(es), i)
    ensures Ending(c)(Cursors(lib, es, k)(i)) == Cursors(lib, es, k)(i + 1)
  {
    assert NameOk(lib, es[i].name);
    CursorSteps(lib, es, k, i);
    TotalSteps(es, i);
    DeliversFrom(lib, c, es, Cursors(lib, es, k), Totals(es), LocalStart(lib, es, i), CommentOf(es, k, i), i);
  }

  /** The end record is the last 22 bytes, and says this. */
  ghost predicate EndSays(c: Bytes, count: nat, size: nat, offset: nat) {
    && |c| >= 22 && EocdBelow(c, |c| - 22, EocdFloor(c)) == Ok(|c| - 22)
    && GetU16(c, |c| - 12) == count && GetU32(c, |c| - 10) == size && GetU32(c, |c| - 6) == offset
  }

  lemma EndStays(b: Bytes, c: Bytes, p: nat, q: nat, count: nat, size: nat, offset: nat)
    requires EndSays(b, count, size, offset) && AgreeBut(b, c, p, q) && q + 22 <= |c|
    ensures EndSays(c, count, size, offset)
  {
    NumbersStay(b, c, p, q, |b| - 22);
    NumbersStay(b, c, p, q, |b| - 12);
    NumbersStay(b, c, p, q, |b| - 10);
    NumbersStay(b, c, p, q, |b| - 6);
  }

  lemma PackedEnd(lib: Library, es: seq<Entry>)
    requires WithinBudget(es) && NamesOk(lib, es)
    ensures EndSays(PackOrdered(lib, es), |es|, |Flatten(Centrals(lib, es))|, |Flatten(Locals(lib, es))|)
  {
    OffsetsFit(lib, es, 0);
    EocdAtFirstProbe(lib, es);
  }

  /** A reader that delivers all entries of a file whose end record is its last 22 bytes. */
  lemma DeliveredParses(lib: Library, c: Bytes, es: seq<Entry>, at: nat -> nat, total: nat -> nat, size: nat)
    requires EndSays(c, |es|, size, at(0)) && |es| <= MAX_ENTRIES && at(0) + size <= |c| && total(0) == 0
    requires forall i :: 0 <= i < |es| ==> Delivers(Reader(lib, c), es, at, total, i)
    ensures ParseCentral(lib, c) == Ok(es) && Directory(c) == (at(0), |es|)
  {
    LoopDelivers(Reader(lib, c), es, at, total, 0);
    assert es[0..] == es;
  }

  /** A file in which all records of a packed one stand, and its end record. */
  lemma StandingParses(lib: Library, c: Bytes, es: seq<Entry>, k: nat)
    requires WithinBudget(es) && NamesOk(lib, es) && es != []
    requires forall i :: 0 <= i < |es| ==> StandsIn(lib, c, es, k, i)
    requires |c| == |PackOrdered(lib, es)|
    requires EndSays(c, |es|, |Flatten(Centrals(lib, es))|, |Flatten(Locals(lib, es))|)
    ensures ParseCentral(lib, c) == Ok(es)
    ensures RecordCount(c) == |es| && RecordAt(c, |es| - 1) == LastRecord(lib, es)
    ensures RecordEnd(c, LastRecord(lib, es)) == |c| - 22 + k
  {
    var at := Cursors(lib, es, k);
    forall i: nat | i < |es|
      ensures Delivers(Reader(lib, c), es, at, Totals(es), i) && Ending(c)(at(i)) == at(i + 1)
    {
      StandingDelivers(lib, c, es, k, i);
    }
    StartPlaces(lib, es, k);
    DeliveredParses(lib, c, es, at, Totals(es), |Flatten(Centrals(lib, es))|);
    WalkFollows(Ending(c), at, |es| - 1);
  }

  lemma StartPlaces(lib: Library, es: seq<Entry>, k: nat)
    requires es != []
    ensures Cursors(lib, es, k)(0) == |Flatten(Locals(lib, es))| && Totals(es)(0) == 0
    ensures Cursors(lib, es, k)(0) + |Flatten(Centrals(lib, es))| + 22 == |PackOrdered(lib, es)|
    ensures Cursors(lib, es, k)(|es| - 1) == LastRecord(lib, es)
    ensures Cursors(lib, es, k)(|es|) == |PackOrdered(lib, es)| - 22 + k
  {
    Places(lib, es, 0);
    assert es[..0] == [] && es[..|es|] == es;
  }

  /** With `mimetype` in front, what is read of the directory is what is unpacked. */
  lemma ParsedUnpacks(lib: Library, c: Bytes, o: seq<Entry>)
    requires ParseCentral(lib, c) == Ok(o) && OnDiskMimetypeFirst(lib, c) == Ok(())
    requires o != [] && o[0].name == "mimetype" && MimetypeFirst(lib, o) == Ok(o)
    ensures Unpack(lib, c) == SelectParts(lib, o)
  {}

  /** With a comment length of `k` in its last central record the file unpacks to the same,
      and that record, by its own account, ends `k - 22` bytes behind the file. */
  ghost predicate CommentDecidesNothing(lib: Library, b: Bytes, k: nat) {
    && RecordCount(b) > 0
    && var last := RecordAt(b, RecordCount(b) - 1);
       && last + 34 <= |b|
       && var c := WithComment(b, last, k);
          && Unpack(lib, c) == Unpack(lib, b)
          && RecordCount(c) == RecordCount(b) && RecordAt(c, RecordCount(c) - 1) == last
          && RecordEnd(c, last) == |c| + k - 22
          && (RecordEnd(c, last) > |c| <==> k > 22)
  }

  lemma CommentIsUnseen(lib: Library, o: seq<Entry>, k: nat)
    requires WithinBudget(o) && NamesOk(lib, o) && o != [] && o[0].name == "mimetype" && k < 65536
    requires MimetypeFirst(lib, o) == Ok(o) && Unpack(lib, PackOrdered(lib, o)) == SelectParts(lib, o)
    ensures CommentDecidesNothing(lib, PackOrdered(lib, o), k)
  {
    PackedParses(lib, o);
    CommentParses(lib, o, k);
    ParsedUnpacks(lib, WithComment(PackOrdered(lib, o), LastRecord(lib, o), k), o);
  }

  /** The comment length of the last central record is read but decides nothing, since no
      record follows: every packed container unpacks to the same with any other there,
      although from 23 on that record runs over the end of the file. */
  lemma LastRecordMayRunOver(lib: Library, es: seq<Entry>, k: nat)
    requires MimetypeFirst(lib, es).Ok? && NamesOk(lib, es) && WithinBudget(MimetypeFirst(lib, es).value)
    requires k < 65536
    ensures Pack(lib, es).Ok?
    ensures Unpack(lib, Pack(lib, es).value) == SelectParts(lib, MimetypeFirst(lib, es).value)
    ensures CommentDecidesNothing(lib, Pack(lib, es).value, k)
  {
    var o := MimetypeFirst(lib, es).value;
    MimetypeFirstLeads(lib, es);
    UnpackOfPack(lib, es);
    assert NamesOk(lib, o);
    CommentIsUnseen(lib, o, k);
  }

  lemma PackedParses(lib: Library, o: seq<Entry>)
    requires WithinBudget(o) && NamesOk(lib, o) && o != []
    ensures RecordCount(PackOrdered(lib, o)) == |o| && RecordAt(PackOrdered(lib, o), |o| - 1) == LastRecord(lib, o)
  {
    OffsetsFit(lib, o, 0);
    forall i | 0 <= i < |o| ensures StandsIn(lib, PackOrdered(lib, o), o, 0, i) { PackedStands(lib, o, i); }
    PackedEnd(lib, o);
    StandingParses(lib, PackOrdered(lib, o), o, 0);
  }

  lemma CommentParses(lib: Library, o: seq<Entry>, k: nat)
    requires WithinBudget(o) && NamesOk(lib, o) && o != [] && o[0].name == "mimetype" && k < 65536
    ensures LastRecord(lib, o) + 34 <= |PackOrdered(lib, o)|
    ensures var c := WithComment(PackOrdered(lib, o), LastRecord(lib, o), k);
            && ParseCentral(lib, c) == Ok(o) && OnDiskMimetypeFirst(lib, c) == Ok(())
            && RecordCount(c) == |o| && RecordAt(c, |o| - 1) == LastRecord(lib, o)
            && RecordEnd(c, LastRecord(lib, o)) == |c| - 22 + k
  {
    LastBeforeEnd(lib, o);
    var b, last := PackOrdered(lib, o), LastRecord(lib, o);
    var c := WithComment(b, last, k);
    WithCommentAgrees(b, last, k);
    forall i | 0 <= i < |o| ensures StandsIn(lib, c, o, k, i) { StandsWithComment(lib, o, k, i); }
    PackedEnd(lib, o);
    EndStays(b, c, last + 32, last + 34, |o|, |Flatten(Centrals(lib, o))|, |Flatten(Locals(lib, o))|);
    StandingParses(lib, c, o, k);
    assert StandsIn(lib, c, o, k, 0) && NameOk(lib, o[0].name) && o[..0] == [];
    OnDiskReadsBack(lib, c, o[0]);
  }

  // ------------------------------------------------------------ the local file in front

  /** Where the data of the `n`-th entry is taken from: a local header's offset. */
  function LocalOffset(b: Bytes, n: nat): nat {
    if RecordAt(b, n) + 46 <= |b| then GetU32(b, RecordAt(b, n) + 42) else 0
  }

  /** What is stored behind the local header at `offset`, as far as `size` bytes. */
  function StoredAt(b: Bytes, offset: nat, size: nat): Bytes
    requires offset + 30 <= |b|
  {
    var start := offset + 30 + GetU16(b, offset + 26) + GetU16(b, offset + 28);
    Subarray(b, start, start + size)
  }

  /** The record of the entry that comes to the front. */
  function MimetypeRecord(lib: Library, b: Bytes): nat
    requires ParseCentral(lib, b).Ok?
  {
    IndexOfName(ParseCentral(lib, b).value, "mimetype")
  }

  /** The header at 0 passed the checks that are made on it. */
  ghost predicate LeadChecked(lib: Library, b: Bytes) {
    && |b| >= 30 && 30 + GetU16(b, 26) <= |b| && lib.decode(b[30..30 + GetU16(b, 26)]) == "mimetype"
    && GetU16(b, 8) == STORED && GetU16(b, 28) == 0
  }

  lemma UnpackChecksTheLead(lib: Library, b: Bytes)
    requires Unpack(lib, b).Ok?
    ensures LeadChecked(lib, b)
    ensures ParseCentral(lib, b).Ok?
    ensures MimetypeFirst(lib, ParseCentral(lib, b).value) == Ok(Unpack(lib, b).value.entries)
  {}

  lemma FrontEntry(lib: Library, es: seq<Entry>)
    requires MimetypeFirst(lib, es).Ok?
    ensures IndexOfName(es, "mimetype") < |es| && MimetypeFirst(lib, es).value != []
    ensures MimetypeFirst(lib, es).value[0] == es[IndexOfName(es, "mimetype")]
  {
    var i := IndexOfName(es, "mimetype");
    FrontOf(es[i], es[..i], es[i + 1..]);
  }

  lemma FrontOf(x: Entry, y: seq<Entry>, z: seq<Entry>)
    ensures [x] + y + z != [] && ([x] + y + z)[0] == x
  {}

  /** The `mimetype` that is returned is what is stored at the offset its central record
      gives; the header whose name, method and extra field were checked is the one at 0. */
  lemma MimetypeIsStoredAtItsOffset(lib: Library, b: Bytes)
    requires Unpack(lib, b).Ok?
    ensures LeadChecked(lib, b) && ParseCentral(lib, b).Ok? && Unpack(lib, b).value.entries != []
    ensures var first := Unpack(lib, b).value.entries[0];
            var offset := LocalOffset(b, MimetypeRecord(lib, b));
            offset + 30 <= |b| && first.bytes == StoredAt(b, offset, |first.bytes|)
  {
    UnpackChecksTheLead(lib, b);
    var parsed := ParseCentral(lib, b).value;
    FrontEntry(lib, parsed);
    EntriesAreDeclared(lib, b);
    var n := MimetypeRecord(lib, b);
    StoredIsThere(lib, b, RecordAt(b, n), parsed[n]);
  }

  lemma StoredIsThere(lib: Library, b: Bytes, cursor: nat, e: Entry)
    requires Declares(lib, b, cursor, e) && e.name == "mimetype"
    ensures var offset := GetU32(b, cursor + 42); offset + 30 <= |b| && e.bytes == StoredAt(b, offset, |e.bytes|)
  {}

  /** The file with an end record for `count` records from `start` on. */
  function WithEnd(b: Bytes, count: nat, start: nat): Bytes {
    if |b| < 22 + start then b
    else b[..|b| - 22] + Flatten(EocdFields(count, |b| - 22 - start, start))
  }

  lemma WithEndAgrees(b: Bytes, count: nat, start: nat)
    requires 22 + start <= |b| < 0x1_0000_0000 && count < 65536
    ensures AgreeBut(b, WithEnd(b, count, start), |b| - 22, |b|)
    ensures EndSays(WithEnd(b, count, start), count, |b| - 22 - start, start)
  {
    var front, eocd := b[..|b| - 22], Flatten(EocdFields(count, |b| - 22 - start, start));
    EocdLayout(count, |b| - 22 - start, start);
    assert front + eocd == front + eocd + [];
    AtWhole(front, eocd, []);
    EocdReads(front + eocd, |front|, count, |b| - 22 - start, start);
  }

  /** The packed file of a list, with an end record that leaves the first central record
      out of the directory. */
  function WithoutFirst(lib: Library, es: seq<Entry>): Bytes
    requires es != []
  {
    WithEnd(PackOrdered(lib, es), |es| - 1, CentralStart(lib, es, 1))
  }

  lemma LateEndFits(lib: Library, es: seq<Entry>)
    requires es != [] && |es| <= 65536 && |PackOrdered(lib, es)| < 0x1_0000_0000
    ensures 22 + CentralStart(lib, es, 1) <= |PackOrdered(lib, es)| < 0x1_0000_0000
  {
    Places(lib, es, 0);
    CentralsInOrder(lib, es, 1, |es|);
  }

  lemma WithoutFirstAgrees(lib: Library, es: seq<Entry>)
    requires es != [] && |es| <= 65536 && |PackOrdered(lib, es)| < 0x1_0000_0000
    ensures var b, c, start := PackOrdered(lib, es), WithoutFirst(lib, es), CentralStart(lib, es, 1);
            && 22 + start <= |b| && AgreeBut(b, c, |b| - 22, |b|) && EndSays(c, |es| - 1, |c| - 22 - start, start)
  {
    LateEndFits(lib, es);
    WithEndAgrees(PackOrdered(lib, es), |es| - 1, CentralStart(lib, es, 1));
  }

  ghost predicate Addressable(lib: Library, es: seq<Entry>) {
    |es| <= 65536 && |PackOrdered(lib, es)| < 0x1_0000_0000 && NamesOk(lib, es)
  }

  /** The cursors of its reader, which starts at the second central record. */
  ghost function LateCursors(lib: Library, es: seq<Entry>): nat -> nat {
    (i: nat) => if i < |es| then CentralStart(lib, es, i + 1) else 0
  }

  lemma LateStands(lib: Library, es: seq<Entry>, i: nat)
    requires Addressable(lib, es) && i < |es|
    ensures Stands(lib, WithoutFirst(lib, es), CentralStart(lib, es, i), LocalStart(lib, es, i), es[i], 0)
  {
    PackedStands(lib, es, i);
    WithoutFirstAgrees(lib, es);
    Places(lib, es, i);
    CentralBefore(lib, es, i, |es|);
    CentralsInOrder(lib, es, 0, |es|);
    var b := PackOrdered(lib, es);
    StandsApart(lib, b, WithoutFirst(lib, es), CentralStart(lib, es, i), LocalStart(lib, es, i), es[i]);
  }

  lemma StandsApart(lib: Library, b: Bytes, c: Bytes, at: nat, offset: nat, e: Entry)
    requires Stands(lib, b, at, offset, e, 0) && |b| >= 22 && AgreeBut(b, c, |b| - 22, |b|)
    requires offset + 30 + |lib.encode(e.name)| + |e.bytes| <= |b| - 22 && at + 46 + |lib.encode(e.name)| <= |b| - 22
    ensures Stands(lib, c, at, offset, e, 0)
  {
    LocalStays(lib, b, c, |b| - 22, |b|, offset, e);
    CentralStays(lib, b, c, |b| - 22, |b|, at, e, offset, 0);
  }

  lemma LateSteps(lib: Library, es: seq<Entry>, i: nat)
    requires i + 1 < |es|
    ensures LateCursors(lib, es)(i) == CentralStart(lib, es, i + 1)
    ensures LateCursors(lib, es)(i + 1) == LateCursors(lib, es)(i) + 46 + |lib.encode(es[i + 1].name)|
  {
    CentralNext(lib, es, i + 1);
  }

  lemma LateDelivers(lib: Library, es: seq<Entry>, o: seq<Entry>, i: nat)
    requires Addressable(lib, es) && es != [] && o == es[1..] && WithinBudget(o) && i < |o|
    ensures Delivers(Reader(lib, WithoutFirst(lib, es)), o, LateCursors(lib, es), Totals(o), i)
  {
    assert o[i] == es[i + 1] && NameOk(lib, es[i + 1].name);
    LateStands(lib, es, i + 1);
    LateSteps(lib, es, i);
    TotalSteps(o, i);
    DeliversFrom(lib, WithoutFirst(lib, es), o, LateCursors(lib, es), Totals(o), LocalStart(lib, es, i + 1), 0, i);
  }

  lemma LateParses(lib: Library, es: seq<Entry>, o: seq<Entry>)
    requires Addressable(lib, es) && es != [] && o == es[1..] && WithinBudget(o)
    ensures ParseCentral(lib, WithoutFirst(lib, es)) == Ok(o)
    ensures Directory(WithoutFirst(lib, es)) == (CentralStart(lib, es, 1), |o|)
  {
    var c := WithoutFirst(lib, es);
    WithoutFirstAgrees(lib, es);
    forall i | 0 <= i < |o| ensures Delivers(Reader(lib, c), o, LateCursors(lib, es), Totals(o), i) {
      LateDelivers(lib, es, o, i);
    }
    assert o[..0] == [];
    DeliveredParses(lib, c, o, LateCursors(lib, es), Totals(o), |c| - 22 - CentralStart(lib, es, 1));
  }

  lemma LeadReads(lib: Library, c: Bytes, lead: Entry)
    requires LocalSays(lib, c, 0, lead) && lead.name == "mimetype" && NameOk(lib, lead.name)
    ensures OnDiskMimetypeFirst(lib, c) == Ok(()) && LeadChecked(lib, c)
    ensures StoredAt(c, 0, |lead.bytes|) == lead.bytes
  {
    OnDiskReadsBack(lib, c, lead);
  }

  lemma LeadStands(lib: Library, es: seq<Entry>)
    requires Addressable(lib, es) && es != [] && es[0].name == "mimetype"
    ensures var c := WithoutFirst(lib, es);
            && OnDiskMimetypeFirst(lib, c) == Ok(()) && LeadChecked(lib, c)
            && StoredAt(c, 0, |es[0].bytes|) == es[0].bytes
  {
    LateStands(lib, es, 0);
    assert es[..0] == [] && NameOk(lib, es[0].name);
    LeadReads(lib, WithoutFirst(lib, es), es[0]);
  }

  lemma LateOffset(lib: Library, es: seq<Entry>)
    requires Addressable(lib, es) && |es| > 1
    requires Directory(WithoutFirst(lib, es)).0 == CentralStart(lib, es, 1)
    ensures LocalOffset(WithoutFirst(lib, es), 0) == LocalStart(lib, es, 1) > 0
  {
    LateStands(lib, es, 1);
    LocalNext(lib, es, 0);
  }

  /** So they need not be one file: in front of any container that unpacks there can stand
      a local file `mimetype` with any content whatever, which no entry is taken from. */
  lemma LeadMayBeAnything(lib: Library, lead: Entry, o: seq<Entry>)
    requires lead.name == "mimetype" && NamesOk(lib, [lead] + o) && WithinBudget(o)
    requires |PackOrdered(lib, [lead] + o)| < 0x1_0000_0000
    requires o != [] && o[0].name == "mimetype" && MimetypeFirst(lib, o) == Ok(o)
    ensures var c := WithoutFirst(lib, [lead] + o);
            && Unpack(lib, c) == SelectParts(lib, o) && ParseCentral(lib, c) == Ok(o)
            && LeadChecked(lib, c) && StoredAt(c, 0, |lead.bytes|) == lead.bytes
            && LocalOffset(c, MimetypeRecord(lib, c)) > 0
  {
    var es := [lead] + o;
    assert es[1..] == o && es[0] == lead;
    LateParses(lib, es, o);
    LeadStands(lib, es);
    LateOffset(lib, es);
    ParsedUnpacks(lib, WithoutFirst(lib, es), o);
  }
}
