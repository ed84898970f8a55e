/** Clipping a tool result before it is fed back to the model
    (packages/ai/src/clip-tool-result.ts). A record is the list of its entries in
    `Object.entries` order; the length of the printed JSON is an abstract function. */
module ClipToolResult {
  import opened Options

  const CLIP_ARRAY_MAX := 50
  const CLIP_JSON_MAX := 22000
  const CLIP_SHRINK_ARRAY_MAX := 3

  datatype Field = Field(key: string, value: Json)

  datatype Json =
    | Null
    | Bool(b: bool)
    | Number(n: real)
    | Text(s: string)
    | Arr(items: seq<Json>)
    | Rec(fields: seq<Field>)

  /** `STAFF_ASSISTANT_CLIP_IDENTITY_KEYS`, in order. */
  const IDENTITY_KEYS: seq<string> := [
    "id", "itemId", "orderId", "orderNumber", "customerId", "documentId", "name", "titleSnapshot", "status",
    "nextCursor", "itemCount", "basePriceMinor", "currency", "phone", "email", "groupId", "priceListId",
    "requestedLimit", "hasMore"]

  // ------------------------------------------------------------ clipping

  datatype Clipped = Clipped(preview: Json, omitted: nat)

  /** How many elements of an array are kept. */
  function KeptOf(length: nat): nat {
    if length > CLIP_ARRAY_MAX then CLIP_ARRAY_MAX else length
  }

  /** `clipUnknown` */
  function Clip(v: Json): Clipped
    decreases v, 1, 0
  {
    match v
    case Arr(items) =>
      var kept := KeptOf(|items|);
      Clipped(Arr(ClipItems(v, kept).0), |items| - kept + ClipItems(v, kept).1)
    case Rec(fields) => Clipped(Rec(ClipFields(v, |fields|).0), ClipFields(v, |fields|).1)
    case _ => Clipped(v, 0)
  }

  /** The first `n` elements clipped, and what was omitted inside them. */
  function ClipItems(v: Json, n: nat): (r: (seq<Json>, nat))
    requires v.Arr? && n <= |v.items|
    ensures |r.0| == n
    decreases v, 0, n
  {
    if n == 0 then ([], 0)
    else
      var (out, m) := ClipItems(v, n - 1);
      var last := Clip(v.items[n - 1]);
      (out + [last.preview], m + last.omitted)
  }

  function ClipFields(v: Json, n: nat): (r: (seq<Field>, nat))
    requires v.Rec? && n <= |v.fields|
    ensures |r.0| == n
    decreases v, 0, n
  {
    if n == 0 then ([], 0)
    else
      var (out, m) := ClipFields(v, n - 1);
      var last := Clip(v.fields[n - 1].value);
      (out + [Field(v.fields[n - 1].key, last.preview)], m + last.omitted)
  }

  method ClipUnknown(value: Json) returns (preview: Json, omitted: nat)
    ensures Clipped(preview, omitted) == Clip(value)
    decreases value
  {
    match value
    case Arr(items) =>
      var kept := KeptOf(|items|);
      omitted := |items| - kept;
      var out: seq<Json> := [];
      for i := 0 to kept
        invariant out == ClipItems(value, i).0 && omitted == |items| - kept + ClipItems(value, i).1
      {
        var entry, lost := ClipUnknown(items[i]);
        out := out + [entry];
        omitted := omitted + lost;
      }
      preview := Arr(out);
    case Rec(fields) =>
      omitted := 0;
      var out: seq<Field> := [];
      for i := 0 to |fields|
        invariant (out, omitted) == ClipFields(value, i)
      {
        var entry, lost := ClipUnknown(fields[i].value);
        out := out + [Field(fields[i].key, entry)];
        omitted := omitted + lost;
      }
      preview := Rec(out);
    case _ => preview, omitted := value, 0;
  }

  // ------------------------------------------------------------ what clipping means

  /** No array at any depth is longer than the backstop. */
  ghost predicate Short(v: Json) {
    match v
    case Arr(items) => |items| <= CLIP_ARRAY_MAX && forall i :: 0 <= i < |items| ==> Short(items[i])
    case Rec(fields) => forall i :: 0 <= i < |fields| ==> Short(fields[i].value)
    case _ => true
  }

  /** `p` is `v` with nothing changed but arrays that end earlier. */
  ghost predicate CutOf(p: Json, v: Json)
    decreases v
  {
    match v
    case Arr(items) =>
      p.Arr? && |p.items| <= |items| && forall i :: 0 <= i < |p.items| ==> CutOf(p.items[i], items[i])
    case Rec(fields) =>
      p.Rec? && |p.fields| == |fields|
      && forall i :: 0 <= i < |fields| ==> p.fields[i].key == fields[i].key && CutOf(p.fields[i].value, fields[i].value)
    case _ => p == v
  }

  /** The array elements of `v` that `p` lacks, inside what it kept. */
  ghost function Lost(p: Json, v: Json): nat
    requires CutOf(p, v)
    decreases v, 1, 0
  {
    match v
    case Arr(items) => |items| - |p.items| + LostItems(p, v, |p.items|)
    case Rec(fields) => LostFields(p, v, |fields|)
    case _ => 0
  }

  ghost function LostItems(p: Json, v: Json, n: nat): nat
    requires CutOf(p, v) && v.Arr? && n <= |p.items|
    decreases v, 0, n
  {
    if n == 0 then 0 else LostItems(p, v, n - 1) + Lost(p.items[n - 1], v.items[n - 1])
  }

  ghost function LostFields(p: Json, v: Json, n: nat): nat
    requires CutOf(p, v) && v.Rec? && n <= |v.fields|
    decreases v, 0, n
  {
    if n == 0 then 0 else LostFields(p, v, n - 1) + Lost(p.fields[n - 1].value, v.fields[n - 1].value)
  }

  lemma {:induction false} ItemsClipped(v: Json, n: nat, i: nat)
    requires v.Arr? && i < n <= |v.items|
    ensures ClipItems(v, n).0[i] == Clip(v.items[i]).preview
    decreases n
  {
    if i < n - 1 { ItemsClipped(v, n - 1, i); }
  }

  lemma {:induction false} FieldsClipped(v: Json, n: nat, i: nat)
    requires v.Rec? && i < n <= |v.fields|
    ensures ClipFields(v, n).0[i] == Field(v.fields[i].key, Clip(v.fields[i].value).preview)
    decreases n
  {
    if i < n - 1 { FieldsClipped(v, n - 1, i); }
  }

  /** The preview has no long array, and differs from the value only by arrays that end earlier. */
  lemma {:induction false} ClipIsShortCut(v: Json)
    ensures Short(Clip(v).preview) && CutOf(Clip(v).preview, v)
  {
    match v
    case Arr(items) =>
      forall i | 0 <= i < KeptOf(|items|)
        ensures Short(Clip(v).preview.items[i]) && CutOf(Clip(v).preview.items[i], items[i])
      {
        ItemsClipped(v, KeptOf(|items|), i);
        ClipIsShortCut(items[i]);
      }
    case Rec(fields) =>
      forall i | 0 <= i < |fields|
        ensures Clip(v).preview.fields[i].key == fields[i].key
        ensures Short(Clip(v).preview.fields[i].value) && CutOf(Clip(v).preview.fields[i].value, fields[i].value)
      {
        FieldsClipped(v, |fields|, i);
        ClipIsShortCut(fields[i].value);
      }
    case _ =>
  }

  /** It is the largest such value: everything else without long arrays is a cut of it. */
  lemma {:induction false} ClipIsLargest(p: Json, v: Json)
    requires Short(p) && CutOf(p, v)
    ensures CutOf(p, Clip(v).preview)
    decreases v
  {
    match v
    case Arr(items) =>
      forall i | 0 <= i < |p.items| ensures CutOf(p.items[i], Clip(v).preview.items[i]) {
        ItemsClipped(v, KeptOf(|items|), i);
        ClipIsLargest(p.items[i], items[i]);
      }
    case Rec(fields) =>
      forall i | 0 <= i < |fields|
        ensures p.fields[i].key == Clip(v).preview.fields[i].key
        ensures CutOf(p.fields[i].value, Clip(v).preview.fields[i].value)
      {
        FieldsClipped(v, |fields|, i);
        ClipIsLargest(p.fields[i].value, fields[i].value);
      }
    case _ =>
  }

  lemma {:induction false} ItemsCounted(p: Json, v: Json, n: nat)
    requires v.Arr? && p == Clip(v).preview && CutOf(p, v) && n <= |p.items|
    ensures ClipItems(v, n).1 == LostItems(p, v, n)
    decreases v, 0, n
  {
    if n > 0 {
      ItemsCounted(p, v, n - 1);
      ItemsClipped(v, KeptOf(|v.items|), n - 1);
      ClipCountsTheLost(v.items[n - 1]);
    }
  }

  lemma {:induction false} FieldsCounted(p: Json, v: Json, n: nat)
    requires v.Rec? && p == Clip(v).preview && CutOf(p, v) && n <= |v.fields|
    ensures ClipFields(v, n).1 == LostFields(p, v, n)
    decreases v, 0, n
  {
    if n > 0 {
      FieldsCounted(p, v, n - 1);
      FieldsClipped(v, |v.fields|, n - 1);
      ClipCountsTheLost(v.fields[n - 1].value);
    }
  }

  /** `omitted` counts exactly the elements that the preview lacks. */
  lemma {:induction false} ClipCountsTheLost(v: Json)
    ensures CutOf(Clip(v).preview, v) && Clip(v).omitted == Lost(Clip(v).preview, v)
    decreases v, 1, 0
  {
    ClipIsShortCut(v);
    match v
    case Arr(items) => ItemsCounted(Clip(v).preview, v, KeptOf(|items|));
    case Rec(fields) => FieldsCounted(Clip(v).preview, v, |fields|);
    case _ =>
  }

  lemma {:induction false} NothingLost(p: Json, v: Json)
    requires CutOf(p, v) && Lost(p, v) == 0
    ensures p == v
    decreases v, 1, 0
  {
    match v
    case Arr(items) =>
      NoItemLost(p, v, |items|);
      assert p.items == items;
    case Rec(fields) =>
      NoFieldLost(p, v, |fields|);
      assert p.fields == fields;
    case _ =>
  }

  lemma {:induction false} NoItemLost(p: Json, v: Json, n: nat)
    requires v.Arr? && CutOf(p, v) && n <= |p.items| && LostItems(p, v, n) == 0
    ensures forall i :: 0 <= i < n ==> p.items[i] == v.items[i]
    decreases v, 0, n
  {
    if n > 0 {
      NoItemLost(p, v, n - 1);
      NothingLost(p.items[n - 1], v.items[n - 1]);
    }
  }

  lemma {:induction false} NoFieldLost(p: Json, v: Json, n: nat)
    requires v.Rec? && CutOf(p, v) && n <= |v.fields| && LostFields(p, v, n) == 0
    ensures forall i :: 0 <= i < n ==> p.fields[i] == v.fields[i]
    decreases v, 0, n
  {
    if n > 0 {
      NoFieldLost(p, v, n - 1);
      NothingLost(p.fields[n - 1].value, v.fields[n - 1].value);
    }
  }

  lemma {:induction false} CutOfItself(v: Json)
    ensures CutOf(v, v)
  {
    match v
    case Arr(items) => forall i | 0 <= i < |items| ensures CutOf(items[i], items[i]) { CutOfItself(items[i]); }
    case Rec(fields) =>
      forall i | 0 <= i < |fields| ensures CutOf(fields[i].value, fields[i].value) { CutOfItself(fields[i].value); }
    case _ =>
  }

  lemma {:induction false} CutsMeet(p: Json, v: Json)
    requires CutOf(p, v) && CutOf(v, p)
    ensures p == v
    decreases v
  {
    match v
    case Arr(items) =>
      forall i | 0 <= i < |items| ensures p.items[i] == items[i] { CutsMeet(p.items[i], items[i]); }
      assert p.items == items;
    case Rec(fields) =>
      forall i | 0 <= i < |fields| ensures p.fields[i] == fields[i] { CutsMeet(p.fields[i].value, fields[i].value); }
      assert p.fields == fields;
    case _ =>
  }

  /** Nothing is omitted exactly when the preview is the value, that is, when it had no long
      array; so clipping a second time does nothing. */
  lemma NothingOmittedExactly(v: Json)
    ensures Clip(v).omitted == 0 <==> Clip(v).preview == v
    ensures Clip(v).omitted == 0 <==> Short(v)
    ensures Clip(Clip(v).preview) == Clipped(Clip(v).preview, 0)
  {
    if Short(v) { ShortIsUntouched(v); }
    ClipIsShortCut(v);
    ShortIsUntouched(Clip(v).preview);
    ClipCountsTheLost(v);
    if Clip(v).omitted == 0 { NothingLost(Clip(v).preview, v); }
  }

  lemma ShortIsUntouched(v: Json)
    requires Short(v)
    ensures Clip(v) == Clipped(v, 0)
  {
    CutOfItself(v);
    ClipIsLargest(v, v);
    ClipIsShortCut(v);
    CutsMeet(Clip(v).preview, v);
    ClipCountsTheLost(v);
    LostOfItself(v);
  }

  lemma {:induction false} LostOfItself(v: Json)
    ensures CutOf(v, v) && Lost(v, v) == 0
    decreases v, 1, 0
  {
    CutOfItself(v);
    match v
    case Arr(items) => ItemsLoseNothing(v, |items|);
    case Rec(fields) => FieldsLoseNothing(v, |fields|);
    case _ =>
  }

  lemma {:induction false} ItemsLoseNothing(v: Json, n: nat)
    requires v.Arr? && CutOf(v, v) && n <= |v.items|
    ensures LostItems(v, v, n) == 0
    decreases v, 0, n
  {
    if n > 0 {
      ItemsLoseNothing(v, n - 1);
      LostOfItself(v.items[n - 1]);
    }
  }

  lemma {:induction false} FieldsLoseNothing(v: Json, n: nat)
    requires v.Rec? && CutOf(v, v) && n <= |v.fields|
    ensures LostFields(v, v, n) == 0
    decreases v, 0, n
  {
    if n > 0 {
      FieldsLoseNothing(v, n - 1);
      LostOfItself(v.fields[n - 1].value);
    }
  }

  // ------------------------------------------------------------ shrinking

  function Lookup(fields: seq<Field>, key: string): Option<Json> {
    if fields == [] then None
    else if fields[0].key == key then Some(fields[0].value)
    else Lookup(fields[1..], key)
  }

  /** The fields of a record under these keys, in the order of the keys. */
  function Pick(fields: seq<Field>, keys: seq<string>): seq<Field> {
    if keys == [] then []
    else
      var x := Lookup(fields, keys[0]);
      (if x.Some? then [Field(keys[0], x.value)] else []) + Pick(fields, keys[1..])
  }

  /** `pickIdentityFields` */
  function PickIdentity(fields: seq<Field>): seq<Field> {
    Pick(fields, IDENTITY_KEYS)
  }

  function ShrinkRow(v: Json): Json {
    if v.Rec? && PickIdentity(v.fields) != [] then Rec(PickIdentity(v.fields)) else v
  }

  function FirstRows(items: seq<Json>): seq<Json> {
    if |items| > CLIP_SHRINK_ARRAY_MAX then items[..CLIP_SHRINK_ARRAY_MAX] else items
  }

  function ShrinkRows(items: seq<Json>): (r: seq<Json>)
    ensures |r| == |items| && forall i :: 0 <= i < |items| ==> r[i] == ShrinkRow(items[i])
  {
    if items == [] then [] else [ShrinkRow(items[0])] + ShrinkRows(items[1..])
  }

  /** What `shrinkPreview` makes of one entry of a record: a long text is dropped. */
  function ShrinkEntry(f: Field): Option<Json> {
    if f.key in IDENTITY_KEYS then Some(f.value)
    else match f.value
      case Arr(items) => Some(Arr(ShrinkRows(FirstRows(items))))
      case Rec(_) => Some(ShrinkRow(f.value))
      case Text(_) => None
      case _ => Some(f.value)
  }

  function ShrinkFields(fields: seq<Field>): seq<Field> {
    if fields == [] then []
    else
      var x := ShrinkEntry(fields[0]);
      (if x.Some? then [Field(fields[0].key, x.value)] else []) + ShrinkFields(fields[1..])
  }

  function ShrinkPreview(v: Json): Json {
    match v
    case Arr(items) => Arr(ShrinkRows(FirstRows(items)))
    case Rec(fields) => Rec(ShrinkFields(fields))
    case _ => v
  }

  function CompactRows(v: Json, n: nat): (r: seq<Json>)
    requires v.Arr? && n <= |v.items|
    ensures |r| == n
    decreases v, 0, n
  {
    if n == 0 then [] else CompactRows(v, n - 1) + [CompactIdentity(v.items[n - 1])]
  }

  /** The other entries that `compactIdentity` keeps: arrays that hold a record. */
  function CompactOthers(v: Json, n: nat): seq<Field>
    requires v.Rec? && n <= |v.fields|
    decreases v, 0, n
  {
    if n == 0 then []
    else
      var f := v.fields[n - 1];
      if f.key !in IDENTITY_KEYS && f.value.Arr? && exists i :: 0 <= i < |f.value.items| && f.value.items[i].Rec?
      then CompactOthers(v, n - 1) + [Field(f.key, CompactIdentity(f.value))]
      else CompactOthers(v, n - 1)
  }

  function CompactIdentity(v: Json): Json
    decreases v, 1, 0
  {
    match v
    case Arr(items) => Arr(CompactRows(v, |FirstRows(items)|))
    case Rec(fields) => Rec(PickIdentity(fields) + CompactOthers(v, |fields|))
    case _ => v
  }

  predicate IsTypedToolError(v: Json) {
    && v.Rec?
    && Lookup(v.fields, "status") == Some(Text("error"))
    && (var code := Lookup(v.fields, "code"); code.Some? && code.value.Text?)
    && (var message := Lookup(v.fields, "message"); message.Some? && message.value.Text?)
  }

  /** What the model is fed: the output as it is, or a clipped result. */
  datatype Fed = AsIs(output: Json) | Wrapped(preview: Json, omitted: nat)

  function AtLeastOne(n: nat): nat {
    if n < 1 then 1 else n
  }

  /** `clipStaffAssistantToolResult`; `special` tells a confirmation and a choice card, `length`
      measures the printed JSON. */
  function ClipToolResult(special: Json -> bool, length: Json -> nat, output: Json): Fed {
    if special(output) || IsTypedToolError(output) then AsIs(output)
    else
      var clipped := Clip(output);
      var first :=
        if length(clipped.preview) > CLIP_JSON_MAX
        then Clipped(ShrinkPreview(clipped.preview), AtLeastOne(clipped.omitted)) else clipped;
      var second :=
        if length(first.preview) > CLIP_JSON_MAX
        then Clipped(CompactIdentity(first.preview), AtLeastOne(first.omitted)) else first;
      if second.omitted == 0 then AsIs(output) else Wrapped(second.preview, second.omitted)
  }

  predicate Within(length: Json -> nat, v: Json) {
    length(v) <= CLIP_JSON_MAX
  }

  /** An ordinary result is fed unwrapped exactly when it meets both budgets. */
  lemma UnwrappedExactlyWithinBudget(special: Json -> bool, length: Json -> nat, output: Json)
    requires !special(output) && !IsTypedToolError(output)
    ensures ClipToolResult(special, length, output).AsIs? <==> Short(output) && Within(length, output)
  {
    NothingOmittedExactly(output);
  }

  // ------------------------------------------------------------ no long array comes through

  lemma {:induction false} FoundIsShort(fields: seq<Field>, key: string)
    requires forall i :: 0 <= i < |fields| ==> Short(fields[i].value)
    ensures Lookup(fields, key).Some? ==> Short(Lookup(fields, key).value)
  {
    if fields != [] && fields[0].key != key { FoundIsShort(fields[1..], key); }
  }

  lemma {:induction false} PickedAreShort(fields: seq<Field>, keys: seq<string>)
    requires forall i :: 0 <= i < |fields| ==> Short(fields[i].value)
    ensures forall i :: 0 <= i < |Pick(fields, keys)| ==> Short(Pick(fields, keys)[i].value)
  {
    if keys != [] {
      FoundIsShort(fields, keys[0]);
      PickedAreShort(fields, keys[1..]);
    }
  }

  lemma RowIsShort(v: Json)
    requires Short(v)
    ensures Short(ShrinkRow(v))
  {
    if v.Rec? { PickedAreShort(v.fields, IDENTITY_KEYS); }
  }

  lemma RowsAreShort(items: seq<Json>)
    requires forall i :: 0 <= i < |items| ==> Short(items[i])
    ensures Short(Arr(ShrinkRows(FirstRows(items))))
  {
    forall i | 0 <= i < |FirstRows(items)| ensures Short(ShrinkRows(FirstRows(items))[i]) { RowIsShort(items[i]); }
  }

  lemma EntryIsShort(f: Field)
    requires Short(f.value)
    ensures ShrinkEntry(f).Some? ==> Short(ShrinkEntry(f).value)
  {
    RowIsShort(f.value);
    if f.value.Arr? { RowsAreShort(f.value.items); }
  }

  lemma {:induction false} ShrunkFieldsAreShort(fields: seq<Field>)
    requires forall i :: 0 <= i < |fields| ==> Short(fields[i].value)
    ensures forall i :: 0 <= i < |ShrinkFields(fields)| ==> Short(ShrinkFields(fields)[i].value)
  {
    if fields != [] {
      EntryIsShort(fields[0]);
      ShrunkFieldsAreShort(fields[1..]);
    }
  }

  lemma ShrunkIsShort(v: Json)
    requires Short(v)
    ensures Short(ShrinkPreview(v))
  {
    match v
    case Arr(items) => RowsAreShort(items);
    case Rec(fields) => ShrunkFieldsAreShort(fields);
    case _ =>
  }

  lemma {:induction false} CompactIsShort(v: Json)
    requires Short(v)
    ensures Short(CompactIdentity(v))
    decreases v, 1, 0
  {
    match v
    case Arr(items) => CompactRowsAreShort(v, |FirstRows(items)|);
    case Rec(fields) =>
      PickedAreShort(fields, IDENTITY_KEYS);
      CompactOthersAreShort(v, |fields|);
    case _ =>
  }

  lemma {:induction false} CompactRowsAreShort(v: Json, n: nat)
    requires v.Arr? && Short(v) && n <= |v.items|
    ensures forall i :: 0 <= i < n ==> Short(CompactRows(v, n)[i])
    decreases v, 0, n
  {
    if n > 0 {
      CompactRowsAreShort(v, n - 1);
      CompactIsShort(v.items[n - 1]);
    }
  }

  lemma {:induction false} CompactOthersAreShort(v: Json, n: nat)
    requires v.Rec? && Short(v) && n <= |v.fields|
    ensures forall i :: 0 <= i < |CompactOthers(v, n)| ==> Short(CompactOthers(v, n)[i].value)
    decreases v, 0, n
  {
    if n > 0 {
      CompactOthersAreShort(v, n - 1);
      CompactIsShort(v.fields[n - 1].value);
    }
  }

  /** Whatever is fed of an ordinary result, no array in it is longer than the backstop, and a
      wrapper admits to at least one omission. */
  lemma FedIsShort(special: Json -> bool, length: Json -> nat, output: Json)
    requires !special(output) && !IsTypedToolError(output)
    ensures var fed := ClipToolResult(special, length, output);
      if fed.AsIs? then fed.output == output && Short(output) else Short(fed.preview) && fed.omitted > 0
  {
    NothingOmittedExactly(output);
    ClipIsShortCut(output);
    var p := Clip(output).preview;
    ShrunkIsShort(p);
    CompactIsShort(ShrinkPreview(p));
    CompactIsShort(p);
  }

  // ------------------------------------------------------------ identity survives

  lemma {:induction false} ShrinkKeepsIdentity(fields: seq<Field>, key: string)
    requires key in IDENTITY_KEYS
    ensures Lookup(ShrinkFields(fields), key) == Lookup(fields, key)
  {
    if fields != [] {
      ShrinkKeepsIdentity(fields[1..], key);
      var x := ShrinkEntry(fields[0]);
      if x.Some? {
        assert ShrinkFields(fields)[1..] == ShrinkFields(fields[1..]);
      } else {
        assert ShrinkFields(fields) == ShrinkFields(fields[1..]);
      }
    }
  }

  lemma {:induction false} LookupAppend(a: seq<Field>, b: seq<Field>, key: string)
    ensures Lookup(a + b, key) == if Lookup(a, key).Some? then Lookup(a, key) else Lookup(b, key)
  {
    if a == [] {
      assert a + b == b;
    } else {
      assert (a + b)[1..] == a[1..] + b;
      LookupAppend(a[1..], b, key);
    }
  }

  /** The pick holds under its keys what the record holds, and nothing else. */
  lemma {:induction false} PickKeeps(fields: seq<Field>, keys: seq<string>, key: string)
    ensures Lookup(Pick(fields, keys), key) == if key in keys then Lookup(fields, key) else None
  {
    if keys != [] {
      PickKeeps(fields, keys[1..], key);
      var x := Lookup(fields, keys[0]);
      var one := if x.Some? then [Field(keys[0], x.value)] else [];
      LookupAppend(one, Pick(fields, keys[1..]), key);
      assert key in keys <==> key == keys[0] || key in keys[1..];
    }
  }

  lemma {:induction false} OthersHoldNoIdentity(v: Json, n: nat, key: string)
    requires v.Rec? && n <= |v.fields| && key in IDENTITY_KEYS
    ensures Lookup(CompactOthers(v, n), key) == None
    decreases n
  {
    if n > 0 {
      OthersHoldNoIdentity(v, n - 1, key);
      var f := v.fields[n - 1];
      LookupAppend(CompactOthers(v, n - 1), [Field(f.key, CompactIdentity(f.value))], key);
    }
  }

  lemma CompactKeepsIdentity(v: Json, key: string)
    requires v.Rec? && key in IDENTITY_KEYS
    ensures CompactIdentity(v).Rec? && Lookup(CompactIdentity(v).fields, key) == Lookup(v.fields, key)
  {
    PickKeeps(v.fields, IDENTITY_KEYS, key);
    OthersHoldNoIdentity(v, |v.fields|, key);
    LookupAppend(PickIdentity(v.fields), CompactOthers(v, |v.fields|), key);
  }

  /** A shrunk row keeps its identity fields, and only those if it has any; otherwise it is whole. */
  lemma RowKeepsIdentity(row: Json, key: string)
    requires row.Rec?
    ensures ShrinkRow(row).Rec?
    ensures key in IDENTITY_KEYS ==> Lookup(ShrinkRow(row).fields, key) == Lookup(row.fields, key)
    ensures key !in IDENTITY_KEYS ==>
      Lookup(ShrinkRow(row).fields, key) == if PickIdentity(row.fields) == [] then Lookup(row.fields, key) else None
  {
    PickKeeps(row.fields, IDENTITY_KEYS, key);
  }

  lemma {:induction false} ClipKeepsKeys(v: Json, n: nat, key: string)
    requires v.Rec? && n <= |v.fields|
    ensures Lookup(ClipFields(v, n).0, key)
         == if Lookup(v.fields[..n], key).None? then None else Some(Clip(Lookup(v.fields[..n], key).value).preview)
    decreases n
  {
    if n > 0 {
      var f := v.fields[n - 1];
      ClipKeepsKeys(v, n - 1, key);
      assert v.fields[..n] == v.fields[..n - 1] + [f];
      LookupAppend(v.fields[..n - 1], [f], key);
      LookupAppend(ClipFields(v, n - 1).0, [Field(f.key, Clip(f.value).preview)], key);
    }
  }

  /** Every identity field of an ordinary record is still there in what is fed, with its
      clipped value, through both shrink stages; and no identity field appears from nowhere. */
  lemma IdentitySurvives(special: Json -> bool, length: Json -> nat, output: Json, key: string)
    requires output.Rec? && !special(output) && !IsTypedToolError(output) && key in IDENTITY_KEYS
    ensures var fed := ClipToolResult(special, length, output);
      if fed.AsIs? then fed.output == output
      else
        fed.preview.Rec? && Lookup(fed.preview.fields, key)
          == if Lookup(output.fields, key).None? then None else Some(Clip(Lookup(output.fields, key).value).preview)
  {
    var p := Clip(output).preview;
    ClipKeepsKeys(output, |output.fields|, key);
    assert output.fields[..|output.fields|] == output.fields;
    ShrinkKeepsIdentity(p.fields, key);
    CompactKeepsIdentity(ShrinkPreview(p), key);
    CompactKeepsIdentity(p, key);
  }
}
