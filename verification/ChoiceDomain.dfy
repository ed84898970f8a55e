/** Values of the choice protocol: order drafts, picker targets, stored records
    and the server-side patch (packages/ai/src/choice.ts). */
module ChoiceDomain {
  import opened Options

  datatype EntityRef = ById(id: string) | ByQuery(query: string)

  datatype VariantSelection = Unspecified | Base | Reference(ref: EntityRef)

  datatype Item = Item(
    product: EntityRef,
    quantity: string,
    variant: Option<EntityRef>,
    variantSelection: Option<VariantSelection>)

  /** The canonical `orders.create` input kept on the server. */
  datatype OrderInput = OrderInput(customer: EntityRef, items: seq<Item>, comment: Option<string>)

  datatype Target =
    | CustomerTarget(query: string)
    | LineProduct(lineIndex: nat, query: string)
    | LineVariant(lineIndex: nat, productId: string, productName: string)

  datatype Bind = Bind(actorId: string, companyId: string, conversationId: string)

  datatype CardOption = CardOption(id: string, text: string)

  datatype Reason = VariantRequired | Ambiguous | UnmatchedQuery

  datatype Status = Open | Claimed | Completed

  /** A minted id is a random UUID. A successor id is the SHA-256 image of its
      parent: the constructor makes the digest deterministic and collision-free. */
  datatype ChoiceId = Minted(uuid: nat) | SuccessorOf(parent: ChoiceId)

  datatype Record = Record(
    status: Status,
    choiceId: ChoiceId,
    bind: Bind,
    canonicalInput: OrderInput,
    target: Target,
    optionMap: map<string, string>,
    reason: Reason,
    card: seq<CardOption>,
    truncated: bool,
    claimedOptionId: Option<string>)

  /** What a picker conflict of `orders.create` carries. */
  datatype Extras = Extras(reason: Reason, target: Target, options: seq<CardOption>, truncated: bool)

  const CHOICE_OPTIONS_MAX: nat := 20

  /** The stored input with the slot named by `target` resolved to `mappedId`. */
  function Patch(input: OrderInput, target: Target, mappedId: string): OrderInput {
    match target
    case CustomerTarget(_) => input.(customer := ById(mappedId))
    case LineProduct(line, _) =>
      input.(items := seq(|input.items|, i requires 0 <= i < |input.items| =>
        if i != line then input.items[i] else input.items[i].(product := ById(mappedId))))
    case LineVariant(line, _, _) =>
      input.(items := seq(|input.items|, i requires 0 <= i < |input.items| =>
        if i != line then input.items[i]
        else Item(input.items[i].product, input.items[i].quantity, None, Some(Reference(ById(mappedId))))))
  }

  /** The order slot a target names, as a value that two inputs can be compared on. */
  datatype Slot = CustomerSlot | ProductSlot(line: nat) | VariantSlot(line: nat)

  function SlotOf(target: Target): Slot {
    match target
    case CustomerTarget(_) => CustomerSlot
    case LineProduct(line, _) => ProductSlot(line)
    case LineVariant(line, _, _) => VariantSlot(line)
  }

  /** `a` and `b` are the same order outside the slot. */
  ghost predicate SameOutside(slot: Slot, a: OrderInput, b: OrderInput) {
    && a.comment == b.comment
    && |a.items| == |b.items|
    && (slot != CustomerSlot ==> a.customer == b.customer)
    && forall i :: 0 <= i < |a.items| ==>
         && a.items[i].quantity == b.items[i].quantity
         && (slot != ProductSlot(i) ==> a.items[i].product == b.items[i].product)
         && (slot != VariantSlot(i) ==>
               a.items[i].variant == b.items[i].variant && a.items[i].variantSelection == b.items[i].variantSelection)
  }

  /** The slot names the chosen entity, and nothing else selects a variant. */
  ghost predicate Resolved(slot: Slot, a: OrderInput, mappedId: string) {
    match slot
    case CustomerSlot => a.customer == ById(mappedId)
    case ProductSlot(line) => line < |a.items| ==> a.items[line].product == ById(mappedId)
    case VariantSlot(line) => line < |a.items| ==>
      a.items[line].variant == None && a.items[line].variantSelection == Some(Reference(ById(mappedId)))
  }

  /** The patch is the only order that agrees with the stored one outside the
      target's slot and has the chosen entity in it. */
  lemma PatchIsTheOnlyResolution(input: OrderInput, target: Target, mappedId: string, other: OrderInput)
    ensures other == Patch(input, target, mappedId) <==>
            SameOutside(SlotOf(target), input, other) && Resolved(SlotOf(target), other, mappedId)
  {
    var p := Patch(input, target, mappedId);
    if SameOutside(SlotOf(target), input, other) && Resolved(SlotOf(target), other, mappedId) {
      assert forall i :: 0 <= i < |p.items| ==> p.items[i] == other.items[i];
      assert p.items == other.items;
    }
  }

  /** A second pick for the same slot replaces the first: order of resumes of one
      slot does not matter beyond the last pick. */
  lemma LaterPickWins(input: OrderInput, target: Target, first: string, second: string)
    ensures Patch(Patch(input, target, first), target, second) == Patch(input, target, second)
  {
    PatchIsTheOnlyResolution(input, target, first, Patch(input, target, first));
    PatchIsTheOnlyResolution(input, target, second, Patch(Patch(input, target, first), target, second));
    PatchIsTheOnlyResolution(Patch(input, target, first), target, second,
        Patch(Patch(input, target, first), target, second));
  }

  function Capped(options: seq<CardOption>): seq<CardOption> {
    if |options| > CHOICE_OPTIONS_MAX then options[..CHOICE_OPTIONS_MAX] else options
  }

  /** Every option on the card can be claimed. */
  ghost predicate CardIsClaimable(r: Record) {
    forall i :: 0 <= i < |r.card| ==> r.card[i].id in r.optionMap
  }

  /** Options shown to the client, with fresh opaque ids. */
  function CardFor(options: seq<CardOption>, ids: seq<string>): (card: seq<CardOption>)
    requires |Capped(options)| <= |ids|
  {
    seq(|Capped(options)|, i requires 0 <= i < |Capped(options)| => CardOption(ids[i], options[i].text))
  }

  function MapFor(options: seq<CardOption>, ids: seq<string>): (m: map<string, string>)
    requires |options| <= |ids|
  {
    if options == [] then map[]
    else MapFor(options[..|options| - 1], ids)[ids[|options| - 1] := options[|options| - 1].id]
  }

  lemma {:induction false} MapForDomain(options: seq<CardOption>, ids: seq<string>)
    requires |options| <= |ids|
    ensures forall s :: s in MapFor(options, ids) <==> s in ids[..|options|]
  {
    if options != [] {
      var n := |options| - 1;
      MapForDomain(options[..n], ids);
      assert ids[..n + 1] == ids[..n] + [ids[n]];
    }
  }

  /** With distinct opaque ids, each id resolves to the catalog entity of its own row. */
  lemma {:induction false} MapForPairs(options: seq<CardOption>, ids: seq<string>)
    requires |options| <= |ids|
    requires forall i, j :: 0 <= i < j < |ids| ==> ids[i] != ids[j]
    ensures forall i :: 0 <= i < |options| ==>
            ids[i] in MapFor(options, ids) && MapFor(options, ids)[ids[i]] == options[i].id
  {
    if options != [] {
      MapForPairs(options[..|options| - 1], ids);
    }
  }

  /** `bindChoiceOptions`: mints one opaque id per shown option, in order. */
  method BindChoiceOptions(options: seq<CardOption>, truncated: bool, ids: seq<string>)
    returns (card: seq<CardOption>, optionMap: map<string, string>, cut: bool)
    requires |Capped(options)| <= |ids|
    ensures |card| == if |options| < CHOICE_OPTIONS_MAX then |options| else CHOICE_OPTIONS_MAX
    ensures forall i :: 0 <= i < |card| ==> card[i].text == options[i].text && card[i].id == ids[i]
    ensures optionMap == MapFor(Capped(options), ids)
    ensures card == CardFor(options, ids)
    ensures forall i :: 0 <= i < |card| ==> card[i].id in optionMap
    ensures cut <==> truncated || |card| < |options|
  {
    var capped := Capped(options);
    card, optionMap := [], map[];
    cut := truncated || |options| > CHOICE_OPTIONS_MAX;
    for i := 0 to |capped|
      invariant card == CardFor(options, ids)[..i]
      invariant optionMap == MapFor(capped[..i], ids)
    {
      assert capped[..i + 1][..i] == capped[..i];
      optionMap := optionMap[ids[i] := capped[i].id];
      card := card + [CardOption(ids[i], capped[i].text)];
    }
    assert capped[..|capped|] == capped;
    MapForDomain(capped, ids);
    assert forall i :: 0 <= i < |card| ==> ids[i] in ids[..|capped|];
  }

  /** `choiceRecordFromPickerConflict`: `None` only for an empty picker. */
  function RecordFromConflict(choiceId: ChoiceId, bind: Bind, input: OrderInput, extras: Extras, ids: seq<string>)
    : (r: Option<Record>)
    requires |Capped(extras.options)| <= |ids|
    ensures r.None? <==> extras.options == []
    ensures r.Some? ==> CardIsClaimable(r.value)
  {
    if extras.options == [] then None
    else
      MapForDomain(Capped(extras.options), ids);
      assert forall i :: 0 <= i < |Capped(extras.options)| ==> ids[i] in ids[..|Capped(extras.options)|];
      Some(Record(
        Open, choiceId, bind, input, extras.target,
        MapFor(Capped(extras.options), ids),
        extras.reason,
        CardFor(extras.options, ids),
        extras.truncated || |extras.options| > CHOICE_OPTIONS_MAX,
        None))
  }

  // ------------------------------------------------------------ what a picker says

  datatype Kind = CustomerKind | ProductKind | VariantKind

  /** `choiceKindFromTarget` */
  function KindOf(target: Target): Kind {
    match target
    case CustomerTarget(_) => CustomerKind
    case LineProduct(_, _) => ProductKind
    case LineVariant(_, _, _) => VariantKind
  }

  /** `choiceSubjectName` */
  function SubjectOf(target: Target): string {
    match target
    case CustomerTarget(query) => query
    case LineProduct(_, query) => query
    case LineVariant(_, _, productName) => productName
  }

  /** The labels of a card, separated by ", ". */
  function Labels(card: seq<CardOption>): string {
    if card == [] then "" else if |card| == 1 then card[0].text else card[0].text + ", " + Labels(card[1..])
  }

  /** `presentChoiceIntro`, in the default language. */
  function PickerIntro(kind: Kind, subject: string, labels: string): string {
    match kind
    case CustomerKind => "Оберіть клієнта «" + subject + "»: " + labels + "."
    case ProductKind => "Оберіть товар «" + subject + "»: " + labels + "."
    case VariantKind => "Оберіть варіант для " + subject + ": " + labels + "."
  }

  /** `presentChoiceSurface`: what the conversation is told of a picker. The option ids are not in it. */
  function PickerBody(kind: Kind, subject: string, labels: string, truncated: bool): string {
    var intro := PickerIntro(kind, subject, labels);
    if !truncated then intro
    else intro + " " + (if kind.VariantKind? then "Є ще варіанти. Напишіть точну назву смаку."
                        else "Є ще збіги. Напишіть точну назву.")
  }

  /** The text of a picker's record. */
  function PickerText(r: Record): string {
    PickerBody(KindOf(r.target), SubjectOf(r.target), Labels(r.card), r.truncated)
  }

  ghost predicate SameLabels(a: seq<CardOption>, b: seq<CardOption>) {
    |a| == |b| && forall i :: 0 <= i < |a| ==> a[i].text == b[i].text
  }

  lemma {:induction false} SameLabelsSaySame(a: seq<CardOption>, b: seq<CardOption>)
    requires SameLabels(a, b)
    ensures Labels(a) == Labels(b)
  {
    if |a| > 1 { SameLabelsSaySame(a[1..], b[1..]); }
  }

  /** A picker says the same whatever ids are minted for its options. */
  lemma TextHidesIds(choiceId: ChoiceId, bind: Bind, input: OrderInput, extras: Extras, ids: seq<string>,
      others: seq<string>)
    requires |Capped(extras.options)| <= |ids| && |Capped(extras.options)| <= |others|
    ensures var r, s := RecordFromConflict(choiceId, bind, input, extras, ids),
                        RecordFromConflict(choiceId, bind, input, extras, others);
            r.Some? ==> s.Some? && PickerText(r.value) == PickerText(s.value)
  {
    SameLabelsSaySame(CardFor(extras.options, ids), CardFor(extras.options, others));
  }

  /** Nor do the labels themselves follow from what is said of them. */
  lemma LabelsRunTogether(x: CardOption, y: CardOption)
    ensures Labels([CardOption(x.id, x.text + ", " + y.text)]) == Labels([x, y])
  {
    assert [x, y][1..] == [y];
  }

  datatype AttemptKind = MessageAttempt | ToolAttempt | TurnAttempt | ChoiceAttempt

  function KindText(k: AttemptKind): string {
    match k
    case MessageAttempt => "message"
    case ToolAttempt => "tool"
    case TurnAttempt => "turn"
    case ChoiceAttempt => "choice"
  }

  /** `attemptKey`. */
  function AttemptKeyText(kind: AttemptKind, conversationId: string, id: string): string {
    KindText(kind) + ":" + conversationId + ":" + id
  }

  /** Splitting at the first colon is unambiguous when the left part has none. */
  lemma {:induction false} FirstColonSplits(a: string, x: string, b: string, y: string)
    requires ':' !in a && ':' !in b
    requires a + ":" + x == b + ":" + y
    ensures a == b && x == y
  {
    var s := a + ":" + x;
    assert s[|a|] == ':' && s[|b|] == ':';
    assert forall i :: 0 <= i < |a| ==> s[i] == a[i] && s[i] in a;
    assert forall i :: 0 <= i < |b| ==> s[i] == b[i] && s[i] in b;
    assert a == (a + ":" + x)[..|a|];
    assert b == (b + ":" + y)[..|b|];
    assert x == (a + ":" + x)[|a| + 1..];
    assert y == (b + ":" + y)[|b| + 1..];
  }

  /** Attempt keys of different attempts differ: the conversation id is a UUID,
      so it holds no colon; the trailing id may be any text. */
  lemma AttemptKeySeparates(
    k1: AttemptKind, c1: string, i1: string,
    k2: AttemptKind, c2: string, i2: string)
    requires ':' !in c1 && ':' !in c2
    ensures AttemptKeyText(k1, c1, i1) == AttemptKeyText(k2, c2, i2) <==> k1 == k2 && c1 == c2 && i1 == i2
  {
    if AttemptKeyText(k1, c1, i1) == AttemptKeyText(k2, c2, i2) {
      assert AttemptKeyText(k1, c1, i1) == KindText(k1) + ":" + (c1 + ":" + i1);
      assert AttemptKeyText(k2, c2, i2) == KindText(k2) + ":" + (c2 + ":" + i2);
      FirstColonSplits(KindText(k1), c1 + ":" + i1, KindText(k2), c2 + ":" + i2);
      FirstColonSplits(c1, i1, c2, i2);
      assert KindText(MessageAttempt)[0] == 'm' && KindText(ChoiceAttempt)[0] == 'c';
      assert KindText(ToolAttempt)[1] == 'o' && KindText(TurnAttempt)[1] == 'u';
    }
  }
}
