/** The atomic step machine that both choice stores refine, and the lives of its
    records over whole runs (apps/api/src/stores/choice.ts). */
module ChoiceStore {
  import opened Options
  import opened ChoiceDomain

  datatype Entry = Entry(record: Record, expiresAt: nat)

  /** The unexpired, readable records. */
  type View = map<ChoiceId, Entry>

  datatype ClaimDecision =
    | ClaimWon(record: Record)
    | ClaimReplay(record: Record)
    | ClaimExpired
    | ClaimForbidden
    | ClaimConflict
    | ClaimInvalidOption

  datatype CompleteDecision =
    | CompleteDone(record: Record)
    | CompleteReplay(record: Record)
    | CompleteExpired
    | CompleteForbidden
    | CompleteConflict

  datatype PeekDecision = PeekFound(record: Record) | PeekExpired | PeekForbidden

  function Opened(v: View, r: Record, expiresAt: nat): View {
    if r.choiceId in v then v else v[r.choiceId := Entry(r.(status := Open), expiresAt)]
  }

  function ClaimedRecord(r: Record, option: string): Record {
    r.(status := Claimed, claimedOptionId := Some(option))
  }

  function ClaimDecide(v: View, id: ChoiceId, bind: Bind, option: string): ClaimDecision {
    if id !in v then ClaimExpired
    else
      var r := v[id].record;
      if r.bind != bind then ClaimForbidden
      else if option !in r.optionMap then ClaimInvalidOption
      else if r.status == Open then ClaimWon(ClaimedRecord(r, option))
      else if r.claimedOptionId == Some(option) then ClaimReplay(r)
      else ClaimConflict
  }

  function AfterClaim(v: View, id: ChoiceId, bind: Bind, option: string): View {
    var d := ClaimDecide(v, id, bind, option);
    if d.ClaimWon? && id in v then v[id := v[id].(record := d.record)] else v
  }

  function CompleteDecide(v: View, id: ChoiceId, bind: Bind, option: string): CompleteDecision {
    if id !in v then CompleteExpired
    else
      var r := v[id].record;
      if r.bind != bind then CompleteForbidden
      else if r.status == Completed then
        if r.claimedOptionId == Some(option) then CompleteReplay(r) else CompleteConflict
      else if r.status != Claimed || r.claimedOptionId != Some(option) then CompleteConflict
      else CompleteDone(r.(status := Completed))
  }

  function AfterComplete(v: View, id: ChoiceId, bind: Bind, option: string): View {
    var d := CompleteDecide(v, id, bind, option);
    if d.CompleteDone? && id in v then v[id := v[id].(record := d.record)] else v
  }

  function PeekDecide(v: View, id: ChoiceId, bind: Bind): PeekDecision {
    if id !in v then PeekExpired
    else if v[id].record.bind != bind then PeekForbidden
    else PeekFound(v[id].record)
  }

  /** What is left of the view once the clock reads `now`. */
  function Unexpired(v: View, now: nat): View {
    map id | id in v && now < v[id].expiresAt :: v[id]
  }

  // ---------------------------------------------------------------- lives

  /** One life of a record, from the open that wrote it: `winners` lists every
      option that was answered `claimed`, `completions` counts `completed` answers. */
  datatype Life = Life(record: Record, expiresAt: nat, winners: seq<string>, completions: nat)

  datatype Books = Books(now: nat, view: View, lives: map<ChoiceId, seq<Life>>)

  function LivesOf(b: Books, id: ChoiceId): seq<Life> {
    if id in b.lives then b.lives[id] else []
  }

  function OnLastLife(b: Books, id: ChoiceId, life: Life): map<ChoiceId, seq<Life>>
    requires LivesOf(b, id) != []
  {
    b.lives[id := b.lives[id][..|b.lives[id]| - 1] + [life]]
  }

  function LastLife(b: Books, id: ChoiceId): Life
    requires LivesOf(b, id) != []
  {
    b.lives[id][|b.lives[id]| - 1]
  }

  function OpenStep(b: Books, r: Record, ttl: nat): Books {
    if r.choiceId in b.view || ttl == 0 then b
    else
      b.(view := Opened(b.view, r, b.now + ttl),
         lives := b.lives[r.choiceId := LivesOf(b, r.choiceId) + [Life(r.(status := Open), b.now + ttl, [], 0)]])
  }

  function ClaimStep(b: Books, id: ChoiceId, bind: Bind, option: string): Books {
    var d := ClaimDecide(b.view, id, bind, option);
    if d.ClaimWon? && LivesOf(b, id) != [] then
      var life := LastLife(b, id);
      b.(view := AfterClaim(b.view, id, bind, option),
         lives := OnLastLife(b, id, life.(winners := life.winners + [option])))
    else b
  }

  function CompleteStep(b: Books, id: ChoiceId, bind: Bind, option: string): Books {
    var d := CompleteDecide(b.view, id, bind, option);
    if d.CompleteDone? && LivesOf(b, id) != [] then
      var life := LastLife(b, id);
      b.(view := AfterComplete(b.view, id, bind, option),
         lives := OnLastLife(b, id, life.(completions := life.completions + 1)))
    else b
  }

  function PassStep(b: Books, delta: nat): Books {
    b.(now := b.now + delta, view := Unexpired(b.view, b.now + delta))
  }

  /** The record a life is holding: fixed by the opened record and the first winner. */
  function Holding(life: Life): Record {
    if life.winners == [] then life.record
    else life.record.(status := if life.completions == 0 then Claimed else Completed,
                      claimedOptionId := Some(life.winners[0]))
  }

  ghost predicate LifeOk(life: Life) {
    && life.record.status == Open
    && |life.winners| <= 1
    && (life.completions > 0 ==> life.winners != [])
    && life.completions <= 1
    && (forall w :: w in life.winners ==> w in life.record.optionMap)
  }

  ghost predicate Consistent(b: Books) {
    && (forall id, n :: id in b.lives && 0 <= n < |b.lives[id]| ==>
          LifeOk(b.lives[id][n]) && b.lives[id][n].record.choiceId == id)
    && (forall id :: id in b.view ==>
          && LivesOf(b, id) != []
          && b.now < b.view[id].expiresAt
          && b.view[id].expiresAt == LastLife(b, id).expiresAt
          && b.view[id].record == Holding(LastLife(b, id)))
  }

  /** `y` is a later state of the life `x`: same opened record (bind, target,
      canonical input, option map), same expiry, answers only added. */
  ghost predicate LifeGrows(x: Life, y: Life) {
    && y.record == x.record
    && y.expiresAt == x.expiresAt
    && x.winners <= y.winners
    && x.completions <= y.completions
  }

  ghost predicate LivesGrow(b: Books, c: Books) {
    forall id :: id in b.lives ==>
      && id in c.lives
      && |b.lives[id]| <= |c.lives[id]|
      && forall n :: 0 <= n < |b.lives[id]| ==> LifeGrows(b.lives[id][n], c.lives[id][n])
  }

  ghost predicate LivesOk(lives: map<ChoiceId, seq<Life>>) {
    forall id, n :: id in lives && 0 <= n < |lives[id]| ==> LifeOk(lives[id][n]) && lives[id][n].record.choiceId == id
  }

  ghost predicate EntryOk(b: Books, id: ChoiceId)
    requires id in b.view
  {
    && LivesOf(b, id) != []
    && b.now < b.view[id].expiresAt
    && b.view[id].expiresAt == LastLife(b, id).expiresAt
    && b.view[id].record == Holding(LastLife(b, id))
  }

  lemma ConsistentBy(b: Books)
    requires LivesOk(b.lives) && forall id :: id in b.view ==> EntryOk(b, id)
    ensures Consistent(b)
  {}

  lemma OpenedLivesOk(b: Books, r: Record, ttl: nat)
    requires LivesOk(b.lives)
    ensures LivesOk(OpenStep(b, r, ttl).lives) && LivesGrow(b, OpenStep(b, r, ttl))
  {}

  lemma OpenKeeps(b: Books, r: Record, ttl: nat)
    requires Consistent(b)
    ensures Consistent(OpenStep(b, r, ttl))
    ensures LivesGrow(b, OpenStep(b, r, ttl))
  {
    var c := OpenStep(b, r, ttl);
    OpenedLivesOk(b, r, ttl);
    forall id | id in c.view ensures EntryOk(c, id) {
      if id != r.choiceId { assert id in b.view; }
    }
    ConsistentBy(c);
  }

  /** Replacing the last life of one record together with its live entry. */
  lemma LastLifeChange(b: Books, id: ChoiceId, life: Life)
    requires Consistent(b) && id in b.view
    requires LifeOk(life) && LifeGrows(LastLife(b, id), life)
    ensures var c := b.(view := b.view[id := Entry(Holding(life), life.expiresAt)], lives := OnLastLife(b, id, life));
            Consistent(c) && LivesGrow(b, c)
  {
    var c := b.(view := b.view[id := Entry(Holding(life), life.expiresAt)], lives := OnLastLife(b, id, life));
    LastLifeGrows(b, id, life);
    LastLifeOk(b, id, life);
    forall k | k in c.view ensures EntryOk(c, k) {
      if k != id { EntryAlike(b, c, k); }
    }
    ConsistentBy(c);
  }

  lemma EntryAlike(b: Books, c: Books, k: ChoiceId)
    requires k in b.view && EntryOk(b, k) && c.now == b.now
    requires k in c.view && c.view[k] == b.view[k] && LivesOf(c, k) == LivesOf(b, k)
    ensures EntryOk(c, k)
  {}

  lemma LastLifeOk(b: Books, id: ChoiceId, life: Life)
    requires LivesOk(b.lives) && LivesOf(b, id) != [] && LifeOk(life) && LifeGrows(LastLife(b, id), life)
    ensures LivesOk(OnLastLife(b, id, life))
  {}

  lemma LastLifeGrows(b: Books, id: ChoiceId, life: Life)
    requires LivesOf(b, id) != [] && LifeGrows(LastLife(b, id), life)
    ensures LivesGrow(b, b.(lives := OnLastLife(b, id, life)))
  {}

  lemma ClaimKeeps(b: Books, id: ChoiceId, bind: Bind, option: string)
    requires Consistent(b)
    ensures Consistent(ClaimStep(b, id, bind, option))
    ensures LivesGrow(b, ClaimStep(b, id, bind, option))
  {
    if ClaimDecide(b.view, id, bind, option).ClaimWon? {
      var life := LastLife(b, id);
      assert b.view[id] == Entry(life.record, life.expiresAt) && life.winners == [];
      var next := life.(winners := life.winners + [option]);
      assert Holding(next) == ClaimedRecord(life.record, option);
      LastLifeChange(b, id, next);
    }
  }

  lemma CompleteKeeps(b: Books, id: ChoiceId, bind: Bind, option: string)
    requires Consistent(b)
    ensures Consistent(CompleteStep(b, id, bind, option))
    ensures LivesGrow(b, CompleteStep(b, id, bind, option))
  {
    if CompleteDecide(b.view, id, bind, option).CompleteDone? {
      var life := LastLife(b, id);
      assert b.view[id] == Entry(Holding(life), life.expiresAt) && life.winners != [] && life.completions == 0;
      var next := life.(completions := life.completions + 1);
      assert Holding(next) == Holding(life).(status := Completed);
      LastLifeChange(b, id, next);
    }
  }

  lemma PassKeeps(b: Books, delta: nat)
    requires Consistent(b)
    ensures Consistent(PassStep(b, delta))
    ensures LivesGrow(b, PassStep(b, delta))
  {
    var c := PassStep(b, delta);
    forall id | id in c.view
      ensures LivesOf(c, id) != [] && c.now < c.view[id].expiresAt
              && c.view[id].expiresAt == LastLife(c, id).expiresAt && c.view[id].record == Holding(LastLife(c, id))
    {
      assert id in b.view;
    }
  }

  datatype Call =
    | CallOpen(record: Record)
    | CallClaim(id: ChoiceId, bind: Bind, option: string)
    | CallComplete(id: ChoiceId, bind: Bind, option: string)
    | CallPass(delta: nat)

  function Step(b: Books, c: Call, ttl: nat): Books {
    match c
    case CallOpen(r) => OpenStep(b, r, ttl)
    case CallClaim(id, bind, option) => ClaimStep(b, id, bind, option)
    case CallComplete(id, bind, option) => CompleteStep(b, id, bind, option)
    case CallPass(d) => PassStep(b, d)
  }

  function Run(b: Books, calls: seq<Call>, ttl: nat): Books
    decreases |calls|
  {
    if calls == [] then b else Run(Step(b, calls[0], ttl), calls[1..], ttl)
  }

  lemma StepKeeps(b: Books, c: Call, ttl: nat)
    requires Consistent(b)
    ensures Consistent(Step(b, c, ttl)) && LivesGrow(b, Step(b, c, ttl))
  {
    match c
    case CallOpen(r) => OpenKeeps(b, r, ttl);
    case CallClaim(id, bind, option) => ClaimKeeps(b, id, bind, option);
    case CallComplete(id, bind, option) => CompleteKeeps(b, id, bind, option);
    case CallPass(d) => PassKeeps(b, d);
  }

  lemma LivesGrowTrans(a: Books, b: Books, c: Books)
    requires LivesGrow(a, b) && LivesGrow(b, c)
    ensures LivesGrow(a, c)
  {
    forall id, n | id in a.lives && 0 <= n < |a.lives[id]|
      ensures LifeGrows(a.lives[id][n], c.lives[id][n])
    {
      assert LifeGrows(a.lives[id][n], b.lives[id][n]) && LifeGrows(b.lives[id][n], c.lives[id][n]);
    }
  }

  lemma {:induction false} RunKeeps(b: Books, calls: seq<Call>, ttl: nat)
    requires Consistent(b)
    ensures Consistent(Run(b, calls, ttl)) && LivesGrow(b, Run(b, calls, ttl))
    decreases |calls|
  {
    if calls != [] {
      StepKeeps(b, calls[0], ttl);
      RunKeeps(Step(b, calls[0], ttl), calls[1..], ttl);
      LivesGrowTrans(b, Step(b, calls[0], ttl), Run(b, calls, ttl));
    }
  }

  const EMPTY: Books := Books(0, map[], map[])

  /** Over every sequence of opens, claims, completes and clock moves: at most one
      `claimed` and one `completed` answer per record life, and what a live entry
      holds is the opened record with that winner, at its original expiry. */
  lemma OneWinnerPerLife(calls: seq<Call>, ttl: nat, id: ChoiceId, n: nat)
    requires id in Run(EMPTY, calls, ttl).lives && n < |Run(EMPTY, calls, ttl).lives[id]|
    ensures var life := Run(EMPTY, calls, ttl).lives[id][n];
            && |life.winners| <= 1
            && life.completions <= |life.winners|
            && forall w :: w in life.winners ==> w in life.record.optionMap
  {
    RunKeeps(EMPTY, calls, ttl);
  }

  lemma LiveEntryIsItsLastLife(calls: seq<Call>, ttl: nat, id: ChoiceId)
    requires id in Run(EMPTY, calls, ttl).view
    ensures var b := Run(EMPTY, calls, ttl);
            && LivesOf(b, id) != []
            && b.view[id] == Entry(Holding(LastLife(b, id)), LastLife(b, id).expiresAt)
  {
    RunKeeps(EMPTY, calls, ttl);
  }

  /** When a claim is answered `claimed`, `replay` or `conflict`, on every reachable state. */
  lemma ClaimAnswers(calls: seq<Call>, ttl: nat, id: ChoiceId, bind: Bind, option: string)
    requires id in Run(EMPTY, calls, ttl).view
    requires Run(EMPTY, calls, ttl).view[id].record.bind == bind
    requires option in Run(EMPTY, calls, ttl).view[id].record.optionMap
    ensures var b := Run(EMPTY, calls, ttl);
            && LivesOf(b, id) != []
            && var d := ClaimDecide(b.view, id, bind, option);
            && (d.ClaimWon? <==> LastLife(b, id).winners == [])
            && (d.ClaimReplay? <==> LastLife(b, id).winners == [option])
            && (d.ClaimConflict? <==> LastLife(b, id).winners != [] && option !in LastLife(b, id).winners)
  {
    RunKeeps(EMPTY, calls, ttl);
    var life := LastLife(Run(EMPTY, calls, ttl), id);
    assert life.winners != [] ==> life.winners == [life.winners[0]];
  }
}
