/** `POST /assistant/choice` as a protocol (apps/api/src/http/assistant-choice.ts). */
module ChoiceResume {
  // Every awaited effect of every handler is one step, interleaved in any order with other
  // handlers, the clock, record expiry, key cleanup and crashes. The choice store is the atomic
  // machine of `ChoiceStore`; `executeAction` runs statement by statement on the machine of
  // `Idempotency`.

  import opened Options
  import opened ChoiceDomain
  import opened ChoiceStore
  import I = Idempotency

  /** What a handler has settled on telling its client. */
  datatype Reply =
    | Done(order: nat)
    | NeedsChoice(next: Record)
    | Refused(message: string)

  datatype Stage =
    | Ordering
    | OpeningSuccessor(extras: Extras)
    | PeekingSuccessor
    | Recording(reply: Reply)
    | Completing(reply: Reply, turn: nat)
    | Ended

  /** One request in flight: the record its claim returned, the index of the record
      life that claim was made in, and when. */
  datatype Handler = Handler(
    choiceId: ChoiceId, bind: Bind, option: string, record: Record,
    life: nat, leaseMs: nat, claimedAt: nat, stage: Stage)

  /** A reply that was sent, and the conversation turn recorded for it. */
  datatype Sent = Sent(handler: Handler, reply: Reply, turn: nat)

  datatype State = State(db: I.Db, books: Books, handlers: map<nat, Handler>, sent: seq<Sent>)

  const INITIAL: State := State(I.EMPTY, EMPTY, map[], [])

  datatype Event =
    | Pass(delta: nat)
    | Cleanup
    | OpenRoot(uuid: nat, bind: Bind, input: OrderInput, extras: Extras, ids: seq<string>)
    | Claim(pid: nat, choiceId: ChoiceId, bind: Bind, option: string, leaseMs: nat)
    | Pipeline(pid: nat, move: I.Move)
    | AfterOrder(pid: nat)
    | OpenSuccessor(pid: nat, ids: seq<string>)
    | PeekSuccessor(pid: nat)
    | AfterTurn(pid: nat)
    | Complete(pid: nat)
    | Crash(pid: nat)

  // ------------------------------------------------------------ requests

  function OrderKey(bind: Bind, id: ChoiceId): I.RowKey {
    I.RowKey(bind.actorId, bind.companyId, I.CreateOrder, I.AttemptKey(ChoiceAttempt, bind.conversationId, id))
  }

  function TurnKey(bind: Bind, id: ChoiceId): I.RowKey {
    I.RowKey(bind.actorId, bind.companyId, I.RecordTurn, I.AttemptKey(TurnAttempt, bind.conversationId, id))
  }

  function Patched(r: Record, option: string): OrderInput
    requires option in r.optionMap
  {
    Patch(r.canonicalInput, r.target, r.optionMap[option])
  }

  function OrderRequest(h: Handler): I.Request
    requires h.option in h.record.optionMap
  {
    I.Request(OrderKey(h.bind, h.choiceId), I.OrderPayload(Patched(h.record, h.option)))
  }

  /** `persistChoiceTurn`: the turn a reply is recorded as. */
  function TurnFor(id: ChoiceId, reply: Reply): I.Payload {
    match reply
    case Done(order) => I.TurnPayload(I.TurnSuccess, Some(id), I.OrderText(order))
    case NeedsChoice(next) =>
      I.TurnPayload(I.TurnChoiceRequired, Some(next.choiceId), I.PickerTurn(PickerText(next)))
    case Refused(message) => I.TurnPayload(I.TurnError, None, I.MessageText(message))
  }

  function TurnRequest(h: Handler, reply: Reply): I.Request {
    I.Request(TurnKey(h.bind, h.choiceId), TurnFor(h.choiceId, reply))
  }

  // ------------------------------------------------------------ steps

  function SetStage(s: State, pid: nat, stage: Stage): State
    requires pid in s.handlers
  {
    s.(handlers := s.handlers[pid := s.handlers[pid].(stage := stage)])
  }

  /** Calls `persistChoiceTurn`. */
  function StartRecording(s: State, pid: nat, reply: Reply): State
    requires pid in s.handlers
  {
    var h := s.handlers[pid];
    SetStage(s, pid, Recording(reply))
      .(db := I.Called(s.db, pid, TurnRequest(h, reply), h.leaseMs))
  }

  function DoOpenRoot(s: State, uuid: nat, bind: Bind, input: OrderInput, extras: Extras, ids: seq<string>,
      ttl: nat): State {
    if Minted(uuid) in s.books.lives || |ids| < |Capped(extras.options)| then s
    else
      var r := RecordFromConflict(Minted(uuid), bind, input, extras, ids);
      if r.None? then s else s.(books := OpenStep(s.books, r.value, ttl))
  }

  /** The claim, and on `claimed` or `replay` the call of `executeAction`. */
  function DoClaim(s: State, pid: nat, id: ChoiceId, bind: Bind, option: string, leaseMs: nat): State {
    if pid in s.handlers || pid in s.db.attempts then s
    else
      var d := ClaimDecide(s.books.view, id, bind, option);
      var books := ClaimStep(s.books, id, bind, option);
      if (d.ClaimWon? || d.ClaimReplay?) && option in d.record.optionMap && LivesOf(books, id) != [] then
        var h := Handler(id, bind, option, d.record, |LivesOf(books, id)| - 1, leaseMs, s.books.now, Ordering);
        s.(books := books,
           handlers := s.handlers[pid := h],
           db := I.Called(s.db, pid, OrderRequest(h), leaseMs))
      else s.(books := books)
  }

  function DoAfterOrder(s: State, pid: nat): State {
    if pid !in s.handlers || s.handlers[pid].stage != Ordering || pid !in s.db.attempts
       || !s.db.attempts[pid].phase.Returned? then s
    else match s.db.attempts[pid].phase.outcome
      case Success(order) => StartRecording(s, pid, Done(order))
      case Failure(e) => AfterFailure(s, pid, e)
  }

  /** The `catch` block: picker extras first, then a reference conflict, then rethrow. */
  function AfterFailure(s: State, pid: nat, e: I.ActionError): State
    requires pid in s.handlers
  {
    if e.Thrown? && e.picker.Some? && e.picker.value.options != []
    then SetStage(s, pid, OpeningSuccessor(e.picker.value))
    else if e.Thrown? && e.referenceMessage.Some? then StartRecording(s, pid, Refused(e.referenceMessage.value))
    else SetStage(s, pid, Ended)
  }

  function DoOpenSuccessor(s: State, pid: nat, ids: seq<string>, ttl: nat): State {
    if pid !in s.handlers || !s.handlers[pid].stage.OpeningSuccessor? then s
    else
      var h := s.handlers[pid];
      if h.option !in h.record.optionMap || |ids| < |Capped(h.stage.extras.options)| then s
      else
        var next := RecordFromConflict(SuccessorOf(h.choiceId), h.record.bind, Patched(h.record, h.option),
            h.stage.extras, ids);
        if next.None? then s
        else SetStage(s.(books := OpenStep(s.books, next.value, ttl)), pid, PeekingSuccessor)
  }

  function DoPeekSuccessor(s: State, pid: nat): State {
    if pid !in s.handlers || s.handlers[pid].stage != PeekingSuccessor then s
    else
      var h := s.handlers[pid];
      var d := PeekDecide(s.books.view, SuccessorOf(h.choiceId), h.record.bind);
      if d.PeekFound? then StartRecording(s, pid, NeedsChoice(d.record)) else SetStage(s, pid, Ended)
  }

  /** The `catch` block also covers the recording of the success turn; what fails in
      the block itself is thrown on. */
  function DoAfterTurn(s: State, pid: nat): State {
    if pid !in s.handlers || !s.handlers[pid].stage.Recording? || pid !in s.db.attempts
       || !s.db.attempts[pid].phase.Returned? then s
    else match s.db.attempts[pid].phase.outcome
      case Success(turn) => SetStage(s, pid, Completing(s.handlers[pid].stage.reply, turn))
      case Failure(e) => if s.handlers[pid].stage.reply.Done? then AfterFailure(s, pid, e) else SetStage(s, pid, Ended)
  }

  /** `choiceStore.complete`, whose decision is not looked at, and the reply. */
  function DoComplete(s: State, pid: nat): State {
    if pid !in s.handlers || !s.handlers[pid].stage.Completing? then s
    else
      var h := s.handlers[pid];
      SetStage(s.(books := CompleteStep(s.books, h.choiceId, h.bind, h.option)), pid, Ended)
        .(sent := s.sent + [Sent(h, h.stage.reply, h.stage.turn)])
  }

  function DoPipeline(s: State, pid: nat, m: I.Move): State {
    s.(db := I.DoMove(s.db, pid, m))
  }

  function Step(s: State, e: Event, ttl: nat): State {
    match e
    case Pass(delta) => s.(db := I.Step(s.db, I.Pass(delta)), books := PassStep(s.books, delta))
    case Cleanup => s.(db := I.Step(s.db, I.Cleanup))
    case OpenRoot(uuid, bind, input, extras, ids) => DoOpenRoot(s, uuid, bind, input, extras, ids, ttl)
    case Claim(pid, id, bind, option, leaseMs) => DoClaim(s, pid, id, bind, option, leaseMs)
    case Pipeline(pid, m) => DoPipeline(s, pid, m)
    case AfterOrder(pid) => DoAfterOrder(s, pid)
    case OpenSuccessor(pid, ids) => DoOpenSuccessor(s, pid, ids, ttl)
    case PeekSuccessor(pid) => DoPeekSuccessor(s, pid)
    case AfterTurn(pid) => DoAfterTurn(s, pid)
    case Complete(pid) => DoComplete(s, pid)
    case Crash(pid) => s.(handlers := s.handlers - {pid}, db := I.Crashed(s.db, pid))
  }

  function Run(s: State, es: seq<Event>, ttl: nat): State
    decreases |es|
  {
    if es == [] then s else Run(Step(s, es[0], ttl), es[1..], ttl)
  }

  // ------------------------------------------------------------ invariants

  ghost predicate Known(b: Books, id: ChoiceId) {
    id in b.lives && b.lives[id] != []
  }

  ghost function BindOf(b: Books, id: ChoiceId): Bind
    requires Known(b, id)
  {
    b.lives[id][0].record.bind
  }

  /** All lives of a choice belong to one actor, company and conversation, a
      successor to its parent's; everything on a card can be claimed. */
  ghost predicate BooksOk(b: Books) {
    && Consistent(b)
    && (forall id :: id in b.lives ==> Known(b, id))
    && (forall id, n :: id in b.lives && 0 <= n < |b.lives[id]| ==>
          b.lives[id][n].record.bind == BindOf(b, id) && CardIsClaimable(b.lives[id][n].record))
    && (forall p :: SuccessorOf(p) in b.lives ==> Known(b, p) && BindOf(b, SuccessorOf(p)) == BindOf(b, p))
  }

  /** The order of a life: its stored input, patched with its first winner. */
  ghost predicate IsOrderOf(life: Life, input: OrderInput) {
    && life.winners != [] && life.winners[0] in life.record.optionMap
    && input == Patched(life.record, life.winners[0])
  }

  /** Every request that reaches the pipeline is of a known choice, under that
      choice's own key; an order request carries the patched input of one of its lives. */
  ghost predicate RequestOk(b: Books, r: I.Request) {
    var id := r.key.key.choiceId;
    && Known(b, id)
    && (r.key == OrderKey(BindOf(b, id), id) || r.key == TurnKey(BindOf(b, id), id))
    && (r.key.action == I.CreateOrder ==>
          r.payload.OrderPayload? && exists n :: 0 <= n < |b.lives[id]| && IsOrderOf(b.lives[id][n], r.payload.input))
  }

  ghost predicate ClaimOk(b: Books, h: Handler) {
    && Known(b, h.choiceId) && h.life < |b.lives[h.choiceId]|
    && h.bind == BindOf(b, h.choiceId) == h.record.bind
    && h.option in h.record.optionMap
    && h.record.choiceId == h.choiceId
    && var life := b.lives[h.choiceId][h.life];
       && life.winners != [] && life.winners[0] == h.option
       && life.record.canonicalInput == h.record.canonicalInput
       && life.record.target == h.record.target
       && life.record.optionMap == h.record.optionMap
  }

  /** What a reply may say: an order committed for this request, or the record of a
      life of the successor. */
  ghost predicate ReplyOk(b: Books, t: I.Table, h: Handler, reply: Reply)
    requires ClaimOk(b, h)
  {
    match reply
    case Done(order) => I.ResponseOk(t, OrderRequest(h), order)
    case NeedsChoice(next) =>
      && next.choiceId == SuccessorOf(h.choiceId) && next.choiceId in b.lives
      && CardIsClaimable(next) && next.bind == h.bind
    case Refused(_) => true
  }

  ghost predicate TurnOk(b: Books, t: I.Table, h: Handler, reply: Reply, turn: nat) {
    ClaimOk(b, h) && ReplyOk(b, t, h, reply) && I.ResponseOk(t, TurnRequest(h, reply), turn)
  }

  ghost predicate HandlerOk(b: Books, db: I.Db, pid: nat, h: Handler) {
    && ClaimOk(b, h)
    && match h.stage
       case Ordering => pid in db.attempts && db.attempts[pid].request == OrderRequest(h)
       case Recording(reply) =>
         && pid in db.attempts && db.attempts[pid].request == TurnRequest(h, reply)
         && ReplyOk(b, db.t, h, reply)
       case Completing(reply, turn) => TurnOk(b, db.t, h, reply, turn)
       case Ended => true
       case _ => pid in db.attempts && db.attempts[pid].phase.Returned?
  }

  ghost predicate AttemptsOk(b: Books, db: I.Db) {
    && (forall pid :: pid in db.attempts ==> RequestOk(b, db.attempts[pid].request))
    && (forall a :: 0 <= a < |db.t.births| ==> RequestOk(b, I.Request(db.t.births[a].key, db.t.births[a].payload)))
  }

  ghost predicate HandlersOk(b: Books, db: I.Db, handlers: map<nat, Handler>) {
    forall pid :: pid in handlers ==> HandlerOk(b, db, pid, handlers[pid])
  }

  ghost predicate SentOk(b: Books, t: I.Table, sent: seq<Sent>) {
    forall n :: 0 <= n < |sent| ==> TurnOk(b, t, sent[n].handler, sent[n].reply, sent[n].turn)
  }

  ghost predicate Inv(s: State) {
    && I.Inv(s.db)
    && BooksOk(s.books)
    && AttemptsOk(s.books, s.db)
    && HandlersOk(s.books, s.db, s.handlers)
    && SentOk(s.books, s.db.t, s.sent)
  }

  // ------------------------------------------------------------ preservation

  lemma RequestOkGrows(b: Books, c: Books, r: I.Request)
    requires LivesGrow(b, c) && RequestOk(b, r)
    ensures RequestOk(c, r)
  {
    var id := r.key.key.choiceId;
    assert LifeGrows(b.lives[id][0], c.lives[id][0]);
    if r.key.action == I.CreateOrder {
      var n :| 0 <= n < |b.lives[id]| && IsOrderOf(b.lives[id][n], r.payload.input);
      assert LifeGrows(b.lives[id][n], c.lives[id][n]);
      assert IsOrderOf(c.lives[id][n], r.payload.input);
    }
  }

  lemma ClaimOkGrows(b: Books, c: Books, h: Handler)
    requires LivesGrow(b, c) && ClaimOk(b, h)
    ensures ClaimOk(c, h)
  {
    assert LifeGrows(b.lives[h.choiceId][0], c.lives[h.choiceId][0]);
    assert LifeGrows(b.lives[h.choiceId][h.life], c.lives[h.choiceId][h.life]);
  }

  lemma ResponseOkGrows(t: I.Table, u: I.Table, r: I.Request, n: nat)
    requires I.ResponseOk(t, r, n)
    requires |t.commits| <= |u.commits| && forall i :: 0 <= i < |t.commits| ==> u.commits[i] == t.commits[i]
    ensures I.ResponseOk(u, r, n)
  {}

  lemma TurnOkGrows(b: Books, c: Books, t: I.Table, u: I.Table, h: Handler, reply: Reply, turn: nat)
    requires LivesGrow(b, c) && TurnOk(b, t, h, reply, turn)
    requires |t.commits| <= |u.commits| && forall i :: 0 <= i < |t.commits| ==> u.commits[i] == t.commits[i]
    ensures TurnOk(c, u, h, reply, turn)
  {
    ClaimOkGrows(b, c, h);
    if reply.Done? { ResponseOkGrows(t, u, OrderRequest(h), reply.order); }
  }

  lemma HandlerOkGrows(b: Books, c: Books, db: I.Db, dc: I.Db, pid: nat, h: Handler)
    requires LivesGrow(b, c) && HandlerOk(b, db, pid, h)
    requires |db.t.commits| <= |dc.t.commits|
    requires forall i :: 0 <= i < |db.t.commits| ==> dc.t.commits[i] == db.t.commits[i]
    requires pid in db.attempts ==> pid in dc.attempts && dc.attempts[pid].request == db.attempts[pid].request
    requires pid in db.attempts && db.attempts[pid].phase.Returned? ==> dc.attempts[pid] == db.attempts[pid]
    ensures HandlerOk(c, dc, pid, h)
  {
    ClaimOkGrows(b, c, h);
    match h.stage
    case Recording(reply) =>
      if reply.Done? { ResponseOkGrows(db.t, dc.t, OrderRequest(h), reply.order); }
    case Completing(reply, turn) => TurnOkGrows(b, c, db.t, dc.t, h, reply, turn);
    case _ =>
  }

  lemma AttemptsOkGrow(b: Books, c: Books, db: I.Db)
    requires LivesGrow(b, c) && AttemptsOk(b, db)
    ensures AttemptsOk(c, db)
  {
    forall pid | pid in db.attempts ensures RequestOk(c, db.attempts[pid].request) {
      RequestOkGrows(b, c, db.attempts[pid].request);
    }
    forall a | 0 <= a < |db.t.births| ensures RequestOk(c, I.Request(db.t.births[a].key, db.t.births[a].payload)) {
      RequestOkGrows(b, c, I.Request(db.t.births[a].key, db.t.births[a].payload));
    }
  }

  ghost predicate CommitsGrow(t: I.Table, u: I.Table) {
    |t.commits| <= |u.commits| && forall i :: 0 <= i < |t.commits| ==> u.commits[i] == t.commits[i]
  }

  /** Attempts stay with their callers, and a returned one stays returned. */
  ghost predicate CallersKept(db: I.Db, dc: I.Db, pids: set<nat>) {
    forall p :: p in pids && p in db.attempts ==>
      && p in dc.attempts && dc.attempts[p].request == db.attempts[p].request
      && (db.attempts[p].phase.Returned? ==> dc.attempts[p] == db.attempts[p])
  }

  lemma HandlersOkGrow(b: Books, c: Books, db: I.Db, dc: I.Db, handlers: map<nat, Handler>)
    requires LivesGrow(b, c) && CommitsGrow(db.t, dc.t) && CallersKept(db, dc, handlers.Keys)
    requires HandlersOk(b, db, handlers)
    ensures HandlersOk(c, dc, handlers)
  {
    forall pid | pid in handlers ensures HandlerOk(c, dc, pid, handlers[pid]) {
      HandlerOkGrows(b, c, db, dc, pid, handlers[pid]);
    }
  }

  lemma SentOkGrow(b: Books, c: Books, t: I.Table, u: I.Table, sent: seq<Sent>)
    requires LivesGrow(b, c) && CommitsGrow(t, u) && SentOk(b, t, sent)
    ensures SentOk(c, u, sent)
  {
    forall n | 0 <= n < |sent| ensures TurnOk(c, u, sent[n].handler, sent[n].reply, sent[n].turn) {
      TurnOkGrows(b, c, t, u, sent[n].handler, sent[n].reply, sent[n].turn);
    }
  }

  /** A step that only moves the store on. */
  lemma BooksMove(s: State, c: Books)
    requires Inv(s) && BooksOk(c) && LivesGrow(s.books, c)
    ensures Inv(s.(books := c))
  {
    AttemptsOkGrow(s.books, c, s.db);
    HandlersOkGrow(s.books, c, s.db, s.db, s.handlers);
    SentOkGrow(s.books, c, s.db.t, s.db.t, s.sent);
  }

  /** A step that only moves the database on. */
  lemma DbMove(s: State, dc: I.Db)
    requires Inv(s) && I.Inv(dc) && AttemptsOk(s.books, dc)
    requires CommitsGrow(s.db.t, dc.t) && CallersKept(s.db, dc, s.handlers.Keys)
    ensures Inv(s.(db := dc))
  {
    HandlersOkGrow(s.books, s.books, s.db, dc, s.handlers);
    SentOkGrow(s.books, s.books, s.db.t, dc.t, s.sent);
  }

  lemma MoveAttemptsOk(b: Books, db: I.Db, pid: nat, m: I.Move)
    requires I.Inv(db) && AttemptsOk(b, db) && pid in db.attempts
    ensures AttemptsOk(b, I.DoMove(db, pid, m))
    ensures CommitsGrow(db.t, I.DoMove(db, pid, m).t) && CallersKept(db, I.DoMove(db, pid, m), db.attempts.Keys)
  {
    I.MoveIsOwn(db, pid, m);
    I.MoveFrame(db, pid, m);
  }

  lemma PipelineKeeps(s: State, pid: nat, m: I.Move)
    requires Inv(s)
    ensures Inv(DoPipeline(s, pid, m))
  {
    if pid in s.db.attempts {
      I.MoveKeeps(s.db, pid, m);
      MoveAttemptsOk(s.books, s.db, pid, m);
      DbMove(s, I.DoMove(s.db, pid, m));
    }
  }

  lemma CleanupKeeps(s: State)
    requires Inv(s)
    ensures Inv(s.(db := I.Step(s.db, I.Cleanup)))
  {
    I.StepKeeps(s.db, I.Cleanup);
    DbMove(s, I.Step(s.db, I.Cleanup));
  }

  lemma PassTimeKeeps(s: State, delta: nat)
    requires Inv(s)
    ensures Inv(s.(db := I.Step(s.db, I.Pass(delta)), books := PassStep(s.books, delta)))
  {
    var dc := I.Step(s.db, I.Pass(delta));
    I.StepKeeps(s.db, I.Pass(delta));
    DbMove(s, dc);
    PassKeeps(s.books, delta);
    BooksMove(s.(db := dc), PassStep(s.books, delta));
  }

  /** Opening a record for its own family keeps the books. */
  lemma OpenBooksOk(b: Books, r: Record, ttl: nat)
    requires BooksOk(b) && CardIsClaimable(r)
    requires r.choiceId in b.lives ==> r.bind == BindOf(b, r.choiceId)
    requires r.choiceId.SuccessorOf? ==> Known(b, r.choiceId.parent) && r.bind == BindOf(b, r.choiceId.parent)
    ensures BooksOk(OpenStep(b, r, ttl)) && LivesGrow(b, OpenStep(b, r, ttl))
  {
    OpenKeeps(b, r, ttl);
    var c := OpenStep(b, r, ttl);
    forall id, n | id in c.lives && 0 <= n < |c.lives[id]|
      ensures Known(c, id) && c.lives[id][n].record.bind == BindOf(c, id) && CardIsClaimable(c.lives[id][n].record)
    {
      if id == r.choiceId && c != b && n == |c.lives[id]| - 1 {
        assert c.lives[id][n].record == r.(status := Open);
      } else {
        assert id in b.lives && c.lives[id][n] == b.lives[id][n];
      }
    }
    forall p | SuccessorOf(p) in c.lives
      ensures Known(c, p) && BindOf(c, SuccessorOf(p)) == BindOf(c, p)
    {
      if SuccessorOf(p) in b.lives {
        assert Known(b, p) && BindOf(b, SuccessorOf(p)) == BindOf(b, p);
      }
    }
  }

  lemma OpenRootKeeps(s: State, uuid: nat, bind: Bind, input: OrderInput, extras: Extras, ids: seq<string>, ttl: nat)
    requires Inv(s)
    ensures Inv(DoOpenRoot(s, uuid, bind, input, extras, ids, ttl))
  {
    if Minted(uuid) !in s.books.lives && |ids| >= |Capped(extras.options)| {
      var r := RecordFromConflict(Minted(uuid), bind, input, extras, ids);
      if r.Some? {
        OpenBooksOk(s.books, r.value, ttl);
        BooksMove(s, OpenStep(s.books, r.value, ttl));
      }
    }
  }

  lemma LastLifeBooksOk(b: Books, c: Books)
    requires BooksOk(b) && Consistent(c) && LivesGrow(b, c)
    requires c.lives.Keys == b.lives.Keys
    requires forall id :: id in b.lives ==> |c.lives[id]| == |b.lives[id]|
    ensures BooksOk(c)
  {
    forall id, n | id in c.lives && 0 <= n < |c.lives[id]|
      ensures Known(c, id) && c.lives[id][n].record.bind == BindOf(c, id) && CardIsClaimable(c.lives[id][n].record)
    {
      assert LifeGrows(b.lives[id][n], c.lives[id][n]) && LifeGrows(b.lives[id][0], c.lives[id][0]);
    }
    forall p | SuccessorOf(p) in c.lives
      ensures Known(c, p) && BindOf(c, SuccessorOf(p)) == BindOf(c, p)
    {
      assert Known(b, p);
      assert LifeGrows(b.lives[p][0], c.lives[p][0]);
      assert LifeGrows(b.lives[SuccessorOf(p)][0], c.lives[SuccessorOf(p)][0]);
    }
  }

  /** A handler that starts an action of its own choice. */
  lemma BeginKeeps(s: State, pid: nat, h: Handler, r: I.Request)
    requires Inv(s)
    requires pid in s.db.attempts ==> s.db.attempts[pid].phase.Returned?
    requires RequestOk(s.books, r)
    requires HandlerOk(s.books, I.Called(s.db, pid, r, h.leaseMs), pid, h)
    ensures Inv(s.(handlers := s.handlers[pid := h], db := I.Called(s.db, pid, r, h.leaseMs)))
  {
    I.CalledKeeps(s.db, pid, r, h.leaseMs);
    AfterCall(s.books, s.db, s.handlers, pid, h, r);
  }

  lemma AfterCall(b: Books, db: I.Db, handlers: map<nat, Handler>, pid: nat, h: Handler, r: I.Request)
    requires AttemptsOk(b, db) && HandlersOk(b, db, handlers) && RequestOk(b, r)
    requires HandlerOk(b, I.Called(db, pid, r, h.leaseMs), pid, h)
    ensures AttemptsOk(b, I.Called(db, pid, r, h.leaseMs))
    ensures HandlersOk(b, I.Called(db, pid, r, h.leaseMs), handlers[pid := h])
  {
    CalledAttemptsOk(b, db, pid, r, h.leaseMs);
    OtherCallers(b, db, I.Called(db, pid, r, h.leaseMs), handlers, pid, h);
  }

  lemma OtherCallers(b: Books, db: I.Db, dc: I.Db, handlers: map<nat, Handler>, pid: nat, h: Handler)
    requires HandlersOk(b, db, handlers) && HandlerOk(b, dc, pid, h)
    requires CommitsGrow(db.t, dc.t) && CallersKept(db, dc, handlers.Keys - {pid})
    ensures HandlersOk(b, dc, handlers[pid := h])
  {
    var others := handlers - {pid};
    assert handlers[pid := h] == others[pid := h];
    HandlersOkGrow(b, b, db, dc, others);
    OneHandler(b, dc, others, pid, h);
  }

  lemma CalledAttemptsOk(b: Books, db: I.Db, pid: nat, r: I.Request, leaseMs: nat)
    requires AttemptsOk(b, db) && RequestOk(b, r)
    ensures AttemptsOk(b, I.Called(db, pid, r, leaseMs))
  {
    var dc := I.Called(db, pid, r, leaseMs);
    forall p | p in dc.attempts ensures RequestOk(b, dc.attempts[p].request) {
      if p == pid && dc != db { assert dc.attempts[p].request == r; }
    }
  }

  /** A handler that moves to a stage with no action of its own in flight. */
  lemma StageKeeps(s: State, pid: nat, stage: Stage)
    requires Inv(s) && pid in s.handlers
    requires HandlerOk(s.books, s.db, pid, s.handlers[pid].(stage := stage))
    ensures Inv(SetStage(s, pid, stage))
  {
    OneHandler(s.books, s.db, s.handlers, pid, s.handlers[pid].(stage := stage));
  }

  lemma OneHandler(b: Books, db: I.Db, handlers: map<nat, Handler>, pid: nat, h: Handler)
    requires HandlersOk(b, db, handlers) && HandlerOk(b, db, pid, h)
    ensures HandlersOk(b, db, handlers[pid := h])
  {}

  lemma ClaimHandlerKeeps(s: State, pid: nat, id: ChoiceId, bind: Bind, option: string, leaseMs: nat)
    requires Inv(s)
    ensures Inv(DoClaim(s, pid, id, bind, option, leaseMs))
  {
    if pid in s.handlers || pid in s.db.attempts { return; }
    var d := ClaimDecide(s.books.view, id, bind, option);
    var books := ClaimStep(s.books, id, bind, option);
    ClaimKeeps(s.books, id, bind, option);
    LastLifeBooksOk(s.books, books);
    BooksMove(s, books);
    if (d.ClaimWon? || d.ClaimReplay?) && option in d.record.optionMap && LivesOf(books, id) != [] {
      var h := Handler(id, bind, option, d.record, |LivesOf(books, id)| - 1, leaseMs, s.books.now, Ordering);
      ClaimMakesHandler(s.books, id, bind, option, h);
      assert IsOrderOf(books.lives[id][h.life], Patched(h.record, option));
      BeginKeeps(s.(books := books), pid, h, OrderRequest(h));
    }
  }

  /** A claim answered `claimed` or `replay` hands out the record of the current life,
      whose winner is the claimed option. */
  lemma ClaimMakesHandler(b: Books, id: ChoiceId, bind: Bind, option: string, h: Handler)
    requires BooksOk(b)
    requires var d := ClaimDecide(b.view, id, bind, option); (d.ClaimWon? || d.ClaimReplay?) && h.record == d.record
    requires h.choiceId == id && h.bind == bind && h.option == option
    requires h.life == |LivesOf(ClaimStep(b, id, bind, option), id)| - 1
    ensures ClaimOk(ClaimStep(b, id, bind, option), h)
    ensures IsOrderOf(ClaimStep(b, id, bind, option).lives[id][h.life], Patched(h.record, option))
  {
    var life := LastLife(b, id);
    assert LifeOk(life) && b.view[id].record == Holding(life);
    assert life.record.bind == BindOf(b, id) && life.record.choiceId == id;
    ClaimedLife(b, id, bind, option);
  }

  /** What a claim leaves of the books of its choice. */
  lemma ClaimedLife(b: Books, id: ChoiceId, bind: Bind, option: string)
    requires Consistent(b) && id in b.view
    requires var d := ClaimDecide(b.view, id, bind, option); d.ClaimWon? || d.ClaimReplay?
    ensures var c := ClaimStep(b, id, bind, option);
      && Known(c, id) && |c.lives[id]| == |b.lives[id]| && BindOf(c, id) == BindOf(b, id)
      && LastLife(c, id).record == LastLife(b, id).record
      && LastLife(c, id).winners == [option] && option in LastLife(b, id).record.optionMap
  {
    var c := ClaimStep(b, id, bind, option);
    var life := LastLife(b, id);
    assert LifeOk(life) && b.view[id].record == Holding(life);
    if |b.lives[id]| > 1 { assert c.lives[id][0] == b.lives[id][0]; }
  }

  lemma RecordTurnKeeps(s: State, pid: nat, reply: Reply)
    requires Inv(s) && pid in s.handlers && pid in s.db.attempts && s.db.attempts[pid].phase.Returned?
    requires ClaimOk(s.books, s.handlers[pid]) && ReplyOk(s.books, s.db.t, s.handlers[pid], reply)
    ensures Inv(StartRecording(s, pid, reply))
  {
    var h := s.handlers[pid].(stage := Recording(reply));
    BeginKeeps(s, pid, h, TurnRequest(h, reply));
  }

  lemma AfterOrderKeeps(s: State, pid: nat)
    requires Inv(s)
    ensures Inv(DoAfterOrder(s, pid))
  {
    if pid in s.handlers && s.handlers[pid].stage == Ordering && pid in s.db.attempts
        && s.db.attempts[pid].phase.Returned? {
      match s.db.attempts[pid].phase.outcome
      case Success(order) => OrderedKeeps(s, pid, order);
      case Failure(e) => FailureKeeps(s, pid, e);
    }
  }

  lemma OrderedKeeps(s: State, pid: nat, order: nat)
    requires Inv(s) && pid in s.handlers && s.handlers[pid].stage == Ordering
    requires pid in s.db.attempts && s.db.attempts[pid].phase == I.Returned(I.Success(order))
    ensures Inv(StartRecording(s, pid, Done(order)))
  {
    assert HandlerOk(s.books, s.db, pid, s.handlers[pid]);
    assert I.PhaseOk(s.db.t, s.db.attempts[pid].request, s.db.attempts[pid].phase);
    RecordTurnKeeps(s, pid, Done(order));
  }

  lemma FailureKeeps(s: State, pid: nat, e: I.ActionError)
    requires Inv(s) && pid in s.handlers
    requires pid in s.db.attempts && s.db.attempts[pid].phase == I.Returned(I.Failure(e))
    ensures Inv(AfterFailure(s, pid, e))
  {
    HandlerClaim(s, pid);
    if e.Thrown? && e.picker.Some? && e.picker.value.options != [] {
      StageKeeps(s, pid, OpeningSuccessor(e.picker.value));
    } else if e.Thrown? && e.referenceMessage.Some? {
      RecordTurnKeeps(s, pid, Refused(e.referenceMessage.value));
    } else {
      EndKeeps(s, pid);
    }
  }

  lemma HandlerClaim(s: State, pid: nat)
    requires Inv(s) && pid in s.handlers
    ensures ClaimOk(s.books, s.handlers[pid])
    ensures s.handlers[pid].stage.PeekingSuccessor? ==> pid in s.db.attempts && s.db.attempts[pid].phase.Returned?
  {
    assert HandlerOk(s.books, s.db, pid, s.handlers[pid]);
  }

  lemma OpenSuccessorKeeps(s: State, pid: nat, ids: seq<string>, ttl: nat)
    requires Inv(s)
    ensures Inv(DoOpenSuccessor(s, pid, ids, ttl))
  {
    if pid in s.handlers && s.handlers[pid].stage.OpeningSuccessor? {
      var h := s.handlers[pid];
      assert HandlerOk(s.books, s.db, pid, h);
      if h.option in h.record.optionMap && |ids| >= |Capped(h.stage.extras.options)| {
        var next := RecordFromConflict(SuccessorOf(h.choiceId), h.record.bind, Patched(h.record, h.option),
            h.stage.extras, ids);
        if next.Some? {
          assert SuccessorOf(h.choiceId) in s.books.lives ==> BindOf(s.books, SuccessorOf(h.choiceId)) == h.bind;
          OpenBooksOk(s.books, next.value, ttl);
          var c := s.(books := OpenStep(s.books, next.value, ttl));
          BooksMove(s, c.books);
          assert HandlerOk(c.books, c.db, pid, h);
          StageKeeps(c, pid, PeekingSuccessor);
        }
      }
    }
  }

  lemma PeekedRecord(b: Books, id: ChoiceId)
    requires BooksOk(b) && id in b.view
    ensures CardIsClaimable(b.view[id].record) && b.view[id].record.choiceId == id && id in b.lives
  {
    assert b.view[id].record == Holding(LastLife(b, id));
    assert CardIsClaimable(LastLife(b, id).record);
  }

  lemma PeekSuccessorKeeps(s: State, pid: nat)
    requires Inv(s)
    ensures Inv(DoPeekSuccessor(s, pid))
  {
    if pid in s.handlers && s.handlers[pid].stage == PeekingSuccessor {
      var h := s.handlers[pid];
      var d := PeekDecide(s.books.view, SuccessorOf(h.choiceId), h.record.bind);
      if d.PeekFound? {
        HandlerClaim(s, pid);
        PeekedRecord(s.books, SuccessorOf(h.choiceId));
        RecordTurnKeeps(s, pid, NeedsChoice(d.record));
      } else {
        EndKeeps(s, pid);
      }
    }
  }

  lemma RecordedTurn(s: State, pid: nat, reply: Reply, turn: nat)
    requires Inv(s) && pid in s.handlers && s.handlers[pid].stage == Recording(reply)
    requires pid in s.db.attempts && s.db.attempts[pid].phase == I.Returned(I.Success(turn))
    ensures TurnOk(s.books, s.db.t, s.handlers[pid], reply, turn)
  {
    assert HandlerOk(s.books, s.db, pid, s.handlers[pid]);
    assert I.PhaseOk(s.db.t, s.db.attempts[pid].request, s.db.attempts[pid].phase);
  }

  lemma TurnRecordedKeeps(s: State, pid: nat, reply: Reply, turn: nat)
    requires Inv(s) && pid in s.handlers && s.handlers[pid].stage == Recording(reply)
    requires pid in s.db.attempts && s.db.attempts[pid].phase == I.Returned(I.Success(turn))
    ensures Inv(SetStage(s, pid, Completing(reply, turn)))
  {
    RecordedTurn(s, pid, reply, turn);
    HandlerClaim(s, pid);
    CompletingOk(s.books, s.db, pid, s.handlers[pid], reply, turn);
    StageKeeps(s, pid, Completing(reply, turn));
  }

  lemma CompletingOk(b: Books, db: I.Db, pid: nat, h: Handler, reply: Reply, turn: nat)
    requires ClaimOk(b, h) && TurnOk(b, db.t, h, reply, turn) && pid in db.attempts && db.attempts[pid].phase.Returned?
    ensures HandlerOk(b, db, pid, h.(stage := Completing(reply, turn)))
  {}

  lemma AfterTurnKeeps(s: State, pid: nat)
    requires Inv(s)
    ensures Inv(DoAfterTurn(s, pid))
  {
    if pid in s.handlers && s.handlers[pid].stage.Recording? && pid in s.db.attempts
        && s.db.attempts[pid].phase.Returned? {
      var reply := s.handlers[pid].stage.reply;
      var outcome := s.db.attempts[pid].phase.outcome;
      if outcome.Success? {
        TurnRecordedKeeps(s, pid, reply, outcome.response);
      } else if reply.Done? {
        FailureKeeps(s, pid, outcome.error);
      } else {
        EndKeeps(s, pid);
      }
    }
  }

  lemma EndKeeps(s: State, pid: nat)
    requires Inv(s) && pid in s.handlers
    ensures Inv(SetStage(s, pid, Ended))
  {
    assert HandlerOk(s.books, s.db, pid, s.handlers[pid]);
    StageKeeps(s, pid, Ended);
  }

  lemma CompleteHandlerKeeps(s: State, pid: nat)
    requires Inv(s)
    ensures Inv(DoComplete(s, pid))
  {
    if pid in s.handlers && s.handlers[pid].stage.Completing? {
      var h := s.handlers[pid];
      var books := CompleteStep(s.books, h.choiceId, h.bind, h.option);
      CompleteKeeps(s.books, h.choiceId, h.bind, h.option);
      LastLifeBooksOk(s.books, books);
      BooksMove(s, books);
      var c := s.(books := books);
      EndKeeps(c, pid);
      CompletingTurn(c, pid);
      SendKeeps(SetStage(c, pid, Ended), Sent(h, h.stage.reply, h.stage.turn));
    }
  }

  lemma CompletingTurn(s: State, pid: nat)
    requires Inv(s) && pid in s.handlers && s.handlers[pid].stage.Completing?
    ensures TurnOk(s.books, s.db.t, s.handlers[pid], s.handlers[pid].stage.reply, s.handlers[pid].stage.turn)
  {
    assert HandlerOk(s.books, s.db, pid, s.handlers[pid]);
  }

  lemma SendKeeps(s: State, m: Sent)
    requires Inv(s) && TurnOk(s.books, s.db.t, m.handler, m.reply, m.turn)
    ensures Inv(s.(sent := s.sent + [m]))
  {}

  lemma CrashKeeps(s: State, pid: nat)
    requires Inv(s)
    ensures Inv(s.(handlers := s.handlers - {pid}, db := I.Crashed(s.db, pid)))
  {
    I.CrashedKeeps(s.db, pid);
    var dc := I.Crashed(s.db, pid);
    HandlersOkGrow(s.books, s.books, s.db, dc, s.handlers - {pid});
  }

  lemma StepKeeps(s: State, e: Event, ttl: nat)
    requires Inv(s)
    ensures Inv(Step(s, e, ttl))
  {
    match e
    case OpenRoot(uuid, bind, input, extras, ids) => OpenRootKeeps(s, uuid, bind, input, extras, ids, ttl);
    case Claim(pid, id, bind, option, leaseMs) => ClaimHandlerKeeps(s, pid, id, bind, option, leaseMs);
    case Pipeline(pid, m) => PipelineKeeps(s, pid, m);
    case AfterOrder(pid) => AfterOrderKeeps(s, pid);
    case OpenSuccessor(pid, ids) => OpenSuccessorKeeps(s, pid, ids, ttl);
    case PeekSuccessor(pid) => PeekSuccessorKeeps(s, pid);
    case AfterTurn(pid) => AfterTurnKeeps(s, pid);
    case Complete(pid) => CompleteHandlerKeeps(s, pid);
    case Crash(pid) => CrashKeeps(s, pid);
    case Pass(delta) => PassTimeKeeps(s, delta);
    case Cleanup => CleanupKeeps(s);
  }

  lemma {:induction false} RunKeeps(s: State, es: seq<Event>, ttl: nat)
    requires Inv(s)
    ensures Inv(Run(s, es, ttl))
    decreases |es|
  {
    if es != [] {
      StepKeeps(s, es[0], ttl);
      RunKeeps(Step(s, es[0], ttl), es[1..], ttl);
    }
  }

  lemma Reachable(es: seq<Event>, ttl: nat)
    ensures Inv(Run(INITIAL, es, ttl))
  {
    RunKeeps(INITIAL, es, ttl);
  }

  // ------------------------------------------------------------ theorems

  /** Commits `i` and `j` lie a whole idempotency retention apart. */
  ghost predicate RetentionApart(t: I.Table, i: nat, j: nat)
    requires i < |t.commits| && t.commits[i].attemptId < |t.births|
    requires j < |t.commits| && t.commits[j].attemptId < |t.births|
  {
    t.births[t.commits[i].attemptId].stampedAt + I.RETENTION_MS <= t.births[t.commits[j].attemptId].bornAt
  }

  lemma CommitsWellFormed(s: State)
    requires Inv(s)
    ensures forall i :: 0 <= i < |s.db.t.commits| ==>
              && s.db.t.commits[i].attemptId < |s.db.t.births|
              && RequestOk(s.books, I.Request(s.db.t.commits[i].key, s.db.t.commits[i].payload))
  {
    forall i | 0 <= i < |s.db.t.commits|
      ensures s.db.t.commits[i].attemptId < |s.db.t.births|
      ensures RequestOk(s.books, I.Request(s.db.t.commits[i].key, s.db.t.commits[i].payload))
    {
      assert I.CommitOk(s.db.t, s.db.t.commits[i]);
      var birth := s.db.t.births[s.db.t.commits[i].attemptId];
      assert RequestOk(s.books, I.Request(birth.key, birth.payload));
    }
  }

  /** At most one order of a choice in each retention: over every run, with any clients,
      options, stalls, crashes, retries, expiries and reopened successors, two orders
      committed for one choice are reserved at least 48 hours apart, and so are two
      recorded turns. When there is only one over a whole run is settled in
      `ChoiceSchedules.OneOrderExactly`. */
  lemma AtMostOneOrderPerChoice(es: seq<Event>, ttl: nat, i: nat, j: nat)
    requires i < j < |Run(INITIAL, es, ttl).db.t.commits|
    requires var t := Run(INITIAL, es, ttl).db.t;
             && t.commits[i].key.action == t.commits[j].key.action
             && t.commits[i].key.key.choiceId == t.commits[j].key.key.choiceId
    ensures var t := Run(INITIAL, es, ttl).db.t;
            && t.commits[i].attemptId < |t.births| && t.commits[j].attemptId < |t.births|
            && RetentionApart(t, i, j)
  {
    Reachable(es, ttl);
    var s := Run(INITIAL, es, ttl);
    CommitsWellFormed(s);
    assert RequestOk(s.books, I.Request(s.db.t.commits[i].key, s.db.t.commits[i].payload));
    assert RequestOk(s.books, I.Request(s.db.t.commits[j].key, s.db.t.commits[j].payload));
    assert I.Apart(s.db.t, i, j);
  }

  /** Every committed order is the stored canonical input of a life of its choice,
      patched with that life's first-claimed option; with the record never reopened
      there is only one such life. */
  lemma OrdersArePatchedClaims(es: seq<Event>, ttl: nat, i: nat)
    requires i < |Run(INITIAL, es, ttl).db.t.commits|
    requires Run(INITIAL, es, ttl).db.t.commits[i].key.action == I.CreateOrder
    ensures var s := Run(INITIAL, es, ttl);
            var c := s.db.t.commits[i];
            var id := c.key.key.choiceId;
            && Known(s.books, id)
            && c.payload.OrderPayload?
            && (exists n :: 0 <= n < |s.books.lives[id]| && IsOrderOf(s.books.lives[id][n], c.payload.input))
            && (|s.books.lives[id]| == 1 ==> IsOrderOf(s.books.lives[id][0], c.payload.input))
  {
    Reachable(es, ttl);
    var s := Run(INITIAL, es, ttl);
    CommitsWellFormed(s);
    var c := s.db.t.commits[i];
    assert RequestOk(s.books, I.Request(c.key, c.payload));
  }

  /** A `completed` reply names an order committed for that very choice and claimed
      option, and the conversation holds the turn that says so. */
  lemma CompletedRepliesNameTheOrder(es: seq<Event>, ttl: nat, n: nat)
    requires n < |Run(INITIAL, es, ttl).sent| && Run(INITIAL, es, ttl).sent[n].reply.Done?
    ensures var s := Run(INITIAL, es, ttl);
            var m := s.sent[n];
            && m.handler.option in m.handler.record.optionMap
            && m.reply.order < |s.db.t.commits| && m.turn < |s.db.t.commits|
            && s.db.t.commits[m.reply.order].key == OrderKey(m.handler.bind, m.handler.choiceId)
            && s.db.t.commits[m.reply.order].payload == I.OrderPayload(Patched(m.handler.record, m.handler.option))
            && s.db.t.commits[m.turn].payload
                 == I.TurnPayload(I.TurnSuccess, Some(m.handler.choiceId), I.OrderText(m.reply.order))
  {
    Reachable(es, ttl);
    var s := Run(INITIAL, es, ttl);
    assert TurnOk(s.books, s.db.t, s.sent[n].handler, s.sent[n].reply, s.sent[n].turn);
  }

  /** What the conversation is told by two settled replies: the same order, the same refusal, or the
      same successor in the same words. */
  ghost predicate SameTurn(a: Reply, b: Reply) {
    match (a, b)
    case (Done(x), Done(y)) => x == y
    case (NeedsChoice(x), NeedsChoice(y)) => x.choiceId == y.choiceId && PickerText(x) == PickerText(y)
    case (Refused(x), Refused(y)) => x == y
    case (_, _) => false
  }

  /** All settled replies to one choice tell the conversation the same thing, whichever client,
      retry or process sent them, unless the turns behind them lie a whole retention apart. The
      option ids on two cards may still differ (`ChoiceCards.TwoCards`). */
  lemma SettledRepliesAgree(es: seq<Event>, ttl: nat, m: nat, n: nat)
    requires m < |Run(INITIAL, es, ttl).sent| && n < |Run(INITIAL, es, ttl).sent|
    requires Run(INITIAL, es, ttl).sent[m].handler.choiceId == Run(INITIAL, es, ttl).sent[n].handler.choiceId
    ensures var s := Run(INITIAL, es, ttl);
            var t := s.db.t;
            var x, y := s.sent[m].turn, s.sent[n].turn;
            && x < |t.commits| && y < |t.commits|
            && t.commits[x].attemptId < |t.births| && t.commits[y].attemptId < |t.births|
            && (SameTurn(s.sent[m].reply, s.sent[n].reply) || RetentionApart(t, x, y) || RetentionApart(t, y, x))
  {
    Reachable(es, ttl);
    var s := Run(INITIAL, es, ttl);
    var t := s.db.t;
    CommitsWellFormed(s);
    var x, y := s.sent[m].turn, s.sent[n].turn;
    assert TurnOk(s.books, t, s.sent[m].handler, s.sent[m].reply, x);
    assert TurnOk(s.books, t, s.sent[n].handler, s.sent[n].reply, y);
    if x < y { assert I.Apart(t, x, y); }
    if y < x { assert I.Apart(t, y, x); }
  }

  /** A `needs_choice` reply shows the deterministic successor, whose every option the
      store will accept a claim for. */
  lemma NeedsChoiceOffersClaimableOptions(es: seq<Event>, ttl: nat, n: nat, k: nat)
    requires n < |Run(INITIAL, es, ttl).sent| && Run(INITIAL, es, ttl).sent[n].reply.NeedsChoice?
    requires k < |Run(INITIAL, es, ttl).sent[n].reply.next.card|
    ensures var m := Run(INITIAL, es, ttl).sent[n];
            && m.reply.next.choiceId == SuccessorOf(m.handler.choiceId)
            && m.reply.next.bind == m.handler.bind
            && m.reply.next.card[k].id in m.reply.next.optionMap
  {
    Reachable(es, ttl);
    var s := Run(INITIAL, es, ttl);
    assert TurnOk(s.books, s.db.t, s.sent[n].handler, s.sent[n].reply, s.sent[n].turn);
  }
}
