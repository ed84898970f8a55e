/** When the orders of one choice are reserved, and why there is only one of them. */
module ChoiceTiming {
  // apps/api/src/http/assistant-choice.ts with the 15-minute records of packages/ai/src/choice.ts:27
  // and the 48-hour keys of packages/core/src/runtime/idempotency/create-idempotency-hook.ts. A record
  // expires long before the key of its order does, but nothing stops a handler that has claimed it
  // from reserving that key again much later. The delays of handlers are made explicit here.

  import opened Options
  import opened ChoiceDomain
  import opened ChoiceStore
  import opened Protocol = ChoiceResume
  import I = Idempotency

  /** How often a choice was narrowed down before: 0 for a first card. */
  function Depth(id: ChoiceId): nat {
    match id
    case Minted(_) => 0
    case SuccessorOf(p) => Depth(p) + 1
  }

  /** The longest delays of handlers, in milliseconds from their claim: to the last
      reservation they make for `action`, and to the opening of a successor. */
  datatype Delays = Delays(action: I.Action, reserve: nat, successor: nat)

  /** The stage in which a handler has the action in the pipeline. */
  predicate Does(stage: Stage, action: I.Action) {
    match action
    case CreateOrder => stage == Ordering
    case RecordTurn => stage.Recording?
  }

  /** A handler reserves for `action` at most `delay` ms after its claim. */
  ghost predicate ReserveInTime(s: State, e: Event, ttl: nat, action: I.Action, delay: nat) {
    e.Pipeline? && e.pid in s.handlers && Does(s.handlers[e.pid].stage, action)
    && |Protocol.Step(s, e, ttl).db.t.births| > |s.db.t.births| ==>
      s.db.t.now <= s.handlers[e.pid].claimedAt + delay
  }

  /** A successor is opened at most `delay` ms after the claim of its parent. */
  ghost predicate SuccessorInTime(s: State, e: Event, delay: nat) {
    e.OpenSuccessor? && e.pid in s.handlers ==> s.db.t.now <= s.handlers[e.pid].claimedAt + delay
  }

  ghost predicate InTime(s: State, e: Event, ttl: nat, d: Delays) {
    ReserveInTime(s, e, ttl, d.action, d.reserve) && SuccessorInTime(s, e, d.successor)
  }

  ghost predicate RunInTime(s: State, es: seq<Event>, ttl: nat, d: Delays)
    decreases |es|
  {
    es == [] || (InTime(s, es[0], ttl, d) && RunInTime(Protocol.Step(s, es[0], ttl), es[1..], ttl, d))
  }

  ghost predicate ReservesInTime(s: State, es: seq<Event>, ttl: nat, action: I.Action, delay: nat)
    decreases |es|
  {
    es == []
    || (ReserveInTime(s, es[0], ttl, action, delay)
        && ReservesInTime(Protocol.Step(s, es[0], ttl), es[1..], ttl, action, delay))
  }

  /** How long after its first opening a choice can be opened again. A first card is
      opened once; a successor is reopened by each late handler of its parent, unless
      it is always opened at once, when its first opening outlives every such handler. */
  function Slack(ttl: nat, d: Delays, depth: nat): int {
    if d.successor == 0 || depth == 0 then 0 else Slack(ttl, d, depth - 1) + (ttl - 1 + d.successor)
  }

  /** The longest time from the first opening of a choice to a reservation for it. */
  function Span(ttl: nat, d: Delays, depth: nat): int {
    Slack(ttl, d, depth) + (ttl - 1 + d.reserve)
  }

  // ------------------------------------------------------------ the invariant

  function OpenOf(life: Life, ttl: nat): int {
    life.expiresAt - ttl
  }

  ghost function FirstOpen(b: Books, id: ChoiceId, ttl: nat): int
    requires Known(b, id)
  {
    OpenOf(b.lives[id][0], ttl)
  }

  ghost predicate LifeTimed(b: Books, id: ChoiceId, life: Life, ttl: nat, d: Delays)
    requires Known(b, id)
  {
    ttl > 0 && FirstOpen(b, id, ttl) <= OpenOf(life, ttl) <= FirstOpen(b, id, ttl) + Slack(ttl, d, Depth(id))
  }

  ghost predicate LivesTimed(b: Books, ttl: nat, d: Delays) {
    forall id, n :: Known(b, id) && 0 <= n < |b.lives[id]| ==>
      OpenOf(b.lives[id][n], ttl) <= b.now && LifeTimed(b, id, b.lives[id][n], ttl, d)
  }

  /** An unexpired life is live. */
  ghost predicate RunningIsLive(b: Books, id: ChoiceId)
    requires Known(b, id)
  {
    b.now < LastLife(b, id).expiresAt ==> id in b.view
  }

  /** A successor is not opened before its parent. */
  ghost predicate AfterParent(b: Books, p: ChoiceId, ttl: nat)
    requires Known(b, SuccessorOf(p))
  {
    Known(b, p) && FirstOpen(b, p, ttl) <= FirstOpen(b, SuccessorOf(p), ttl)
  }

  ghost predicate BooksTimed(b: Books, ttl: nat, d: Delays) {
    && (forall id :: id in b.lives ==> Known(b, id))
    && LivesTimed(b, ttl, d)
    && (forall id :: Known(b, id) ==> RunningIsLive(b, id))
    && (forall p :: Known(b, SuccessorOf(p)) ==> AfterParent(b, p, ttl))
  }

  /** The handler claimed its life while that life was running. */
  ghost predicate HandlerTimed(b: Books, h: Handler, ttl: nat) {
    && Known(b, h.choiceId) && h.life < |b.lives[h.choiceId]|
    && h.claimedAt <= b.now
    && OpenOf(b.lives[h.choiceId][h.life], ttl) <= h.claimedAt < b.lives[h.choiceId][h.life].expiresAt
  }

  ghost predicate HandlersTimed(b: Books, handlers: map<nat, Handler>, ttl: nat) {
    forall pid :: pid in handlers ==> HandlerTimed(b, handlers[pid], ttl)
  }

  /** Every reservation is stamped at or after the first opening of its choice; one for
      the action whose delay is known is written within the span. */
  ghost predicate BirthTimed(b: Books, birth: I.Birth, ttl: nat, d: Delays) {
    var id := birth.key.key.choiceId;
    && Known(b, id)
    && FirstOpen(b, id, ttl) <= birth.stampedAt
    && (birth.key.action == d.action ==> birth.bornAt <= FirstOpen(b, id, ttl) + Span(ttl, d, Depth(id)))
  }

  ghost predicate BirthsTimed(b: Books, t: I.Table, ttl: nat, d: Delays) {
    forall a :: 0 <= a < |t.births| ==> BirthTimed(b, t.births[a], ttl, d)
  }

  /** A clock reading that a caller will stamp a reservation with is no older either. */
  ghost predicate AttemptTimed(b: Books, a: I.Attempt, ttl: nat) {
    var id := a.request.key.key.choiceId;
    && Known(b, id)
    && (a.phase.Inserting? ==> FirstOpen(b, id, ttl) <= a.phase.nowMs)
    && (a.phase.TakingOver? ==> FirstOpen(b, id, ttl) <= a.phase.at)
  }

  ghost predicate AttemptsTimed(b: Books, db: I.Db, ttl: nat) {
    forall pid :: pid in db.attempts ==> AttemptTimed(b, db.attempts[pid], ttl)
  }

  /** Only a handler in the stage for it has an action in flight. */
  ghost predicate Owned(a: I.Attempt, pid: nat, handlers: map<nat, Handler>) {
    !a.phase.Returned? ==> pid in handlers && Does(handlers[pid].stage, a.request.key.action)
  }

  ghost predicate AllOwned(db: I.Db, handlers: map<nat, Handler>) {
    forall pid :: pid in db.attempts ==> Owned(db.attempts[pid], pid, handlers)
  }

  ghost predicate Timed(s: State, ttl: nat, d: Delays) {
    && s.books.now == s.db.t.now
    && BooksTimed(s.books, ttl, d)
    && HandlersTimed(s.books, s.handlers, ttl)
    && BirthsTimed(s.books, s.db.t, ttl, d)
    && AttemptsTimed(s.books, s.db, ttl)
    && AllOwned(s.db, s.handlers)
  }

  // ------------------------------------------------------------ preservation

  lemma FirstOpenStays(b: Books, c: Books, id: ChoiceId, ttl: nat)
    requires LivesGrow(b, c) && Known(b, id)
    ensures Known(c, id) && FirstOpen(c, id, ttl) == FirstOpen(b, id, ttl)
  {
    assert LifeGrows(b.lives[id][0], c.lives[id][0]);
  }

  lemma HandlerTimedGrows(b: Books, c: Books, h: Handler, ttl: nat)
    requires LivesGrow(b, c) && b.now <= c.now && HandlerTimed(b, h, ttl)
    ensures HandlerTimed(c, h, ttl)
  {
    assert LifeGrows(b.lives[h.choiceId][h.life], c.lives[h.choiceId][h.life]);
  }

  lemma BirthTimedGrows(b: Books, c: Books, birth: I.Birth, ttl: nat, d: Delays)
    requires LivesGrow(b, c) && BirthTimed(b, birth, ttl, d)
    ensures BirthTimed(c, birth, ttl, d)
  {
    FirstOpenStays(b, c, birth.key.key.choiceId, ttl);
  }

  lemma AttemptTimedGrows(b: Books, c: Books, a: I.Attempt, ttl: nat)
    requires LivesGrow(b, c) && AttemptTimed(b, a, ttl)
    ensures AttemptTimed(c, a, ttl)
  {
    FirstOpenStays(b, c, a.request.key.key.choiceId, ttl);
  }

  /** A step that moves the store on, and perhaps the clock. */
  lemma BooksMoveTimed(b: Books, c: Books, db: I.Db, handlers: map<nat, Handler>, ttl: nat, d: Delays)
    requires LivesGrow(b, c) && b.now <= c.now
    requires HandlersTimed(b, handlers, ttl) && BirthsTimed(b, db.t, ttl, d) && AttemptsTimed(b, db, ttl)
    ensures HandlersTimed(c, handlers, ttl) && BirthsTimed(c, db.t, ttl, d) && AttemptsTimed(c, db, ttl)
  {
    forall pid | pid in handlers ensures HandlerTimed(c, handlers[pid], ttl) {
      HandlerTimedGrows(b, c, handlers[pid], ttl);
    }
    forall a | 0 <= a < |db.t.births| ensures BirthTimed(c, db.t.births[a], ttl, d) {
      BirthTimedGrows(b, c, db.t.births[a], ttl, d);
    }
    forall pid | pid in db.attempts ensures AttemptTimed(c, db.attempts[pid], ttl) {
      AttemptTimedGrows(b, c, db.attempts[pid], ttl);
    }
  }

  lemma AfterParentStays(b: Books, c: Books, p: ChoiceId, ttl: nat)
    requires LivesGrow(b, c) && Known(b, SuccessorOf(p)) && AfterParent(b, p, ttl)
    ensures Known(c, SuccessorOf(p)) && AfterParent(c, p, ttl)
  {
    FirstOpenStays(b, c, p, ttl);
    FirstOpenStays(b, c, SuccessorOf(p), ttl);
  }

  lemma LifeTimedStays(b: Books, c: Books, id: ChoiceId, n: nat, ttl: nat, d: Delays)
    requires LivesGrow(b, c) && b.now <= c.now && Known(b, id) && n < |b.lives[id]|
    requires OpenOf(b.lives[id][n], ttl) <= b.now && LifeTimed(b, id, b.lives[id][n], ttl, d)
    ensures Known(c, id) && n < |c.lives[id]|
    ensures OpenOf(c.lives[id][n], ttl) <= c.now && LifeTimed(c, id, c.lives[id][n], ttl, d)
  {
    FirstOpenStays(b, c, id, ttl);
    assert LifeGrows(b.lives[id][n], c.lives[id][n]);
  }

  lemma RunningStaysLive(b: Books, c: Books, id: ChoiceId)
    requires LivesGrow(b, c) && b.now <= c.now && Known(b, id) && |c.lives[id]| == |b.lives[id]|
    requires RunningIsLive(b, id)
    requires id in b.view && c.now < LastLife(b, id).expiresAt ==> id in c.view
    ensures Known(c, id) && RunningIsLive(c, id)
  {
    assert LifeGrows(b.lives[id][|b.lives[id]| - 1], c.lives[id][|b.lives[id]| - 1]);
  }

  /** A step that changes no opening: a claim, a completion, the clock. */
  lemma SameOpeningsTimed(b: Books, c: Books, ttl: nat, d: Delays)
    requires BooksTimed(b, ttl, d) && LivesGrow(b, c) && b.now <= c.now
    requires c.lives.Keys == b.lives.Keys && forall id :: id in b.lives ==> |c.lives[id]| == |b.lives[id]|
    requires forall id :: Known(b, id) && id in b.view && c.now < LastLife(b, id).expiresAt ==> id in c.view
    ensures BooksTimed(c, ttl, d)
  {
    forall id, n | Known(c, id) && 0 <= n < |c.lives[id]|
      ensures OpenOf(c.lives[id][n], ttl) <= c.now && LifeTimed(c, id, c.lives[id][n], ttl, d)
    {
      assert Known(b, id);
      LifeTimedStays(b, c, id, n, ttl, d);
    }
    forall id | Known(c, id) ensures RunningIsLive(c, id) {
      assert Known(b, id);
      RunningStaysLive(b, c, id);
    }
    forall p | Known(c, SuccessorOf(p)) ensures AfterParent(c, p, ttl) {
      assert Known(b, SuccessorOf(p));
      AfterParentStays(b, c, p, ttl);
    }
  }

  lemma OpenGrows(b: Books, r: Record, ttl: nat)
    ensures LivesGrow(b, OpenStep(b, r, ttl))
  {}

  /** Opening a record that is not too late for its family. */
  lemma OpenTimed(b: Books, r: Record, ttl: nat, d: Delays)
    requires BooksTimed(b, ttl, d)
    requires r.choiceId in b.lives && r.choiceId !in b.view ==>
               b.now <= FirstOpen(b, r.choiceId, ttl) + Slack(ttl, d, Depth(r.choiceId))
    requires r.choiceId.SuccessorOf? ==> Known(b, r.choiceId.parent)
    ensures BooksTimed(OpenStep(b, r, ttl), ttl, d)
  {
    var c := OpenStep(b, r, ttl);
    if c != b {
      OpenGrows(b, r, ttl);
      OpenLivesTimed(b, r, ttl, d);
      forall id | Known(c, id) ensures RunningIsLive(c, id) {
        if id != r.choiceId {
          assert Known(b, id) && RunningIsLive(b, id);
        }
      }
      forall p | Known(c, SuccessorOf(p)) ensures AfterParent(c, p, ttl) {
        if Known(b, SuccessorOf(p)) { AfterParentStays(b, c, p, ttl); }
        else { NewChildIsLater(b, r, p, ttl, d); }
      }
    }
  }

  lemma NewLifeTimed(b: Books, r: Record, ttl: nat, d: Delays)
    requires BooksTimed(b, ttl, d) && OpenStep(b, r, ttl) != b
    requires r.choiceId in b.lives ==> b.now <= FirstOpen(b, r.choiceId, ttl) + Slack(ttl, d, Depth(r.choiceId))
    ensures var c := OpenStep(b, r, ttl);
            Known(c, r.choiceId) && LifeTimed(c, r.choiceId, LastLife(c, r.choiceId), ttl, d)
            && OpenOf(LastLife(c, r.choiceId), ttl) == c.now
  {
    SlackIsNat(ttl, d, Depth(r.choiceId));
    if r.choiceId in b.lives {
      assert Known(b, r.choiceId);
      assert LifeTimed(b, r.choiceId, b.lives[r.choiceId][0], ttl, d);
    }
  }

  lemma OpenLivesTimed(b: Books, r: Record, ttl: nat, d: Delays)
    requires BooksTimed(b, ttl, d) && OpenStep(b, r, ttl) != b
    requires r.choiceId in b.lives ==> b.now <= FirstOpen(b, r.choiceId, ttl) + Slack(ttl, d, Depth(r.choiceId))
    ensures LivesTimed(OpenStep(b, r, ttl), ttl, d)
  {
    var c := OpenStep(b, r, ttl);
    OpenGrows(b, r, ttl);
    forall id, n | Known(c, id) && 0 <= n < |c.lives[id]|
      ensures OpenOf(c.lives[id][n], ttl) <= c.now && LifeTimed(c, id, c.lives[id][n], ttl, d)
    {
      if Known(b, id) && n < |b.lives[id]| { LifeTimedStays(b, c, id, n, ttl, d); }
      else { NewLifeTimed(b, r, ttl, d); }
    }
  }

  lemma NewChildIsLater(b: Books, r: Record, p: ChoiceId, ttl: nat, d: Delays)
    requires BooksTimed(b, ttl, d) && r.choiceId == SuccessorOf(p) && !Known(b, r.choiceId) && Known(b, p)
    requires OpenStep(b, r, ttl) != b
    ensures Known(OpenStep(b, r, ttl), r.choiceId) && AfterParent(OpenStep(b, r, ttl), p, ttl)
  {
    OpenGrows(b, r, ttl);
    FirstOpenStays(b, OpenStep(b, r, ttl), p, ttl);
    assert LifeTimed(b, p, b.lives[p][0], ttl, d);
  }

  lemma {:induction false} SlackIsNat(ttl: nat, d: Delays, depth: nat)
    ensures Slack(ttl, d, depth) >= 0
  {
    if d.successor != 0 && depth != 0 { SlackIsNat(ttl, d, depth - 1); }
  }

  // ------------------------------------------------------------ the store's steps

  lemma OpenRootTimed(s: State, uuid: nat, bind: Bind, input: OrderInput, extras: Extras, ids: seq<string>,
                      ttl: nat, d: Delays)
    requires Timed(s, ttl, d)
    ensures Timed(DoOpenRoot(s, uuid, bind, input, extras, ids, ttl), ttl, d)
  {
    if Minted(uuid) !in s.books.lives && |ids| >= |Capped(extras.options)| {
      var r := RecordFromConflict(Minted(uuid), bind, input, extras, ids);
      if r.Some? {
        OpenedTimed(s, r.value, ttl, d);
      }
    }
  }

  /** A handler opens a successor in time for what is known of that successor. */
  lemma SuccessorIsInTime(b: Books, h: Handler, ttl: nat, d: Delays)
    requires BooksTimed(b, ttl, d) && HandlerTimed(b, h, ttl)
    requires b.now <= h.claimedAt + d.successor
    requires SuccessorOf(h.choiceId) in b.lives && SuccessorOf(h.choiceId) !in b.view
    ensures b.now <= FirstOpen(b, SuccessorOf(h.choiceId), ttl) + Slack(ttl, d, Depth(SuccessorOf(h.choiceId)))
  {
    var next := SuccessorOf(h.choiceId);
    assert LifeTimed(b, h.choiceId, b.lives[h.choiceId][h.life], ttl, d);
    assert FirstOpen(b, h.choiceId, ttl) <= FirstOpen(b, next, ttl);
    assert Depth(next) == Depth(h.choiceId) + 1;
    assert RunningIsLive(b, next);
    var n := |b.lives[next]| - 1;
    assert LifeTimed(b, next, b.lives[next][n], ttl, d);
  }

  lemma StageTimed(s: State, pid: nat, stage: Stage, ttl: nat, d: Delays)
    requires Timed(s, ttl, d) && pid in s.handlers
    requires s.handlers[pid].stage != Ordering && !s.handlers[pid].stage.Recording?
    ensures Timed(SetStage(s, pid, stage), ttl, d)
  {
    var c := SetStage(s, pid, stage);
    forall p | p in c.handlers ensures HandlerTimed(c.books, c.handlers[p], ttl) {
      assert HandlerTimed(s.books, s.handlers[p], ttl);
    }
    forall p | p in c.db.attempts ensures Owned(c.db.attempts[p], p, c.handlers) {
      assert Owned(s.db.attempts[p], p, s.handlers);
    }
  }

  /** Opening a record while handlers and database stand still. */
  lemma OpenedTimed(s: State, r: Record, ttl: nat, d: Delays)
    requires Timed(s, ttl, d)
    requires r.choiceId in s.books.lives && r.choiceId !in s.books.view ==>
               s.books.now <= FirstOpen(s.books, r.choiceId, ttl) + Slack(ttl, d, Depth(r.choiceId))
    requires r.choiceId.SuccessorOf? ==> Known(s.books, r.choiceId.parent)
    ensures Timed(s.(books := OpenStep(s.books, r, ttl)), ttl, d)
  {
    OpenTimed(s.books, r, ttl, d);
    OpenGrows(s.books, r, ttl);
    BooksMoveTimed(s.books, OpenStep(s.books, r, ttl), s.db, s.handlers, ttl, d);
  }

  lemma OpenSuccessorTimed(s: State, pid: nat, ids: seq<string>, ttl: nat, d: Delays)
    requires Timed(s, ttl, d) && InTime(s, OpenSuccessor(pid, ids), ttl, d)
    ensures Timed(DoOpenSuccessor(s, pid, ids, ttl), ttl, d)
  {
    if pid in s.handlers && s.handlers[pid].stage.OpeningSuccessor? {
      var h := s.handlers[pid];
      assert HandlerTimed(s.books, h, ttl);
      if SuccessorOf(h.choiceId) in s.books.lives && SuccessorOf(h.choiceId) !in s.books.view {
        SuccessorIsInTime(s.books, h, ttl, d);
      }
      if h.option in h.record.optionMap && |ids| >= |Capped(h.stage.extras.options)| {
        var next := RecordFromConflict(
          SuccessorOf(h.choiceId), h.record.bind, Patched(h.record, h.option), h.stage.extras, ids);
        if next.Some? {
          assert next.value.choiceId == SuccessorOf(h.choiceId);
          OpenedTimed(s, next.value, ttl, d);
          StageTimed(s.(books := OpenStep(s.books, next.value, ttl)), pid, PeekingSuccessor, ttl, d);
        }
      }
    }
  }

  /** A step of the store that opens nothing. */
  lemma StoreTimed(s: State, c: Books, ttl: nat, d: Delays)
    requires Timed(s, ttl, d) && LivesGrow(s.books, c) && c.now == s.books.now
    requires c.lives.Keys == s.books.lives.Keys
    requires forall id :: id in s.books.lives ==> |c.lives[id]| == |s.books.lives[id]|
    requires c.view.Keys == s.books.view.Keys
    ensures Timed(s.(books := c), ttl, d)
  {
    SameOpeningsTimed(s.books, c, ttl, d);
    BooksMoveTimed(s.books, c, s.db, s.handlers, ttl, d);
  }

  lemma ClaimOpensNothing(b: Books, id: ChoiceId, bind: Bind, option: string)
    requires Consistent(b)
    ensures var c := ClaimStep(b, id, bind, option);
            && LivesGrow(b, c) && c.now == b.now && c.view.Keys == b.view.Keys
            && c.lives.Keys == b.lives.Keys && forall k :: k in b.lives ==> |c.lives[k]| == |b.lives[k]|
  {
    ClaimKeeps(b, id, bind, option);
  }

  lemma CompleteOpensNothing(b: Books, id: ChoiceId, bind: Bind, option: string)
    requires Consistent(b)
    ensures var c := CompleteStep(b, id, bind, option);
            && LivesGrow(b, c) && c.now == b.now && c.view.Keys == b.view.Keys
            && c.lives.Keys == b.lives.Keys && forall k :: k in b.lives ==> |c.lives[k]| == |b.lives[k]|
  {
    CompleteKeeps(b, id, bind, option);
  }

  lemma PassTimed(s: State, delta: nat, ttl: nat, d: Delays)
    requires Protocol.Inv(s) && Timed(s, ttl, d)
    ensures Timed(Protocol.Step(s, Pass(delta), ttl), ttl, d)
  {
    var c := PassStep(s.books, delta);
    PassKeeps(s.books, delta);
    ViewExpiry(s.books);
    SameOpeningsTimed(s.books, c, ttl, d);
    BooksMoveTimed(s.books, c, s.db, s.handlers, ttl, d);
  }

  lemma ViewExpiry(b: Books)
    requires Consistent(b)
    ensures forall id :: Known(b, id) && id in b.view ==> b.view[id].expiresAt == LastLife(b, id).expiresAt
  {}

  lemma CompleteTimed(s: State, pid: nat, ttl: nat, d: Delays)
    requires Protocol.Inv(s) && Timed(s, ttl, d)
    ensures Timed(DoComplete(s, pid), ttl, d)
  {
    if pid in s.handlers && s.handlers[pid].stage.Completing? {
      var h := s.handlers[pid];
      var c := CompleteStep(s.books, h.choiceId, h.bind, h.option);
      CompleteOpensNothing(s.books, h.choiceId, h.bind, h.option);
      StoreTimed(s, c, ttl, d);
      StageTimed(s.(books := c), pid, Ended, ttl, d);
    }
  }

  // ------------------------------------------------------------ claims and calls

  /** An action that a handler starts: of its choice, and in the stage for it. */
  lemma CallTimed(s: State, pid: nat, h: Handler, r: I.Request, ttl: nat, d: Delays)
    requires Timed(s, ttl, d)
    requires HandlerTimed(s.books, h, ttl) && Known(s.books, r.key.key.choiceId)
    requires Does(h.stage, r.key.action)
    requires pid in s.db.attempts ==> s.db.attempts[pid].phase.Returned?
    ensures Timed(s.(handlers := s.handlers[pid := h], db := I.Called(s.db, pid, r, h.leaseMs)), ttl, d)
  {
    var c := s.(handlers := s.handlers[pid := h], db := I.Called(s.db, pid, r, h.leaseMs));
    forall p | p in c.db.attempts
      ensures AttemptTimed(c.books, c.db.attempts[p], ttl) && Owned(c.db.attempts[p], p, c.handlers)
    {
      if p != pid {
        assert AttemptTimed(s.books, s.db.attempts[p], ttl) && Owned(s.db.attempts[p], p, s.handlers);
      }
    }
  }

  lemma ClaimTimed(s: State, pid: nat, id: ChoiceId, bind: Bind, option: string, leaseMs: nat, ttl: nat, d: Delays)
    requires Protocol.Inv(s) && Timed(s, ttl, d)
    ensures Timed(DoClaim(s, pid, id, bind, option, leaseMs), ttl, d)
  {
    if pid in s.handlers || pid in s.db.attempts { return; }
    var decision := ClaimDecide(s.books.view, id, bind, option);
    var c := ClaimStep(s.books, id, bind, option);
    ClaimOpensNothing(s.books, id, bind, option);
    StoreTimed(s, c, ttl, d);
    if (decision.ClaimWon? || decision.ClaimReplay?) && option in decision.record.optionMap && LivesOf(c, id) != [] {
      var h := Handler(id, bind, option, decision.record, |LivesOf(c, id)| - 1, leaseMs, s.books.now, Ordering);
      LiveLifeRuns(s.books, id);
      assert Known(c, id);
      ClaimIsWhileRunning(s.books, c, h, ttl, d);
      CallTimed(s.(books := c), pid, h, OrderRequest(h), ttl, d);
    }
  }

  lemma LiveLifeRuns(b: Books, id: ChoiceId)
    requires Consistent(b) && id in b.view
    ensures Known(b, id) && b.now < LastLife(b, id).expiresAt
  {}

  /** A claim is made in the running life. */
  lemma ClaimIsWhileRunning(b: Books, c: Books, h: Handler, ttl: nat, d: Delays)
    requires LivesTimed(b, ttl, d) && LivesGrow(b, c) && c.now == b.now
    requires Known(b, h.choiceId) && b.now < LastLife(b, h.choiceId).expiresAt
    requires Known(c, h.choiceId) && |c.lives[h.choiceId]| == |b.lives[h.choiceId]|
    requires h.life == |c.lives[h.choiceId]| - 1 && h.claimedAt == b.now
    ensures HandlerTimed(c, h, ttl)
  {
    assert OpenOf(b.lives[h.choiceId][h.life], ttl) <= b.now;
    assert LifeGrows(b.lives[h.choiceId][h.life], c.lives[h.choiceId][h.life]);
  }

  lemma RecordingTimed(s: State, pid: nat, reply: Reply, ttl: nat, d: Delays)
    requires Timed(s, ttl, d) && pid in s.handlers
    requires pid in s.db.attempts && s.db.attempts[pid].phase.Returned?
    ensures Timed(StartRecording(s, pid, reply), ttl, d)
  {
    var h := s.handlers[pid].(stage := Recording(reply));
    assert HandlerTimed(s.books, s.handlers[pid], ttl);
    CallTimed(s, pid, h, TurnRequest(h, reply), ttl, d);
  }

  /** A handler that leaves its stage once its action has returned. */
  lemma LeaveTimed(s: State, pid: nat, stage: Stage, ttl: nat, d: Delays)
    requires Timed(s, ttl, d) && pid in s.handlers
    requires pid in s.db.attempts && s.db.attempts[pid].phase.Returned?
    ensures Timed(SetStage(s, pid, stage), ttl, d)
  {
    var c := SetStage(s, pid, stage);
    forall p | p in c.handlers ensures HandlerTimed(c.books, c.handlers[p], ttl) {
      assert HandlerTimed(s.books, s.handlers[p], ttl);
    }
    forall p | p in c.db.attempts ensures Owned(c.db.attempts[p], p, c.handlers) {
      assert Owned(s.db.attempts[p], p, s.handlers);
    }
  }

  lemma FailureTimed(s: State, pid: nat, e: I.ActionError, ttl: nat, d: Delays)
    requires Timed(s, ttl, d) && pid in s.handlers
    requires pid in s.db.attempts && s.db.attempts[pid].phase.Returned?
    ensures Timed(AfterFailure(s, pid, e), ttl, d)
  {
    if e.Thrown? && e.picker.Some? && e.picker.value.options != [] {
      LeaveTimed(s, pid, OpeningSuccessor(e.picker.value), ttl, d);
    } else if e.Thrown? && e.referenceMessage.Some? {
      RecordingTimed(s, pid, Refused(e.referenceMessage.value), ttl, d);
    } else {
      LeaveTimed(s, pid, Ended, ttl, d);
    }
  }

  lemma AfterOrderTimed(s: State, pid: nat, ttl: nat, d: Delays)
    requires Timed(s, ttl, d)
    ensures Timed(DoAfterOrder(s, pid), ttl, d)
  {
    if pid in s.handlers && s.handlers[pid].stage == Ordering && pid in s.db.attempts
        && s.db.attempts[pid].phase.Returned? {
      match s.db.attempts[pid].phase.outcome
      case Success(order) => RecordingTimed(s, pid, Done(order), ttl, d);
      case Failure(e) => FailureTimed(s, pid, e, ttl, d);
    }
  }

  lemma PeekTimed(s: State, pid: nat, ttl: nat, d: Delays)
    requires Protocol.Inv(s) && Timed(s, ttl, d)
    ensures Timed(DoPeekSuccessor(s, pid), ttl, d)
  {
    if pid in s.handlers && s.handlers[pid].stage == PeekingSuccessor {
      HandlerClaim(s, pid);
      var h := s.handlers[pid];
      var found := PeekDecide(s.books.view, SuccessorOf(h.choiceId), h.record.bind);
      if found.PeekFound? { RecordingTimed(s, pid, NeedsChoice(found.record), ttl, d); }
      else { LeaveTimed(s, pid, Ended, ttl, d); }
    }
  }

  lemma AfterTurnTimed(s: State, pid: nat, ttl: nat, d: Delays)
    requires Timed(s, ttl, d)
    ensures Timed(DoAfterTurn(s, pid), ttl, d)
  {
    if pid in s.handlers && s.handlers[pid].stage.Recording? && pid in s.db.attempts
        && s.db.attempts[pid].phase.Returned? {
      var reply := s.handlers[pid].stage.reply;
      match s.db.attempts[pid].phase.outcome
      case Success(turn) => LeaveTimed(s, pid, Completing(reply, turn), ttl, d);
      case Failure(e) =>
        if reply.Done? { FailureTimed(s, pid, e, ttl, d); } else { LeaveTimed(s, pid, Ended, ttl, d); }
    }
  }

  lemma CrashTimed(s: State, pid: nat, ttl: nat, d: Delays)
    requires Timed(s, ttl, d)
    ensures Timed(Protocol.Step(s, Crash(pid), ttl), ttl, d)
  {
    var c := Protocol.Step(s, Crash(pid), ttl);
    forall p | p in c.db.attempts
      ensures AttemptTimed(c.books, c.db.attempts[p], ttl) && Owned(c.db.attempts[p], p, c.handlers)
    {
      assert AttemptTimed(s.books, s.db.attempts[p], ttl) && Owned(s.db.attempts[p], p, s.handlers);
    }
  }

  // ------------------------------------------------------------ the pipeline's steps

  /** The reservations that a move of `pid` adds are stamped with a reading of its own
      or with the stamp of the row it takes over. */
  lemma NewBirthStamp(db: I.Db, pid: nat, m: I.Move, open: int)
    requires I.Inv(db) && pid in db.attempts
    requires db.attempts[pid].phase.Inserting? ==> open <= db.attempts[pid].phase.nowMs
    requires db.attempts[pid].phase.TakingOver? ==> open <= db.attempts[pid].phase.at
    requires forall a :: 0 <= a < |db.t.births| && db.t.births[a].key == db.attempts[pid].request.key ==>
               open <= db.t.births[a].stampedAt
    ensures var c := I.DoMove(db, pid, m);
            forall a :: |db.t.births| <= a < |c.t.births| ==>
              open <= c.t.births[a].stampedAt && c.t.births[a].bornAt == db.t.now
  {
    var a := db.attempts[pid];
    if m.TakeOver? && a.phase.TakingOver? && I.Fenced(db.t, a.request.key, a.phase.observed, a.phase.at) {
      assert I.RowOk(db.t, a.request.key, db.t.rows[a.request.key]);
    }
  }

  /** A caller that comes to a stamp reads the clock for it. */
  lemma NewPhaseStamp(db: I.Db, pid: nat, m: I.Move, open: int)
    requires pid in db.attempts && open <= db.t.now
    requires db.attempts[pid].phase.Inserting? ==> open <= db.attempts[pid].phase.nowMs
    requires db.attempts[pid].phase.TakingOver? ==> open <= db.attempts[pid].phase.at
    ensures var c := I.DoMove(db, pid, m);
            && pid in c.attempts
            && (c.attempts[pid].phase.Inserting? ==> open <= c.attempts[pid].phase.nowMs)
            && (c.attempts[pid].phase.TakingOver? ==> open <= c.attempts[pid].phase.at)
  {}

  /** Only a caller that has not returned reserves. */
  lemma ReturnedReservesNothing(db: I.Db, pid: nat, m: I.Move)
    requires pid in db.attempts && db.attempts[pid].phase.Returned?
    ensures I.DoMove(db, pid, m) == db
  {}

  /** An action in flight belongs to the handler of its choice. */
  lemma OwnerOfAttempt(s: State, pid: nat)
    requires HandlersOk(s.books, s.db, s.handlers) && AllOwned(s.db, s.handlers) && pid in s.db.attempts
    requires !s.db.attempts[pid].phase.Returned?
    ensures pid in s.handlers && Does(s.handlers[pid].stage, s.db.attempts[pid].request.key.action)
    ensures s.handlers[pid].choiceId == s.db.attempts[pid].request.key.key.choiceId
  {
    assert Owned(s.db.attempts[pid], pid, s.handlers);
    assert HandlerOk(s.books, s.db, pid, s.handlers[pid]);
  }

  lemma HandlerBound(b: Books, h: Handler, ttl: nat, d: Delays)
    requires LivesTimed(b, ttl, d) && HandlerTimed(b, h, ttl)
    ensures Known(b, h.choiceId)
    ensures h.claimedAt + d.reserve <= FirstOpen(b, h.choiceId, ttl) + Span(ttl, d, Depth(h.choiceId))
  {
    assert LifeTimed(b, h.choiceId, b.lives[h.choiceId][h.life], ttl, d);
  }

  lemma ReserverIsInTime(s: State, pid: nat, m: I.Move, ttl: nat, d: Delays)
    requires InTime(s, Pipeline(pid, m), ttl, d) && |I.DoMove(s.db, pid, m).t.births| > |s.db.t.births|
    requires pid in s.handlers && Does(s.handlers[pid].stage, d.action)
    ensures s.db.t.now <= s.handlers[pid].claimedAt + d.reserve
  {}

  lemma ReservedInTime(s: State, pid: nat, m: I.Move, ttl: nat, d: Delays)
    requires HandlersOk(s.books, s.db, s.handlers) && Timed(s, ttl, d) && pid in s.db.attempts
    requires InTime(s, Pipeline(pid, m), ttl, d) && |I.DoMove(s.db, pid, m).t.births| > |s.db.t.births|
    requires s.db.attempts[pid].request.key.action == d.action
    ensures var id := s.db.attempts[pid].request.key.key.choiceId;
            Known(s.books, id) && s.db.t.now <= FirstOpen(s.books, id, ttl) + Span(ttl, d, Depth(id))
  {
    if s.db.attempts[pid].phase.Returned? {
      ReturnedReservesNothing(s.db, pid, m);
    } else {
      OwnerOfAttempt(s, pid);
      ReserverIsInTime(s, pid, m, ttl, d);
      assert HandlerTimed(s.books, s.handlers[pid], ttl);
      HandlerBound(s.books, s.handlers[pid], ttl, d);
    }
  }

  /** What the timed invariant says of one caller. */
  lemma CallerStamps(s: State, pid: nat, ttl: nat, d: Delays)
    requires Timed(s, ttl, d) && pid in s.db.attempts
    ensures var a := s.db.attempts[pid];
            var id := a.request.key.key.choiceId;
            && Known(s.books, id)
            && FirstOpen(s.books, id, ttl) <= s.db.t.now
            && (a.phase.Inserting? ==> FirstOpen(s.books, id, ttl) <= a.phase.nowMs)
            && (a.phase.TakingOver? ==> FirstOpen(s.books, id, ttl) <= a.phase.at)
            && (forall n :: 0 <= n < |s.db.t.births| && s.db.t.births[n].key == a.request.key ==>
                  FirstOpen(s.books, id, ttl) <= s.db.t.births[n].stampedAt)
  {
    assert AttemptTimed(s.books, s.db.attempts[pid], ttl);
    var id := s.db.attempts[pid].request.key.key.choiceId;
    assert OpenOf(s.books.lives[id][0], ttl) <= s.books.now;
    forall n | 0 <= n < |s.db.t.births| && s.db.t.births[n].key == s.db.attempts[pid].request.key
      ensures FirstOpen(s.books, id, ttl) <= s.db.t.births[n].stampedAt
    {
      assert BirthTimed(s.books, s.db.t.births[n], ttl, d);
    }
  }

  lemma NewBirthsTimed(s: State, pid: nat, m: I.Move, ttl: nat, d: Delays)
    requires Protocol.Inv(s) && Timed(s, ttl, d) && pid in s.db.attempts && InTime(s, Pipeline(pid, m), ttl, d)
    ensures BirthsTimed(s.books, I.DoMove(s.db, pid, m).t, ttl, d)
  {
    var c := I.DoMove(s.db, pid, m);
    var r := s.db.attempts[pid].request;
    I.MoveIsOwn(s.db, pid, m);
    CallerStamps(s, pid, ttl, d);
    NewBirthStamp(s.db, pid, m, FirstOpen(s.books, r.key.key.choiceId, ttl));
    if |c.t.births| > |s.db.t.births| && r.key.action == d.action { ReservedInTime(s, pid, m, ttl, d); }
    AddedBirthsTimed(s.books, s.db.t, c.t, r, ttl, d);
  }

  lemma AddedBirthsTimed(b: Books, t: I.Table, u: I.Table, r: I.Request, ttl: nat, d: Delays)
    requires BirthsTimed(b, t, ttl, d) && Known(b, r.key.key.choiceId)
    requires |t.births| <= |u.births| && forall a :: 0 <= a < |t.births| ==> u.births[a] == t.births[a]
    requires forall a :: |t.births| <= a < |u.births| ==>
               && I.Request(u.births[a].key, u.births[a].payload) == r
               && FirstOpen(b, r.key.key.choiceId, ttl) <= u.births[a].stampedAt && u.births[a].bornAt == t.now
    requires |u.births| > |t.births| && r.key.action == d.action ==>
               t.now <= FirstOpen(b, r.key.key.choiceId, ttl) + Span(ttl, d, Depth(r.key.key.choiceId))
    ensures BirthsTimed(b, u, ttl, d)
  {
    forall a | 0 <= a < |u.births| ensures BirthTimed(b, u.births[a], ttl, d) {
      if a < |t.births| { assert BirthTimed(b, t.births[a], ttl, d); }
      else { assert I.Request(u.births[a].key, u.births[a].payload).key == r.key; }
    }
  }

  lemma NewAttemptsTimed(s: State, pid: nat, m: I.Move, ttl: nat, d: Delays)
    requires Timed(s, ttl, d) && pid in s.db.attempts
    ensures AttemptsTimed(s.books, I.DoMove(s.db, pid, m), ttl) && AllOwned(I.DoMove(s.db, pid, m), s.handlers)
  {
    var c := I.DoMove(s.db, pid, m);
    I.MoveFrame(s.db, pid, m);
    CallerStamps(s, pid, ttl, d);
    NewPhaseStamp(s.db, pid, m, FirstOpen(s.books, s.db.attempts[pid].request.key.key.choiceId, ttl));
    forall p | p in c.attempts
      ensures AttemptTimed(s.books, c.attempts[p], ttl) && Owned(c.attempts[p], p, s.handlers)
    {
      assert AttemptTimed(s.books, s.db.attempts[p], ttl) && Owned(s.db.attempts[p], p, s.handlers);
    }
  }

  lemma PipelineTimed(s: State, pid: nat, m: I.Move, ttl: nat, d: Delays)
    requires Protocol.Inv(s) && Timed(s, ttl, d) && InTime(s, Pipeline(pid, m), ttl, d)
    ensures Timed(DoPipeline(s, pid, m), ttl, d)
  {
    if pid in s.db.attempts {
      I.MoveIsOwn(s.db, pid, m);
      NewBirthsTimed(s, pid, m, ttl, d);
      NewAttemptsTimed(s, pid, m, ttl, d);
    }
  }

  lemma StepTimed(s: State, e: Event, ttl: nat, d: Delays)
    requires Protocol.Inv(s) && Timed(s, ttl, d) && InTime(s, e, ttl, d)
    ensures Timed(Protocol.Step(s, e, ttl), ttl, d)
  {
    match e
    case OpenRoot(uuid, bind, input, extras, ids) => OpenRootTimed(s, uuid, bind, input, extras, ids, ttl, d);
    case Claim(pid, id, bind, option, leaseMs) => ClaimTimed(s, pid, id, bind, option, leaseMs, ttl, d);
    case Pipeline(pid, m) => PipelineTimed(s, pid, m, ttl, d);
    case AfterOrder(pid) => AfterOrderTimed(s, pid, ttl, d);
    case OpenSuccessor(pid, ids) => OpenSuccessorTimed(s, pid, ids, ttl, d);
    case PeekSuccessor(pid) => PeekTimed(s, pid, ttl, d);
    case AfterTurn(pid) => AfterTurnTimed(s, pid, ttl, d);
    case Complete(pid) => CompleteTimed(s, pid, ttl, d);
    case Crash(pid) => CrashTimed(s, pid, ttl, d);
    case Pass(delta) => PassTimed(s, delta, ttl, d);
    case Cleanup =>
  }

  lemma {:induction false} RunTimed(s: State, es: seq<Event>, ttl: nat, d: Delays)
    requires Protocol.Inv(s) && Timed(s, ttl, d) && RunInTime(s, es, ttl, d)
    ensures Timed(Protocol.Run(s, es, ttl), ttl, d)
    decreases |es|
  {
    if es != [] {
      StepTimed(s, es[0], ttl, d);
      Protocol.StepKeeps(s, es[0], ttl);
      RunTimed(Protocol.Step(s, es[0], ttl), es[1..], ttl, d);
    }
  }

  // ------------------------------------------------------------ runs without promises

  lemma ClockGrows(s: State, e: Event, ttl: nat)
    ensures s.db.t.now <= Protocol.Step(s, e, ttl).db.t.now
  {}

  lemma {:induction false} RunsAreInTime(s: State, es: seq<Event>, ttl: nat, action: I.Action, delay: nat)
    requires Protocol.Run(s, es, ttl).db.t.now <= delay
    ensures ReservesInTime(s, es, ttl, action, delay) && s.db.t.now <= Protocol.Run(s, es, ttl).db.t.now
    decreases |es|
  {
    if es != [] {
      RunsAreInTime(Protocol.Step(s, es[0], ttl), es[1..], ttl, action, delay);
      ClockGrows(s, es[0], ttl);
    }
  }

  /** No run delays a successor for longer than the run itself. */
  lemma {:induction false} SuccessorsAreInTime(s: State, es: seq<Event>, ttl: nat, d: Delays)
    requires ReservesInTime(s, es, ttl, d.action, d.reserve) && Protocol.Run(s, es, ttl).db.t.now <= d.successor
    ensures RunInTime(s, es, ttl, d) && s.db.t.now <= Protocol.Run(s, es, ttl).db.t.now
    decreases |es|
  {
    if es != [] {
      SuccessorsAreInTime(Protocol.Step(s, es[0], ttl), es[1..], ttl, d);
      ClockGrows(s, es[0], ttl);
    }
  }

  lemma {:induction false} InTimeReservesInTime(s: State, es: seq<Event>, ttl: nat, d: Delays)
    requires RunInTime(s, es, ttl, d)
    ensures ReservesInTime(s, es, ttl, d.action, d.reserve)
    decreases |es|
  {
    if es != [] { InTimeReservesInTime(Protocol.Step(s, es[0], ttl), es[1..], ttl, d); }
  }

  /** Whatever is delayed, every reservation of a choice is stamped at or after the
      first opening of its record. */
  lemma ReservationsFollowTheOpening(es: seq<Event>, ttl: nat, a: nat)
    requires a < |Protocol.Run(INITIAL, es, ttl).db.t.births|
    ensures var s := Protocol.Run(INITIAL, es, ttl);
            var birth := s.db.t.births[a];
            var id := birth.key.key.choiceId;
            && Known(s.books, id)
            && s.books.lives[id][0].expiresAt - ttl <= birth.stampedAt <= birth.bornAt
  {
    var s := Protocol.Run(INITIAL, es, ttl);
    var d := Delays(I.CreateOrder, s.db.t.now, s.db.t.now);
    RunsAreInTime(INITIAL, es, ttl, d.action, s.db.t.now);
    SuccessorsAreInTime(INITIAL, es, ttl, d);
    RunTimed(INITIAL, es, ttl, d);
    Protocol.Reachable(es, ttl);
    assert BirthTimed(s.books, s.db.t.births[a], ttl, d);
  }

  // ------------------------------------------------------------ at most one commit

  /** Commit `i` is one of the action for the choice. */
  ghost predicate IsCommit(t: I.Table, id: ChoiceId, action: I.Action, i: nat) {
    i < |t.commits| && t.commits[i].key.action == action && t.commits[i].key.key.choiceId == id
  }

  ghost predicate IsOrder(t: I.Table, id: ChoiceId, i: nat) {
    IsCommit(t, id, I.CreateOrder, i)
  }

  lemma CommitBirth(s: State, id: ChoiceId, i: nat, ttl: nat, d: Delays)
    requires Protocol.Inv(s) && BirthsTimed(s.books, s.db.t, ttl, d) && IsCommit(s.db.t, id, d.action, i)
    ensures s.db.t.commits[i].attemptId < |s.db.t.births| && Known(s.books, id)
    ensures var birth := s.db.t.births[s.db.t.commits[i].attemptId];
            && FirstOpen(s.books, id, ttl) <= birth.stampedAt
            && birth.bornAt <= FirstOpen(s.books, id, ttl) + Span(ttl, d, Depth(id))
    ensures s.db.t.commits[i].key
         == if d.action.CreateOrder? then OrderKey(BindOf(s.books, id), id) else TurnKey(BindOf(s.books, id), id)
  {
    CommitsWellFormed(s);
    assert RequestOk(s.books, I.Request(s.db.t.commits[i].key, s.db.t.commits[i].payload));
    assert I.CommitOk(s.db.t, s.db.t.commits[i]);
    assert BirthTimed(s.books, s.db.t.births[s.db.t.commits[i].attemptId], ttl, d);
  }

  lemma TwoCommitsNeedTheSpan(s: State, id: ChoiceId, i: nat, j: nat, ttl: nat, d: Delays)
    requires Protocol.Inv(s) && Timed(s, ttl, d)
    requires IsCommit(s.db.t, id, d.action, i) && IsCommit(s.db.t, id, d.action, j) && i < j
    ensures I.RETENTION_MS <= Span(ttl, d, Depth(id)) && ttl > 0
  {
    CommitBirth(s, id, i, ttl, d);
    CommitBirth(s, id, j, ttl, d);
    assert I.Apart(s.db.t, i, j);
    assert LifeTimed(s.books, id, s.books.lives[id][0], ttl, d);
  }

  /** The condition: records are never opened, or the span is within the retention. */
  ghost predicate KeyOutlivesChoice(ttl: nat, d: Delays, depth: nat) {
    ttl == 0 || Span(ttl, d, depth) < I.RETENTION_MS
  }

  lemma CommittedOnce(s: State, ttl: nat, d: Delays, id: ChoiceId, i: nat, j: nat)
    requires Protocol.Inv(s) && Timed(s, ttl, d) && KeyOutlivesChoice(ttl, d, Depth(id))
    requires IsCommit(s.db.t, id, d.action, i) && IsCommit(s.db.t, id, d.action, j)
    ensures i == j
  {
    if i < j { TwoCommitsNeedTheSpan(s, id, i, j, ttl, d); }
    if j < i { TwoCommitsNeedTheSpan(s, id, j, i, ttl, d); }
  }

  lemma ReachedInTime(es: seq<Event>, ttl: nat, d: Delays)
    requires RunInTime(INITIAL, es, ttl, d)
    ensures Protocol.Inv(Protocol.Run(INITIAL, es, ttl)) && Timed(Protocol.Run(INITIAL, es, ttl), ttl, d)
  {
    Protocol.Reachable(es, ttl);
    RunTimed(INITIAL, es, ttl, d);
  }

  // ------------------------------------------------------------ one order, one reply

  /** The choice has at most one order, and every `completed` reply for it names that one. */
  ghost predicate OneOrder(s: State, id: ChoiceId) {
    && (forall i, j :: IsOrder(s.db.t, id, i) && IsOrder(s.db.t, id, j) ==> i == j)
    && (forall n :: 0 <= n < |s.sent| && s.sent[n].reply.Done? && s.sent[n].handler.choiceId == id ==>
          IsOrder(s.db.t, id, s.sent[n].reply.order))
  }

  /** The safe half of the theorem on orders: over every run that keeps the delays. */
  lemma OrderedOnce(es: seq<Event>, ttl: nat, d: Delays, id: ChoiceId)
    requires d.action.CreateOrder? && RunInTime(INITIAL, es, ttl, d) && KeyOutlivesChoice(ttl, d, Depth(id))
    ensures OneOrder(Protocol.Run(INITIAL, es, ttl), id)
  {
    var s := Protocol.Run(INITIAL, es, ttl);
    ReachedInTime(es, ttl, d);
    forall i, j | IsOrder(s.db.t, id, i) && IsOrder(s.db.t, id, j) ensures i == j {
      CommittedOnce(s, ttl, d, id, i, j);
    }
    forall n | 0 <= n < |s.sent| && s.sent[n].reply.Done? && s.sent[n].handler.choiceId == id
      ensures IsOrder(s.db.t, id, s.sent[n].reply.order)
    {
      CompletedRepliesNameTheOrder(es, ttl, n);
    }
  }

  /** All replies for the choice tell the conversation the same. */
  ghost predicate OneReply(sent: seq<Sent>, id: ChoiceId) {
    forall m, n :: 0 <= m < |sent| && 0 <= n < |sent| ==> Agree(sent[m], sent[n], id)
  }

  ghost predicate Agree(a: Sent, b: Sent, id: ChoiceId) {
    a.handler.choiceId == id && b.handler.choiceId == id ==> SameTurn(a.reply, b.reply)
  }

  lemma SentTurn(s: State, n: nat)
    requires SentOk(s.books, s.db.t, s.sent) && n < |s.sent|
    ensures var m := s.sent[n];
            && IsCommit(s.db.t, m.handler.choiceId, I.RecordTurn, m.turn)
            && s.db.t.commits[m.turn].payload == TurnFor(m.handler.choiceId, m.reply)
  {
    assert TurnOk(s.books, s.db.t, s.sent[n].handler, s.sent[n].reply, s.sent[n].turn);
  }

  /** The turn's key accepts what tells the conversation the same, and nothing else. */
  lemma SamePayloadSameTurn(id: ChoiceId, a: Reply, b: Reply)
    ensures TurnFor(id, a) == TurnFor(id, b) <==> SameTurn(a, b)
  {}

  lemma RepliesAgreeInTime(s: State, ttl: nat, d: Delays, id: ChoiceId, m: nat, n: nat)
    requires Protocol.Inv(s) && Timed(s, ttl, d) && d.action.RecordTurn? && KeyOutlivesChoice(ttl, d, Depth(id))
    requires m < |s.sent| && n < |s.sent|
    ensures Agree(s.sent[m], s.sent[n], id)
  {
    if s.sent[m].handler.choiceId == id && s.sent[n].handler.choiceId == id {
      SentTurn(s, m);
      SentTurn(s, n);
      CommittedOnce(s, ttl, d, id, s.sent[m].turn, s.sent[n].turn);
      SamePayloadSameTurn(id, s.sent[m].reply, s.sent[n].reply);
    }
  }

  /** The safe half of the theorem on replies. */
  lemma RepliedOnce(es: seq<Event>, ttl: nat, d: Delays, id: ChoiceId)
    requires d.action.RecordTurn? && RunInTime(INITIAL, es, ttl, d) && KeyOutlivesChoice(ttl, d, Depth(id))
    ensures OneReply(Protocol.Run(INITIAL, es, ttl).sent, id)
  {
    var s := Protocol.Run(INITIAL, es, ttl);
    ReachedInTime(es, ttl, d);
    forall m, n | 0 <= m < |s.sent| && 0 <= n < |s.sent| ensures Agree(s.sent[m], s.sent[n], id) {
      RepliesAgreeInTime(s, ttl, d, id, m, n);
    }
  }
}
