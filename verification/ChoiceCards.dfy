/** When all replies to one choice show the same card. */
module ChoiceCards {
  // apps/api/src/http/assistant-choice.ts. The turn that is recorded for a picker holds its text
  // (packages/ai/src/presenter.ts), but the reply also carries the option ids, which are minted anew
  // whenever an expired successor is opened again.

  import opened Options
  import opened ChoiceDomain
  import opened ChoiceStore
  import opened Protocol = ChoiceResume
  import opened ChoiceTiming
  import opened ChoiceSchedules
  import opened ChoiceRecovery
  import opened ChoiceReplies
  import I = Idempotency

  /** `presentChoiceStaffAssistantNeedsChoice`: what the client is sent of a picker. */
  datatype WireCard = WireCard(
    challengeId: ChoiceId, reason: Reason, kind: Kind, subject: string, options: seq<CardOption>, truncated: bool,
    text: string)

  function Wire(r: Record): WireCard {
    WireCard(r.choiceId, r.reason, KindOf(r.target), SubjectOf(r.target), r.card, r.truncated, PickerText(r))
  }

  /** Two replies are the same to their clients. */
  ghost predicate SameReply(a: Reply, b: Reply) {
    match (a, b)
    case (NeedsChoice(x), NeedsChoice(y)) => Wire(x) == Wire(y)
    case (_, _) => a == b
  }

  lemma SameReplySameTurn(a: Reply, b: Reply)
    requires SameReply(a, b)
    ensures SameTurn(a, b)
  {}

  // ------------------------------------------------------------ cards are those of lives

  /** The record as some life of its choice was opened with it, whatever became of it since. */
  ghost predicate ShowsALife(b: Books, r: Record) {
    Known(b, r.choiceId) && exists n :: 0 <= n < |b.lives[r.choiceId]| && Shows(r, b.lives[r.choiceId][n].record)
  }

  ghost predicate Shows(r: Record, first: Record) {
    r == first.(status := r.status, claimedOptionId := r.claimedOptionId)
  }

  ghost predicate Shown(b: Books, reply: Reply) {
    reply.NeedsChoice? ==> ShowsALife(b, reply.next)
  }

  ghost predicate StageShown(b: Books, stage: Stage) {
    (stage.Recording? ==> Shown(b, stage.reply)) && (stage.Completing? ==> Shown(b, stage.reply))
  }

  ghost predicate HandlersShown(b: Books, handlers: map<nat, Handler>) {
    forall pid :: pid in handlers ==> StageShown(b, handlers[pid].stage)
  }

  ghost predicate SentShown(b: Books, sent: seq<Sent>) {
    forall n :: 0 <= n < |sent| ==> Shown(b, sent[n].reply)
  }

  lemma ShownGrows(b: Books, c: Books, reply: Reply)
    requires LivesGrow(b, c) && Shown(b, reply)
    ensures Shown(c, reply)
  {
    if reply.NeedsChoice? {
      var r := reply.next;
      var n :| 0 <= n < |b.lives[r.choiceId]| && Shows(r, b.lives[r.choiceId][n].record);
      assert LifeGrows(b.lives[r.choiceId][n], c.lives[r.choiceId][n]);
      assert Shows(r, c.lives[r.choiceId][n].record);
    }
  }

  lemma AllShownGrow(b: Books, c: Books, handlers: map<nat, Handler>, sent: seq<Sent>)
    requires LivesGrow(b, c) && HandlersShown(b, handlers) && SentShown(b, sent)
    ensures HandlersShown(c, handlers) && SentShown(c, sent)
  {
    forall pid | pid in handlers ensures StageShown(c, handlers[pid].stage) {
      assert StageShown(b, handlers[pid].stage);
      if handlers[pid].stage.Recording? || handlers[pid].stage.Completing? {
        ShownGrows(b, c, handlers[pid].stage.reply);
      }
    }
    forall n | 0 <= n < |sent| ensures Shown(c, sent[n].reply) { ShownGrows(b, c, sent[n].reply); }
  }

  lemma PeekShowsALife(b: Books, id: ChoiceId)
    requires Consistent(b) && id in b.view
    ensures ShowsALife(b, b.view[id].record)
  {
    var n := |b.lives[id]| - 1;
    assert b.view[id].record == Holding(b.lives[id][n]);
    assert Shows(b.view[id].record, b.lives[id][n].record);
  }

  /** The step opens nothing. */
  ghost predicate SameOpenings(b: Books, c: Books) {
    c.lives.Keys == b.lives.Keys && forall id :: id in b.lives ==> |c.lives[id]| == |b.lives[id]|
  }

  /** The record is opened, by this event, for a new card or for the successor of a handler's choice. */
  ghost predicate OpensFor(s: State, e: Event, r: Record) {
    if e.OpenSuccessor? then e.pid in s.handlers && r.choiceId == SuccessorOf(s.handlers[e.pid].choiceId)
    else r.choiceId !in s.books.lives
  }

  lemma BooksStep(s: State, e: Event, ttl: nat) returns (r: Option<Record>)
    requires Consistent(s.books)
    ensures Opens(s, e, Protocol.Step(s, e, ttl).books, r, ttl)
  {
    match e
    case OpenRoot(uuid, bind, input, extras, ids) => r := RootBooks(s, uuid, bind, input, extras, ids, ttl);
    case OpenSuccessor(pid, ids) => r := SuccessorBooks(s, pid, ids, ttl);
    case _ =>
      QuietBooks(s, e, ttl);
      r := None;
  }

  /** What an event does to the store: it opens a record, if it is there to be opened, or nothing. */
  ghost predicate Opens(s: State, e: Event, c: Books, r: Option<Record>, ttl: nat) {
    && LivesGrow(s.books, c)
    && (r.None? ==> SameOpenings(s.books, c))
    && (r.Some? ==> c == OpenStep(s.books, r.value, ttl) && OpensFor(s, e, r.value))
  }

  lemma NothingGrows(b: Books)
    ensures LivesGrow(b, b) && SameOpenings(b, b)
  {}

  lemma ClaimBooks(s: State, pid: nat, id: ChoiceId, bind: Bind, option: string, leaseMs: nat)
    ensures var c := DoClaim(s, pid, id, bind, option, leaseMs).books;
            c == s.books || c == ClaimStep(s.books, id, bind, option)
  {}

  lemma CompleteBooks(s: State, pid: nat)
    requires Consistent(s.books)
    ensures var c := DoComplete(s, pid).books; LivesGrow(s.books, c) && SameOpenings(s.books, c)
  {
    NothingGrows(s.books);
    if pid in s.handlers && s.handlers[pid].stage.Completing? {
      CompleteOpensNothing(s.books, s.handlers[pid].choiceId, s.handlers[pid].bind, s.handlers[pid].option);
    }
  }

  lemma OtherBooks(s: State, e: Event, ttl: nat)
    requires !e.OpenRoot? && !e.OpenSuccessor? && !e.Claim? && !e.Complete? && !e.Pass?
    ensures Protocol.Step(s, e, ttl).books == s.books
  {}

  lemma QuietBooks(s: State, e: Event, ttl: nat)
    requires Consistent(s.books) && !e.OpenRoot? && !e.OpenSuccessor?
    ensures LivesGrow(s.books, Protocol.Step(s, e, ttl).books)
            && SameOpenings(s.books, Protocol.Step(s, e, ttl).books)
  {
    NothingGrows(s.books);
    match e
    case Claim(pid, id, bind, option, leaseMs) =>
      ClaimBooks(s, pid, id, bind, option, leaseMs);
      ClaimOpensNothing(s.books, id, bind, option);
    case Complete(pid) => CompleteBooks(s, pid);
    case Pass(delta) => PassKeeps(s.books, delta);
    case _ => OtherBooks(s, e, ttl);
  }

  lemma RootBooks(s: State, uuid: nat, bind: Bind, input: OrderInput, extras: Extras, ids: seq<string>, ttl: nat)
    returns (r: Option<Record>)
    requires Consistent(s.books)
    ensures var e := OpenRoot(uuid, bind, input, extras, ids); Opens(s, e, Protocol.Step(s, e, ttl).books, r, ttl)
  {
    r := None;
    if Minted(uuid) !in s.books.lives && |ids| >= |Capped(extras.options)| {
      r := RecordFromConflict(Minted(uuid), bind, input, extras, ids);
      if r.Some? { OpenGrows(s.books, r.value, ttl); }
    }
  }

  lemma SuccessorBooks(s: State, pid: nat, ids: seq<string>, ttl: nat) returns (r: Option<Record>)
    requires Consistent(s.books)
    ensures Opens(s, OpenSuccessor(pid, ids), DoOpenSuccessor(s, pid, ids, ttl).books, r, ttl)
  {
    r := None;
    if pid in s.handlers && s.handlers[pid].stage.OpeningSuccessor? {
      var h := s.handlers[pid];
      if h.option in h.record.optionMap && |ids| >= |Capped(h.stage.extras.options)| {
        r := RecordFromConflict(SuccessorOf(h.choiceId), h.record.bind, Patched(h.record, h.option),
            h.stage.extras, ids);
        if r.Some? { OpenGrows(s.books, r.value, ttl); }
      }
    }
  }

  /** A stage that is new to a handler: nothing to say yet, no picker, the one it has peeked, or the
      reply whose turn was recorded. */
  lemma ChangedStage(s: State, e: Event, ttl: nat, pid: nat)
    requires pid in Protocol.Step(s, e, ttl).handlers
    ensures var stage := Protocol.Step(s, e, ttl).handlers[pid].stage;
            || (pid in s.handlers && stage == s.handlers[pid].stage)
            || !(stage.Recording? || stage.Completing?)
            || !stage.reply.NeedsChoice?
            || (pid in s.handlers && SuccessorOf(s.handlers[pid].choiceId) in s.books.view
                && Protocol.Step(s, e, ttl).books == s.books
                && stage.reply.next == s.books.view[SuccessorOf(s.handlers[pid].choiceId)].record)
            || (pid in s.handlers && s.handlers[pid].stage.Recording? && s.handlers[pid].stage.reply == stage.reply)
  {}

  lemma NewStageShown(s: State, e: Event, ttl: nat, pid: nat)
    requires Consistent(s.books) && HandlersShown(s.books, s.handlers)
    requires pid in Protocol.Step(s, e, ttl).handlers
    requires LivesGrow(s.books, Protocol.Step(s, e, ttl).books)
    ensures StageShown(Protocol.Step(s, e, ttl).books, Protocol.Step(s, e, ttl).handlers[pid].stage)
  {
    ChangedStage(s, e, ttl, pid);
    if pid in s.handlers {
      KeptStageShown(s.books, Protocol.Step(s, e, ttl).books, s.handlers[pid].stage);
      if SuccessorOf(s.handlers[pid].choiceId) in s.books.view {
        PeekShowsALife(s.books, SuccessorOf(s.handlers[pid].choiceId));
      }
    }
  }

  lemma KeptStageShown(b: Books, c: Books, stage: Stage)
    requires LivesGrow(b, c) && StageShown(b, stage)
    ensures StageShown(c, stage)
  {
    if stage.Recording? || stage.Completing? { ShownGrows(b, c, stage.reply); }
  }

  lemma NewSentShown(s: State, e: Event, ttl: nat)
    requires HandlersShown(s.books, s.handlers) && SentShown(s.books, s.sent)
    requires LivesGrow(s.books, Protocol.Step(s, e, ttl).books)
    ensures SentShown(Protocol.Step(s, e, ttl).books, Protocol.Step(s, e, ttl).sent)
  {
    var n := Protocol.Step(s, e, ttl);
    AllShownGrow(s.books, n.books, s.handlers, s.sent);
    if e.Complete? && e.pid in s.handlers && s.handlers[e.pid].stage.Completing? {
      assert StageShown(n.books, s.handlers[e.pid].stage);
    }
  }

  lemma {:induction false} RunShows(s: State, es: seq<Event>, ttl: nat)
    requires Protocol.Inv(s) && HandlersShown(s.books, s.handlers) && SentShown(s.books, s.sent)
    ensures SentShown(Protocol.Run(s, es, ttl).books, Protocol.Run(s, es, ttl).sent)
    decreases |es|
  {
    if es != [] {
      var n := Protocol.Step(s, es[0], ttl);
      var _ := BooksStep(s, es[0], ttl);
      forall pid | pid in n.handlers ensures StageShown(n.books, n.handlers[pid].stage) {
        NewStageShown(s, es[0], ttl, pid);
      }
      NewSentShown(s, es[0], ttl);
      Protocol.StepKeeps(s, es[0], ttl);
      RunShows(n, es[1..], ttl);
    }
  }

  lemma SameLifeSameCard(b: Books, x: Record, y: Record)
    requires x.choiceId == y.choiceId && Known(b, x.choiceId) && |b.lives[x.choiceId]| == 1
    requires ShowsALife(b, x) && ShowsALife(b, y)
    ensures Wire(x) == Wire(y)
  {}

  lemma SentPicker(s: State, n: nat)
    requires SentOk(s.books, s.db.t, s.sent) && n < |s.sent|
    ensures Known(s.books, s.sent[n].handler.choiceId)
    ensures s.sent[n].reply.NeedsChoice? ==> s.sent[n].reply.next.choiceId == SuccessorOf(s.sent[n].handler.choiceId)
  {
    assert TurnOk(s.books, s.db.t, s.sent[n].handler, s.sent[n].reply, s.sent[n].turn);
  }

  /** Whatever the delays: while the successor of a choice has been opened only once, all picker
      replies to that choice show one card, with the same option ids. */
  lemma OpenedOnceShownOnce(es: seq<Event>, s: State, ttl: nat, m: nat, n: nat)
    requires s == Protocol.Run(INITIAL, es, ttl) && m < |s.sent| && n < |s.sent|
    requires s.sent[m].handler.choiceId == s.sent[n].handler.choiceId
    requires s.sent[m].reply.NeedsChoice? && s.sent[n].reply.NeedsChoice?
    requires |LivesOf(s.books, SuccessorOf(s.sent[m].handler.choiceId))| <= 1
    ensures SameReply(s.sent[m].reply, s.sent[n].reply)
  {
    ReachedShown(es, s, ttl);
    PickersShowSame(s, m, n);
  }

  lemma ReachedShown(es: seq<Event>, s: State, ttl: nat)
    requires s == Protocol.Run(INITIAL, es, ttl)
    ensures SentOk(s.books, s.db.t, s.sent) && SentShown(s.books, s.sent)
  {
    Protocol.Reachable(es, ttl);
    RunShows(INITIAL, es, ttl);
  }

  lemma PickersShowSame(s: State, m: nat, n: nat)
    requires SentOk(s.books, s.db.t, s.sent) && SentShown(s.books, s.sent) && m < |s.sent| && n < |s.sent|
    requires s.sent[m].handler.choiceId == s.sent[n].handler.choiceId
    requires s.sent[m].reply.NeedsChoice? && s.sent[n].reply.NeedsChoice?
    requires |LivesOf(s.books, SuccessorOf(s.sent[m].handler.choiceId))| <= 1
    ensures SameReply(s.sent[m].reply, s.sent[n].reply)
  {
    SentPicker(s, m);
    SentPicker(s, n);
    assert Shown(s.books, s.sent[m].reply) && Shown(s.books, s.sent[n].reply);
    SameLifeSameCard(s.books, s.sent[m].reply.next, s.sent[n].reply.next);
  }

  // ------------------------------------------------------------ successors that are opened at once

  ghost predicate OpenedOnce(b: Books) {
    forall id :: id in b.lives ==> |b.lives[id]| == 1
  }

  /** A record that was opened once is gone only after its life. */
  lemma GoneAfterItsLife(b: Books, id: ChoiceId, ttl: nat, d: Delays)
    requires BooksTimed(b, ttl, d) && OpenedOnce(b) && id in b.lives && id !in b.view
    ensures Known(b, id) && FirstOpen(b, id, ttl) + ttl <= b.now && ttl > 0
  {
    assert Known(b, id) && RunningIsLive(b, id);
    assert LifeTimed(b, id, b.lives[id][0], ttl, d);
  }

  /** A successor that is opened the very moment its parent is claimed cannot have expired: its
      first opening is no earlier than its parent's, and outlives every claim of it. */
  lemma NeverReopened(s: State, e: Event, ttl: nat, d: Delays, r: Record)
    requires Timed(s, ttl, d) && InTime(s, e, ttl, d) && d.successor == 0 && OpenedOnce(s.books)
    requires OpensFor(s, e, r) && r.choiceId in s.books.lives
    ensures r.choiceId in s.books.view
  {
    if r.choiceId !in s.books.view {
      GoneAfterItsLife(s.books, r.choiceId, ttl, d);
      assert HandlerTimed(s.books, s.handlers[e.pid], ttl);
      SuccessorIsInTime(s.books, s.handlers[e.pid], ttl, d);
    }
  }

  lemma OpensOnce(b: Books, c: Books, r: Option<Record>, ttl: nat)
    requires OpenedOnce(b) && (r.None? ==> SameOpenings(b, c))
    requires r.Some? ==> c == OpenStep(b, r.value, ttl) && (r.value.choiceId in b.lives ==> r.value.choiceId in b.view)
    ensures OpenedOnce(c)
  {}

  lemma StepOpensOnce(s: State, e: Event, ttl: nat, d: Delays)
    requires Protocol.Inv(s) && Timed(s, ttl, d) && InTime(s, e, ttl, d) && d.successor == 0 && OpenedOnce(s.books)
    ensures OpenedOnce(Protocol.Step(s, e, ttl).books)
  {
    var r := BooksStep(s, e, ttl);
    if r.Some? && r.value.choiceId in s.books.lives { NeverReopened(s, e, ttl, d, r.value); }
    OpensOnce(s.books, Protocol.Step(s, e, ttl).books, r, ttl);
  }

  lemma {:induction false} RunOpensOnce(s: State, es: seq<Event>, ttl: nat, d: Delays)
    requires Protocol.Inv(s) && Timed(s, ttl, d) && RunInTime(s, es, ttl, d) && d.successor == 0
    requires OpenedOnce(s.books)
    ensures OpenedOnce(Protocol.Run(s, es, ttl).books)
    decreases |es|
  {
    if es != [] {
      StepOpensOnce(s, es[0], ttl, d);
      StepTimed(s, es[0], ttl, d);
      Protocol.StepKeeps(s, es[0], ttl);
      RunOpensOnce(Protocol.Step(s, es[0], ttl), es[1..], ttl, d);
    }
  }

  // ------------------------------------------------------------ a successor that is opened again

  const OTHER: seq<string> := ["n"]

  /** A request whose order fails with a picker, before anything is opened for it. */
  function Asked(id: ChoiceId): seq<Event> {
    Reserving(id, 0) + Pipes(0, FAIL)
  }

  /** A request that finds the successor open, and tells it. */
  function Told(id: ChoiceId): seq<Event> {
    ((Asked(id) + Opening(0)) + TELL) + [Crash(0)]
  }

  const REOPENING: seq<Event> := [AfterOrder(0)] + ([Pass(1)] + [OpenSuccessor(0, OTHER)])

  const RETELL: seq<Event> := [PeekSuccessor(0)] + (Pipes(0, I.REPLAY) + ([AfterTurn(0)] + [Complete(0)]))

  /** The successor is opened at time 0. In the last millisecond of that record two requests claim
      the choice: one tells the successor, the other opens it again a millisecond later. */
  function ShownTwice(id: ChoiceId, ttl: nat): seq<Event>
    requires ttl > 0
  {
    (Down(id) + Picked(id, 0)) + ([Pass(ttl - 1)] + (Told(id) + (Asked(id) + (REOPENING + RETELL))))
  }

  /** The choice and its successor are on offer until then, and the order has failed. */
  ghost predicate BothOnOffer(s: State, id: ChoiceId, until: nat) {
    && OnOffer(s.books.view, id, until) && OnOffer(s.books.view, SuccessorOf(id), until)
    && Ask(id).key in s.db.t.rows && FailedRow(s.db.t.rows[Ask(id).key])
  }

  lemma BothOpen(id: ChoiceId, ttl: nat, d: Delays) returns (n: State)
    requires ttl > 0
    ensures Leads(INITIAL, Down(id) + Picked(id, 0), n, ttl, d) && Idle(n, ttl) && n.db.t.now == 0 && n.sent == []
    ensures BothOnOffer(n, id, ttl) && TurnKey(BIND, id) !in n.db.t.rows
  {
    var m := DownRuns(id, ttl, d);
    BottomIsFree(m.books.view, m.db.t, id, ttl);
    NoTurnAbove(m.db.t, id);
    n := PickRuns(m, id, 0, ttl, d);
    assert Depth(SuccessorOf(id)) == Depth(id) + 1;
    Then(INITIAL, Down(id), m, Picked(id, 0), n, ttl, d);
  }

  lemma BothWait(s: State, id: ChoiceId, ttl: nat, d: Delays) returns (n: State)
    requires ttl > 0 && Idle(s, ttl) && s.db.t.now == 0 && BothOnOffer(s, id, ttl)
    ensures Leads(s, [Pass(ttl - 1)], n, ttl, d) && Idle(n, ttl) && n.sent == s.sent && n.db.t.now == ttl - 1
    ensures n.db.t.rows == s.db.t.rows && BothOnOffer(n, id, ttl)
  {
    n := PassIdles(s, ttl - 1, ttl, d);
    OnOfferFades(s.books.view, n.books.view, ttl - 1, id, ttl);
    OnOfferFades(s.books.view, n.books.view, ttl - 1, SuccessorOf(id), ttl);
  }

  /** The order of a choice that has failed before fails again. */
  lemma AskedRuns(s: State, id: ChoiceId, until: nat, ttl: nat, d: Delays) returns (n: State)
    requires Idle(s, ttl) && s.db.t.now < until && BothOnOffer(s, id, until)
    ensures Leads(s, Asked(id), n, ttl, d)
    ensures Asking(n, id, s.db.t.now, Ordering) && n.books.now == n.db.t.now == s.db.t.now && n.sent == s.sent
    ensures n.db.attempts.Keys == {0} && n.db.attempts[0].phase == I.Returned(I.Failure(AMBIGUOUS))
    ensures BothOnOffer(n, id, until) && OtherRows(s.db.t, n.db.t, Ask(id).key)
  {
    n := FailedRuns(s, id, ttl, d);
    OnOfferFades(s.books.view, n.books.view, n.books.now, id, until);
    OnOfferFades(s.books.view, n.books.view, n.books.now, SuccessorOf(id), until);
  }

  lemma OpenFinds(s: State, id: ChoiceId, claimedAt: nat, ttl: nat, d: Delays)
    requires Asking(s, id, claimedAt, OpeningSuccessor(PICKER)) && s.db.t.now <= claimedAt + d.successor
    requires SuccessorOf(id) in s.books.view
    ensures var n := Protocol.Step(s, OpenSuccessor(0, IDS), ttl);
            && Leads(s, [OpenSuccessor(0, IDS)], n, ttl, d)
            && n.db == s.db && n.books == s.books && n.sent == s.sent && Asking(n, id, claimedAt, PeekingSuccessor)
  {
    OneEvent(s, OpenSuccessor(0, IDS), ttl, d);
    NextRecord(s.handlers[0]);
  }

  lemma FindingRuns(s: State, id: ChoiceId, until: nat, ttl: nat, d: Delays) returns (n: State)
    requires Asking(s, id, s.db.t.now, Ordering) && s.books.now == s.db.t.now < until
    requires s.db.attempts.Keys == {0} && s.db.attempts[0].phase == I.Returned(I.Failure(AMBIGUOUS))
    requires BothOnOffer(s, id, until)
    ensures Leads(s, Opening(0), n, ttl, d)
    ensures Asking(n, id, s.db.t.now, PeekingSuccessor) && n.db.attempts == s.db.attempts && n.sent == s.sent
    ensures n.db.t == s.db.t && n.books.now == s.books.now && BothOnOffer(n, id, until)
  {
    var s1 := Protocol.Step(s, AfterOrder(0), ttl);
    OneEvent(s, AfterOrder(0), ttl, d);
    var s2 := Protocol.Step(s1, Pass(0), ttl);
    PassRuns(s1, 0, ttl, d);
    OnOfferFades(s1.books.view, s2.books.view, s2.books.now, id, until);
    OnOfferFades(s1.books.view, s2.books.view, s2.books.now, SuccessorOf(id), until);
    n := Protocol.Step(s2, OpenSuccessor(0, IDS), ttl);
    OpenFinds(s2, id, s.db.t.now, ttl, d);
    Then(s1, [Pass(0)], s2, [OpenSuccessor(0, IDS)], n, ttl, d);
    Then(s, [AfterOrder(0)], s1, [Pass(0)] + [OpenSuccessor(0, IDS)], n, ttl, d);
  }

  /** The picker with the option id "o" is told, and its turn recorded at `at`. */
  ghost predicate FirstTold(s: State, id: ChoiceId, at: nat) {
    && s.sent != [] && var m := s.sent[|s.sent| - 1];
       && m.handler.choiceId == id && m.reply.NeedsChoice? && Fits(m.reply.next)
       && m.reply.next.choiceId == SuccessorOf(id)
       && TurnKey(BIND, id) in s.db.t.rows
       && var row := s.db.t.rows[TurnKey(BIND, id)];
          && row.payload == TurnFor(id, m.reply) && row.status == I.Done(m.turn) && row.expiresAt == at + I.RETENTION_MS
  }

  lemma FoundRuns(s: State, id: ChoiceId, until: nat, ttl: nat, d: Delays) returns (n: State)
    requires Idle(s, ttl) && s.db.t.now < until && BothOnOffer(s, id, until) && TurnKey(BIND, id) !in s.db.t.rows
    ensures Leads(s, Asked(id) + Opening(0), n, ttl, d) && Consistent(n.books)
    ensures Asking(n, id, n.db.t.now, PeekingSuccessor) && n.books.now == n.db.t.now == s.db.t.now && n.sent == s.sent
    ensures n.db.attempts.Keys == {0} && n.db.attempts[0].phase.Returned?
    ensures BothOnOffer(n, id, until) && TurnKey(BIND, id) !in n.db.t.rows
  {
    var m := AskedRuns(s, id, until, ttl, d);
    n := FindingRuns(m, id, until, ttl, d);
    Then(s, Asked(id), m, Opening(0), n, ttl, d);
    ReachedOn(s, Asked(id) + Opening(0), n, ttl, d);
    ReachedIsConsistent(n, ttl);
  }

  lemma TellingRuns(s: State, id: ChoiceId, until: nat, ttl: nat, d: Delays) returns (n: State)
    requires Asking(s, id, s.db.t.now, PeekingSuccessor) && Consistent(s.books) && s.books.now == s.db.t.now
    requires s.db.attempts.Keys == {0} && s.db.attempts[0].phase.Returned?
    requires BothOnOffer(s, id, until) && TurnKey(BIND, id) !in s.db.t.rows
    ensures Leads(s, TELL, n, ttl, d) && n.db.t.now == n.books.now == s.db.t.now
    ensures n.handlers.Keys == {0} && n.db.attempts.Keys == {0}
    ensures |n.sent| == |s.sent| + 1 && n.sent[..|s.sent|] == s.sent && FirstTold(n, id, s.db.t.now)
    ensures BothOnOffer(n, id, until)
  {
    var next, row, e := PickerIsTold(s, id, ttl, d);
    n := e;
    CompleteClock(s.books, id);
    ToldPicker(s, n, id, next, until, ttl);
  }

  lemma CompleteClock(b: Books, id: ChoiceId)
    ensures CompleteStep(b, id, BIND, "o").now == b.now
  {}

  lemma ToldRuns(s: State, id: ChoiceId, until: nat, ttl: nat, d: Delays) returns (n: State)
    requires Idle(s, ttl) && s.db.t.now < until && BothOnOffer(s, id, until) && TurnKey(BIND, id) !in s.db.t.rows
    ensures Leads(s, Told(id), n, ttl, d) && Idle(n, ttl) && n.db.t.now == s.db.t.now
    ensures |n.sent| == |s.sent| + 1 && n.sent[..|s.sent|] == s.sent && FirstTold(n, id, s.db.t.now)
    ensures BothOnOffer(n, id, until)
  {
    var k := FoundRuns(s, id, until, ttl, d);
    var e := TellingRuns(k, id, until, ttl, d);
    Then(s, Asked(id) + Opening(0), k, TELL, e, ttl, d);
    n := CrashIdles(s, e, (Asked(id) + Opening(0)) + TELL, ttl, d);
  }

  /** What stays open, and whose record was told. */
  lemma ToldPicker(s: State, n: State, id: ChoiceId, next: Record, until: nat, ttl: nat)
    requires BothOnOffer(s, id, until) && Consistent(s.books) && next == s.books.view[SuccessorOf(id)].record
    requires n.books == CompleteStep(s.books, id, BIND, "o")
    requires Ask(id).key in n.db.t.rows && n.db.t.rows[Ask(id).key] == s.db.t.rows[Ask(id).key]
    ensures next.choiceId == SuccessorOf(id) && Fits(next) && BothOnOffer(n, id, until)
  {
    ViewOfComplete(s.books, id);
    CompleteKeepsOffers(s.books.view, id, id, until);
    CompleteKeepsOffers(s.books.view, id, SuccessorOf(id), until);
    assert s.books.view[SuccessorOf(id)].record == Holding(LastLife(s.books, SuccessorOf(id)));
  }

  /** The picker that was opened again, with other ids. */
  ghost predicate Renewed(r: Record, id: ChoiceId) {
    && r.choiceId == id && r.bind == BIND && r.target == CustomerTarget("q") && r.optionMap == map["n" := "c"]
    && r.card == [CardOption("n", "t")] && !r.truncated
  }

  lemma RenewedRecord(h: Handler)
    requires h.bind == BIND && h.option == "o" && Fits(h.record)
    ensures h.option in h.record.optionMap && |OTHER| >= |Capped(PICKER.options)|
    ensures var patched := Patched(h.record, h.option);
            var r := RecordFromConflict(SuccessorOf(h.choiceId), h.record.bind, patched, PICKER, OTHER);
            r.Some? && r.value.status == Open && Renewed(r.value, SuccessorOf(h.choiceId))
  {
    assert PICKER.options[..0] == [];
    assert MapFor(PICKER.options, OTHER) == map["n" := "c"];
  }

  lemma RenewRuns(s: State, id: ChoiceId, claimedAt: nat, ttl: nat, d: Delays)
    requires Asking(s, id, claimedAt, OpeningSuccessor(PICKER)) && s.db.t.now <= claimedAt + d.successor && ttl > 0
    requires SuccessorOf(id) !in s.books.view
    ensures var n := Protocol.Step(s, OpenSuccessor(0, OTHER), ttl);
            && Leads(s, [OpenSuccessor(0, OTHER)], n, ttl, d)
            && n.db == s.db && Asking(n, id, claimedAt, PeekingSuccessor) && n.sent == s.sent
            && SuccessorOf(id) in n.books.view && Renewed(n.books.view[SuccessorOf(id)].record, SuccessorOf(id))
  {
    OneEvent(s, OpenSuccessor(0, OTHER), ttl, d);
    RenewedRecord(s.handlers[0]);
  }

  lemma ReopeningRuns(s: State, id: ChoiceId, ttl: nat, d: Delays) returns (n: State)
    requires Asking(s, id, s.db.t.now, Ordering) && s.books.now == s.db.t.now && d.successor > 0 && ttl > 0
    requires s.db.attempts.Keys == {0} && s.db.attempts[0].phase == I.Returned(I.Failure(AMBIGUOUS))
    requires OnOffer(s.books.view, SuccessorOf(id), s.books.now + 1)
    ensures Leads(s, REOPENING, n, ttl, d)
    ensures Asking(n, id, s.db.t.now, PeekingSuccessor) && n.db.attempts == s.db.attempts && n.sent == s.sent
    ensures n.db.t == s.db.t.(now := s.db.t.now + 1)
    ensures SuccessorOf(id) in n.books.view && Renewed(n.books.view[SuccessorOf(id)].record, SuccessorOf(id))
  {
    var s1 := Protocol.Step(s, AfterOrder(0), ttl);
    OneEvent(s, AfterOrder(0), ttl, d);
    var s2 := Protocol.Step(s1, Pass(1), ttl);
    PassRuns(s1, 1, ttl, d);
    assert SuccessorOf(id) !in s2.books.view;
    n := Protocol.Step(s2, OpenSuccessor(0, OTHER), ttl);
    RenewRuns(s2, id, s.db.t.now, ttl, d);
    Then(s1, [Pass(1)], s2, [OpenSuccessor(0, OTHER)], n, ttl, d);
    Then(s, [AfterOrder(0)], s1, [Pass(1)] + [OpenSuccessor(0, OTHER)], n, ttl, d);
  }

  // ------------------------------------------------------------ a replay needs no reservation

  lemma BirthsGrow(db: I.Db, m: I.Move)
    ensures |I.DoMove(db, 0, m).t.births| >= |db.t.births|
  {}

  lemma {:induction false} MovesGrow(db: I.Db, ms: seq<I.Move>)
    ensures |I.DoMoves(db, 0, ms).t.births| >= |db.t.births|
    decreases |ms|
  {
    if ms != [] {
      BirthsGrow(db, ms[0]);
      MovesGrow(I.DoMove(db, 0, ms[0]), ms[1..]);
    }
  }

  lemma QuietInTime(s: State, m: I.Move, ttl: nat, d: Delays)
    requires |I.DoMove(s.db, 0, m).t.births| == |s.db.t.births|
    ensures InTime(s, Pipeline(0, m), ttl, d)
  {}

  lemma FirstIsQuiet(db: I.Db, ms: seq<I.Move>)
    requires ms != [] && |I.DoMoves(db, 0, ms).t.births| == |db.t.births|
    ensures var next := I.DoMove(db, 0, ms[0]);
            |next.t.births| == |db.t.births| && |I.DoMoves(next, 0, ms[1..]).t.births| == |next.t.births|
  {
    BirthsGrow(db, ms[0]);
    MovesGrow(I.DoMove(db, 0, ms[0]), ms[1..]);
  }

  /** Steps in the pipeline that reserve nothing keep all delays. */
  lemma {:induction false} QuietPipesLead(s: State, ms: seq<I.Move>, ttl: nat, d: Delays)
    requires |I.DoMoves(s.db, 0, ms).t.births| == |s.db.t.births|
    ensures Leads(s, Pipes(0, ms), s.(db := I.DoMoves(s.db, 0, ms)), ttl, d)
    decreases |ms|
  {
    if ms == [] {
      NoEvent(s, ttl, d);
    } else {
      var next := s.(db := I.DoMove(s.db, 0, ms[0]));
      FirstIsQuiet(s.db, ms);
      QuietInTime(s, ms[0], ttl, d);
      QuietPipesLead(next, ms[1..], ttl, d);
      OneEvent(s, Pipeline(0, ms[0]), ttl, d);
      Then(s, [Pipeline(0, ms[0])], next, Pipes(0, ms[1..]), s.(db := I.DoMoves(s.db, 0, ms)), ttl, d);
    }
  }

  /** The recorded turn is in the same words. */
  lemma SameWords(id: ChoiceId, x: Record, y: Record)
    requires Fits(x) && x.choiceId == SuccessorOf(id) && Renewed(y, SuccessorOf(id))
    ensures TurnFor(id, NeedsChoice(x)) == TurnFor(id, NeedsChoice(y))
    ensures SameTurn(NeedsChoice(x), NeedsChoice(y)) && !SameReply(NeedsChoice(x), NeedsChoice(y))
  {
    SameLabelsSaySame(x.card, y.card);
    assert x.card[0].id != y.card[0].id;
  }

  /** The replay of a recorded turn, in a handler that has peeked. */
  lemma ReplayRuns(s: State, id: ChoiceId, reply: Reply, turn: nat, ttl: nat, d: Delays) returns (n: State)
    requires 0 in s.handlers && 0 in s.db.attempts && s.handlers[0].bind == BIND && s.handlers[0].choiceId == id
    requires s.db.attempts[0] == I.Attempt(TurnRequest(s.handlers[0], reply), s.handlers[0].leaseMs, I.Ready(0))
    requires TurnKey(BIND, id) in s.db.t.rows
    requires var row := s.db.t.rows[TurnKey(BIND, id)];
             row.payload == TurnFor(id, reply) && row.status == I.Done(turn) && row.expiresAt > s.db.t.now
    ensures Leads(s, Pipes(0, I.REPLAY), n, ttl, d)
    ensures n == s.(db := n.db) && 0 in n.db.attempts && n.db.attempts[0].phase == I.Returned(I.Success(turn))
  {
    I.CompletedRowReplays(s.db, 0, TurnRequest(s.handlers[0], reply), s.handlers[0].leaseMs, turn);
    QuietPipesLead(s, I.REPLAY, ttl, d);
    n := s.(db := I.DoMoves(s.db, 0, I.REPLAY));
  }

  lemma PeekRuns(s: State, id: ChoiceId, claimedAt: nat, ttl: nat, d: Delays) returns (n: State)
    requires Asking(s, id, claimedAt, PeekingSuccessor)
    requires s.db.attempts.Keys == {0} && s.db.attempts[0].phase.Returned?
    requires SuccessorOf(id) in s.books.view && s.books.view[SuccessorOf(id)].record.bind == BIND
    ensures Leads(s, [PeekSuccessor(0)], n, ttl, d)
    ensures var reply := NeedsChoice(s.books.view[SuccessorOf(id)].record);
            && Asking(n, id, claimedAt, Recording(reply)) && 0 in n.db.attempts
            && n.db.attempts[0] == I.Attempt(TurnRequest(n.handlers[0], reply), n.handlers[0].leaseMs, I.Ready(0))
    ensures n.books == s.books && n.sent == s.sent && n.db.t == s.db.t
  {
    n := StartRecording(s, 0, NeedsChoice(s.books.view[SuccessorOf(id)].record));
    OneEvent(s, PeekSuccessor(0), ttl, d);
  }

  lemma RetellRuns(s: State, id: ChoiceId, claimedAt: nat, x: Record, turn: nat, ttl: nat, d: Delays)
    returns (n: State)
    requires Asking(s, id, claimedAt, PeekingSuccessor)
    requires s.db.attempts.Keys == {0} && s.db.attempts[0].phase.Returned?
    requires SuccessorOf(id) in s.books.view && Renewed(s.books.view[SuccessorOf(id)].record, SuccessorOf(id))
    requires Fits(x) && x.choiceId == SuccessorOf(id) && TurnKey(BIND, id) in s.db.t.rows
    requires var row := s.db.t.rows[TurnKey(BIND, id)];
             row.payload == TurnFor(id, NeedsChoice(x)) && row.status == I.Done(turn) && row.expiresAt > s.db.t.now
    ensures Leads(s, RETELL, n, ttl, d)
    ensures |n.sent| == |s.sent| + 1 && n.sent[..|s.sent|] == s.sent
    ensures var m := n.sent[|s.sent|];
            && m.handler.choiceId == id && m.reply == NeedsChoice(s.books.view[SuccessorOf(id)].record)
            && m.turn == turn
    ensures n.books == CompleteStep(s.books, id, BIND, "o")
  {
    var y := s.books.view[SuccessorOf(id)].record;
    SameWords(id, x, y);
    var s1 := PeekRuns(s, id, claimedAt, ttl, d);
    var s2 := ReplayRuns(s1, id, NeedsChoice(y), turn, ttl, d);
    n := ReplyEnds(s2, id, NeedsChoice(y), turn, ttl, d);
    Then(s1, Pipes(0, I.REPLAY), s2, [AfterTurn(0)] + [Complete(0)], n, ttl, d);
    Then(s, [PeekSuccessor(0)], s1, Pipes(0, I.REPLAY) + ([AfterTurn(0)] + [Complete(0)]), n, ttl, d);
  }

  /** The second of the two requests. */
  lemma SecondTold(s: State, id: ChoiceId, ttl: nat, d: Delays) returns (n: State)
    requires ttl > 0 && d.successor > 0 && Idle(s, ttl)
    requires BothOnOffer(s, id, s.db.t.now + 1) && FirstTold(s, id, s.db.t.now)
    ensures Leads(s, Asked(id) + (REOPENING + RETELL), n, ttl, d)
    ensures |n.sent| == |s.sent| + 1 && n.sent[..|s.sent|] == s.sent
    ensures var m := n.sent[|s.sent|];
            && m.handler.choiceId == id && m.reply.NeedsChoice? && Renewed(m.reply.next, SuccessorOf(id))
            && m.turn == s.sent[|s.sent| - 1].turn
    ensures SuccessorOf(id) in n.books.view && Renewed(n.books.view[SuccessorOf(id)].record, SuccessorOf(id))
  {
    var x := s.sent[|s.sent| - 1].reply.next;
    var m := AskedRuns(s, id, s.db.t.now + 1, ttl, d);
    var k := ReopeningRuns(m, id, ttl, d);
    assert TurnKey(BIND, id) in k.db.t.rows && k.db.t.rows[TurnKey(BIND, id)] == s.db.t.rows[TurnKey(BIND, id)];
    n := RetellRuns(k, id, m.db.t.now, x, s.sent[|s.sent| - 1].turn, ttl, d);
    StillRenewed(k.books, id);
    Then(m, REOPENING, k, RETELL, n, ttl, d);
    Then(s, Asked(id), m, REOPENING + RETELL, n, ttl, d);
  }

  lemma StillRenewed(b: Books, id: ChoiceId)
    requires SuccessorOf(id) in b.view && Renewed(b.view[SuccessorOf(id)].record, SuccessorOf(id))
    ensures var c := CompleteStep(b, id, BIND, "o");
            SuccessorOf(id) in c.view && Renewed(c.view[SuccessorOf(id)].record, SuccessorOf(id))
  {
    ViewOfComplete(b, id);
    assert Depth(SuccessorOf(id)) == Depth(id) + 1;
  }

  /** Two replies with one recorded turn between them and other option ids; those of the first are no
      longer accepted. */
  ghost predicate CardIsStale(s: State, id: ChoiceId) {
    && |s.sent| == 2 && s.sent[0].handler.choiceId == s.sent[1].handler.choiceId == id
    && s.sent[0].turn == s.sent[1].turn
    && SameTurn(s.sent[0].reply, s.sent[1].reply) && !SameReply(s.sent[0].reply, s.sent[1].reply)
    && s.sent[0].reply.NeedsChoice? && s.sent[0].reply.next.choiceId == SuccessorOf(id)
    && s.sent[0].reply.next.card != []
    && ClaimDecide(s.books.view, SuccessorOf(id), BIND, s.sent[0].reply.next.card[0].id) == ClaimInvalidOption
  }

  lemma StaleCard(s: State, n: State, id: ChoiceId, at: nat)
    requires |s.sent| == 1 && |n.sent| == 2 && n.sent[..1] == s.sent && FirstTold(s, id, at)
    requires var m := n.sent[1];
             && m.handler.choiceId == id && m.reply.NeedsChoice? && Renewed(m.reply.next, SuccessorOf(id))
             && m.turn == s.sent[0].turn
    requires SuccessorOf(id) in n.books.view && Renewed(n.books.view[SuccessorOf(id)].record, SuccessorOf(id))
    ensures CardIsStale(n, id)
  {
    assert n.sent[0] == n.sent[..1][0];
    SameWords(id, n.sent[0].reply.next, n.sent[1].reply.next);
  }

  /** However short the delays, as long as a successor may be opened a millisecond after its parent is
      claimed, this run keeps them: two requests for one choice are answered with the same turn,
      recorded once, and with two cards. */
  lemma TwoCards(id: ChoiceId, ttl: nat, d: Delays)
    requires ttl > 0 && d.successor > 0
    ensures RunInTime(INITIAL, ShownTwice(id, ttl), ttl, d)
    ensures CardIsStale(Protocol.Run(INITIAL, ShownTwice(id, ttl), ttl), id)
  {
    var s := BothOpen(id, ttl, d);
    var m := BothWait(s, id, ttl, d);
    var k := ToldRuns(m, id, ttl, ttl, d);
    var n := SecondTold(k, id, ttl, d);
    var last := Asked(id) + (REOPENING + RETELL);
    Then(m, Told(id), k, last, n, ttl, d);
    Then(s, [Pass(ttl - 1)], m, Told(id) + last, n, ttl, d);
    Then(INITIAL, Down(id) + Picked(id, 0), s, [Pass(ttl - 1)] + (Told(id) + last), n, ttl, d);
    LeadsThere(INITIAL, ShownTwice(id, ttl), n, ttl, d);
    StaleCard(k, n, id, ttl - 1);
  }

  // ------------------------------------------------------------ the theorem

  /** All replies for the choice are the same to their clients. */
  ghost predicate OneCard(sent: seq<Sent>, id: ChoiceId) {
    forall m, n :: 0 <= m < |sent| && 0 <= n < |sent| ==> ShowSame(sent[m], sent[n], id)
  }

  ghost predicate ShowSame(a: Sent, b: Sent, id: ChoiceId) {
    a.handler.choiceId == id && b.handler.choiceId == id ==> SameReply(a.reply, b.reply)
  }

  ghost predicate AlwaysOneCard(id: ChoiceId, ttl: nat, d: Delays) {
    forall es :: RunInTime(INITIAL, es, ttl, d) ==> OneCard(Protocol.Run(INITIAL, es, ttl).sent, id)
  }

  lemma OneCardOneReply(sent: seq<Sent>, id: ChoiceId)
    requires OneCard(sent, id)
    ensures OneReply(sent, id)
  {
    forall m, n | 0 <= m < |sent| && 0 <= n < |sent| ensures Agree(sent[m], sent[n], id) {
      assert ShowSame(sent[m], sent[n], id);
      if sent[m].handler.choiceId == id && sent[n].handler.choiceId == id {
        SameReplySameTurn(sent[m].reply, sent[n].reply);
      }
    }
  }

  /** Two replies that show a picker show the same one. */
  lemma SamePickerInTime(es: seq<Event>, s: State, ttl: nat, d: Delays, m: nat, n: nat)
    requires s == Protocol.Run(INITIAL, es, ttl) && RunInTime(INITIAL, es, ttl, d) && (ttl == 0 || d.successor == 0)
    requires m < |s.sent| && n < |s.sent| && s.sent[m].handler.choiceId == s.sent[n].handler.choiceId
    requires s.sent[m].reply.NeedsChoice? && s.sent[n].reply.NeedsChoice?
    ensures SameReply(s.sent[m].reply, s.sent[n].reply)
  {
    ReachedInTime(es, ttl, d);
    SentPicker(s, m);
    RecordsAreOpened(s, s.sent[m].handler.choiceId, ttl, d);
    InitiallyTimed(ttl, d);
    RunOpensOnce(INITIAL, es, ttl, d);
    OpenedOnceShownOnce(es, s, ttl, m, n);
  }

  lemma InitiallyTimed(ttl: nat, d: Delays)
    ensures Protocol.Inv(INITIAL) && Timed(INITIAL, ttl, d) && OpenedOnce(INITIAL.books)
  {}

  lemma SameCardInTime(es: seq<Event>, s: State, ttl: nat, d: Delays, id: ChoiceId, m: nat, n: nat)
    requires s == Protocol.Run(INITIAL, es, ttl) && RunInTime(INITIAL, es, ttl, d)
    requires d.action.RecordTurn? && KeyOutlivesChoice(ttl, d, Depth(id)) && (ttl == 0 || d.successor == 0)
    requires m < |s.sent| && n < |s.sent|
    ensures ShowSame(s.sent[m], s.sent[n], id)
  {
    if s.sent[m].handler.choiceId == id && s.sent[n].handler.choiceId == id {
      ReachedInTime(es, ttl, d);
      RepliesAgreeInTime(s, ttl, d, id, m, n);
      if s.sent[m].reply.NeedsChoice? && s.sent[n].reply.NeedsChoice? {
        SamePickerInTime(es, s, ttl, d, m, n);
      }
    }
  }

  /** Where a choice is known, records live. */
  lemma RecordsAreOpened(s: State, id: ChoiceId, ttl: nat, d: Delays)
    requires Timed(s, ttl, d) && Known(s.books, id)
    ensures ttl > 0
  {
    assert LifeTimed(s.books, id, s.books.lives[id][0], ttl, d);
  }

  /** One card per choice, exactly: over all runs whose handlers keep the delays, all clients, retries
      and processes are sent the same reply for a choice, option ids included, if and only if the
      key of its turn outlives every claim and successors are opened without any delay. */
  lemma OneCardExactly(id: ChoiceId, ttl: nat, d: Delays)
    requires d.action.RecordTurn?
    ensures AlwaysOneCard(id, ttl, d)
            <==> KeyOutlivesChoice(ttl, d, Depth(id)) && (ttl == 0 || d.successor == 0)
  {
    if ttl > 0 && d.successor > 0 {
      TwoCards(id, ttl, d);
      var sent := Protocol.Run(INITIAL, ShownTwice(id, ttl), ttl).sent;
      assert !ShowSame(sent[0], sent[1], id);
      assert !OneCard(sent, id);
    } else if KeyOutlivesChoice(ttl, d, Depth(id)) {
      forall es | RunInTime(INITIAL, es, ttl, d) ensures OneCard(Protocol.Run(INITIAL, es, ttl).sent, id) {
        var sent := Protocol.Run(INITIAL, es, ttl).sent;
        forall m, n | 0 <= m < |sent| && 0 <= n < |sent| ensures ShowSame(sent[m], sent[n], id) {
          SameCardInTime(es, Protocol.Run(INITIAL, es, ttl), ttl, d, id, m, n);
        }
      }
    } else {
      RepliedTwice(id, ttl, d);
      var sent := Protocol.Run(INITIAL, ToldTwice(id, ttl, d), ttl).sent;
      if OneCard(sent, id) { OneCardOneReply(sent, id); }
    }
  }
}
