/** What a retry of a claimed choice does after a crash (the replay cases of
    apps/api/src/http/assistant-choice.ts). */
module ChoiceRecovery {
  import opened Options
  import opened ChoiceDomain
  import opened ChoiceStore
  import opened Protocol = ChoiceResume
  import opened ChoiceTiming
  import opened ChoiceSchedules
  import I = Idempotency

  /** The claim is held by `option`, and the order of that claim is committed. */
  ghost predicate OrderedBefore(s: State, id: ChoiceId, option: string, order: nat) {
    && BooksOk(s.books) && id in s.books.view
    && var r := s.books.view[id].record;
       var key := OrderKey(r.bind, id);
       && r.status != Open && r.claimedOptionId == Some(option) && option in r.optionMap
       && key in s.db.t.rows && s.db.t.rows[key].status == I.Done(order)
       && s.db.t.rows[key].expiresAt > s.db.t.now
       && s.db.t.rows[key].payload == I.OrderPayload(Patched(r, option))
  }

  function RetrySchedule(pid: nat, id: ChoiceId, bind: Bind, option: string, leaseMs: nat): seq<Event> {
    [Claim(pid, id, bind, option, leaseMs)]
    + (Pipes(pid, I.REPLAY)
        + ([AfterOrder(pid)] + (Pipes(pid, I.EXECUTE) + ([AfterTurn(pid)] + ([Complete(pid)] + [])))))
  }

  function RetryHandler(s: State, pid: nat, id: ChoiceId, option: string, leaseMs: nat, stage: Stage): Handler
    requires id in s.books.view
  {
    var r := s.books.view[id].record;
    Handler(
      id, r.bind, option, r, |LivesOf(s.books, id)| - (if LivesOf(s.books, id) == [] then 0 else 1), leaseMs,
      s.books.now, stage)
  }

  lemma RetryClaims(s: State, pid: nat, id: ChoiceId, option: string, leaseMs: nat, order: nat, ttl: nat)
    requires OrderedBefore(s, id, option, order) && pid !in s.handlers && pid !in s.db.attempts
    ensures var r := s.books.view[id].record;
            var h := RetryHandler(s, pid, id, option, leaseMs, Ordering);
            Protocol.Step(s, Claim(pid, id, r.bind, option, leaseMs), ttl)
              == s.(handlers := s.handlers[pid := h], db := I.Called(s.db, pid, OrderRequest(h), leaseMs))
  {
    var r := s.books.view[id].record;
    assert ClaimDecide(s.books.view, id, r.bind, option) == ClaimReplay(r);
    assert ClaimStep(s.books, id, r.bind, option) == s.books;
  }

  /** The first half of the retry: the pipeline answers with the committed order. */
  lemma RetryReplaysOrder(s: State, pid: nat, id: ChoiceId, option: string, leaseMs: nat, order: nat,
      rest: seq<Event>, ttl: nat)
    returns (n: State)
    requires OrderedBefore(s, id, option, order) && pid !in s.handlers && pid !in s.db.attempts
    ensures Protocol.Run(s, [Claim(pid, id, s.books.view[id].record.bind, option, leaseMs)]
            + (Pipes(pid, I.REPLAY) + rest), ttl)
              == Protocol.Run(n, rest, ttl)
    ensures n.db.t == s.db.t && n.sent == s.sent
    ensures pid in n.handlers && n.handlers[pid] == RetryHandler(s, pid, id, option, leaseMs, Ordering)
    ensures pid in n.db.attempts && n.db.attempts[pid].phase == I.Returned(I.Success(order))
  {
    var h := RetryHandler(s, pid, id, option, leaseMs, Ordering);
    RunStep(s, Claim(pid, id, h.bind, option, leaseMs), Pipes(pid, I.REPLAY) + rest, ttl);
    RetryClaims(s, pid, id, option, leaseMs, order, ttl);
    var s1 := s.(handlers := s.handlers[pid := h], db := I.Called(s.db, pid, OrderRequest(h), leaseMs));
    RunPipes(s1, pid, I.REPLAY, rest, ttl);
    I.CompletedRowReplays(s1.db, pid, OrderRequest(h), leaseMs, order);
    n := s1.(db := I.DoMoves(s1.db, pid, I.REPLAY));
  }

  /** The second half: the turn is recorded once and the reply is sent. */
  lemma RetryRecords(s: State, pid: nat, order: nat, ttl: nat)
    requires pid in s.handlers && s.handlers[pid].stage == Ordering
    requires pid in s.db.attempts && s.db.attempts[pid].phase == I.Returned(I.Success(order))
    requires TurnKey(s.handlers[pid].bind, s.handlers[pid].choiceId) !in s.db.t.rows
    ensures var h := s.handlers[pid];
            var n := Protocol.Run(s, [AfterOrder(pid)]
                + (Pipes(pid, I.EXECUTE) + ([AfterTurn(pid)] + ([Complete(pid)] + []))), ttl);
            && |n.sent| == |s.sent| + 1 && n.sent[..|s.sent|] == s.sent
            && n.sent[|s.sent|].reply == Done(order) && n.sent[|s.sent|].handler.choiceId == h.choiceId
            && |n.db.t.commits| == |s.db.t.commits| + 1
            && n.db.t.commits[..|s.db.t.commits|] == s.db.t.commits
            && n.db.t.commits[|s.db.t.commits|].key == TurnKey(h.bind, h.choiceId)
            && n.db.t.commits[|s.db.t.commits|].payload == TurnFor(h.choiceId, Done(order))
  {
    var h := s.handlers[pid];
    var tail := [AfterTurn(pid)] + ([Complete(pid)] + []);
    RunStep(s, AfterOrder(pid), Pipes(pid, I.EXECUTE) + tail, ttl);
    var s1 := StartRecording(s, pid, Done(order));
    assert Protocol.Step(s, AfterOrder(pid), ttl) == s1;
    RunPipes(s1, pid, I.EXECUTE, tail, ttl);
    I.FreshKeyCommits(s1.db, pid, TurnRequest(h, Done(order)), h.leaseMs);
    RetryEnds(s1.(db := I.DoMoves(s1.db, pid, I.EXECUTE)), pid, Done(order), |s.db.t.commits|, ttl);
  }

  /** After a crash between the commit of the order and the recording of its turn, a
      retry of the same option replays that order, records the one turn, and replies
      `completed` with it; no second order is committed. */
  lemma RetryAfterCommitReplays(s: State, pid: nat, id: ChoiceId, option: string, leaseMs: nat, order: nat, ttl: nat)
    requires OrderedBefore(s, id, option, order) && pid !in s.handlers && pid !in s.db.attempts
    requires TurnKey(s.books.view[id].record.bind, id) !in s.db.t.rows
    ensures var r := s.books.view[id].record;
            var n := Protocol.Run(s, RetrySchedule(pid, id, r.bind, option, leaseMs), ttl);
            && |n.sent| == |s.sent| + 1
            && n.sent[|s.sent|].reply == Done(order)
            && n.sent[|s.sent|].handler.choiceId == id
            && |n.db.t.commits| == |s.db.t.commits| + 1
            && n.db.t.commits[..|s.db.t.commits|] == s.db.t.commits
            && n.db.t.commits[|s.db.t.commits|].key == TurnKey(r.bind, id)
            && n.db.t.commits[|s.db.t.commits|].payload == TurnFor(id, Done(order))
  {
    var rest := [AfterOrder(pid)] + (Pipes(pid, I.EXECUTE) + ([AfterTurn(pid)] + ([Complete(pid)] + [])));
    var n := RetryReplaysOrder(s, pid, id, option, leaseMs, order, rest, ttl);
    RetryRecords(n, pid, order, ttl);
  }

  lemma RetryEnds(s: State, pid: nat, reply: Reply, turn: nat, ttl: nat)
    requires pid in s.handlers && s.handlers[pid].stage == Recording(reply)
    requires pid in s.db.attempts && s.db.attempts[pid].phase == I.Returned(I.Success(turn))
    ensures var n := Protocol.Run(s, [AfterTurn(pid)] + ([Complete(pid)] + []), ttl);
            && n.db == s.db
            && |n.sent| == |s.sent| + 1 && n.sent[..|s.sent|] == s.sent
            && n.sent[|s.sent|].reply == reply && n.sent[|s.sent|].handler.choiceId == s.handlers[pid].choiceId
  {
    RunStep(s, AfterTurn(pid), [Complete(pid)] + [], ttl);
    var s1 := SetStage(s, pid, Completing(reply, turn));
    assert Protocol.Step(s, AfterTurn(pid), ttl) == s1;
    RunStep(s1, Complete(pid), [], ttl);
  }

  /** Once a turn is recorded for a choice, a handler that has ordered (or refused, or
      opened a picker) still gets its reply out if and only if that turn says the same
      (`ChoiceTiming.SamePayloadSameTurn`): otherwise the turn's key conflicts and the request
      ends in an error, although its order may already be committed. A picker that was opened
      again with the same labels says the same. */
  lemma RecordedTurnDecidesTheReply(s: State, pid: nat, reply: Reply, turn: nat, ttl: nat)
    requires pid in s.handlers && s.handlers[pid].stage == Recording(reply)
    requires pid in s.db.attempts
             && s.db.attempts[pid]
                 == I.Attempt(TurnRequest(s.handlers[pid], reply), s.handlers[pid].leaseMs, I.Ready(0))
    requires var key := TurnKey(s.handlers[pid].bind, s.handlers[pid].choiceId);
             key in s.db.t.rows && s.db.t.rows[key].status == I.Done(turn) && s.db.t.rows[key].expiresAt > s.db.t.now
    ensures var h := s.handlers[pid];
            var es := Pipes(pid, I.REPLAY) + ([AfterTurn(pid)] + ([Complete(pid)] + []));
            var n := Protocol.Run(s, es, ttl);
            && n.db.t == s.db.t
            && (|n.sent| == |s.sent| + 1 <==>
                s.db.t.rows[TurnKey(h.bind, h.choiceId)].payload == TurnFor(h.choiceId, reply))
            && (n.sent == s.sent || (|n.sent| == |s.sent| + 1 && n.sent[|s.sent|].reply == reply))
  {
    var h := s.handlers[pid];
    var tail := [AfterTurn(pid)] + ([Complete(pid)] + []);
    RunPipes(s, pid, I.REPLAY, tail, ttl);
    var s1 := s.(db := I.DoMoves(s.db, pid, I.REPLAY));
    if s.db.t.rows[TurnKey(h.bind, h.choiceId)].payload == TurnFor(h.choiceId, reply) {
      I.CompletedRowReplays(s.db, pid, TurnRequest(h, reply), h.leaseMs, turn);
      RetryEnds(s1, pid, reply, turn, ttl);
    } else {
      I.OtherPayloadConflicts(s.db, pid, TurnRequest(h, reply), h.leaseMs);
      RefusedTurnEnds(s1, pid, ttl);
    }
  }

  lemma RefusedTurnEnds(s: State, pid: nat, ttl: nat)
    requires pid in s.handlers && s.handlers[pid].stage.Recording?
    requires pid in s.db.attempts && s.db.attempts[pid].phase == I.Returned(I.Failure(I.IdempotencyConflict))
    ensures var n := Protocol.Run(s, [AfterTurn(pid)] + ([Complete(pid)] + []), ttl);
            n.db == s.db && n.sent == s.sent
  {
    RunStep(s, AfterTurn(pid), [Complete(pid)] + [], ttl);
    var s1 := SetStage(s, pid, Ended);
    assert Protocol.Step(s, AfterTurn(pid), ttl) == s1;
    RunStep(s1, Complete(pid), [], ttl);
  }

  // ------------------------------------------------------------ a picker first, the order later

  const TELL: seq<Event> := [PeekSuccessor(0)] + (Pipes(0, I.EXECUTE) + ([AfterTurn(0)] + [Complete(0)]))

  /** A handler that has opened the next picker records its turn and replies. */
  lemma PickerIsTold(s: State, id: ChoiceId, ttl: nat, d: Delays) returns (next: Record, row: I.Row, n: State)
    requires Asking(s, id, s.db.t.now, PeekingSuccessor)
    requires s.db.attempts.Keys == {0} && s.db.attempts[0].phase.Returned?
    requires SuccessorOf(id) in s.books.view && Fits(s.books.view[SuccessorOf(id)].record)
    requires TurnKey(BIND, id) !in s.db.t.rows
    ensures Leads(s, TELL, n, ttl, d)
    ensures next == s.books.view[SuccessorOf(id)].record
    ensures |n.sent| == |s.sent| + 1 && n.sent[..|s.sent|] == s.sent && n.sent[|s.sent|].reply == NeedsChoice(next)
    ensures n.sent[|s.sent|].handler.choiceId == id && n.sent[|s.sent|].turn == |s.db.t.commits|
    ensures n.db.t.now == s.db.t.now && n.db.attempts.Keys == {0} && n.handlers.Keys == {0}
    ensures n.books == CompleteStep(s.books, id, BIND, "o")
    ensures |n.db.t.commits| == |s.db.t.commits| + 1 && n.db.t.commits[|s.db.t.commits|].key == TurnKey(BIND, id)
    ensures n.db.t.rows == s.db.t.rows[TurnKey(BIND, id) := row]
    ensures row.payload == TurnFor(id, NeedsChoice(next)) && row.status == I.Done(|s.db.t.commits|)
    ensures row.expiresAt == s.db.t.now + I.RETENTION_MS
  {
    var h := s.handlers[0];
    next := s.books.view[SuccessorOf(id)].record;
    var s1 := StartRecording(s, 0, NeedsChoice(next));
    OneEvent(s, PeekSuccessor(0), ttl, d);
    I.FreshKeyCommits(s1.db, 0, TurnRequest(h, NeedsChoice(next)), h.leaseMs);
    PipesLead(s1, I.EXECUTE, ttl, d);
    var s2 := s1.(db := I.DoMoves(s1.db, 0, I.EXECUTE));
    row := s2.db.t.rows[TurnKey(BIND, id)];
    n := ReplyEnds(s2, id, NeedsChoice(next), |s.db.t.commits|, ttl, d);
    Then(s1, Pipes(0, I.EXECUTE), s2, [AfterTurn(0)] + [Complete(0)], n, ttl, d);
    Then(s, [PeekSuccessor(0)], s1, Pipes(0, I.EXECUTE) + ([AfterTurn(0)] + [Complete(0)]), n, ttl, d);
  }

  lemma ReplyEnds(s: State, id: ChoiceId, reply: Reply, turn: nat, ttl: nat, d: Delays) returns (n: State)
    requires 0 in s.handlers && s.handlers[0].stage == Recording(reply)
    requires s.handlers[0].choiceId == id && s.handlers[0].bind == BIND && s.handlers[0].option == "o"
    requires 0 in s.db.attempts && s.db.attempts[0].phase == I.Returned(I.Success(turn))
    ensures Leads(s, [AfterTurn(0)] + [Complete(0)], n, ttl, d)
    ensures n.db == s.db && n.handlers.Keys == s.handlers.Keys
    ensures |n.sent| == |s.sent| + 1 && n.sent[..|s.sent|] == s.sent
    ensures n.sent[|s.sent|].reply == reply && n.sent[|s.sent|].handler.choiceId == id && n.sent[|s.sent|].turn == turn
    ensures n.books == CompleteStep(s.books, id, BIND, "o")
  {
    var s1 := SetStage(s, 0, Completing(reply, turn));
    OneEvent(s, AfterTurn(0), ttl, d);
    OneEvent(s1, Complete(0), ttl, d);
    n := Protocol.Step(s1, Complete(0), ttl);
    Then(s, [AfterTurn(0)], s1, [Complete(0)], n, ttl, d);
  }

  /** What the completion of a claimed picker leaves on offer. */
  lemma CompleteKeepsOffers(v: View, id: ChoiceId, k: ChoiceId, until: nat)
    requires OnOffer(v, k, until)
    ensures OnOffer(AfterComplete(v, id, BIND, "o"), k, until)
  {}

  lemma CompleteKeepsEnds(v: View, id: ChoiceId, depth: int, until: nat)
    requires EndsBelow(v, depth, until)
    ensures EndsBelow(AfterComplete(v, id, BIND, "o"), depth, until)
  {}

  lemma ViewOfComplete(b: Books, id: ChoiceId)
    ensures CompleteStep(b, id, BIND, "o").view == b.view
         || CompleteStep(b, id, BIND, "o").view == AfterComplete(b.view, id, BIND, "o")
  {}

  /** Down to the choice, whose order then fails with a picker that is opened. */
  function UpToPicker(id: ChoiceId): seq<Event> {
    Down(id) + ((Reserving(id, 0) + Pipes(0, FAIL)) + Opening(0))
  }

  lemma PickerOpens(id: ChoiceId, ttl: nat, d: Delays) returns (s: State)
    requires ttl > 0
    ensures Leads(INITIAL, UpToPicker(id), s, ttl, d)
    ensures Asking(s, id, 0, PeekingSuccessor) && s.db.t.now == s.books.now == 0
    ensures s.db.attempts.Keys == {0} && s.db.attempts[0].phase.Returned?
    ensures OnOffer(s.books.view, id, ttl) && AtBottom(s.books.view, s.db.t, SuccessorOf(id), ttl)
    ensures s.db.t.commits == [] && TurnKey(BIND, id) !in s.db.t.rows
    ensures Ask(id).key in s.db.t.rows && FailedRow(s.db.t.rows[Ask(id).key])
  {
    var s0 := DownRuns(id, ttl, d);
    BottomIsFree(s0.books.view, s0.db.t, id, ttl);
    NoTurnAbove(s0.db.t, id);
    var s1 := FailedRuns(s0, id, ttl, d);
    OnOfferFades(s0.books.view, s1.books.view, 0, id, ttl);
    s := OpeningRuns(s1, id, 0, ttl, d);
    FadesButAfter(s0.books.view, s1.books.view, s.books.view, SuccessorOf(id), 0, 0);
    BottomDeepens(s0.books.view, s.books.view, s0.db.t, s.db.t, id, ttl);
    Then(s0, Reserving(id, 0) + Pipes(0, FAIL), s1, Opening(0), s, ttl, d);
    Then(INITIAL, Down(id), s0, (Reserving(id, 0) + Pipes(0, FAIL)) + Opening(0), s, ttl, d);
  }

  lemma NoTurnAbove(t: I.Table, id: ChoiceId)
    requires forall key :: key in t.rows ==> Depth(key.key.choiceId) < Depth(id)
    ensures TurnKey(BIND, id) !in t.rows
  {
    assert TurnKey(BIND, id).key.choiceId == id;
  }

  /** The recorded turn of a picker. */
  ghost predicate PickerTurn(row: I.Row) {
    && row.payload.TurnPayload? && row.payload.outcome == I.TurnChoiceRequired
    && row.status == I.Done(0) && row.expiresAt == I.RETENTION_MS
  }

  /** The client was told a picker, its turn is recorded, its order has failed, and its
      option is claimed. */
  ghost predicate PickerTold(s: State, id: ChoiceId) {
    && s.sent != [] && s.sent[|s.sent| - 1].reply.NeedsChoice? && s.sent[|s.sent| - 1].handler.choiceId == id
    && s.db.t.now == 0 && |s.db.t.commits| == 1 && s.db.t.commits[0].key == TurnKey(BIND, id)
    && TurnKey(BIND, id) in s.db.t.rows && PickerTurn(s.db.t.rows[TurnKey(BIND, id)])
    && Ask(id).key in s.db.t.rows && FailedRow(s.db.t.rows[Ask(id).key])
  }

  /** What is open then, for the schedules to go on from. */
  ghost predicate StillOpen(v: View, t: I.Table, id: ChoiceId, ttl: nat) {
    && OnOffer(v, id, ttl) && OnOffer(v, Root(id), ttl) && EndsBelow(v, 0, ttl)
    && FailedAbove(t, Depth(id))
  }

  lemma StaysOpen(v: View, w: View, t: I.Table, u: I.Table, id: ChoiceId, row: I.Row, ttl: nat)
    requires OnOffer(v, id, ttl) && AtBottom(v, t, SuccessorOf(id), ttl)
    requires w == v || w == AfterComplete(v, id, BIND, "o")
    requires u.rows == t.rows[TurnKey(BIND, id) := row]
    ensures StillOpen(w, u, id, ttl)
  {
    CompleteKeepsOffers(v, id, id, ttl);
    CompleteKeepsOffers(v, id, Root(id), ttl);
    CompleteKeepsEnds(v, id, -1, ttl);
    assert TurnKey(BIND, id).key.choiceId == id && Root(SuccessorOf(id)) == Root(id);
    assert Depth(SuccessorOf(id)) == Depth(id) + 1;
  }

  /** Everything up to the end of the first process. */
  function First(id: ChoiceId): seq<Event> {
    (UpToPicker(id) + TELL) + [Crash(0)]
  }

  lemma FirstTellsThePicker(id: ChoiceId, ttl: nat, d: Delays) returns (n: State)
    requires ttl > 0
    ensures Leads(INITIAL, First(id), n, ttl, d) && Idle(n, ttl)
    ensures PickerTold(n, id) && StillOpen(n.books.view, n.db.t, id, ttl)
  {
    var s := PickerOpens(id, ttl, d);
    var next, row, m := PickerIsTold(s, id, ttl, d);
    Then(INITIAL, UpToPicker(id), s, TELL, m, ttl, d);
    InitiallyReached(ttl);
    n := CrashIdles(INITIAL, m, UpToPicker(id) + TELL, ttl, d);
    ViewOfComplete(s.books, id);
    StaysOpen(s.books.view, n.books.view, s.db.t, n.db.t, id, row, ttl);
  }

  lemma InitiallyReached(ttl: nat)
    ensures Reached(INITIAL, ttl)
  {
    assert Protocol.Run(INITIAL, [], ttl) == INITIAL;
  }

  // ------------------------------------------------------------ the retry

  const FREE: Delays := Delays(I.CreateOrder, 0, 0)

  function UpToTurn(id: ChoiceId): seq<Event> {
    (Reserving(id, 0) + Pipes(0, COMMIT)) + [AfterOrder(0)]
  }

  /** The claim of a picker on offer, up to the recording of its order. */
  lemma OrderIsRecorded(s: State, id: ChoiceId, ttl: nat, d: Delays) returns (n: State, order: nat)
    requires Idle(s, ttl) && id in s.books.view && Fits(s.books.view[id].record)
    requires Ask(id).key in s.db.t.rows && FailedRow(s.db.t.rows[Ask(id).key])
    ensures Leads(s, UpToTurn(id), n, ttl, d) && n.sent == s.sent
    ensures Asking(n, id, s.db.t.now, Recording(Done(order)))
    ensures n.db.attempts
            == map[0 := I.Attempt(TurnRequest(n.handlers[0], Done(order)), n.handlers[0].leaseMs, I.Ready(0))]
    ensures n.db.t.now == s.db.t.now == n.books.now && IsOrder(n.db.t, id, order)
    ensures OtherRows(s.db.t, n.db.t, Ask(id).key)
  {
    var m := CommittedRuns(s, id, 0, ttl, d);
    order := |s.db.t.commits|;
    OneEvent(m, AfterOrder(0), ttl, d);
    n := StartRecording(m, 0, Done(order));
    Then(s, Reserving(id, 0) + Pipes(0, COMMIT), m, [AfterOrder(0)], n, ttl, d);
  }

  /** The retry orders, and is refused its turn. */
  function Retry(id: ChoiceId): seq<Event> {
    UpToTurn(id) + (Pipes(0, I.REPLAY) + ([AfterTurn(0)] + ([Complete(0)] + [])))
  }

  /** Such a retry happens, for every choice: the first request is answered with a picker
      and recorded as one, the client claims its option again, and now the order goes
      through. It is committed, and the request ends without a reply. */
  lemma OrderAfterPickerIsNotTold(id: ChoiceId, ttl: nat) returns (order: nat)
    requires ttl > 0
    ensures var before := Protocol.Run(INITIAL, First(id), ttl);
            var after := Protocol.Run(INITIAL, First(id) + Retry(id), ttl);
            && PickerTold(before, id)
            && IsOrder(after.db.t, id, order)
            && after.sent == before.sent
  {
    var s := FirstTellsThePicker(id, ttl, FREE);
    LeadsThere(INITIAL, First(id), s, ttl, FREE);
    var n, committed := OrderIsRecorded(s, id, ttl, FREE);
    order := committed;
    LeadsThere(s, UpToTurn(id), n, ttl, FREE);
    RecordedTurnDecidesTheReply(n, 0, Done(order), 0, ttl);
    RunOn(s, UpToTurn(id), Pipes(0, I.REPLAY) + ([AfterTurn(0)] + ([Complete(0)] + [])), ttl);
    RunOn(INITIAL, First(id), Retry(id), ttl);
  }
}
