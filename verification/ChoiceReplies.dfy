/** When all replies to one choice tell the conversation the same. */
module ChoiceReplies {
  // apps/api/src/http/assistant-choice.ts: every settled reply is first recorded as a turn under the
  // choice's own turn key, so recorded turns differ only when that key is reserved twice. What else the
  // replies show is the subject of `ChoiceCards`.

  import opened ChoiceDomain
  import opened ChoiceStore
  import opened Protocol = ChoiceResume
  import opened ChoiceTiming
  import opened ChoiceSchedules
  import opened ChoiceRecovery
  import I = Idempotency

  /** A turn whose row has expired is recorded again, `delta` ms after the claim. */
  function RecordLate(delta: nat): seq<Event> {
    [Pass(delta)] + ((Pipes(0, RESERVE) + Pipes(0, COMMIT)) + ([AfterTurn(0)] + [Complete(0)]))
  }

  lemma TurnIsCommitted(s: State, r: I.Request, leaseMs: nat, ttl: nat, d: Delays) returns (n: State)
    requires 0 in s.handlers && s.db.t.now <= s.handlers[0].claimedAt + d.reserve
    requires s.db.attempts == map[0 := I.Attempt(r, leaseMs, I.Ready(0))]
    requires r.key in s.db.t.rows && s.db.t.rows[r.key].expiresAt <= s.db.t.now
    ensures Leads(s, Pipes(0, RESERVE) + Pipes(0, COMMIT), n, ttl, d)
    ensures n.handlers == s.handlers && n.sent == s.sent
    ensures 0 in n.db.attempts && n.db.attempts[0].phase.Returned? && n.db.attempts[0].phase.outcome.Success?
  {
    PipesLead(s, RESERVE, ttl, d);
    ReserveAgain(s.db, r, leaseMs);
    var m := s.(db := I.DoMoves(s.db, 0, RESERVE));
    CommitRuns(m.db, r);
    PipesLead(m, COMMIT, ttl, d);
    n := m.(db := I.DoMoves(m.db, 0, COMMIT));
    Then(s, Pipes(0, RESERVE), m, Pipes(0, COMMIT), n, ttl, d);
  }

  lemma RecordRuns(s: State, id: ChoiceId, order: nat, ttl: nat, d: Delays) returns (n: State)
    requires Asking(s, id, s.db.t.now, Recording(Done(order))) && s.books.now == s.db.t.now
    requires s.db.attempts
            == map[0 := I.Attempt(TurnRequest(s.handlers[0], Done(order)), s.handlers[0].leaseMs, I.Ready(0))]
    requires TurnKey(BIND, id) in s.db.t.rows && s.db.t.rows[TurnKey(BIND, id)].expiresAt <= s.db.t.now + d.reserve
    ensures Leads(s, RecordLate(d.reserve), n, ttl, d)
    ensures |n.sent| == |s.sent| + 1 && n.sent[..|s.sent|] == s.sent
    ensures n.sent[|s.sent|].reply == Done(order) && n.sent[|s.sent|].handler.choiceId == id
  {
    var m := Protocol.Step(s, Pass(d.reserve), ttl);
    PassRuns(s, d.reserve, ttl, d);
    var k := TurnIsCommitted(m, TurnRequest(s.handlers[0], Done(order)), s.handlers[0].leaseMs, ttl, d);
    n := ReplyEnds(k, id, Done(order), k.db.attempts[0].phase.outcome.response, ttl, d);
    Then(m, Pipes(0, RESERVE) + Pipes(0, COMMIT), k, [AfterTurn(0)] + [Complete(0)], n, ttl, d);
    Then(s, [Pass(d.reserve)], m, (Pipes(0, RESERVE) + Pipes(0, COMMIT)) + ([AfterTurn(0)] + [Complete(0)]), n, ttl, d);
  }

  /** Told a picker at time 0, and an order as late as the delays allow. */
  function ToldTwice(id: ChoiceId, ttl: nat, d: Delays): seq<Event>
    requires ttl > 0
  {
    First(id) + (Latest(id, ttl, d) + ([Pass(ttl - 1)] + (UpToTurn(id) + RecordLate(d.reserve))))
  }

  /** The late request. */
  lemma LateReply(s: State, id: ChoiceId, ttl: nat, d: Delays) returns (n: State)
    requires ttl > 0 && Idle(s, ttl) && OnOffer(s.books.view, id, s.db.t.now + ttl)
    requires Ask(id).key in s.db.t.rows && FailedRow(s.db.t.rows[Ask(id).key])
    requires TurnKey(BIND, id) in s.db.t.rows
             && s.db.t.rows[TurnKey(BIND, id)].expiresAt <= s.db.t.now + (ttl - 1 + d.reserve)
    ensures Leads(s, [Pass(ttl - 1)] + (UpToTurn(id) + RecordLate(d.reserve)), n, ttl, d)
    ensures |n.sent| == |s.sent| + 1 && n.sent[..|s.sent|] == s.sent
    ensures n.sent[|s.sent|].reply.Done? && n.sent[|s.sent|].handler.choiceId == id
  {
    var m := PassIdles(s, ttl - 1, ttl, d);
    FadesFirst(s.books.view, m.books.view, id, s.db.t.now + ttl, m.db.t.now);
    var k, order := OrderIsRecorded(m, id, ttl, d);
    n := RecordRuns(k, id, order, ttl, d);
    Then(m, UpToTurn(id), k, RecordLate(d.reserve), n, ttl, d);
    Then(s, [Pass(ttl - 1)], m, UpToTurn(id) + RecordLate(d.reserve), n, ttl, d);
  }

  lemma TwoRepliesDisagree(before: seq<Sent>, after: seq<Sent>, id: ChoiceId)
    requires before != [] && before[|before| - 1].reply.NeedsChoice? && before[|before| - 1].handler.choiceId == id
    requires |after| == |before| + 1 && after[..|before|] == before
    requires after[|before|].reply.Done? && after[|before|].handler.choiceId == id
    ensures !OneReply(after, id)
  {
    assert after[|before| - 1] == after[..|before|][|before| - 1];
    assert !Agree(after[|before| - 1], after[|before|], id);
  }

  lemma RowsOfChoice(t: I.Table, u: I.Table, id: ChoiceId)
    requires RowsStay(t, u, Depth(id)) && Ask(id).key in t.rows && TurnKey(BIND, id) in t.rows
    ensures Ask(id).key in u.rows && u.rows[Ask(id).key] == t.rows[Ask(id).key]
    ensures TurnKey(BIND, id) in u.rows && u.rows[TurnKey(BIND, id)] == t.rows[TurnKey(BIND, id)]
  {
    assert Ask(id).key.key.choiceId == id && TurnKey(BIND, id).key.choiceId == id;
  }

  /** The unsafe half: when the span reaches the retention, this run keeps the delays and
      tells two things. */
  lemma RepliedTwice(id: ChoiceId, ttl: nat, d: Delays)
    requires ttl > 0 && I.RETENTION_MS <= Span(ttl, d, Depth(id))
    ensures RunInTime(INITIAL, ToldTwice(id, ttl, d), ttl, d)
    ensures !OneReply(Protocol.Run(INITIAL, ToldTwice(id, ttl, d), ttl).sent, id)
  {
    var s := FirstTellsThePicker(id, ttl, d);
    var m := LatestRuns(s, id, ttl, d);
    RowsOfChoice(s.db.t, m.db.t, id);
    var n := LateReply(m, id, ttl, d);
    var late := [Pass(ttl - 1)] + (UpToTurn(id) + RecordLate(d.reserve));
    Then(s, Latest(id, ttl, d), m, late, n, ttl, d);
    Then(INITIAL, First(id), s, Latest(id, ttl, d) + late, n, ttl, d);
    LeadsThere(INITIAL, ToldTwice(id, ttl, d), n, ttl, d);
    TwoRepliesDisagree(s.sent, n.sent, id);
  }

  /** In every run that keeps the delays all replies to the choice agree in their turn. */
  ghost predicate AlwaysOneReply(id: ChoiceId, ttl: nat, d: Delays) {
    forall es :: RunInTime(INITIAL, es, ttl, d) ==> OneReply(Protocol.Run(INITIAL, es, ttl).sent, id)
  }

  /** One turn per choice, exactly: over all runs whose handlers keep the delays, all replies tell the
      conversation the same of a choice (one order, one refusal, or one successor in the same words),
      if and only if the key of its turn outlives every claim. */
  lemma OneReplyExactly(id: ChoiceId, ttl: nat, d: Delays)
    requires d.action.RecordTurn?
    ensures AlwaysOneReply(id, ttl, d) <==> KeyOutlivesChoice(ttl, d, Depth(id))
  {
    if KeyOutlivesChoice(ttl, d, Depth(id)) {
      forall es | RunInTime(INITIAL, es, ttl, d) ensures OneReply(Protocol.Run(INITIAL, es, ttl).sent, id) {
        RepliedOnce(es, ttl, d, id);
      }
    } else {
      RepliedTwice(id, ttl, d);
    }
  }
}
