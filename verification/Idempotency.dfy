/** The idempotency protocol of the action pipeline, one database statement a step. */
module Idempotency {
  // packages/core/src/runtime/idempotency/create-idempotency-hook.ts, and the calls to it in
  // packages/core/src/runtime/pipeline/execute-action.ts. Any number of callers run `reserve`, the
  // handler transaction, `finalize` and `markFailed` interleaved; they may stall, crash, or lose the
  // reply to a commit.

  import opened Options
  import opened ChoiceDomain

  /** 48 hours, in milliseconds. */
  const RETENTION_MS: nat := 48 * 60 * 60 * 1000

  datatype AttemptKey = AttemptKey(kind: AttemptKind, conversationId: string, choiceId: ChoiceId)

  datatype Action = CreateOrder | RecordTurn

  /** The primary key of `idempotency_keys`. */
  datatype RowKey = RowKey(principal: string, scope: string, action: Action, key: AttemptKey)

  datatype TurnOutcome = TurnSuccess | TurnChoiceRequired | TurnError

  /** The presenter's text: of an order (with its result ids) as the order it is rendered from, of a
      picker as the text itself. */
  datatype TurnText =
    | OrderText(response: nat)
    | PickerTurn(body: string)
    | MessageText(message: string)

  /** The validated input; requests with equal hashes have equal inputs. */
  datatype Payload =
    | OrderPayload(input: OrderInput)
    | TurnPayload(outcome: TurnOutcome, challengeId: Option<ChoiceId>, body: TurnText)

  datatype Request = Request(key: RowKey, payload: Payload)

  datatype RowStatus = InProgress | Failed | Done(response: nat)

  datatype Row = Row(attemptId: nat, payload: Payload, status: RowStatus, leaseExpiresAt: int, expiresAt: int)

  /** A thrown error: one that carries picker extras, one that is a
      `ReferenceResolutionConflictError`, both, or neither. */
  datatype ActionError =
    | IdempotencyConflict
    | ConcurrentRetry
    | Thrown(picker: Option<Extras>, referenceMessage: Option<string>)

  datatype Outcome = Success(response: nat) | Failure(error: ActionError)

  datatype Phase =
    | Ready(round: nat)
    | Inserting(round: nat, nowMs: nat)
    | Selecting(round: nat)
    | Inspecting(row: Row)
    | TakingOver(observed: nat, at: nat, reset: bool)
    | Reselecting
    | Executing(attemptId: nat)
    | Failing(attemptId: nat, error: ActionError)
    | Returned(outcome: Outcome)

  datatype Attempt = Attempt(request: Request, leaseMs: nat, phase: Phase)

  /** The history of a minted attempt id: which reservation it wrote, when, and the
      retention deadline in its row. */
  datatype Birth = Birth(key: RowKey, payload: Payload, bornAt: nat, stampedAt: int)

  function Deadline(b: Birth): int {
    b.stampedAt + RETENTION_MS
  }

  /** A committed handler transaction. Its index in the log is the response. */
  datatype Commit = Commit(key: RowKey, payload: Payload, attemptId: nat, at: nat)

  /** A successful reply of `executeAction` to its caller. */
  datatype Answer = Answer(request: Request, response: nat, at: nat)

  /** What the database holds, with the clock it is read under. */
  datatype Table = Table(now: nat, rows: map<RowKey, Row>, births: seq<Birth>, commits: seq<Commit>)

  datatype Db = Db(t: Table, attempts: map<nat, Attempt>, answers: seq<Answer>)

  const EMPTY: Db := Db(Table(0, map[], [], []), map[], [])

  datatype Move =
    | Refuse(error: ActionError)
    | Stamp
    | Insert
    | Select
    | Inspect
    | TakeOver
    | Reselect
    | HandlerThrows(error: ActionError)
    | Finalize(acknowledged: bool)
    | MarkFailed(written: bool)

  datatype Event =
    | Pass(delta: nat)
    | Cleanup
    | Call(pid: nat, request: Request, leaseMs: nat)
    | Crash(pid: nat)
    | Do(pid: nat, move: Move)

  predicate Reclaimable(row: Row, nowMs: int) {
    row.expiresAt <= nowMs || row.status == Failed || (row.status == InProgress && row.leaseExpiresAt <= nowMs)
  }

  function SetPhase(db: Db, pid: nat, phase: Phase): Db
    requires pid in db.attempts
  {
    db.(attempts := db.attempts[pid := db.attempts[pid].(phase := phase)])
  }

  /** Moves on; a successful return is also logged as an answer to the caller. */
  function Advance(db: Db, pid: nat, phase: Phase): Db
    requires pid in db.attempts
  {
    var c := SetPhase(db, pid, phase);
    if phase.Returned? && phase.outcome.Success? then
      c.(answers := db.answers + [Answer(db.attempts[pid].request, phase.outcome.response, db.t.now)])
    else c
  }

  /** Writes a reservation under a fresh attempt id. */
  function Reserved(t: Table, row: Row, birth: Birth): Table {
    t.(rows := t.rows[birth.key := row.(attemptId := |t.births|)], births := t.births + [birth])
  }

  /** `INSERT ... ON CONFLICT DO NOTHING` */
  function DoInsert(db: Db, pid: nat, a: Attempt, round: nat, nowMs: nat): Db
    requires pid in db.attempts
  {
    var key := a.request.key;
    if key in db.t.rows then Advance(db, pid, Selecting(round))
    else
      Advance(
        db.(t := Reserved(db.t, Row(0, a.request.payload, InProgress, nowMs + a.leaseMs, nowMs + RETENTION_MS),
                          Birth(key, a.request.payload, db.t.now, nowMs))),
        pid, Executing(|db.t.births|))
  }

  function DoSelect(db: Db, pid: nat, a: Attempt, round: nat): Db
    requires pid in db.attempts
  {
    if a.request.key in db.t.rows then Advance(db, pid, Inspecting(db.t.rows[a.request.key]))
    else if round == 0 then Advance(db, pid, Ready(1))
    else Advance(db, pid, Returned(Failure(ConcurrentRetry)))
  }

  /** What `reserve` does with the row it read. */
  function InspectNext(r: Request, row: Row, now: nat): Phase {
    if row.expiresAt <= now then TakingOver(row.attemptId, now, true)
    else if row.payload != r.payload then Returned(Failure(IdempotencyConflict))
    else match row.status
      case Done(response) => Returned(Success(response))
      case Failed => TakingOver(row.attemptId, now, false)
      case InProgress =>
        if row.leaseExpiresAt > now then Returned(Failure(ConcurrentRetry))
        else TakingOver(row.attemptId, now, false)
  }

  /** The `WHERE` clause of the conditional takeover. */
  predicate Fenced(t: Table, key: RowKey, observed: nat, at: nat) {
    key in t.rows && t.rows[key].attemptId == observed && Reclaimable(t.rows[key], at)
  }

  function DoTakeOver(db: Db, pid: nat, a: Attempt, observed: nat, at: nat, reset: bool): Db
    requires pid in db.attempts
  {
    var key := a.request.key;
    if !Fenced(db.t, key, observed, at) then Advance(db, pid, Reselecting)
    else if reset then
      Advance(
        db.(t := Reserved(db.t, Row(0, a.request.payload, InProgress, at + a.leaseMs, at + RETENTION_MS),
                          Birth(key, a.request.payload, db.t.now, at))),
        pid, Executing(|db.t.births|))
    else
      var cur := db.t.rows[key];
      Advance(
        db.(t := Reserved(db.t, cur.(status := InProgress, leaseExpiresAt := at + a.leaseMs),
                          Birth(key, cur.payload, db.t.now, cur.expiresAt - RETENTION_MS))),
        pid, Executing(|db.t.births|))
  }

  /** `resolveLostTakeover` */
  function DoReselect(db: Db, pid: nat, a: Attempt): Db
    requires pid in db.attempts
  {
    var key := a.request.key;
    if key !in db.t.rows then Advance(db, pid, Returned(Failure(ConcurrentRetry)))
    else if db.t.rows[key].payload != a.request.payload then Advance(db, pid, Returned(Failure(IdempotencyConflict)))
    else if db.t.rows[key].status.Done? then Advance(db, pid, Returned(Success(db.t.rows[key].status.response)))
    else Advance(db, pid, Returned(Failure(ConcurrentRetry)))
  }

  predicate Holds(t: Table, key: RowKey, id: nat) {
    key in t.rows && t.rows[key].attemptId == id && t.rows[key].status == InProgress
  }

  function Committed(t: Table, r: Request, id: nat): Table
    requires r.key in t.rows
  {
    t.(rows := t.rows[r.key := t.rows[r.key].(status := Done(|t.commits|))],
       commits := t.commits + [Commit(r.key, r.payload, id, t.now)])
  }

  /** The end of the handler transaction: the effects commit with the snapshot, or
      not at all. The acknowledgement of a commit may be lost. */
  function DoFinalize(db: Db, pid: nat, a: Attempt, id: nat, acknowledged: bool): Db
    requires pid in db.attempts
  {
    if !Holds(db.t, a.request.key, id) then Advance(db, pid, Failing(id, ConcurrentRetry))
    else
      var c := db.(t := Committed(db.t, a.request, id));
      if acknowledged then Advance(c, pid, Returned(Success(|db.t.commits|)))
      else Advance(c, pid, Failing(id, Thrown(None, None)))
  }

  function DoMarkFailed(db: Db, pid: nat, a: Attempt, id: nat, e: ActionError, written: bool): Db
    requires pid in db.attempts
  {
    var key := a.request.key;
    var c := if written && Holds(db.t, key, id)
             then db.(t := db.t.(rows := db.t.rows[key := db.t.rows[key].(status := Failed)])) else db;
    Advance(c, pid, Returned(Failure(e)))
  }

  /** A caller with nothing in flight calls `executeAction`. */
  function Called(db: Db, pid: nat, r: Request, leaseMs: nat): Db {
    if pid in db.attempts && !db.attempts[pid].phase.Returned? then db
    else db.(attempts := db.attempts[pid := Attempt(r, leaseMs, Ready(0))])
  }

  /** A caller is gone; what it wrote stays. */
  function Crashed(db: Db, pid: nat): Db {
    db.(attempts := db.attempts - {pid})
  }

  function DoMove(db: Db, pid: nat, m: Move): Db {
    if pid !in db.attempts then db
    else
      var a := db.attempts[pid];
      match (a.phase, m)
      case (Ready(_), Refuse(e)) => Advance(db, pid, Returned(Failure(e)))
      case (Ready(round), Stamp) => Advance(db, pid, Inserting(round, db.t.now))
      case (Inserting(round, nowMs), Insert) => DoInsert(db, pid, a, round, nowMs)
      case (Selecting(round), Select) => DoSelect(db, pid, a, round)
      case (Inspecting(row), Inspect) => Advance(db, pid, InspectNext(a.request, row, db.t.now))
      case (TakingOver(observed, at, reset), TakeOver) => DoTakeOver(db, pid, a, observed, at, reset)
      case (Reselecting, Reselect) => DoReselect(db, pid, a)
      case (Executing(id), HandlerThrows(e)) => Advance(db, pid, Failing(id, e))
      case (Executing(id), Finalize(acknowledged)) => DoFinalize(db, pid, a, id, acknowledged)
      case (Failing(id, e), MarkFailed(written)) => DoMarkFailed(db, pid, a, id, e, written)
      case (_, _) => db
  }

  function Step(db: Db, e: Event): Db {
    match e
    case Pass(delta) => db.(t := db.t.(now := db.t.now + delta))
    case Cleanup => db.(t := db.t.(rows := map k | k in db.t.rows && db.t.rows[k].expiresAt > db.t.now :: db.t.rows[k]))
    case Call(pid, r, leaseMs) => Called(db, pid, r, leaseMs)
    case Crash(pid) => Crashed(db, pid)
    case Do(pid, m) => DoMove(db, pid, m)
  }

  function Run(db: Db, es: seq<Event>): Db
    decreases |es|
  {
    if es == [] then db else Run(Step(db, es[0]), es[1..])
  }

  // ------------------------------------------------------------ invariants

  ghost predicate ResponseOk(t: Table, r: Request, response: nat) {
    response < |t.commits| && t.commits[response].key == r.key && t.commits[response].payload == r.payload
  }

  ghost predicate Wrote(t: Table, id: nat, r: Request) {
    id < |t.births| && t.births[id].key == r.key && t.births[id].payload == r.payload
  }

  /** The row is the one its attempt id wrote. */
  ghost predicate RowOk(t: Table, key: RowKey, row: Row) {
    && Wrote(t, row.attemptId, Request(key, row.payload))
    && row.expiresAt == Deadline(t.births[row.attemptId])
    && (row.status.Done? ==> ResponseOk(t, Request(key, row.payload), row.status.response))
  }

  ghost predicate PhaseOk(t: Table, r: Request, phase: Phase) {
    match phase
    case Inserting(_, nowMs) => nowMs <= t.now
    case Inspecting(row) => RowOk(t, r.key, row)
    case TakingOver(observed, at, reset) =>
      && at <= t.now
      && observed < |t.births| && t.births[observed].key == r.key
      && (if reset then Deadline(t.births[observed]) <= at
          else Deadline(t.births[observed]) > at && t.births[observed].payload == r.payload)
    case Executing(id) => Wrote(t, id, r)
    case Failing(id, _) => Wrote(t, id, r)
    case Returned(Success(response)) => ResponseOk(t, r, response)
    case _ => true
  }

  ghost predicate CommitOk(t: Table, c: Commit) {
    Wrote(t, c.attemptId, Request(c.key, c.payload)) && t.births[c.attemptId].bornAt <= c.at <= t.now
  }

  /** When the retention of commit `i`'s reservation ends. */
  ghost function CommitDeadline(t: Table, i: nat): int
    requires i < |t.commits| && t.commits[i].attemptId < |t.births|
  {
    Deadline(t.births[t.commits[i].attemptId])
  }

  /** Commit `i` is past its retention deadline, or its row still answers for it. */
  ghost predicate Guarded(t: Table, i: nat)
    requires i < |t.commits| && t.commits[i].attemptId < |t.births|
  {
    var c := t.commits[i];
    CommitDeadline(t, i) <= t.now || (c.key in t.rows && t.rows[c.key].attemptId == c.attemptId)
  }

  /** A current row of commit `i`'s key is the committed one, or was reserved after
      the commit's retention deadline. */
  ghost predicate Superseded(t: Table, i: nat, row: Row)
    requires i < |t.commits| && t.commits[i].attemptId < |t.births|
    requires row.attemptId < |t.births|
  {
    if row.attemptId == t.commits[i].attemptId then row.status == Done(i)
    else CommitDeadline(t, i) <= t.births[row.attemptId].bornAt
  }

  /** Commit `j` was reserved after the retention of commit `i` had ended. */
  ghost predicate Apart(t: Table, i: nat, j: nat)
    requires i < |t.commits| && t.commits[i].attemptId < |t.births|
    requires j < |t.commits| && t.commits[j].attemptId < |t.births|
  {
    CommitDeadline(t, i) <= t.births[t.commits[j].attemptId].bornAt
  }

  ghost predicate TableOk(t: Table) {
    && (forall a :: 0 <= a < |t.births| ==> t.births[a].stampedAt <= t.births[a].bornAt <= t.now)
    && (forall k :: k in t.rows ==> RowOk(t, k, t.rows[k]))
    && (forall i :: 0 <= i < |t.commits| ==> CommitOk(t, t.commits[i]))
    && (forall i :: 0 <= i < |t.commits| ==> Guarded(t, i))
    && (forall i :: 0 <= i < |t.commits| && t.commits[i].key in t.rows ==>
          Superseded(t, i, t.rows[t.commits[i].key]))
    && (forall i, j :: 0 <= i < j < |t.commits| && t.commits[i].key == t.commits[j].key ==> Apart(t, i, j))
  }

  ghost predicate Inv(db: Db) {
    && TableOk(db.t)
    && (forall pid :: pid in db.attempts ==> PhaseOk(db.t, db.attempts[pid].request, db.attempts[pid].phase))
    && (forall n :: 0 <= n < |db.answers| ==> ResponseOk(db.t, db.answers[n].request, db.answers[n].response))
  }

  // ------------------------------------------------------------ preservation

  ghost predicate Grows(a: Table, b: Table) {
    && a.now <= b.now
    && |a.births| <= |b.births| && (forall i :: 0 <= i < |a.births| ==> b.births[i] == a.births[i])
    && |a.commits| <= |b.commits| && (forall i :: 0 <= i < |a.commits| ==> b.commits[i] == a.commits[i])
  }

  lemma RowOkGrows(a: Table, b: Table, key: RowKey, row: Row)
    requires Grows(a, b) && RowOk(a, key, row)
    ensures RowOk(b, key, row)
  {}

  lemma PhaseOkGrows(a: Table, b: Table, r: Request, phase: Phase)
    requires Grows(a, b) && PhaseOk(a, r, phase)
    ensures PhaseOk(b, r, phase)
  {
    if phase.Inspecting? { RowOkGrows(a, b, r.key, phase.row); }
  }

  /** A step that replaces the table by a later sound one and one attempt's phase. */
  lemma AdvanceKeeps(db: Db, t: Table, pid: nat, phase: Phase)
    requires Inv(db) && pid in db.attempts
    requires Grows(db.t, t) && TableOk(t)
    requires PhaseOk(t, db.attempts[pid].request, phase)
    ensures Inv(Advance(db.(t := t), pid, phase))
  {
    var c := Advance(db.(t := t), pid, phase);
    forall p | p in c.attempts
      ensures PhaseOk(t, c.attempts[p].request, c.attempts[p].phase)
    {
      if p != pid { PhaseOkGrows(db.t, t, db.attempts[p].request, db.attempts[p].phase); }
    }
  }

  /** Every commit of the key is past its retention deadline. */
  ghost predicate Unguarded(t: Table, key: RowKey)
    requires forall i :: 0 <= i < |t.commits| ==> t.commits[i].attemptId < |t.births|
  {
    forall i :: 0 <= i < |t.commits| && t.commits[i].key == key ==> CommitDeadline(t, i) <= t.now
  }

  lemma ReserveKeeps(t: Table, row: Row, birth: Birth)
    requires TableOk(t) && Unguarded(t, birth.key)
    requires row.payload == birth.payload && row.expiresAt == Deadline(birth) && row.status == InProgress
    requires birth.stampedAt <= birth.bornAt == t.now
    ensures TableOk(Reserved(t, row, birth)) && Grows(t, Reserved(t, row, birth))
    ensures Wrote(Reserved(t, row, birth), |t.births|, Request(birth.key, birth.payload))
  {
    var c := Reserved(t, row, birth);
    forall k | k in c.rows ensures RowOk(c, k, c.rows[k]) {
      if k != birth.key { RowOkGrows(t, c, k, t.rows[k]); }
    }
    forall i | 0 <= i < |c.commits|
      ensures CommitOk(c, c.commits[i]) && Guarded(c, i)
      ensures c.commits[i].key in c.rows ==> Superseded(c, i, c.rows[c.commits[i].key])
    {
      assert CommitOk(t, t.commits[i]) && Guarded(t, i);
      assert t.commits[i].key in t.rows ==> Superseded(t, i, t.rows[t.commits[i].key]);
    }
    forall i, j | 0 <= i < j < |c.commits| && c.commits[i].key == c.commits[j].key
      ensures Apart(c, i, j)
    {
      assert Apart(t, i, j);
    }
  }

  lemma CommitKeeps(t: Table, r: Request, id: nat)
    requires TableOk(t) && Holds(t, r.key, id) && Wrote(t, id, r)
    ensures TableOk(Committed(t, r, id)) && Grows(t, Committed(t, r, id))
    ensures ResponseOk(Committed(t, r, id), r, |t.commits|)
  {
    var c := Committed(t, r, id);
    forall k | k in c.rows ensures RowOk(c, k, c.rows[k]) {
      assert RowOk(t, k, t.rows[k]);
    }
    forall i | 0 <= i < |c.commits|
      ensures CommitOk(c, c.commits[i]) && Guarded(c, i)
      ensures c.commits[i].key in c.rows ==> Superseded(c, i, c.rows[c.commits[i].key])
    {
      if i < |t.commits| {
        assert CommitOk(t, t.commits[i]) && Guarded(t, i);
        assert t.commits[i].key in t.rows ==> Superseded(t, i, t.rows[t.commits[i].key]);
      }
    }
    forall i, j | 0 <= i < j < |c.commits| && c.commits[i].key == c.commits[j].key
      ensures Apart(c, i, j)
    {
      if j < |t.commits| {
        assert Apart(t, i, j);
      } else {
        assert Superseded(t, i, t.rows[r.key]);
      }
    }
  }

  /** Dropping expired rows, failing a row that is in progress, or letting time pass. */
  lemma RowsShrinkKeeps(t: Table, c: Table)
    requires TableOk(t) && c.births == t.births && c.commits == t.commits && t.now <= c.now
    requires forall k :: k in c.rows ==> k in t.rows
    requires forall k :: k in c.rows ==>
               (c.rows[k] == t.rows[k] ||
                (t.rows[k].status == InProgress && c.rows[k] == t.rows[k].(status := Failed)))
    requires forall k :: k in t.rows && k !in c.rows ==> t.rows[k].expiresAt <= t.now
    ensures TableOk(c) && Grows(t, c)
  {
    forall k | k in c.rows ensures RowOk(c, k, c.rows[k]) {
      assert RowOk(t, k, t.rows[k]);
    }
    forall i | 0 <= i < |c.commits|
      ensures CommitOk(c, c.commits[i]) && Guarded(c, i)
      ensures c.commits[i].key in c.rows ==> Superseded(c, i, c.rows[c.commits[i].key])
    {
      var key := t.commits[i].key;
      assert CommitOk(t, t.commits[i]) && Guarded(t, i);
      assert key in t.rows ==> Superseded(t, i, t.rows[key]) && RowOk(t, key, t.rows[key]);
    }
    forall i, j | 0 <= i < j < |c.commits| && c.commits[i].key == c.commits[j].key
      ensures Apart(c, i, j)
    {
      assert Apart(t, i, j);
    }
  }

  lemma NoRowUnguards(t: Table, key: RowKey)
    requires TableOk(t) && key !in t.rows
    ensures Unguarded(t, key)
  {
    forall i | 0 <= i < |t.commits| && t.commits[i].key == key ensures CommitDeadline(t, i) <= t.now {
      assert Guarded(t, i);
    }
  }

  /** The fence of the conditional takeover: a row that passes it has no live commit. */
  lemma FenceUnguards(t: Table, r: Request, observed: nat, at: nat, reset: bool)
    requires TableOk(t) && PhaseOk(t, r, TakingOver(observed, at, reset)) && Fenced(t, r.key, observed, at)
    ensures Unguarded(t, r.key)
  {
    assert RowOk(t, r.key, t.rows[r.key]);
    forall i | 0 <= i < |t.commits| && t.commits[i].key == r.key ensures CommitDeadline(t, i) <= t.now {
      assert CommitOk(t, t.commits[i]) && Superseded(t, i, t.rows[r.key]);
    }
  }

  /** A reservation written for the caller of attempt `pid`. */
  lemma ReserveForKeeps(db: Db, pid: nat, row: Row, birth: Birth)
    requires Inv(db) && pid in db.attempts
    requires birth.key == db.attempts[pid].request.key && birth.payload == db.attempts[pid].request.payload
    requires Unguarded(db.t, birth.key)
    requires row.payload == birth.payload && row.expiresAt == Deadline(birth) && row.status == InProgress
    requires birth.stampedAt <= birth.bornAt == db.t.now
    ensures Inv(Advance(db.(t := Reserved(db.t, row, birth)), pid, Executing(|db.t.births|)))
  {
    ReserveKeeps(db.t, row, birth);
    AdvanceKeeps(db, Reserved(db.t, row, birth), pid, Executing(|db.t.births|));
  }

  lemma InsertKeeps(db: Db, pid: nat, round: nat, nowMs: nat)
    requires Inv(db) && pid in db.attempts && db.attempts[pid].phase == Inserting(round, nowMs)
    ensures Inv(DoInsert(db, pid, db.attempts[pid], round, nowMs))
  {
    var a := db.attempts[pid];
    var key := a.request.key;
    if key in db.t.rows {
      AdvanceKeeps(db, db.t, pid, Selecting(round));
    } else {
      var row := Row(0, a.request.payload, InProgress, nowMs + a.leaseMs, nowMs + RETENTION_MS);
      var birth := Birth(key, a.request.payload, db.t.now, nowMs);
      assert nowMs <= db.t.now by {
        assert PhaseOk(db.t, a.request, a.phase);
      }
      NoRowUnguards(db.t, key);
      ReserveForKeeps(db, pid, row, birth);
      assert DoInsert(db, pid, a, round, nowMs)
          == Advance(db.(t := Reserved(db.t, row, birth)), pid, Executing(|db.t.births|));
    }
  }

  lemma TakeOverExpiredKeeps(db: Db, pid: nat, observed: nat, at: nat)
    requires Inv(db) && pid in db.attempts && db.attempts[pid].phase == TakingOver(observed, at, true)
    requires Fenced(db.t, db.attempts[pid].request.key, observed, at) && Unguarded(db.t, db.attempts[pid].request.key)
    ensures Inv(DoTakeOver(db, pid, db.attempts[pid], observed, at, true))
  {
    var a := db.attempts[pid];
    var key := a.request.key;
    assert at <= db.t.now by {
      assert PhaseOk(db.t, a.request, a.phase);
    }
    var row := Row(0, a.request.payload, InProgress, at + a.leaseMs, at + RETENTION_MS);
    var birth := Birth(key, a.request.payload, db.t.now, at);
    ReserveForKeeps(db, pid, row, birth);
    assert DoTakeOver(db, pid, a, observed, at, true)
        == Advance(db.(t := Reserved(db.t, row, birth)), pid, Executing(|db.t.births|));
  }

  lemma TakeOverInRetentionKeeps(db: Db, pid: nat, observed: nat, at: nat)
    requires Inv(db) && pid in db.attempts && db.attempts[pid].phase == TakingOver(observed, at, false)
    requires Fenced(db.t, db.attempts[pid].request.key, observed, at) && Unguarded(db.t, db.attempts[pid].request.key)
    ensures Inv(DoTakeOver(db, pid, db.attempts[pid], observed, at, false))
  {
    var a := db.attempts[pid];
    var key := a.request.key;
    var cur := db.t.rows[key];
    var row := cur.(status := InProgress, leaseExpiresAt := at + a.leaseMs);
    var birth := Birth(key, cur.payload, db.t.now, cur.expiresAt - RETENTION_MS);
    assert birth.stampedAt <= birth.bornAt && birth.payload == a.request.payload by {
      assert PhaseOk(db.t, a.request, a.phase) && RowOk(db.t, key, cur);
    }
    ReserveForKeeps(db, pid, row, birth);
    assert DoTakeOver(db, pid, a, observed, at, false)
        == Advance(db.(t := Reserved(db.t, row, birth)), pid, Executing(|db.t.births|));
  }

  lemma TakeOverKeeps(db: Db, pid: nat, observed: nat, at: nat, reset: bool)
    requires Inv(db) && pid in db.attempts && db.attempts[pid].phase == TakingOver(observed, at, reset)
    ensures Inv(DoMove(db, pid, TakeOver))
  {
    var r := db.attempts[pid].request;
    assert PhaseOk(db.t, r, TakingOver(observed, at, reset));
    if !Fenced(db.t, r.key, observed, at) {
      AdvanceKeeps(db, db.t, pid, Reselecting);
    } else {
      FenceUnguards(db.t, r, observed, at, reset);
      if reset { TakeOverExpiredKeeps(db, pid, observed, at); }
      else { TakeOverInRetentionKeeps(db, pid, observed, at); }
    }
  }

  lemma FinalizeKeeps(db: Db, pid: nat, id: nat, acknowledged: bool)
    requires Inv(db) && pid in db.attempts && db.attempts[pid].phase == Executing(id)
    ensures Inv(DoFinalize(db, pid, db.attempts[pid], id, acknowledged))
  {
    var a := db.attempts[pid];
    assert PhaseOk(db.t, a.request, a.phase);
    if Holds(db.t, a.request.key, id) {
      CommitKeeps(db.t, a.request, id);
      var t := Committed(db.t, a.request, id);
      var phase := if acknowledged then Returned(Success(|db.t.commits|)) else Failing(id, Thrown(None, None));
      AdvanceKeeps(db, t, pid, phase);
    } else {
      AdvanceKeeps(db, db.t, pid, Failing(id, ConcurrentRetry));
    }
  }

  lemma MarkFailedKeeps(db: Db, pid: nat, id: nat, e: ActionError, written: bool)
    requires Inv(db) && pid in db.attempts && db.attempts[pid].phase == Failing(id, e)
    ensures Inv(DoMarkFailed(db, pid, db.attempts[pid], id, e, written))
  {
    var key := db.attempts[pid].request.key;
    var t := if written && Holds(db.t, key, id)
             then db.t.(rows := db.t.rows[key := db.t.rows[key].(status := Failed)]) else db.t;
    RowsShrinkKeeps(db.t, t);
    AdvanceKeeps(db, t, pid, Returned(Failure(e)));
  }

  lemma SelectKeeps(db: Db, pid: nat, round: nat)
    requires Inv(db) && pid in db.attempts && db.attempts[pid].phase == Selecting(round)
    ensures Inv(DoSelect(db, pid, db.attempts[pid], round))
  {
    var key := db.attempts[pid].request.key;
    if key in db.t.rows {
      assert RowOk(db.t, key, db.t.rows[key]);
      AdvanceKeeps(db, db.t, pid, Inspecting(db.t.rows[key]));
    } else if round == 0 {
      AdvanceKeeps(db, db.t, pid, Ready(1));
    } else {
      AdvanceKeeps(db, db.t, pid, Returned(Failure(ConcurrentRetry)));
    }
  }

  lemma InspectKeeps(db: Db, pid: nat, row: Row)
    requires Inv(db) && pid in db.attempts && db.attempts[pid].phase == Inspecting(row)
    ensures Inv(Advance(db, pid, InspectNext(db.attempts[pid].request, row, db.t.now)))
  {
    var r := db.attempts[pid].request;
    assert PhaseOk(db.t, r, InspectNext(r, row, db.t.now)) by {
      assert PhaseOk(db.t, r, Inspecting(row));
    }
    AdvanceKeeps(db, db.t, pid, InspectNext(r, row, db.t.now));
  }

  lemma ReselectKeeps(db: Db, pid: nat)
    requires Inv(db) && pid in db.attempts && db.attempts[pid].phase == Reselecting
    ensures Inv(DoReselect(db, pid, db.attempts[pid]))
  {
    var r := db.attempts[pid].request;
    if r.key !in db.t.rows {
      AdvanceKeeps(db, db.t, pid, Returned(Failure(ConcurrentRetry)));
    } else if db.t.rows[r.key].payload != r.payload {
      AdvanceKeeps(db, db.t, pid, Returned(Failure(IdempotencyConflict)));
    } else if db.t.rows[r.key].status.Done? {
      assert RowOk(db.t, r.key, db.t.rows[r.key]);
      AdvanceKeeps(db, db.t, pid, Returned(Success(db.t.rows[r.key].status.response)));
    } else {
      AdvanceKeeps(db, db.t, pid, Returned(Failure(ConcurrentRetry)));
    }
  }

  lemma MoveKeeps(db: Db, pid: nat, m: Move)
    requires Inv(db)
    ensures Inv(DoMove(db, pid, m))
  {
    if pid in db.attempts {
      var a := db.attempts[pid];
      match m
      case Refuse(e) => if a.phase.Ready? { AdvanceKeeps(db, db.t, pid, Returned(Failure(e))); }
      case Stamp => if a.phase.Ready? { AdvanceKeeps(db, db.t, pid, Inserting(a.phase.round, db.t.now)); }
      case Insert => if a.phase.Inserting? { InsertKeeps(db, pid, a.phase.round, a.phase.nowMs); }
      case TakeOver => if a.phase.TakingOver? { TakeOverKeeps(db, pid, a.phase.observed, a.phase.at, a.phase.reset); }
      case HandlerThrows(e) =>
        if a.phase.Executing? {
          assert PhaseOk(db.t, a.request, a.phase);
          AdvanceKeeps(db, db.t, pid, Failing(a.phase.attemptId, e));
        }
      case Finalize(acknowledged) => if a.phase.Executing? { FinalizeKeeps(db, pid, a.phase.attemptId, acknowledged); }
      case MarkFailed(written) =>
        if a.phase.Failing? { MarkFailedKeeps(db, pid, a.phase.attemptId, a.phase.error, written); }
      case Select => if a.phase.Selecting? { SelectKeeps(db, pid, a.phase.round); }
      case Inspect => if a.phase.Inspecting? { InspectKeeps(db, pid, a.phase.row); }
      case Reselect => if a.phase.Reselecting? { ReselectKeeps(db, pid); }
    }
  }

  lemma ClockAndCleanupKeep(db: Db, t: Table)
    requires Inv(db) && t.births == db.t.births && t.commits == db.t.commits && db.t.now <= t.now
    requires forall k :: k in t.rows ==> k in db.t.rows && t.rows[k] == db.t.rows[k]
    requires forall k :: k in db.t.rows && k !in t.rows ==> db.t.rows[k].expiresAt <= db.t.now
    ensures Inv(db.(t := t))
  {
    RowsShrinkKeeps(db.t, t);
    forall p | p in db.attempts ensures PhaseOk(t, db.attempts[p].request, db.attempts[p].phase) {
      PhaseOkGrows(db.t, t, db.attempts[p].request, db.attempts[p].phase);
    }
  }

  lemma CalledKeeps(db: Db, pid: nat, r: Request, leaseMs: nat)
    requires Inv(db)
    ensures Inv(Called(db, pid, r, leaseMs))
  {}

  lemma CrashedKeeps(db: Db, pid: nat)
    requires Inv(db)
    ensures Inv(Crashed(db, pid))
  {}

  lemma StepKeeps(db: Db, e: Event)
    requires Inv(db)
    ensures Inv(Step(db, e))
  {
    match e
    case Call(pid, r, leaseMs) => CalledKeeps(db, pid, r, leaseMs);
    case Crash(pid) => CrashedKeeps(db, pid);
    case Do(pid, m) => MoveKeeps(db, pid, m);
    case _ => ClockAndCleanupKeep(db, Step(db, e).t);
  }

  lemma {:induction false} RunKeeps(db: Db, es: seq<Event>)
    requires Inv(db)
    ensures Inv(Run(db, es))
    decreases |es|
  {
    if es != [] {
      StepKeeps(db, es[0]);
      RunKeeps(Step(db, es[0]), es[1..]);
    }
  }

  /** What a move of `pid` adds to the log was asked for by `pid`'s own request. */
  lemma MoveIsOwn(db: Db, pid: nat, m: Move)
    requires Inv(db) && pid in db.attempts
    ensures var c := DoMove(db, pid, m);
            && |db.t.births| <= |c.t.births|
            && (forall a :: 0 <= a < |db.t.births| ==> c.t.births[a] == db.t.births[a])
            && (forall a :: |db.t.births| <= a < |c.t.births| ==>
                  Request(c.t.births[a].key, c.t.births[a].payload) == db.attempts[pid].request)
            && |db.t.commits| <= |c.t.commits|
            && (forall i :: 0 <= i < |db.t.commits| ==> c.t.commits[i] == db.t.commits[i])
            && c.t.now == db.t.now
  {
    var a := db.attempts[pid];
    assert PhaseOk(db.t, a.request, a.phase);
    if m.TakeOver? && a.phase.TakingOver? && Fenced(db.t, a.request.key, a.phase.observed, a.phase.at) {
      assert RowOk(db.t, a.request.key, db.t.rows[a.request.key]);
    }
  }

  lemma MoveFrame(db: Db, pid: nat, m: Move)
    ensures var c := DoMove(db, pid, m);
            && c.attempts.Keys == db.attempts.Keys
            && (forall p :: p in db.attempts ==> c.attempts[p].request == db.attempts[p].request)
            && (forall p :: p in db.attempts && (p != pid || db.attempts[p].phase.Returned?) ==>
                c.attempts[p] == db.attempts[p])
  {}

  // ------------------------------------------------------------ theorems

  /** Over every interleaving of reserving, executing, finalizing, failing, crashing
      and cleaning up: a second commit under one key belongs to a reservation made
      48 hours or more after the first one's was stamped. */
  lemma AtMostOneCommitPerRetention(es: seq<Event>, i: nat, j: nat)
    requires i < j < |Run(EMPTY, es).t.commits|
    requires Run(EMPTY, es).t.commits[i].key == Run(EMPTY, es).t.commits[j].key
    ensures var t := Run(EMPTY, es).t;
            && t.commits[i].attemptId < |t.births| && t.commits[j].attemptId < |t.births|
            && var first, second := t.births[t.commits[i].attemptId], t.births[t.commits[j].attemptId];
            && first.stampedAt <= first.bornAt <= t.commits[i].at
            && first.stampedAt + RETENTION_MS <= second.bornAt <= t.commits[j].at
  {
    RunKeeps(EMPTY, es);
    var t := Run(EMPTY, es).t;
    assert CommitOk(t, t.commits[i]) && CommitOk(t, t.commits[j]) && Apart(t, i, j);
  }

  /** A successful reply names a commit made under the caller's own key, for the
      caller's own input. */
  lemma AnswersAreCommits(es: seq<Event>, n: nat)
    requires n < |Run(EMPTY, es).answers|
    ensures var db := Run(EMPTY, es);
            && db.answers[n].response < |db.t.commits|
            && var c := db.t.commits[db.answers[n].response];
            && c.key == db.answers[n].request.key
            && c.payload == db.answers[n].request.payload
  {
    RunKeeps(EMPTY, es);
    var db := Run(EMPTY, es);
    assert ResponseOk(db.t, db.answers[n].request, db.answers[n].response);
  }

  /** Two successful replies under one key are the same response, or a whole
      retention lies between their reservations. */
  lemma RepliesAgree(es: seq<Event>, m: nat, n: nat)
    requires m < |Run(EMPTY, es).answers| && n < |Run(EMPTY, es).answers|
    requires Run(EMPTY, es).answers[m].request.key == Run(EMPTY, es).answers[n].request.key
    requires Run(EMPTY, es).answers[m].response < Run(EMPTY, es).answers[n].response
    ensures var db := Run(EMPTY, es);
            var i, j := db.answers[m].response, db.answers[n].response;
            && j < |db.t.commits|
            && db.t.commits[i].attemptId < |db.t.births| && db.t.commits[j].attemptId < |db.t.births|
            && db.t.births[db.t.commits[i].attemptId].stampedAt + RETENTION_MS
                 <= db.t.births[db.t.commits[j].attemptId].bornAt
  {
    AnswersAreCommits(es, m);
    AnswersAreCommits(es, n);
    AtMostOneCommitPerRetention(es, Run(EMPTY, es).answers[m].response, Run(EMPTY, es).answers[n].response);
  }

  // ------------------------------------------------------------ uninterrupted calls

  function DoMoves(db: Db, pid: nat, ms: seq<Move>): Db
    decreases |ms|
  {
    if ms == [] then db else DoMoves(DoMove(db, pid, ms[0]), pid, ms[1..])
  }

  lemma OneMove(db: Db, pid: nat, m: Move, rest: seq<Move>)
    ensures DoMoves(db, pid, [m] + rest) == DoMoves(DoMove(db, pid, m), pid, rest)
  {
    assert ([m] + rest)[1..] == rest;
  }

  lemma StampMove(db: Db, pid: nat, rest: seq<Move>)
    requires pid in db.attempts && db.attempts[pid].phase == Ready(0)
    ensures DoMoves(db, pid, [Stamp] + rest) == DoMoves(Advance(db, pid, Inserting(0, db.t.now)), pid, rest)
  {
    OneMove(db, pid, Stamp, rest);
  }

  lemma InsertMove(db: Db, pid: nat, nowMs: nat, rest: seq<Move>)
    requires pid in db.attempts && db.attempts[pid].phase == Inserting(0, nowMs)
    ensures DoMoves(db, pid, [Insert] + rest) == DoMoves(DoInsert(db, pid, db.attempts[pid], 0, nowMs), pid, rest)
  {
    OneMove(db, pid, Insert, rest);
  }

  lemma SelectMove(db: Db, pid: nat, rest: seq<Move>)
    requires pid in db.attempts && db.attempts[pid].phase == Selecting(0)
    ensures DoMoves(db, pid, [Select] + rest) == DoMoves(DoSelect(db, pid, db.attempts[pid], 0), pid, rest)
  {
    OneMove(db, pid, Select, rest);
  }

  lemma InspectMove(db: Db, pid: nat, row: Row)
    requires pid in db.attempts && db.attempts[pid].phase == Inspecting(row)
    ensures DoMoves(db, pid, [Inspect] + []) == Advance(db, pid, InspectNext(db.attempts[pid].request, row, db.t.now))
  {
    OneMove(db, pid, Inspect, []);
  }

  lemma FinalizeMove(db: Db, pid: nat, id: nat)
    requires pid in db.attempts && db.attempts[pid].phase == Executing(id)
    ensures DoMoves(db, pid, [Finalize(true)] + []) == DoFinalize(db, pid, db.attempts[pid], id, true)
  {
    OneMove(db, pid, Finalize(true), []);
  }

  const REPLAY: seq<Move> := [Stamp] + ([Insert] + ([Select] + ([Inspect] + [])))
  const EXECUTE: seq<Move> := [Stamp] + ([Insert] + ([Finalize(true)] + []))

  /** A call under a key whose unexpired row is completed with the same payload gets
      the stored response and changes nothing in the database. */
  lemma CompletedRowReplays(db: Db, pid: nat, r: Request, leaseMs: nat, response: nat)
    requires pid in db.attempts && db.attempts[pid] == Attempt(r, leaseMs, Ready(0))
    requires r.key in db.t.rows && db.t.rows[r.key].status == Done(response)
    requires db.t.rows[r.key].payload == r.payload && db.t.rows[r.key].expiresAt > db.t.now
    ensures var c := DoMoves(db, pid, REPLAY);
            && c.t == db.t
            && c.attempts == db.attempts[pid := Attempt(r, leaseMs, Returned(Success(response)))]
  {
    StampMove(db, pid, [Insert] + ([Select] + ([Inspect] + [])));
    var d1 := Advance(db, pid, Inserting(0, db.t.now));
    InsertMove(d1, pid, db.t.now, [Select] + ([Inspect] + []));
    var d2 := Advance(d1, pid, Selecting(0));
    SelectMove(d2, pid, [Inspect] + []);
    InspectMove(Advance(d2, pid, Inspecting(db.t.rows[r.key])), pid, db.t.rows[r.key]);
  }

  /** A call under a key with no row commits once, and leaves the completed row for
      a retention. */
  lemma FreshKeyCommits(db: Db, pid: nat, r: Request, leaseMs: nat)
    requires pid in db.attempts && db.attempts[pid] == Attempt(r, leaseMs, Ready(0))
    requires r.key !in db.t.rows
    ensures var c := DoMoves(db, pid, EXECUTE);
            && c.t.commits == db.t.commits + [Commit(r.key, r.payload, |db.t.births|, db.t.now)]
            && c.t.rows == db.t.rows[r.key := Row(
                 |db.t.births|, r.payload, Done(|db.t.commits|), db.t.now + leaseMs, db.t.now + RETENTION_MS)]
            && c.t.now == db.t.now
            && c.attempts == db.attempts[pid := Attempt(r, leaseMs, Returned(Success(|db.t.commits|)))]
  {
    StampMove(db, pid, [Insert] + ([Finalize(true)] + []));
    var d1 := Advance(db, pid, Inserting(0, db.t.now));
    InsertMove(d1, pid, db.t.now, [Finalize(true)] + []);
    FinalizeMove(DoInsert(d1, pid, d1.attempts[pid], 0, db.t.now), pid, |db.t.births|);
  }

  /** A call under a key whose unexpired row has another payload is refused. */
  lemma OtherPayloadConflicts(db: Db, pid: nat, r: Request, leaseMs: nat)
    requires pid in db.attempts && db.attempts[pid] == Attempt(r, leaseMs, Ready(0))
    requires r.key in db.t.rows && db.t.rows[r.key].payload != r.payload && db.t.rows[r.key].expiresAt > db.t.now
    ensures var c := DoMoves(db, pid, REPLAY);
            && c.t == db.t
            && c.attempts == db.attempts[pid := Attempt(r, leaseMs, Returned(Failure(IdempotencyConflict)))]
  {
    StampMove(db, pid, [Insert] + ([Select] + ([Inspect] + [])));
    var d1 := Advance(db, pid, Inserting(0, db.t.now));
    InsertMove(d1, pid, db.t.now, [Select] + ([Inspect] + []));
    var d2 := Advance(d1, pid, Selecting(0));
    SelectMove(d2, pid, [Inspect] + []);
    InspectMove(Advance(d2, pid, Inspecting(db.t.rows[r.key])), pid, db.t.rows[r.key]);
  }
}
