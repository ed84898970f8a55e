/** Schedules of the choice protocol, and the runs that order twice. */
module ChoiceSchedules {
  // apps/api/src/http/assistant-choice.ts. The runs here use one customer picker with one option,
  // and one process that is restarted after each request, so that every handler has the number 0.

  import opened Options
  import opened ChoiceDomain
  import opened ChoiceStore
  import opened Protocol = ChoiceResume
  import opened ChoiceTiming
  import I = Idempotency

  // ------------------------------------------------------------ schedules

  /** The events take `s` to `n`, and keep the delays, whatever follows them. */
  ghost predicate Leads(s: State, es: seq<Event>, n: State, ttl: nat, d: Delays) {
    forall rest ::
      && Protocol.Run(s, es + rest, ttl) == Protocol.Run(n, rest, ttl)
      && (RunInTime(n, rest, ttl, d) ==> RunInTime(s, es + rest, ttl, d))
  }

  lemma LeadsThere(s: State, es: seq<Event>, n: State, ttl: nat, d: Delays)
    requires Leads(s, es, n, ttl, d)
    ensures Protocol.Run(s, es, ttl) == n && RunInTime(s, es, ttl, d)
  {
    assert es + [] == es;
  }

  lemma OneEvent(s: State, e: Event, ttl: nat, d: Delays)
    requires InTime(s, e, ttl, d)
    ensures Leads(s, [e], Protocol.Step(s, e, ttl), ttl, d)
  {
    forall rest ensures Protocol.Run(s, [e] + rest, ttl) == Protocol.Run(Protocol.Step(s, e, ttl), rest, ttl) {
      RunStep(s, e, rest, ttl);
    }
    forall rest | RunInTime(Protocol.Step(s, e, ttl), rest, ttl, d) ensures RunInTime(s, [e] + rest, ttl, d) {
      assert ([e] + rest)[1..] == rest;
    }
  }

  lemma RunStep(s: State, e: Event, rest: seq<Event>, ttl: nat)
    ensures Protocol.Run(s, [e] + rest, ttl) == Protocol.Run(Protocol.Step(s, e, ttl), rest, ttl)
  {
    assert ([e] + rest)[1..] == rest;
  }

  lemma NoEvent(s: State, ttl: nat, d: Delays)
    ensures Leads(s, [], s, ttl, d)
  {
    forall rest: seq<Event> ensures [] + rest == rest {}
  }

  lemma Then(s: State, es: seq<Event>, m: State, fs: seq<Event>, n: State, ttl: nat, d: Delays)
    requires Leads(s, es, m, ttl, d) && Leads(m, fs, n, ttl, d)
    ensures Leads(s, es + fs, n, ttl, d)
  {
    forall rest
      ensures Protocol.Run(s, (es + fs) + rest, ttl) == Protocol.Run(n, rest, ttl)
      ensures RunInTime(n, rest, ttl, d) ==> RunInTime(s, (es + fs) + rest, ttl, d)
    {
      assert (es + fs) + rest == es + (fs + rest);
    }
  }

  function Pipes(pid: nat, ms: seq<I.Move>): seq<Event> {
    if ms == [] then [] else [Pipeline(pid, ms[0])] + Pipes(pid, ms[1..])
  }

  lemma {:induction false} RunPipes(s: State, pid: nat, ms: seq<I.Move>, rest: seq<Event>, ttl: nat)
    ensures Protocol.Run(s, Pipes(pid, ms) + rest, ttl) == Protocol.Run(s.(db := I.DoMoves(s.db, pid, ms)), rest, ttl)
    decreases |ms|
  {
    if ms == [] {
      assert Pipes(pid, ms) + rest == rest;
    } else {
      var next := s.(db := I.DoMove(s.db, pid, ms[0]));
      assert Pipes(pid, ms) + rest == [Pipeline(pid, ms[0])] + (Pipes(pid, ms[1..]) + rest);
      RunStep(s, Pipeline(pid, ms[0]), Pipes(pid, ms[1..]) + rest, ttl);
      RunPipes(next, pid, ms[1..], rest, ttl);
    }
  }

  /** A handler that is not late with its order may take any steps in the pipeline. */
  lemma {:induction false} PipesLead(s: State, ms: seq<I.Move>, ttl: nat, d: Delays)
    requires 0 in s.handlers && s.db.t.now <= s.handlers[0].claimedAt + d.reserve
    ensures Leads(s, Pipes(0, ms), s.(db := I.DoMoves(s.db, 0, ms)), ttl, d)
    decreases |ms|
  {
    if ms == [] {
      NoEvent(s, ttl, d);
    } else {
      var next := s.(db := I.DoMove(s.db, 0, ms[0]));
      MoveClock(s.db, 0, ms[0]);
      PipesLead(next, ms[1..], ttl, d);
      OneEvent(s, Pipeline(0, ms[0]), ttl, d);
      Then(s, [Pipeline(0, ms[0])], next, Pipes(0, ms[1..]), s.(db := I.DoMoves(s.db, 0, ms)), ttl, d);
    }
  }

  lemma MoveClock(db: I.Db, pid: nat, m: I.Move)
    ensures I.DoMove(db, pid, m).t.now == db.t.now
  {}

  // ------------------------------------------------------------ in the pipeline

  /** Steps to a reservation; those that the row does not call for do nothing. */
  const RESERVE: seq<I.Move> := [I.Stamp] + ([I.Insert] + ([I.Select] + ([I.Inspect] + ([I.TakeOver] + []))))

  /** What a reservation for the request can be written over. */
  ghost predicate Vacant(rows: map<I.RowKey, I.Row>, now: nat, r: I.Request) {
    r.key in rows ==>
      rows[r.key].expiresAt <= now || (rows[r.key].status == I.Failed && rows[r.key].payload == r.payload)
  }

  /** Only the row of `key` differs. */
  ghost predicate OtherRows(t: I.Table, u: I.Table, key: I.RowKey) {
    && u.rows.Keys == t.rows.Keys + {key}
    && forall k :: k in t.rows && k != key ==> u.rows[k] == t.rows[k]
  }

  ghost predicate Running(db: I.Db, r: I.Request) {
    && db.attempts.Keys == {0} && db.attempts[0].request == r && db.attempts[0].phase.Executing?
    && I.Holds(db.t, r.key, db.attempts[0].phase.attemptId)
    && db.t.rows[r.key].payload == r.payload
  }

  lemma ReserveAbsent(db: I.Db, r: I.Request, leaseMs: nat)
    requires db.attempts == map[0 := I.Attempt(r, leaseMs, I.Ready(0))] && r.key !in db.t.rows
    ensures var c := I.DoMoves(db, 0, RESERVE);
            && Running(c, r) && OtherRows(db.t, c.t, r.key) && c.t.commits == db.t.commits && c.t.now == db.t.now
            && c.t.rows[r.key].expiresAt == db.t.now + I.RETENTION_MS
  {
    var d1 := I.Advance(db, 0, I.Inserting(0, db.t.now));
    var d2 := I.DoInsert(d1, 0, d1.attempts[0], 0, db.t.now);
    I.StampMove(db, 0, [I.Insert] + ([I.Select] + ([I.Inspect] + ([I.TakeOver] + []))));
    I.InsertMove(d1, 0, db.t.now, [I.Select] + ([I.Inspect] + ([I.TakeOver] + [])));
    I.OneMove(d2, 0, I.Select, [I.Inspect] + ([I.TakeOver] + []));
    I.OneMove(d2, 0, I.Inspect, [I.TakeOver] + []);
    I.OneMove(d2, 0, I.TakeOver, []);
  }

  lemma ReserveAgain(db: I.Db, r: I.Request, leaseMs: nat)
    requires db.attempts == map[0 := I.Attempt(r, leaseMs, I.Ready(0))] && r.key in db.t.rows
            && Vacant(db.t.rows, db.t.now, r)
    ensures var c := I.DoMoves(db, 0, RESERVE);
            && Running(c, r) && OtherRows(db.t, c.t, r.key) && c.t.commits == db.t.commits && c.t.now == db.t.now
  {
    var row := db.t.rows[r.key];
    var d1 := I.Advance(db, 0, I.Inserting(0, db.t.now));
    var d2 := I.Advance(d1, 0, I.Selecting(0));
    var d3 := I.Advance(d2, 0, I.Inspecting(row));
    var expired := row.expiresAt <= db.t.now;
    var d4 := I.Advance(d3, 0, I.TakingOver(row.attemptId, db.t.now, expired));
    I.StampMove(db, 0, [I.Insert] + ([I.Select] + ([I.Inspect] + ([I.TakeOver] + []))));
    I.InsertMove(d1, 0, db.t.now, [I.Select] + ([I.Inspect] + ([I.TakeOver] + [])));
    I.SelectMove(d2, 0, [I.Inspect] + ([I.TakeOver] + []));
    I.OneMove(d3, 0, I.Inspect, [I.TakeOver] + []);
    I.OneMove(d4, 0, I.TakeOver, []);
  }

  const PICKER: Extras := Extras(Ambiguous, CustomerTarget("q"), [CardOption("c", "t")], false)

  const AMBIGUOUS: I.ActionError := I.Thrown(Some(PICKER), None)

  const COMMIT: seq<I.Move> := [I.Finalize(true)] + []

  const FAIL: seq<I.Move> := [I.HandlerThrows(AMBIGUOUS)] + ([I.MarkFailed(true)] + [])

  lemma CommitRuns(db: I.Db, r: I.Request)
    requires Running(db, r)
    ensures var c := I.DoMoves(db, 0, COMMIT);
            && c.attempts.Keys == {0} && c.attempts[0].phase == I.Returned(I.Success(|db.t.commits|))
            && OtherRows(db.t, c.t, r.key) && c.t.rows[r.key] == db.t.rows[r.key].(status := I.Done(|db.t.commits|))
            && |c.t.commits| == |db.t.commits| + 1 && c.t.commits[..|db.t.commits|] == db.t.commits
            && c.t.commits[|db.t.commits|].key == r.key && c.t.now == db.t.now
  {
    I.FinalizeMove(db, 0, db.attempts[0].phase.attemptId);
  }

  lemma FailRuns(db: I.Db, r: I.Request)
    requires Running(db, r)
    ensures var c := I.DoMoves(db, 0, FAIL);
            && c.attempts.Keys == {0} && c.attempts[0].phase == I.Returned(I.Failure(AMBIGUOUS))
            && OtherRows(db.t, c.t, r.key) && c.t.rows[r.key] == db.t.rows[r.key].(status := I.Failed)
            && c.t.commits == db.t.commits && c.t.now == db.t.now
  {
    var id := db.attempts[0].phase.attemptId;
    var d1 := I.Advance(db, 0, I.Failing(id, AMBIGUOUS));
    I.OneMove(db, 0, I.HandlerThrows(AMBIGUOUS), [I.MarkFailed(true)] + []);
    I.OneMove(d1, 0, I.MarkFailed(true), []);
  }

  // ------------------------------------------------------------ one request

  const BIND: Bind := Bind("a", "b", "c")

  const DRAFT: OrderInput := OrderInput(ById("x"), [], None)

  const ORDER: OrderInput := DRAFT.(customer := ById("c"))

  function Ask(id: ChoiceId): I.Request {
    I.Request(OrderKey(BIND, id), I.OrderPayload(ORDER))
  }

  /** The record is the picker, free or claimed for its one option. */
  ghost predicate Fits(r: Record) {
    && r.bind == BIND && r.target == CustomerTarget("q") && r.optionMap == map["o" := "c"]
    && r.card == [CardOption("o", "t")] && !r.truncated
    && r.canonicalInput.(customer := ById("c")) == ORDER
    && (r.status == Open || r.claimedOptionId == Some("o"))
  }

  ghost predicate OnOffer(v: View, id: ChoiceId, until: nat) {
    id in v && v[id].expiresAt == until && Fits(v[id].record)
  }

  ghost predicate Reached(s: State, ttl: nat) {
    exists es :: Protocol.Run(INITIAL, es, ttl) == s
  }

  lemma ReachedOn(s: State, es: seq<Event>, n: State, ttl: nat, d: Delays)
    requires Reached(s, ttl) && Leads(s, es, n, ttl, d)
    ensures Reached(n, ttl)
  {
    var fs :| Protocol.Run(INITIAL, fs, ttl) == s;
    LeadsThere(s, es, n, ttl, d);
    RunOn(INITIAL, fs, es, ttl);
  }

  lemma {:induction false} RunOn(s: State, es: seq<Event>, fs: seq<Event>, ttl: nat)
    ensures Protocol.Run(s, es + fs, ttl) == Protocol.Run(Protocol.Run(s, es, ttl), fs, ttl)
    decreases |es|
  {
    if es == [] {
      assert es + fs == fs;
    } else {
      assert (es + fs)[0] == es[0] && (es + fs)[1..] == es[1..] + fs;
      RunOn(Protocol.Step(s, es[0], ttl), es[1..], fs, ttl);
    }
  }

  lemma ReachedIsConsistent(s: State, ttl: nat)
    requires Reached(s, ttl)
    ensures Consistent(s.books)
  {
    var es :| Protocol.Run(INITIAL, es, ttl) == s;
    Protocol.Reachable(es, ttl);
  }

  /** No request is in flight, and the two clocks agree. */
  ghost predicate Idle(s: State, ttl: nat) {
    Reached(s, ttl) && s.handlers == map[] && s.db.attempts == map[] && s.books.now == s.db.t.now
  }

  ghost predicate AskingAs(h: Handler, id: ChoiceId, claimedAt: nat, stage: Stage) {
    && h.choiceId == id && h.bind == BIND && h.option == "o" && Fits(h.record)
    && h.claimedAt == claimedAt && h.stage == stage
  }

  ghost predicate Asking(s: State, id: ChoiceId, claimedAt: nat, stage: Stage) {
    s.handlers.Keys == {0} && AskingAs(s.handlers[0], id, claimedAt, stage)
  }

  function ClaimOf(id: ChoiceId): Event {
    Claim(0, id, BIND, "o", 1)
  }

  lemma PatchedIsOrder(r: Record)
    requires Fits(r)
    ensures Patched(r, "o") == ORDER
  {}

  lemma ClaimDecides(b: Books, id: ChoiceId)
    requires Consistent(b) && id in b.view && Fits(b.view[id].record)
    ensures var r := ClaimDecide(b.view, id, BIND, "o");
            && (r.ClaimWon? || r.ClaimReplay?) && Fits(r.record)
            && LivesOf(ClaimStep(b, id, BIND, "o"), id) != []
            && ClaimStep(b, id, BIND, "o").now == b.now
            && ClaimStep(b, id, BIND, "o").view == AfterClaim(b.view, id, BIND, "o")
  {
    LiveLifeRuns(b, id);
    ClaimOpensNothing(b, id, BIND, "o");
    assert |b.lives[id]| > 0;
  }

  /** A claim of the one option starts its order. */
  lemma ClaimStarts(s: State, pid: nat, id: ChoiceId, ttl: nat)
    requires pid !in s.handlers && pid !in s.db.attempts
    requires Consistent(s.books) && id in s.books.view && Fits(s.books.view[id].record)
    ensures var n := Protocol.Step(s, Claim(pid, id, BIND, "o", 1), ttl);
            && n.handlers.Keys == s.handlers.Keys + {pid}
            && AskingAs(n.handlers[pid], id, s.books.now, Ordering)
            && n.db == s.db.(attempts := s.db.attempts[pid := I.Attempt(Ask(id), 1, I.Ready(0))])
            && n.books == ClaimStep(s.books, id, BIND, "o") && n.sent == s.sent
  {
    ClaimDecides(s.books, id);
    var r := ClaimDecide(s.books.view, id, BIND, "o").record;
    PatchedIsOrder(r);
  }

  lemma ClaimRuns(s: State, id: ChoiceId, ttl: nat)
    requires s.handlers == map[] && s.db.attempts == map[]
    requires Consistent(s.books) && id in s.books.view && Fits(s.books.view[id].record)
    ensures var n := Protocol.Step(s, ClaimOf(id), ttl);
            && Asking(n, id, s.books.now, Ordering)
            && n.db == s.db.(attempts := map[0 := I.Attempt(Ask(id), 1, I.Ready(0))])
            && n.books.now == s.books.now && n.books.view == AfterClaim(s.books.view, id, BIND, "o")
            && n.sent == s.sent
  {
    ClaimStarts(s, 0, id, ttl);
    ClaimDecides(s.books, id);
  }

  /** What the passing of time and claims of the picker's option leave of a view. */
  ghost predicate Fades(v: View, w: View, now: nat) {
    forall k ::
      && (k in w ==> k in v && w[k].expiresAt == v[k].expiresAt)
      && (k in v && now < v[k].expiresAt ==> k in w && (Fits(v[k].record) ==> Fits(w[k].record)))
  }

  lemma OnOfferFades(v: View, w: View, now: nat, id: ChoiceId, until: nat)
    requires Fades(v, w, now) && OnOffer(v, id, until) && now < until
    ensures OnOffer(w, id, until)
  {}

  lemma ClaimFades(v: View, id: ChoiceId, now: nat)
    ensures Fades(v, AfterClaim(v, id, BIND, "o"), now)
  {}

  lemma PassFades(v: View, now: nat)
    ensures Fades(v, Unexpired(v, now), now)
  {}

  lemma FadesTrans(u: View, v: View, w: View, m: nat, n: nat)
    requires Fades(u, v, m) && Fades(v, w, n) && m <= n
    ensures Fades(u, w, n)
  {}

  lemma PassRuns(s: State, delta: nat, ttl: nat, d: Delays)
    ensures var n := Protocol.Step(s, Pass(delta), ttl);
            && Leads(s, [Pass(delta)], n, ttl, d)
            && n.handlers == s.handlers && n.db.attempts == s.db.attempts && n.sent == s.sent
            && n.db.t == s.db.t.(now := s.db.t.now + delta) && n.books.now == s.books.now + delta
            && Fades(s.books.view, n.books.view, n.books.now)
  {
    OneEvent(s, Pass(delta), ttl, d);
    PassFades(s.books.view, s.books.now + delta);
  }

  // ------------------------------------------------------------ a request up to its reservation

  function Reserving(id: ChoiceId, delta: nat): seq<Event> {
    [ClaimOf(id)] + ([Pass(delta)] + Pipes(0, RESERVE))
  }

  lemma ReserveRuns(s: State, id: ChoiceId, ttl: nat, d: Delays) returns (n: State)
    requires 0 in s.handlers && s.db.t.now <= s.handlers[0].claimedAt + d.reserve
    requires s.db.attempts == map[0 := I.Attempt(Ask(id), 1, I.Ready(0))] && Vacant(s.db.t.rows, s.db.t.now, Ask(id))
    ensures Leads(s, Pipes(0, RESERVE), n, ttl, d)
    ensures n.handlers == s.handlers && n.books == s.books && n.sent == s.sent
    ensures Running(n.db, Ask(id)) && OtherRows(s.db.t, n.db.t, Ask(id).key)
    ensures n.db.t.commits == s.db.t.commits && n.db.t.now == s.db.t.now
    ensures Ask(id).key !in s.db.t.rows ==> n.db.t.rows[Ask(id).key].expiresAt == s.db.t.now + I.RETENTION_MS
  {
    PipesLead(s, RESERVE, ttl, d);
    n := s.(db := I.DoMoves(s.db, 0, RESERVE));
    if Ask(id).key in s.db.t.rows { ReserveAgain(s.db, Ask(id), 1); } else { ReserveAbsent(s.db, Ask(id), 1); }
  }

  lemma TryRuns(s: State, id: ChoiceId, delta: nat, ttl: nat, d: Delays) returns (n: State)
    requires Idle(s, ttl) && id in s.books.view && Fits(s.books.view[id].record) && delta <= d.reserve
    requires Vacant(s.db.t.rows, s.db.t.now + delta, Ask(id))
    ensures Leads(s, Reserving(id, delta), n, ttl, d)
    ensures Asking(n, id, s.db.t.now, Ordering) && n.sent == s.sent
    ensures Running(n.db, Ask(id)) && OtherRows(s.db.t, n.db.t, Ask(id).key)
    ensures n.db.t.commits == s.db.t.commits && n.db.t.now == s.db.t.now + delta == n.books.now
    ensures Ask(id).key !in s.db.t.rows ==> n.db.t.rows[Ask(id).key].expiresAt == s.db.t.now + delta + I.RETENTION_MS
    ensures Fades(s.books.view, n.books.view, n.books.now)
  {
    var s1 := Protocol.Step(s, ClaimOf(id), ttl);
    ReachedIsConsistent(s, ttl);
    ClaimRuns(s, id, ttl);
    OneEvent(s, ClaimOf(id), ttl, d);
    ClaimFades(s.books.view, id, s.books.now);
    var s2 := Protocol.Step(s1, Pass(delta), ttl);
    PassRuns(s1, delta, ttl, d);
    FadesTrans(s.books.view, s1.books.view, s2.books.view, s.books.now, s2.books.now);
    n := ReserveRuns(s2, id, ttl, d);
    Then(s1, [Pass(delta)], s2, Pipes(0, RESERVE), n, ttl, d);
    Then(s, [ClaimOf(id)], s1, [Pass(delta)] + Pipes(0, RESERVE), n, ttl, d);
  }

  lemma CrashRuns(n: State, ttl: nat, d: Delays)
    requires n.handlers.Keys == {0} && n.db.attempts.Keys == {0}
    ensures var c := Protocol.Step(n, Crash(0), ttl);
            && Leads(n, [Crash(0)], c, ttl, d)
            && c.handlers == map[] && c.db.attempts == map[]
            && c.db.t == n.db.t && c.books == n.books && c.sent == n.sent
  {
    OneEvent(n, Crash(0), ttl, d);
  }

  /** After its handler is gone the state is idle again. */
  lemma CrashIdles(s: State, n: State, es: seq<Event>, ttl: nat, d: Delays) returns (c: State)
    requires Reached(s, ttl) && Leads(s, es, n, ttl, d)
    requires n.handlers.Keys == {0} && n.db.attempts.Keys == {0} && n.books.now == n.db.t.now
    ensures Leads(s, es + [Crash(0)], c, ttl, d) && Idle(c, ttl)
    ensures c.db.t == n.db.t && c.books == n.books && c.sent == n.sent
  {
    c := Protocol.Step(n, Crash(0), ttl);
    CrashRuns(n, ttl, d);
    Then(s, es, n, [Crash(0)], c, ttl, d);
    ReachedOn(s, es + [Crash(0)], c, ttl, d);
  }

  // ------------------------------------------------------------ a request that orders

  function Ordered(id: ChoiceId, delta: nat): seq<Event> {
    Reserving(id, delta) + Pipes(0, COMMIT) + [Crash(0)]
  }

  lemma CommittedRuns(s: State, id: ChoiceId, delta: nat, ttl: nat, d: Delays) returns (n: State)
    requires Idle(s, ttl) && id in s.books.view && Fits(s.books.view[id].record) && delta <= d.reserve
    requires Vacant(s.db.t.rows, s.db.t.now + delta, Ask(id))
    ensures Leads(s, Reserving(id, delta) + Pipes(0, COMMIT), n, ttl, d)
    ensures Asking(n, id, s.db.t.now, Ordering) && n.books.now == n.db.t.now == s.db.t.now + delta && n.sent == s.sent
    ensures n.db.attempts.Keys == {0} && n.db.attempts[0].phase == I.Returned(I.Success(|s.db.t.commits|))
    ensures OtherRows(s.db.t, n.db.t, Ask(id).key)
    ensures Ask(id).key !in s.db.t.rows ==> n.db.t.rows[Ask(id).key].expiresAt == s.db.t.now + delta + I.RETENTION_MS
    ensures |n.db.t.commits| == |s.db.t.commits| + 1 && n.db.t.commits[..|s.db.t.commits|] == s.db.t.commits
    ensures n.db.t.commits[|s.db.t.commits|].key == Ask(id).key
    ensures Fades(s.books.view, n.books.view, n.books.now)
  {
    var m := TryRuns(s, id, delta, ttl, d);
    CommitRuns(m.db, Ask(id));
    PipesLead(m, COMMIT, ttl, d);
    n := m.(db := I.DoMoves(m.db, 0, COMMIT));
    Then(s, Reserving(id, delta), m, Pipes(0, COMMIT), n, ttl, d);
  }

  /** A claimed picker is ordered `delta` ms after the claim. */
  lemma OrderRuns(s: State, id: ChoiceId, delta: nat, ttl: nat, d: Delays) returns (n: State)
    requires Idle(s, ttl) && id in s.books.view && Fits(s.books.view[id].record) && delta <= d.reserve
    requires Vacant(s.db.t.rows, s.db.t.now + delta, Ask(id))
    ensures Leads(s, Ordered(id, delta), n, ttl, d) && Idle(n, ttl)
    ensures n.db.t.now == s.db.t.now + delta && OtherRows(s.db.t, n.db.t, Ask(id).key)
    ensures Ask(id).key !in s.db.t.rows ==> n.db.t.rows[Ask(id).key].expiresAt == s.db.t.now + delta + I.RETENTION_MS
    ensures |n.db.t.commits| == |s.db.t.commits| + 1 && n.db.t.commits[..|s.db.t.commits|] == s.db.t.commits
    ensures n.db.t.commits[|s.db.t.commits|].key == Ask(id).key
    ensures Fades(s.books.view, n.books.view, n.books.now)
  {
    var c := CommittedRuns(s, id, delta, ttl, d);
    n := CrashIdles(s, c, Reserving(id, delta) + Pipes(0, COMMIT), ttl, d);
  }

  // ------------------------------------------------------------ a request that asks again

  const IDS: seq<string> := ["o"]

  function Opening(delta: nat): seq<Event> {
    [AfterOrder(0)] + ([Pass(delta)] + [OpenSuccessor(0, IDS)])
  }

  function Picked(id: ChoiceId, delta: nat): seq<Event> {
    Reserving(id, 0) + Pipes(0, FAIL) + Opening(delta) + [Crash(0)]
  }

  /** The record of the next picker of this schedule. */
  lemma NextRecord(h: Handler)
    requires h.bind == BIND && h.option == "o" && Fits(h.record)
    ensures h.option in h.record.optionMap && |IDS| >= |Capped(PICKER.options)|
    ensures var patched := Patched(h.record, h.option);
            var r := RecordFromConflict(SuccessorOf(h.choiceId), h.record.bind, patched, PICKER, IDS);
            r.Some? && r.value.choiceId == SuccessorOf(h.choiceId) && r.value.status == Open && Fits(r.value)
  {
    PatchedIsOrder(h.record);
    assert PICKER.options[..0] == [];
    assert MapFor(PICKER.options, IDS) == map["o" := "c"];
  }

  lemma OpenRuns(s: State, id: ChoiceId, claimedAt: nat, ttl: nat, d: Delays)
    requires Asking(s, id, claimedAt, OpeningSuccessor(PICKER)) && s.db.t.now <= claimedAt + d.successor && ttl > 0
    ensures var n := Protocol.Step(s, OpenSuccessor(0, IDS), ttl);
            && Leads(s, [OpenSuccessor(0, IDS)], n, ttl, d)
            && n.db == s.db && Asking(n, id, claimedAt, PeekingSuccessor) && n.books.now == s.books.now
            && n.sent == s.sent
            && (forall k :: k != SuccessorOf(id) ==>
                  (k in n.books.view <==> k in s.books.view)
                      && (k in s.books.view ==> n.books.view[k] == s.books.view[k]))
            && (SuccessorOf(id) !in s.books.view ==> OnOffer(n.books.view, SuccessorOf(id), s.books.now + ttl))
  {
    OneEvent(s, OpenSuccessor(0, IDS), ttl, d);
    NextRecord(s.handlers[0]);
  }

  /** From the failed order to the opened successor. */
  lemma OpeningRuns(s: State, id: ChoiceId, delta: nat, ttl: nat, d: Delays) returns (n: State)
    requires Asking(s, id, s.db.t.now, Ordering) && s.books.now == s.db.t.now && delta <= d.successor && ttl > 0
    requires s.db.attempts.Keys == {0} && s.db.attempts[0].phase == I.Returned(I.Failure(AMBIGUOUS))
    requires SuccessorOf(id) in s.books.view ==> s.books.view[SuccessorOf(id)].expiresAt <= s.books.now + delta
    ensures Leads(s, Opening(delta), n, ttl, d)
    ensures Asking(n, id, s.db.t.now, PeekingSuccessor) && n.db.attempts == s.db.attempts && n.sent == s.sent
    ensures n.db.t == s.db.t.(now := s.db.t.now + delta) && n.books.now == n.db.t.now
    ensures OnOffer(n.books.view, SuccessorOf(id), n.books.now + ttl)
    ensures FadesBut(s.books.view, n.books.view, SuccessorOf(id), n.books.now)
  {
    var s1 := Protocol.Step(s, AfterOrder(0), ttl);
    OneEvent(s, AfterOrder(0), ttl, d);
    var s2 := Protocol.Step(s1, Pass(delta), ttl);
    PassRuns(s1, delta, ttl, d);
    n := Protocol.Step(s2, OpenSuccessor(0, IDS), ttl);
    OpenRuns(s2, id, s.db.t.now, ttl, d);
    Then(s1, [Pass(delta)], s2, [OpenSuccessor(0, IDS)], n, ttl, d);
    Then(s, [AfterOrder(0)], s1, [Pass(delta)] + [OpenSuccessor(0, IDS)], n, ttl, d);
  }

  /** All entries but one fade. */
  ghost predicate FadesBut(v: View, w: View, id: ChoiceId, now: nat) {
    forall k :: k != id ==>
      && (k in w ==> k in v && w[k].expiresAt == v[k].expiresAt)
      && (k in v && now < v[k].expiresAt ==> k in w && (Fits(v[k].record) ==> Fits(w[k].record)))
  }

  lemma FadesButAfter(u: View, v: View, w: View, id: ChoiceId, m: nat, n: nat)
    requires Fades(u, v, m) && FadesBut(v, w, id, n) && m <= n
    ensures FadesBut(u, w, id, n)
  {}

  /** A claimed picker fails in the handler with another picker; its row is left failed. */
  lemma FailedRuns(s: State, id: ChoiceId, ttl: nat, d: Delays) returns (n: State)
    requires Idle(s, ttl) && id in s.books.view && Fits(s.books.view[id].record)
            && Vacant(s.db.t.rows, s.db.t.now, Ask(id))
    ensures Leads(s, Reserving(id, 0) + Pipes(0, FAIL), n, ttl, d)
    ensures Asking(n, id, s.db.t.now, Ordering) && n.books.now == n.db.t.now == s.db.t.now && n.sent == s.sent
    ensures n.db.attempts.Keys == {0} && n.db.attempts[0].phase == I.Returned(I.Failure(AMBIGUOUS))
    ensures OtherRows(s.db.t, n.db.t, Ask(id).key) && n.db.t.commits == s.db.t.commits
    ensures n.db.t.rows[Ask(id).key].status == I.Failed && n.db.t.rows[Ask(id).key].payload == Ask(id).payload
    ensures Fades(s.books.view, n.books.view, n.books.now)
  {
    var m := TryRuns(s, id, 0, ttl, d);
    FailRuns(m.db, Ask(id));
    PipesLead(m, FAIL, ttl, d);
    n := m.(db := I.DoMoves(m.db, 0, FAIL));
    Then(s, Reserving(id, 0), m, Pipes(0, FAIL), n, ttl, d);
  }

  /** And the successor's record is opened `delta` ms after the claim. */
  lemma PickRuns(s: State, id: ChoiceId, delta: nat, ttl: nat, d: Delays) returns (n: State)
    requires Idle(s, ttl) && id in s.books.view && Fits(s.books.view[id].record) && delta <= d.successor && ttl > 0
    requires Vacant(s.db.t.rows, s.db.t.now, Ask(id))
    requires SuccessorOf(id) in s.books.view ==> s.books.view[SuccessorOf(id)].expiresAt <= s.books.now + delta
    ensures Leads(s, Picked(id, delta), n, ttl, d) && Idle(n, ttl) && n.sent == s.sent
    ensures n.db.t.now == s.db.t.now + delta && OtherRows(s.db.t, n.db.t, Ask(id).key)
    ensures n.db.t.rows[Ask(id).key].status == I.Failed && n.db.t.rows[Ask(id).key].payload == Ask(id).payload
    ensures n.db.t.commits == s.db.t.commits
    ensures OnOffer(n.books.view, SuccessorOf(id), n.books.now + ttl)
    ensures FadesBut(s.books.view, n.books.view, SuccessorOf(id), n.books.now)
  {
    var c := FailedRuns(s, id, ttl, d);
    var e := OpeningRuns(c, id, delta, ttl, d);
    FadesButAfter(s.books.view, c.books.view, e.books.view, SuccessorOf(id), c.books.now, e.books.now);
    Then(s, Reserving(id, 0) + Pipes(0, FAIL), c, Opening(delta), e, ttl, d);
    n := CrashIdles(s, e, Reserving(id, 0) + Pipes(0, FAIL) + Opening(delta), ttl, d);
  }

  // ------------------------------------------------------------ a chain of pickers

  function Root(id: ChoiceId): ChoiceId {
    match id
    case Minted(_) => id
    case SuccessorOf(p) => Root(p)
  }

  /** The chain down to the choice, all at time 0. */
  function Down(id: ChoiceId): seq<Event> {
    match id
    case Minted(uuid) => [OpenRoot(uuid, BIND, DRAFT, PICKER, IDS)]
    case SuccessorOf(p) => Down(p) + Picked(p, 0)
  }

  ghost predicate FailedRow(row: I.Row) {
    row.status == I.Failed && row.payload == I.OrderPayload(ORDER)
  }

  /** The orders above depth `top` have failed. */
  ghost predicate FailedAbove(t: I.Table, top: nat) {
    forall key :: key in t.rows && Depth(key.key.choiceId) < top ==> FailedRow(t.rows[key])
  }

  /** Nothing is live below depth `depth` for longer than `until`. */
  ghost predicate EndsBelow(v: View, depth: int, until: nat) {
    forall k :: k in v && Depth(k) > depth ==> v[k].expiresAt <= until
  }

  lemma OpenRootRuns(uuid: nat, ttl: nat, d: Delays) returns (n: State)
    requires ttl > 0
    ensures Leads(INITIAL, Down(Minted(uuid)), n, ttl, d) && Idle(n, ttl)
    ensures n.db == INITIAL.db && n.books.view.Keys == {Minted(uuid)} && OnOffer(n.books.view, Minted(uuid), ttl)
    ensures n.sent == []
  {
    var e := OpenRoot(uuid, BIND, DRAFT, PICKER, IDS);
    OneEvent(INITIAL, e, ttl, d);
    assert PICKER.options[..0] == [];
    assert MapFor(PICKER.options, IDS) == map["o" := "c"];
    n := Protocol.Step(INITIAL, e, ttl);
    LeadsThere(INITIAL, [e], n, ttl, d);
    assert Reached(n, ttl);
  }

  lemma FadesBelow(v: View, w: View, id: ChoiceId, depth: int, until: nat, now: nat)
    requires EndsBelow(v, depth, until) && FadesBut(v, w, id, now) && Depth(id) <= depth + 1
    ensures EndsBelow(w, depth + 1, until)
  {}

  lemma StillFailedAbove(t: I.Table, u: I.Table, key: I.RowKey, top: nat)
    requires FailedAbove(t, top) && OtherRows(t, u, key) && FailedRow(u.rows[key])
    ensures FailedAbove(u, top)
  {}

  lemma FailedIsVacant(t: I.Table, now: nat, id: ChoiceId, top: nat)
    requires FailedAbove(t, top) && Depth(id) < top
    ensures Vacant(t.rows, now, Ask(id))
  {
    assert Ask(id).key.key.choiceId == id;
  }

  /** What `Down` reaches. */
  ghost predicate AtBottom(v: View, t: I.Table, id: ChoiceId, ttl: nat) {
    && OnOffer(v, id, ttl) && OnOffer(v, Root(id), ttl)
    && EndsBelow(v, -1, ttl) && (forall k :: k in v ==> Depth(k) <= Depth(id))
    && FailedAbove(t, Depth(id)) && (forall key :: key in t.rows ==> Depth(key.key.choiceId) < Depth(id))
  }

  lemma {:induction false} RootIsFirst(id: ChoiceId)
    ensures Depth(Root(id)) == 0
    decreases Depth(id)
  {
    if id.SuccessorOf? { RootIsFirst(id.parent); }
  }

  lemma BottomDeepens(v: View, w: View, t: I.Table, u: I.Table, p: ChoiceId, ttl: nat)
    requires AtBottom(v, t, p, ttl) && ttl > 0 && FadesBut(v, w, SuccessorOf(p), 0) && OnOffer(w, SuccessorOf(p), ttl)
    requires OtherRows(t, u, Ask(p).key) && FailedRow(u.rows[Ask(p).key])
    ensures AtBottom(w, u, SuccessorOf(p), ttl)
  {
    RootIsFirst(p);
    assert Depth(SuccessorOf(p)) == Depth(p) + 1 && Depth(Ask(p).key.key.choiceId) == Depth(p);
    forall key | key in u.rows ensures Depth(key.key.choiceId) < Depth(SuccessorOf(p)) && FailedRow(u.rows[key]) {
      if key != Ask(p).key { assert key in t.rows && u.rows[key] == t.rows[key]; }
    }
  }

  lemma BottomIsFree(v: View, t: I.Table, p: ChoiceId, ttl: nat)
    requires AtBottom(v, t, p, ttl)
    ensures p in v && Fits(v[p].record) && SuccessorOf(p) !in v
    ensures Ask(p).key !in t.rows
  {
    assert Depth(SuccessorOf(p)) == Depth(p) + 1 && Depth(Ask(p).key.key.choiceId) == Depth(p);
  }

  lemma {:induction false} DownRuns(id: ChoiceId, ttl: nat, d: Delays) returns (n: State)
    requires ttl > 0
    ensures Leads(INITIAL, Down(id), n, ttl, d) && Idle(n, ttl) && n.db.t.now == 0 && n.db.t.commits == []
    ensures AtBottom(n.books.view, n.db.t, id, ttl) && n.sent == []
    decreases Depth(id)
  {
    match id
    case Minted(uuid) => n := OpenRootRuns(uuid, ttl, d);
    case SuccessorOf(p) =>
      var m := DownRuns(p, ttl, d);
      BottomIsFree(m.books.view, m.db.t, p, ttl);
      n := PickRuns(m, p, 0, ttl, d);
      BottomDeepens(m.books.view, n.books.view, m.db.t, n.db.t, p, ttl);
      Then(INITIAL, Down(p), m, Picked(p, 0), n, ttl, d);
  }

  /** The chain again, each picker claimed in the last millisecond of its record and
      its successor opened as late as may be. */
  function Again(id: ChoiceId, ttl: nat, d: Delays): seq<Event>
    requires ttl > 0
  {
    match id
    case Minted(_) => []
    case SuccessorOf(p) => Again(p, ttl, d) + ([Pass(ttl - 1)] + Picked(p, d.successor))
  }

  lemma PassIdles(s: State, delta: nat, ttl: nat, d: Delays) returns (n: State)
    requires Idle(s, ttl)
    ensures Leads(s, [Pass(delta)], n, ttl, d) && Idle(n, ttl) && n.sent == s.sent
    ensures n.db.t.rows == s.db.t.rows && n.db.t.commits == s.db.t.commits && n.db.t.now == s.db.t.now + delta
    ensures Fades(s.books.view, n.books.view, n.db.t.now)
  {
    PassRuns(s, delta, ttl, d);
    n := Protocol.Step(s, Pass(delta), ttl);
    ReachedOn(s, [Pass(delta)], n, ttl, d);
  }

  /** What `Again` keeps at each depth: the choice is on offer for a whole record
      life, its successors are not for long, and the orders above `top` have failed. */
  ghost predicate OnTheWay(v: View, t: I.Table, id: ChoiceId, top: nat, now: nat, ttl: nat) {
    OnOffer(v, id, now + ttl) && EndsBelow(v, Depth(id), ttl) && FailedAbove(t, top)
  }

  lemma WayIsFree(v: View, t: I.Table, p: ChoiceId, top: nat, now: nat, ttl: nat)
    requires ttl > 0 && OnTheWay(v, t, p, top, now, ttl) && Depth(p) < top
    ensures SuccessorOf(p) in v ==> v[SuccessorOf(p)].expiresAt <= ttl
    ensures Vacant(t.rows, now + (ttl - 1), Ask(p))
  {
    FailedIsVacant(t, now + (ttl - 1), p, top);
    assert Depth(SuccessorOf(p)) == Depth(p) + 1;
  }

  lemma WayGoesOn(v: View, w: View, t: I.Table, u: I.Table, p: ChoiceId, top: nat, now: nat, later: nat, ttl: nat)
    requires OnTheWay(v, t, p, top, now, ttl)
    requires FadesBut(v, w, SuccessorOf(p), later) && OnOffer(w, SuccessorOf(p), later + ttl)
    requires OtherRows(t, u, Ask(p).key) && FailedRow(u.rows[Ask(p).key])
    ensures OnTheWay(w, u, SuccessorOf(p), top, later, ttl)
  {
    assert Depth(SuccessorOf(p)) == Depth(p) + 1;
    FadesBelow(v, w, SuccessorOf(p), Depth(p), ttl, later);
    StillFailedAbove(t, u, Ask(p).key, top);
  }

  lemma FadesFirst(u: View, v: View, p: ChoiceId, until: nat, now: nat)
    requires Fades(u, v, now) && OnOffer(u, p, until) && now < until
    ensures p in v && Fits(v[p].record)
    ensures SuccessorOf(p) in v ==> SuccessorOf(p) in u && v[SuccessorOf(p)].expiresAt == u[SuccessorOf(p)].expiresAt
  {}

  /** One picker of the chain, claimed late. */
  lemma AgainStep(s: State, p: ChoiceId, ttl: nat, d: Delays) returns (n: State)
    requires ttl > 0 && Idle(s, ttl) && OnOffer(s.books.view, p, s.db.t.now + ttl)
    requires SuccessorOf(p) in s.books.view ==>
               s.books.view[SuccessorOf(p)].expiresAt <= s.db.t.now + (ttl - 1) + d.successor
    requires Vacant(s.db.t.rows, s.db.t.now + (ttl - 1), Ask(p))
    ensures Leads(s, [Pass(ttl - 1)] + Picked(p, d.successor), n, ttl, d) && Idle(n, ttl) && n.sent == s.sent
    ensures n.db.t.now == s.db.t.now + (ttl - 1 + d.successor) && n.db.t.commits == s.db.t.commits
    ensures OtherRows(s.db.t, n.db.t, Ask(p).key) && FailedRow(n.db.t.rows[Ask(p).key])
    ensures OnOffer(n.books.view, SuccessorOf(p), n.db.t.now + ttl)
    ensures FadesBut(s.books.view, n.books.view, SuccessorOf(p), n.db.t.now)
  {
    var m := PassIdles(s, ttl - 1, ttl, d);
    FadesFirst(s.books.view, m.books.view, p, s.db.t.now + ttl, m.db.t.now);
    n := PickRuns(m, p, d.successor, ttl, d);
    FadesButAfter(s.books.view, m.books.view, n.books.view, SuccessorOf(p), m.db.t.now, n.db.t.now);
    Then(s, [Pass(ttl - 1)], m, Picked(p, d.successor), n, ttl, d);
  }

  /** The rows of choices at depth `top` and below are as they were. */
  ghost predicate RowsStay(t: I.Table, u: I.Table, top: nat) {
    forall key :: key in t.rows && Depth(key.key.choiceId) >= top ==> key in u.rows && u.rows[key] == t.rows[key]
  }

  lemma OtherRowsStay(t: I.Table, u: I.Table, v: I.Table, p: ChoiceId, top: nat)
    requires RowsStay(t, u, top) && OtherRows(u, v, Ask(p).key) && Depth(p) < top
    ensures RowsStay(t, v, top)
  {
    assert Ask(p).key.key.choiceId == p;
  }

  lemma AgainOnTheWay(s: State, p: ChoiceId, top: nat, ttl: nat, d: Delays) returns (n: State)
    requires ttl > 0 && d.successor > 0 && Depth(p) < top && Idle(s, ttl)
    requires OnTheWay(s.books.view, s.db.t, p, top, s.db.t.now, ttl)
    ensures Leads(s, [Pass(ttl - 1)] + Picked(p, d.successor), n, ttl, d) && Idle(n, ttl) && n.sent == s.sent
    ensures n.db.t.now == s.db.t.now + (ttl - 1 + d.successor) && n.db.t.commits == s.db.t.commits
    ensures OnTheWay(n.books.view, n.db.t, SuccessorOf(p), top, n.db.t.now, ttl)
    ensures OtherRows(s.db.t, n.db.t, Ask(p).key)
  {
    WayIsFree(s.books.view, s.db.t, p, top, s.db.t.now, ttl);
    n := AgainStep(s, p, ttl, d);
    WayGoesOn(s.books.view, n.books.view, s.db.t, n.db.t, p, top, s.db.t.now, n.db.t.now, ttl);
  }

  lemma {:induction false} AgainRuns(s: State, id: ChoiceId, top: nat, ttl: nat, d: Delays) returns (n: State)
    requires ttl > 0 && d.successor > 0 && Depth(id) <= top && Idle(s, ttl) && s.db.t.now == 0
    requires OnOffer(s.books.view, Root(id), ttl) && EndsBelow(s.books.view, 0, ttl) && FailedAbove(s.db.t, top)
    ensures Leads(s, Again(id, ttl, d), n, ttl, d) && Idle(n, ttl) && n.sent == s.sent
    ensures n.db.t.now == Slack(ttl, d, Depth(id)) && n.db.t.commits == s.db.t.commits
    ensures OnTheWay(n.books.view, n.db.t, id, top, n.db.t.now, ttl)
    ensures RowsStay(s.db.t, n.db.t, top)
    decreases Depth(id)
  {
    match id
    case Minted(_) =>
      n := s;
      NoEvent(s, ttl, d);
    case SuccessorOf(p) =>
      var m := AgainRuns(s, p, top, ttl, d);
      n := AgainOnTheWay(m, p, top, ttl, d);
      OtherRowsStay(s.db.t, m.db.t, n.db.t, p, top);
      Then(s, Again(p, ttl, d), m, [Pass(ttl - 1)] + Picked(p, d.successor), n, ttl, d);
  }

  /** To the last record of the choice that the delays allow: the first one, or the one
      at the end of the late chain. */
  function Latest(id: ChoiceId, ttl: nat, d: Delays): seq<Event>
    requires ttl > 0
  {
    if d.successor == 0 then [] else Again(id, ttl, d)
  }

  lemma LatestRuns(s: State, id: ChoiceId, ttl: nat, d: Delays) returns (n: State)
    requires ttl > 0 && Idle(s, ttl) && s.db.t.now == 0
    requires OnOffer(s.books.view, id, ttl) && OnOffer(s.books.view, Root(id), ttl)
    requires EndsBelow(s.books.view, 0, ttl) && FailedAbove(s.db.t, Depth(id))
    ensures Leads(s, Latest(id, ttl, d), n, ttl, d) && Idle(n, ttl) && n.sent == s.sent
    ensures n.db.t.now == Slack(ttl, d, Depth(id)) && n.db.t.commits == s.db.t.commits
    ensures OnOffer(n.books.view, id, n.db.t.now + ttl) && RowsStay(s.db.t, n.db.t, Depth(id))
  {
    if d.successor == 0 {
      n := s;
      NoEvent(s, ttl, d);
    } else {
      n := AgainRuns(s, id, Depth(id), ttl, d);
    }
  }

  // ------------------------------------------------------------ two orders

  /** The choice is ordered at time 0, and once more as late as the delays allow. */
  function Twice(id: ChoiceId, ttl: nat, d: Delays): seq<Event>
    requires ttl > 0
  {
    (Down(id) + Ordered(id, 0)) + (Latest(id, ttl, d) + ([Pass(ttl - 1)] + Ordered(id, d.reserve)))
  }

  lemma FirstOrder(id: ChoiceId, ttl: nat, d: Delays) returns (n: State)
    requires ttl > 0
    ensures Leads(INITIAL, Down(id) + Ordered(id, 0), n, ttl, d) && Idle(n, ttl) && n.db.t.now == 0
    ensures |n.db.t.commits| == 1 && n.db.t.commits[0].key == Ask(id).key
    ensures OnOffer(n.books.view, id, ttl) && OnOffer(n.books.view, Root(id), ttl) && EndsBelow(n.books.view, 0, ttl)
    ensures FailedAbove(n.db.t, Depth(id))
    ensures Ask(id).key in n.db.t.rows && n.db.t.rows[Ask(id).key].expiresAt == I.RETENTION_MS
  {
    var m := DownRuns(id, ttl, d);
    BottomIsFree(m.books.view, m.db.t, id, ttl);
    assert Ask(id).key.key.choiceId == id;
    n := OrderRuns(m, id, 0, ttl, d);
    Then(INITIAL, Down(id), m, Ordered(id, 0), n, ttl, d);
  }

  /** An order of a choice on offer, reserved when the row of its last order has expired. */
  lemma LateOrder(s: State, id: ChoiceId, ttl: nat, d: Delays) returns (n: State)
    requires ttl > 0 && Idle(s, ttl) && OnOffer(s.books.view, id, s.db.t.now + ttl)
    requires Ask(id).key in s.db.t.rows && s.db.t.rows[Ask(id).key].expiresAt <= s.db.t.now + (ttl - 1 + d.reserve)
    ensures Leads(s, [Pass(ttl - 1)] + Ordered(id, d.reserve), n, ttl, d)
    ensures |n.db.t.commits| == |s.db.t.commits| + 1 && n.db.t.commits[..|s.db.t.commits|] == s.db.t.commits
    ensures n.db.t.commits[|s.db.t.commits|].key == Ask(id).key
  {
    var m := PassIdles(s, ttl - 1, ttl, d);
    FadesFirst(s.books.view, m.books.view, id, s.db.t.now + ttl, m.db.t.now);
    n := OrderRuns(m, id, d.reserve, ttl, d);
    Then(s, [Pass(ttl - 1)], m, Ordered(id, d.reserve), n, ttl, d);
  }

  /** The unsafe half of the theorem: when the span reaches the retention, this run
      keeps the delays and orders twice. */
  lemma OrderedTwice(id: ChoiceId, ttl: nat, d: Delays)
    requires ttl > 0 && I.RETENTION_MS <= Span(ttl, d, Depth(id))
    ensures RunInTime(INITIAL, Twice(id, ttl, d), ttl, d)
    ensures var t := Protocol.Run(INITIAL, Twice(id, ttl, d), ttl).db.t;
            IsOrder(t, id, 0) && IsOrder(t, id, 1)
  {
    var m := FirstOrder(id, ttl, d);
    var late := [Pass(ttl - 1)] + Ordered(id, d.reserve);
    var k := LatestRuns(m, id, ttl, d);
    assert Depth(Ask(id).key.key.choiceId) == Depth(id);
    var n := LateOrder(k, id, ttl, d);
    Then(m, Latest(id, ttl, d), k, late, n, ttl, d);
    Then(INITIAL, Down(id) + Ordered(id, 0), m, Latest(id, ttl, d) + late, n, ttl, d);
    LeadsThere(INITIAL, Twice(id, ttl, d), n, ttl, d);
    TwoCommits(m.db.t.commits, n.db.t.commits);
  }

  lemma TwoCommits(a: seq<I.Commit>, b: seq<I.Commit>)
    requires |a| == 1 && |b| == 2 && b[..1] == a
    ensures b[0] == a[0]
  {
    assert b[..1][0] == b[0];
  }

  // ------------------------------------------------------------ the plainest such run

  /** Two clients claim the one option; the second handler stalls for a retention. */
  const STALLED: seq<Event> :=
    [OpenRoot(0, BIND, DRAFT, PICKER, IDS)]
    + ([Claim(0, Minted(0), BIND, "o", 1)] + ([Claim(1, Minted(0), BIND, "o", 1)]
    + (Pipes(0, I.EXECUTE) + ([Pass(I.RETENTION_MS)] + ([Cleanup] + (Pipes(1, I.EXECUTE) + []))))))

  lemma StalledTable(db: I.Db, r: I.Request)
    requires 0 in db.attempts && db.attempts[0] == I.Attempt(r, 1, I.Ready(0))
    requires 1 in db.attempts && db.attempts[1] == I.Attempt(r, 1, I.Ready(0))
    requires r.key !in db.t.rows && db.t.commits == []
    ensures var a := I.DoMoves(db, 0, I.EXECUTE);
            var b := I.Step(I.Step(a, I.Pass(I.RETENTION_MS)), I.Cleanup);
            var c := I.DoMoves(b, 1, I.EXECUTE);
            |c.t.commits| == 2 && c.t.commits[0].key == r.key && c.t.commits[1].key == r.key
  {
    I.FreshKeyCommits(db, 0, r, 1);
    var a := I.DoMoves(db, 0, I.EXECUTE);
    var b := I.Step(I.Step(a, I.Pass(I.RETENTION_MS)), I.Cleanup);
    I.FreshKeyCommits(b, 1, r, 1);
  }

  lemma ClaimKeepsOffer(b: Books, id: ChoiceId)
    requires Consistent(b) && id in b.view && Fits(b.view[id].record)
    ensures var c := ClaimStep(b, id, BIND, "o");
            Consistent(c) && id in c.view && Fits(c.view[id].record)
  {
    ClaimKeeps(b, id, BIND, "o");
    ClaimDecides(b, id);
  }

  lemma TwoClaims(s: State, id: ChoiceId, ttl: nat) returns (n: State)
    requires Idle(s, ttl) && id in s.books.view && Fits(s.books.view[id].record)
    ensures n == Protocol.Step(Protocol.Step(s, ClaimOf(id), ttl), Claim(1, id, BIND, "o", 1), ttl)
    ensures n.db.t == s.db.t
    ensures 0 in n.db.attempts && n.db.attempts[0] == I.Attempt(Ask(id), 1, I.Ready(0))
    ensures 1 in n.db.attempts && n.db.attempts[1] == I.Attempt(Ask(id), 1, I.Ready(0))
  {
    ReachedIsConsistent(s, ttl);
    ClaimStarts(s, 0, id, ttl);
    ClaimKeepsOffer(s.books, id);
    var s1 := Protocol.Step(s, ClaimOf(id), ttl);
    ClaimStarts(s1, 1, id, ttl);
    n := Protocol.Step(s1, Claim(1, id, BIND, "o", 1), ttl);
  }

  /** A second order under the same key, whatever the records live. */
  lemma StalledHandlerOrdersAgain(ttl: nat)
    requires ttl > 0
    ensures var t := Protocol.Run(INITIAL, STALLED, ttl).db.t;
            IsOrder(t, Minted(0), 0) && IsOrder(t, Minted(0), 1)
  {
    var end := [Pass(I.RETENTION_MS)] + ([Cleanup] + (Pipes(1, I.EXECUTE) + []));
    var s := OpenRootRuns(0, ttl, Delays(I.CreateOrder, 0, 0));
    var claims := [Claim(0, Minted(0), BIND, "o", 1)]
        + ([Claim(1, Minted(0), BIND, "o", 1)] + (Pipes(0, I.EXECUTE) + end));
    assert Protocol.Run(INITIAL, [OpenRoot(0, BIND, DRAFT, PICKER, IDS)] + claims, ttl) == Protocol.Run(s, claims, ttl);
    var n := TwoClaims(s, Minted(0), ttl);
    RunStep(s, ClaimOf(Minted(0)), [Claim(1, Minted(0), BIND, "o", 1)] + (Pipes(0, I.EXECUTE) + end), ttl);
    var s1 := Protocol.Step(s, ClaimOf(Minted(0)), ttl);
    RunStep(s1, Claim(1, Minted(0), BIND, "o", 1), Pipes(0, I.EXECUTE) + end, ttl);
    StallRuns(n, end, ttl);
    StalledTable(n.db, Ask(Minted(0)));
  }

  /** The rest of that run is the pipeline's. */
  lemma StallRuns(n: State, end: seq<Event>, ttl: nat)
    requires end == [Pass(I.RETENTION_MS)] + ([Cleanup] + (Pipes(1, I.EXECUTE) + []))
    ensures var a := I.DoMoves(n.db, 0, I.EXECUTE);
            var b := I.Step(I.Step(a, I.Pass(I.RETENTION_MS)), I.Cleanup);
            Protocol.Run(n, Pipes(0, I.EXECUTE) + end, ttl).db == I.DoMoves(b, 1, I.EXECUTE)
  {
    RunPipes(n, 0, I.EXECUTE, end, ttl);
    var m := n.(db := I.DoMoves(n.db, 0, I.EXECUTE));
    RunStep(m, Pass(I.RETENTION_MS), [Cleanup] + (Pipes(1, I.EXECUTE) + []), ttl);
    var k := Protocol.Step(m, Pass(I.RETENTION_MS), ttl);
    RunStep(k, Cleanup, Pipes(1, I.EXECUTE) + [], ttl);
    RunPipes(Protocol.Step(k, Cleanup, ttl), 1, I.EXECUTE, [], ttl);
  }

  // ------------------------------------------------------------ the theorem

  /** In every run that keeps the delays the choice has one order. */
  ghost predicate AlwaysOneOrder(id: ChoiceId, ttl: nat, d: Delays) {
    forall es :: RunInTime(INITIAL, es, ttl, d) ==> OneOrder(Protocol.Run(INITIAL, es, ttl), id)
  }

  /** One order per choice, exactly: over all runs whose handlers keep the delays a
      choice is ordered at most once, and all its `completed` replies name that order,
      if and only if the key of an order outlives every claim of the choice. */
  lemma OneOrderExactly(id: ChoiceId, ttl: nat, d: Delays)
    requires d.action.CreateOrder?
    ensures AlwaysOneOrder(id, ttl, d) <==> KeyOutlivesChoice(ttl, d, Depth(id))
  {
    if KeyOutlivesChoice(ttl, d, Depth(id)) {
      forall es | RunInTime(INITIAL, es, ttl, d) ensures OneOrder(Protocol.Run(INITIAL, es, ttl), id) {
        OrderedOnce(es, ttl, d, id);
      }
    } else {
      OrderedTwice(id, ttl, d);
      assert !OneOrder(Protocol.Run(INITIAL, Twice(id, ttl, d), ttl), id);
    }
  }

  /** For a first card: the record lives `ttl` ms and is never opened again, so only
      the delay of the order counts. */
  lemma FirstCardOrderedOnceExactly(uuid: nat, ttl: nat, delay: nat)
    ensures (forall es :: ReservesInTime(INITIAL, es, ttl, I.CreateOrder, delay) ==>
            OneOrder(Protocol.Run(INITIAL, es, ttl), Minted(uuid)))
            <==> ttl == 0 || ttl + delay <= I.RETENTION_MS
  {
    if ttl == 0 || ttl + delay <= I.RETENTION_MS {
      forall es | ReservesInTime(INITIAL, es, ttl, I.CreateOrder, delay)
        ensures OneOrder(Protocol.Run(INITIAL, es, ttl), Minted(uuid))
      {
        var d := Delays(I.CreateOrder, delay, Protocol.Run(INITIAL, es, ttl).db.t.now);
        SuccessorsAreInTime(INITIAL, es, ttl, d);
        OrderedOnce(es, ttl, d, Minted(uuid));
      }
    } else {
      var d := Delays(I.CreateOrder, delay, 0);
      OrderedTwice(Minted(uuid), ttl, d);
      InTimeReservesInTime(INITIAL, Twice(Minted(uuid), ttl, d), ttl, d);
      assert !OneOrder(Protocol.Run(INITIAL, Twice(Minted(uuid), ttl, d), ttl), Minted(uuid));
    }
  }
}
