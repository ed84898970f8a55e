/** The worker's tick loop (`createWorkerLoop` in apps/worker/src/loop.ts) as a step machine.
    An event is a call into the loop, the end of something it awaits, or one turn of a lane. */
module WorkerLoop {
  import opened LanePool

  const TICK_FAILURE_BACKOFF_MAX_MS := 30000

  /** What `serialized` has queued on the promise chain. */
  datatype Job = TickJob | CleanupJob

  /** Where the running job waits. */
  datatype Work = Idle | Dispatching | Finding | Pooling(pool: Pool) | Cleaning

  /** One call of `stop`: it waits for the listener, then for the chain as it is at that moment;
      when the listener fails to stop, so does the call. */
  datatype StopCall = Listening | Awaiting(chain: nat) | Resolved | Rejected

  /** A finished pass, and whether stop had been requested by its end. */
  datatype Pass = Pass(pool: Pool, stopping: bool)

  /** How a pass ended, and when if it threw. */
  datatype PassEnd = Completed | Broken(at: int)

  datatype Config = Config(pollIntervalMs: nat, concurrency: int)

  /** `enqueued` and `completed` count the jobs of the chain; `dispatches` counts the passes
      begun, `failedPasses` those that threw; `ends` remembers how every pass ended. */
  datatype Loop = Loop(now: int, stopping: bool, ticking: bool, pendingWake: bool,
                       failures: nat, backoffUntil: int,
                       queue: seq<Job>, work: Work, stops: seq<StopCall>,
                       enqueued: nat, completed: nat,
                       dispatches: nat, failedPasses: nat, passes: seq<Pass>, ends: seq<PassEnd>)

  datatype Event =
    | Wait(ms: nat)
    | Tick
    | RequestTick
    | Cleanup
    | Stop
    | ListenerStopped(call: nat, ok: bool)
    | ChainSettled(call: nat)
    | JobStarts
    | DispatchEnds(ok: bool)
    | FindEnds(ok: bool, due: seq<nat>)
    | LaneTakes(lane: nat)
    | LaneEnds(lane: nat, outcome: Outcome)
    | LanesDone
    | CleanupEnds

  function Started(now: int): Loop {
    Loop(now, false, false, false, 0, 0, [], Idle, [], 0, 0, 0, 0, [], [])
  }

  // ------------------------------------------------------------ steps

  function Enqueue(s: Loop, job: Job): Loop {
    s.(queue := s.queue + [job], enqueued := s.enqueued + 1)
  }

  function DoTick(s: Loop): Loop {
    if s.stopping || s.now < s.backoffUntil then s
    else if s.ticking then s.(pendingWake := true)
    else Enqueue(s, TickJob)
  }

  function EndJob(s: Loop): Loop {
    s.(ticking := false, work := Idle, completed := s.completed + 1)
  }

  /** The head of the `do` loop. */
  function BeginPass(s: Loop): Loop {
    var cleared := s.(pendingWake := false);
    if s.stopping then EndJob(cleared)
    else cleared.(work := Dispatching, dispatches := s.dispatches + 1)
  }

  function StartJob(s: Loop): Loop {
    if s.work != Idle || s.queue == [] then s
    else
      var q := s.(queue := s.queue[1..]);
      match s.queue[0]
      case TickJob => BeginPass(q.(ticking := true))
      case CleanupJob => q.(work := Cleaning)
  }

  function Double(n: nat): nat {
    if n == 0 then 1 else 2 * Double(n - 1)
  }

  function BackoffMs(poll: nat, failures: nat): nat {
    var grown := if failures == 0 then 0 else poll * Double(failures - 1);
    if grown < TICK_FAILURE_BACKOFF_MAX_MS then grown else TICK_FAILURE_BACKOFF_MAX_MS
  }

  function PassFails(c: Config, s: Loop): Loop {
    EndJob(s.(failures := s.failures + 1, failedPasses := s.failedPasses + 1, ends := s.ends + [Broken(s.now)],
              backoffUntil := s.now + BackoffMs(c.pollIntervalMs, s.failures + 1)))
  }

  function PassEnds(s: Loop, pool: Pool): Loop {
    var done := s.(failures := 0, backoffUntil := 0, ends := s.ends + [Completed],
                   passes := s.passes + [Pass(pool, s.stopping)]);
    if s.pendingWake then BeginPass(done) else EndJob(done)
  }

  function DispatchEnded(c: Config, s: Loop, ok: bool): Loop {
    if !s.work.Dispatching? then s
    else if !ok then PassFails(c, s)
    else if s.stopping then PassEnds(s, Fresh([], c.concurrency))
    else s.(work := Finding)
  }

  function FindEnded(c: Config, s: Loop, ok: bool, due: seq<nat>): Loop {
    if !s.work.Finding? then s
    else if !ok then PassFails(c, s)
    else if due == [] then PassEnds(s, Fresh([], c.concurrency))
    else s.(work := Pooling(Fresh(due, c.concurrency)))
  }

  function AskStop(s: Loop): Loop {
    s.(stopping := true, stops := s.stops + [Listening])
  }

  function ListenerEnded(s: Loop, call: nat, ok: bool): Loop {
    if call < |s.stops| && s.stops[call] == Listening
    then s.(stops := s.stops[call := if ok then Awaiting(s.enqueued) else Rejected])
    else s
  }

  function ChainEnded(s: Loop, call: nat): Loop {
    if call < |s.stops| && s.stops[call].Awaiting? && s.stops[call].chain <= s.completed
    then s.(stops := s.stops[call := Resolved])
    else s
  }

  function Step(c: Config, s: Loop, e: Event): Loop {
    match e
    case Wait(ms) => s.(now := s.now + ms)
    case Tick => DoTick(s)
    case RequestTick => DoTick(s.(pendingWake := true))
    case Cleanup => if s.stopping then s else Enqueue(s, CleanupJob)
    case Stop => AskStop(s)
    case ListenerStopped(call, ok) => ListenerEnded(s, call, ok)
    case ChainSettled(call) => ChainEnded(s, call)
    case JobStarts => StartJob(s)
    case DispatchEnds(ok) => DispatchEnded(c, s, ok)
    case FindEnds(ok, due) => FindEnded(c, s, ok, due)
    case LaneTakes(lane) =>
      if s.work.Pooling? then s.(work := Pooling(Take(s.work.pool, lane, s.stopping))) else s
    case LaneEnds(lane, o) =>
      if s.work.Pooling? then s.(work := Pooling(End(s.work.pool, lane, o))) else s
    case LanesDone =>
      if s.work.Pooling? && AllReturned(s.work.pool) then PassEnds(s, s.work.pool) else s
    case CleanupEnds => if s.work.Cleaning? then EndJob(s) else s
  }

  function Run(c: Config, s: Loop, es: seq<Event>): Loop {
    if es == [] then s else Step(c, Run(c, s, es[..|es| - 1]), es[|es| - 1])
  }

  // ------------------------------------------------------------ invariant

  predicate InTick(w: Work) {
    w.Dispatching? || w.Finding? || w.Pooling?
  }

  function Active(w: Work): nat {
    if w.Idle? then 0 else 1
  }

  ghost predicate PoolFits(c: Config, p: Pool, stopping: bool) {
    PoolOk(p, stopping) && |p.lanes| == LaneCount(c.concurrency, |p.due|)
  }

  /** A logged pass: its pool is settled, as far as stop let it run. */
  ghost predicate PassOk(c: Config, pass: Pass) {
    && PoolFits(c, pass.pool, pass.stopping) && InFlight(pass.pool.lanes) == 0
    && (pass.stopping || pass.pool.next >= |pass.pool.due|)
  }

  ghost predicate PassesOk(c: Config, passes: seq<Pass>) {
    forall i :: 0 <= i < |passes| ==> PassOk(c, passes[i])
  }

  ghost predicate StopOk(s: Loop, call: StopCall) {
    && s.stopping
    && (call.Awaiting? ==> call.chain == s.enqueued)
    && (call.Resolved? ==> s.completed == s.enqueued)
  }

  ghost predicate StopsOk(s: Loop) {
    forall i :: 0 <= i < |s.stops| ==> StopOk(s, s.stops[i])
  }

  /** How many passes in a row have thrown by now. */
  function Streak(ends: seq<PassEnd>): nat {
    if ends == [] || ends[|ends| - 1].Completed? then 0 else 1 + Streak(ends[..|ends| - 1])
  }

  /** The end of the window that the last throw opened, sized by its streak. */
  function WindowEnd(c: Config, ends: seq<PassEnd>): int {
    if ends == [] || ends[|ends| - 1].Completed? then 0
    else ends[|ends| - 1].at + BackoffMs(c.pollIntervalMs, Streak(ends))
  }

  ghost predicate BackoffOk(c: Config, s: Loop) {
    && s.failures == Streak(s.ends) && s.backoffUntil == WindowEnd(c, s.ends)
    && (s.ends != [] && s.ends[|s.ends| - 1].Broken? ==> s.ends[|s.ends| - 1].at <= s.now)
  }

  lemma EndsMore(c: Config, ends: seq<PassEnd>, now: int)
    ensures Streak(ends + [Completed]) == 0 && WindowEnd(c, ends + [Completed]) == 0
    ensures Streak(ends + [Broken(now)]) == Streak(ends) + 1
    ensures WindowEnd(c, ends + [Broken(now)]) == now + BackoffMs(c.pollIntervalMs, Streak(ends) + 1)
  {
    assert (ends + [Broken(now)])[..|ends|] == ends;
  }

  ghost predicate Ok(c: Config, s: Loop) {
    && (s.ticking <==> InTick(s.work))
    && s.enqueued == s.completed + |s.queue| + Active(s.work)
    && (s.work.Pooling? ==> PoolFits(c, s.work.pool, s.stopping))
    && PassesOk(c, s.passes)
    && StopsOk(s)
    && BackoffOk(c, s)
  }

  lemma FreshFits(c: Config, due: seq<nat>, stopping: bool)
    ensures PoolFits(c, Fresh(due, c.concurrency), stopping)
    ensures InFlight(Fresh(due, c.concurrency).lanes) == 0
  {
    FreshOk(due, c.concurrency, stopping);
    NothingHeld(Fresh(due, c.concurrency).lanes);
  }

  lemma PassEndsKeeps(c: Config, s: Loop, pool: Pool)
    requires Ok(c, s) && InTick(s.work) && PassOk(c, Pass(pool, s.stopping))
    ensures Ok(c, PassEnds(s, pool))
  {
    EndsMore(c, s.ends, s.now);
  }

  lemma PassFailsKeeps(c: Config, s: Loop)
    requires Ok(c, s) && InTick(s.work)
    ensures Ok(c, PassFails(c, s))
  {
    EndsMore(c, s.ends, s.now);
  }

  lemma DispatchKeeps(c: Config, s: Loop, ok: bool)
    requires Ok(c, s)
    ensures Ok(c, DispatchEnded(c, s, ok))
  {
    if s.work.Dispatching? && !ok { PassFailsKeeps(c, s); }
    if s.work.Dispatching? && ok && s.stopping {
      FreshFits(c, [], s.stopping);
      PassEndsKeeps(c, s, Fresh([], c.concurrency));
    }
  }

  lemma FindKeeps(c: Config, s: Loop, ok: bool, due: seq<nat>)
    requires Ok(c, s)
    ensures Ok(c, FindEnded(c, s, ok, due))
  {
    FreshFits(c, due, s.stopping);
    if s.work.Finding? && !ok { PassFailsKeeps(c, s); }
    if s.work.Finding? && ok && due == [] { PassEndsKeeps(c, s, Fresh([], c.concurrency)); }
  }

  lemma LanesKeep(c: Config, s: Loop, e: Event)
    requires Ok(c, s) && s.work.Pooling? && (e.LaneTakes? || e.LaneEnds? || e.LanesDone?)
    ensures Ok(c, Step(c, s, e))
  {
    var pool := s.work.pool;
    match e
    case LaneTakes(lane) => TakeKeeps(pool, lane, s.stopping);
    case LaneEnds(lane, o) => EndKeeps(pool, lane, o, s.stopping);
    case LanesDone =>
      if AllReturned(pool) {
        ReturnedPoolIsSettled(pool, s.stopping);
        PassEndsKeeps(c, s, pool);
      }
  }

  lemma StepKeeps(c: Config, s: Loop, e: Event)
    requires Ok(c, s)
    ensures Ok(c, Step(c, s, e))
  {
    match e
    case DispatchEnds(ok) => DispatchKeeps(c, s, ok);
    case FindEnds(ok, due) => FindKeeps(c, s, ok, due);
    case LaneTakes(lane) => if s.work.Pooling? { LanesKeep(c, s, e); }
    case LaneEnds(lane, o) => if s.work.Pooling? { LanesKeep(c, s, e); }
    case LanesDone => if s.work.Pooling? { LanesKeep(c, s, e); }
    case JobStarts => StartKeeps(c, s);
    case _ => CallsKeep(c, s, e);
  }

  lemma StartKeeps(c: Config, s: Loop)
    requires Ok(c, s)
    ensures Ok(c, StartJob(s))
  {}

  lemma CallsKeep(c: Config, s: Loop, e: Event)
    requires Ok(c, s)
    requires || e.Wait? || e.Tick? || e.RequestTick? || e.Cleanup? || e.Stop?
             || e.ListenerStopped? || e.ChainSettled? || e.CleanupEnds?
    ensures Ok(c, Step(c, s, e))
  {}

  lemma {:induction false} RunKeeps(c: Config, s: Loop, es: seq<Event>)
    requires Ok(c, s)
    ensures Ok(c, Run(c, s, es))
  {
    if es != [] {
      RunKeeps(c, s, es[..|es| - 1]);
      StepKeeps(c, Run(c, s, es[..|es| - 1]), es[|es| - 1]);
    }
  }

  // ------------------------------------------------------------ deliveries

  /** Every pass of every run: a delivery it found due is executed at most once, and when stop
      was not requested before its end exactly once; the four counts add up to what ended. */
  lemma EveryPassCoversItsBatch(c: Config, now: int, es: seq<Event>, i: nat)
    requires i < |Run(c, Started(now), es).passes|
    ensures var pass := Run(c, Started(now), es).passes[i];
      && (forall d: nat :: EndedTimes(pass.pool.finished, d) <= if d < |pass.pool.due| then 1 else 0)
      && (!pass.stopping ==>
            && (forall d: nat :: EndedTimes(pass.pool.finished, d) == if d < |pass.pool.due| then 1 else 0)
            && Sum(pass.pool.counts) == |pass.pool.due|)
      && pass.pool.counts == Tally(pass.pool.finished)
  {
    RunKeeps(c, Started(now), es);
    var pass := Run(c, Started(now), es).passes[i];
    assert PassOk(c, pass);
    CoveredPass(c, pass);
  }

  lemma CoveredPass(c: Config, pass: Pass)
    requires PassOk(c, pass)
    ensures forall d: nat :: EndedTimes(pass.pool.finished, d) <= if d < |pass.pool.due| then 1 else 0
    ensures !pass.stopping ==>
      && (forall d: nat :: EndedTimes(pass.pool.finished, d) == if d < |pass.pool.due| then 1 else 0)
      && Sum(pass.pool.counts) == |pass.pool.due|
  {
    SettledPoolCovers(pass.pool, pass.stopping);
  }

  /** On every reachable state the executions in flight stay within the lane count, and no
      delivery of the batch has been started twice. */
  lemma InFlightIsBounded(c: Config, now: int, es: seq<Event>, d: nat)
    requires Run(c, Started(now), es).work.Pooling?
    ensures var pool := Run(c, Started(now), es).work.pool;
      InFlight(pool.lanes) <= LaneCount(c.concurrency, |pool.due|) && StartedTimes(pool, d) <= 1
  {
    RunKeeps(c, Started(now), es);
    var s := Run(c, Started(now), es);
    NeverTwice(s.work.pool, s.stopping, d);
  }

  // ------------------------------------------------------------ wakes

  /** A wake taken at `s` is still owed a dispatch at `t`: held by the running tick when one was
      running, by a queued one otherwise. */
  predicate Held(s: Loop, t: Loop) {
    if s.ticking then t.ticking && t.pendingWake else TickJob in t.queue
  }

  predicate Served(s: Loop, t: Loop) {
    t.stopping || t.dispatches > s.dispatches || t.failedPasses > s.failedPasses
  }

  predicate NoFewer(s: Loop, t: Loop) {
    t.dispatches >= s.dispatches && t.failedPasses >= s.failedPasses
  }

  lemma OwedStep(c: Config, s: Loop, t: Loop, e: Event)
    requires NoFewer(s, t) && (Served(s, t) || Held(s, t)) && (t.ticking <==> InTick(t.work))
    ensures NoFewer(s, Step(c, t, e)) && (Served(s, Step(c, t, e)) || Held(s, Step(c, t, e)))
  {}

  lemma {:induction false} OwedRun(c: Config, s: Loop, t: Loop, es: seq<Event>)
    requires Ok(c, t) && NoFewer(s, t) && (Served(s, t) || Held(s, t))
    ensures NoFewer(s, Run(c, t, es)) && (Served(s, Run(c, t, es)) || Held(s, Run(c, t, es)))
  {
    if es != [] {
      OwedRun(c, s, t, es[..|es| - 1]);
      RunKeeps(c, t, es[..|es| - 1]);
      OwedStep(c, s, Run(c, t, es[..|es| - 1]), es[|es| - 1]);
    }
  }

  /** A wake that arrives while a tick runs, or outside the backoff window, is never lost: once
      that tick (or the queue) is done, a later dispatch has begun, or the loop is stopping,
      or a pass has failed. */
  lemma WakeIsServed(c: Config, s: Loop, es: seq<Event>)
    requires Ok(c, s) && (s.ticking || s.now >= s.backoffUntil)
    ensures var t := Run(c, Step(c, s, RequestTick), es);
      (if s.ticking then !t.ticking else TickJob !in t.queue) ==> Served(s, t)
  {
    StepKeeps(c, s, RequestTick);
    OwedRun(c, s, Step(c, s, RequestTick), es);
  }

  predicate Asks(e: Event) {
    e.Tick? || e.RequestTick?
  }

  predicate Dormant(t: Loop) {
    !t.ticking && TickJob !in t.queue
  }

  lemma DormantStep(c: Config, t: Loop, e: Event)
    requires (t.ticking <==> InTick(t.work)) && Dormant(t) && !Asks(e)
    ensures Dormant(Step(c, t, e))
    ensures Step(c, t, e).dispatches == t.dispatches && Step(c, t, e).pendingWake == t.pendingWake
  {}

  /** With no tick running or queued, only another request begins a pass. */
  lemma {:induction false} NoRequestNoPass(c: Config, t: Loop, es: seq<Event>)
    requires Ok(c, t) && Dormant(t)
    requires forall i :: 0 <= i < |es| ==> !Asks(es[i])
    ensures Dormant(Run(c, t, es))
    ensures Run(c, t, es).dispatches == t.dispatches && Run(c, t, es).pendingWake == t.pendingWake
  {
    if es != [] {
      NoRequestNoPass(c, t, es[..|es| - 1]);
      RunKeeps(c, t, es[..|es| - 1]);
      DormantStep(c, Run(c, t, es[..|es| - 1]), es[|es| - 1]);
    }
  }

  lemma WakeDuringTick(c: Config, s: Loop)
    requires s.ticking
    ensures Step(c, s, RequestTick) == s.(pendingWake := true)
  {}

  /** The pass throws: in its dispatch, or in finding what is due. */
  predicate Throws(s: Loop, e: Event) {
    (s.work.Dispatching? && e == DispatchEnds(false)) || (s.work.Finding? && e.FindEnds? && !e.ok)
  }

  lemma FailureEndsTheTick(c: Config, s: Loop, e: Event)
    requires Throws(s, e)
    ensures var t := Step(c, s, e);
      !t.ticking && t.queue == s.queue && t.pendingWake == s.pendingWake && t.dispatches == s.dispatches
  {}

  /** The third escape of `WakeIsServed` is real: a wake that arrives during a pass that then
      throws stays pending, and no pass begins until something asks again. */
  lemma FailedPassStrandsTheWake(c: Config, s: Loop, e: Event, es: seq<Event>)
    requires Ok(c, s) && Throws(s, e) && TickJob !in s.queue
    requires forall i :: 0 <= i < |es| ==> !Asks(es[i])
    ensures var t := Run(c, Step(c, Step(c, s, RequestTick), e), es);
      t.pendingWake && t.dispatches == s.dispatches && !t.ticking
  {
    var woken := Step(c, s, RequestTick);
    assert InTick(s.work);
    WakeDuringTick(c, s);
    StepKeeps(c, s, RequestTick);
    FailureEndsTheTick(c, woken, e);
    StepKeeps(c, woken, e);
    NoRequestNoPass(c, Step(c, woken, e), es);
  }

  /** Both ways to throw are open to a loop that has just started. */
  lemma FirstPassMayThrow(c: Config, now: nat, due: seq<nat>)
    ensures var s := Run(c, Started(now), [Tick, JobStarts]);
      Ok(c, s) && Throws(s, DispatchEnds(false)) && TickJob !in s.queue
    ensures var s := Run(c, Started(now), [Tick, JobStarts, DispatchEnds(true)]);
      Ok(c, s) && Throws(s, FindEnds(false, due)) && TickJob !in s.queue
  {
    var s0 := Started(now);
    assert [Tick, JobStarts, DispatchEnds(true)][..2] == [Tick, JobStarts];
    assert [Tick, JobStarts][..1] == [Tick] && [Tick][..0] == [];
    assert Run(c, s0, []) == s0;
    assert Run(c, s0, [Tick]) == Step(c, s0, Tick);
    RunKeeps(c, s0, [Tick, JobStarts]);
    RunKeeps(c, s0, [Tick, JobStarts, DispatchEnds(true)]);
  }

  // ------------------------------------------------------------ backoff

  lemma {:induction false} DoubleGrows(n: nat)
    ensures Double(n) >= n + 1
  {
    if n > 0 { DoubleGrows(n - 1); }
  }

  /** The window doubles with each consecutive failure until it meets the cap, and stays there. */
  lemma BackoffGrowsToTheCap(poll: nat, n: nat)
    requires poll > 0 && n > 0
    ensures BackoffMs(poll, n) <= BackoffMs(poll, n + 1) <= TICK_FAILURE_BACKOFF_MAX_MS
    ensures 2 * BackoffMs(poll, n) < TICK_FAILURE_BACKOFF_MAX_MS ==> BackoffMs(poll, n + 1) == 2 * BackoffMs(poll, n)
    ensures n > TICK_FAILURE_BACKOFF_MAX_MS ==> BackoffMs(poll, n) == TICK_FAILURE_BACKOFF_MAX_MS
  {
    DoubleGrows(n - 1);
    var d := Double(n - 1);
    assert Double(n) == 2 * d;
    assert poll * (2 * d) == 2 * (poll * d);
    assert poll * d >= d by { Larger(poll, d); }
  }

  lemma Larger(a: nat, b: nat)
    requires a >= 1
    ensures a * b >= b
  {
    assert a * b == (a - 1) * b + b;
  }

  /** On every reachable state the window is that of the current streak of failed passes, from
      the last of them on: one completed pass closes it. A request that meets no stop and no
      running tick is refused exactly inside it. */
  lemma BackoffIsOfTheStreak(c: Config, now: int, es: seq<Event>)
    requires var s := Run(c, Started(now), es); !s.stopping && !s.ticking
    ensures var s := Run(c, Started(now), es);
      (Step(c, s, Tick).queue == s.queue + [TickJob] <==> s.now >= WindowEnd(c, s.ends))
      && (Step(c, s, Tick) == s <==> s.now < WindowEnd(c, s.ends))
  {
    RunKeeps(c, Started(now), es);
  }

  /** On every reachable state a wait of the current window, at most the cap, ends the backoff:
      after it a request that meets no stop and no running tick is queued. */
  lemma BackoffExpires(c: Config, now: int, es: seq<Event>, ms: nat)
    requires var s := Run(c, Started(now), es);
      ms >= BackoffMs(c.pollIntervalMs, s.failures) && s.now >= 0 && !s.stopping && !s.ticking
    ensures var s := Run(c, Started(now), es);
      Step(c, Step(c, s, Wait(ms)), RequestTick).queue == s.queue + [TickJob]
  {
    RunKeeps(c, Started(now), es);
  }

  // ------------------------------------------------------------ stop

  predicate Quiet(s: Loop) {
    s.stopping && s.queue == [] && s.work.Idle?
  }

  predicate SameWork(s: Loop, t: Loop) {
    && t.dispatches == s.dispatches && t.failedPasses == s.failedPasses && t.passes == s.passes
    && t.enqueued == s.enqueued && t.completed == s.completed
  }

  lemma QuietStep(c: Config, s: Loop, e: Event)
    requires Quiet(s)
    ensures Quiet(Step(c, s, e)) && SameWork(s, Step(c, s, e))
  {}

  lemma {:induction false} QuietRun(c: Config, s: Loop, es: seq<Event>)
    requires Quiet(s)
    ensures Quiet(Run(c, s, es)) && SameWork(s, Run(c, s, es))
  {
    if es != [] {
      QuietRun(c, s, es[..|es| - 1]);
      QuietStep(c, Run(c, s, es[..|es| - 1]), es[|es| - 1]);
    }
  }

  /** Once any call of `stop` has resolved nothing is queued or in flight, and nothing is queued,
      dispatched, found, executed or cleaned ever again. */
  lemma StoppedMeansQuiet(c: Config, now: int, es: seq<Event>, call: nat, later: seq<Event>)
    requires var s := Run(c, Started(now), es); call < |s.stops| && s.stops[call] == Resolved
    ensures var s := Run(c, Started(now), es); var t := Run(c, s, later);
      Quiet(s) && Quiet(t) && SameWork(s, t)
  {
    var s := Run(c, Started(now), es);
    RunKeeps(c, Started(now), es);
    assert StopOk(s, s.stops[call]);
    QuietRun(c, s, later);
  }

  /** A call of `stop` that is rejected tells nothing: the loop is stopping, but its pass may still be
      running. */
  lemma RejectedStopAwaitsNothing(c: Config, now: nat)
    ensures var s := Run(c, Started(now), [Tick, JobStarts] + ([Stop] + [ListenerStopped(0, false)]));
            s.stops == [Rejected] && s.stopping && s.work == Dispatching && !Quiet(s)
  {
    FirstPassMayThrow(c, now, []);
    var es: seq<Event> := [Tick, JobStarts];
    assert es[..1] == [Tick] && [Tick][..0] == [];
    assert Run(c, Started(now), []) == Started(now);
    assert Run(c, Started(now), [Tick]) == Step(c, Started(now), Tick);
    var more := es + ([Stop] + [ListenerStopped(0, false)]);
    assert more[..3] == es + [Stop] && (es + [Stop])[..2] == es;
    assert Run(c, Started(now), es + [Stop]) == AskStop(Run(c, Started(now), es));
  }

  /** The end of something awaited, or the turn of a lane or of the chain. */
  predicate Internal(e: Event) {
    e.JobStarts? || e.DispatchEnds? || e.FindEnds? || e.LaneTakes? || e.LaneEnds? || e.LanesDone? || e.CleanupEnds?
  }

  function Rank(w: Work): nat {
    match w
    case Idle => 3
    case Dispatching => 2
    case Finding => 2
    case Pooling(_) => 1
    case Cleaning => 0
  }

  function Turns(lane: Lane): nat {
    match lane
    case AtHead => 1
    case Running(_) => 2
    case Returned => 0
  }

  function TurnsLeft(lanes: seq<Lane>): nat {
    if lanes == [] then 0 else TurnsLeft(lanes[..|lanes| - 1]) + Turns(lanes[|lanes| - 1])
  }

  lemma {:induction false} TurnTaken(lanes: seq<Lane>, k: nat, lane: Lane)
    requires k < |lanes|
    ensures TurnsLeft(lanes[k := lane]) + Turns(lanes[k]) == TurnsLeft(lanes) + Turns(lane)
  {
    var n := |lanes| - 1;
    var changed := lanes[k := lane];
    if k == n {
      assert changed[..n] == lanes[..n];
    } else {
      assert changed[..n] == lanes[..n][k := lane] && changed[n] == lanes[n];
      TurnTaken(lanes[..n], k, lane);
    }
  }

  function JobsLeft(s: Loop): nat {
    |s.queue| + Active(s.work)
  }

  function PoolTurns(w: Work): nat {
    if w.Pooling? then TurnsLeft(w.pool.lanes) else 0
  }

  /** `t` is nearer to the end of the chain than `s`. */
  predicate Nearer(t: Loop, s: Loop) {
    || JobsLeft(t) < JobsLeft(s)
    || (JobsLeft(t) == JobsLeft(s) && Rank(t.work) < Rank(s.work))
    || (JobsLeft(t) == JobsLeft(s) && Rank(t.work) == Rank(s.work) && PoolTurns(t.work) < PoolTurns(s.work))
  }

  /** After `stop` is requested every step the loop still takes brings the chain nearer to its end. */
  lemma StopDrains(c: Config, s: Loop, e: Event)
    requires Ok(c, s) && s.stopping && Internal(e) && Step(c, s, e) != s
    ensures Nearer(Step(c, s, e), s) && Step(c, s, e).stopping
  {
    match e
    case LaneTakes(lane) =>
      var lanes := s.work.pool.lanes;
      if lane < |lanes| { TurnTaken(lanes, lane, Returned); }
    case LaneEnds(lane, o) =>
      var lanes := s.work.pool.lanes;
      if lane < |lanes| { TurnTaken(lanes, lane, AtHead); }
    case _ =>
  }

  /** Until then some such step is possible: an open lane can move, or what is awaited can end. */
  lemma StopIsNeverStuck(c: Config, s: Loop) returns (e: Event)
    requires Ok(c, s) && s.stopping && !Quiet(s)
    ensures Internal(e) && Step(c, s, e) != s
  {
    match s.work
    case Idle => e := JobStarts;
    case Dispatching => e := DispatchEnds(true);
    case Finding => e := FindEnds(true, []);
    case Cleaning => e := CleanupEnds;
    case Pooling(pool) =>
      if AllReturned(pool) {
        e := LanesDone;
      } else {
        var k: nat :| k < |pool.lanes| && pool.lanes[k] != Returned;
        e := if pool.lanes[k] == AtHead then LaneTakes(k) else LaneEnds(k, Processed);
      }
  }

  lemma {:induction false} RunFirst(c: Config, s: Loop, e: Event, es: seq<Event>)
    ensures Run(c, s, [e] + es) == Run(c, Step(c, s, e), es)
  {
    if es == [] {
      assert ([e] + es)[..0] == [];
    } else {
      assert ([e] + es)[..|es|] == [e] + es[..|es| - 1];
      RunFirst(c, s, e, es[..|es| - 1]);
    }
  }

  /** So a requested stop can always be brought to its end without any further call. */
  lemma {:induction false} StopCanSettle(c: Config, s: Loop) returns (es: seq<Event>)
    requires Ok(c, s) && s.stopping
    ensures Quiet(Run(c, s, es)) && forall i :: 0 <= i < |es| ==> Internal(es[i])
    decreases JobsLeft(s), Rank(s.work), PoolTurns(s.work)
  {
    if Quiet(s) {
      es := [];
    } else {
      var e := StopIsNeverStuck(c, s);
      StopDrains(c, s, e);
      StepKeeps(c, s, e);
      var rest := StopCanSettle(c, Step(c, s, e));
      RunFirst(c, s, e, rest);
      es := [e] + rest;
    }
  }
}
