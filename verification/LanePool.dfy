/** The shared-cursor pool of one worker pass (`runOnce` in apps/worker/src/loop.ts):
    lanes take deliveries from one cursor, in any interleaving of their turns. */
module LanePool {
  datatype Outcome = Processed | AlreadyProcessed | Deferred | Failed | Threw

  datatype Counts = Counts(processed: nat, alreadyProcessed: nat, deferred: nat, failed: nat)

  datatype Lane = AtHead | Running(index: nat) | Returned

  datatype Finish = Finish(index: nat, outcome: Outcome)

  /** `finished` remembers which index ended how; `counts` is what the code keeps. */
  datatype Pool = Pool(due: seq<nat>, next: nat, lanes: seq<Lane>, finished: seq<Finish>, counts: Counts)

  /** `Math.max(1, Math.min(concurrency, due.length))` */
  function LaneCount(concurrency: int, due: nat): nat {
    var m := if concurrency < due then concurrency else due;
    if m < 1 then 1 else m
  }

  function Fresh(due: seq<nat>, concurrency: int): Pool {
    Pool(due, 0, seq(LaneCount(concurrency, |due|), _ => AtHead), [], Counts(0, 0, 0, 0))
  }

  /** `countOutcome`, and the `catch` of `executeOne`. */
  function Count(c: Counts, o: Outcome): Counts {
    match o
    case Processed => c.(processed := c.processed + 1)
    case AlreadyProcessed => c.(alreadyProcessed := c.alreadyProcessed + 1)
    case Deferred => c.(deferred := c.deferred + 1)
    case Failed => c.(failed := c.failed + 1)
    case Threw => c.(failed := c.failed + 1)
  }

  function Sum(c: Counts): nat {
    c.processed + c.alreadyProcessed + c.deferred + c.failed
  }

  /** A lane at its loop head: leave when stopping or past the end, else take the cursor. */
  function Take(p: Pool, lane: nat, stopping: bool): Pool {
    if lane >= |p.lanes| || p.lanes[lane] != AtHead then p
    else if stopping then p.(lanes := p.lanes[lane := Returned])
    else
      var q := p.(next := p.next + 1);
      if p.next < |p.due| then q.(lanes := p.lanes[lane := Running(p.next)])
      else q.(lanes := p.lanes[lane := Returned])
  }

  function End(p: Pool, lane: nat, o: Outcome): Pool {
    if lane >= |p.lanes| || !p.lanes[lane].Running? then p
    else p.(lanes := p.lanes[lane := AtHead],
            finished := p.finished + [Finish(p.lanes[lane].index, o)],
            counts := Count(p.counts, o))
  }

  predicate AllReturned(p: Pool) {
    forall k :: 0 <= k < |p.lanes| ==> p.lanes[k] == Returned
  }

  // ------------------------------------------------------------ what is in flight

  function Busy(lane: Lane): nat {
    if lane.Running? then 1 else 0
  }

  function Holds(lane: Lane, i: nat): nat {
    if lane == Running(i) then 1 else 0
  }

  /** How many executions are in flight. */
  function InFlight(lanes: seq<Lane>): (n: nat)
    ensures n <= |lanes|
  {
    if lanes == [] then 0 else InFlight(lanes[..|lanes| - 1]) + Busy(lanes[|lanes| - 1])
  }

  /** How many of them execute `due[i]`. */
  function HeldTimes(lanes: seq<Lane>, i: nat): nat {
    if lanes == [] then 0 else HeldTimes(lanes[..|lanes| - 1], i) + Holds(lanes[|lanes| - 1], i)
  }

  function EndedTimes(finished: seq<Finish>, i: nat): nat {
    if finished == [] then 0
    else EndedTimes(finished[..|finished| - 1], i) + (if finished[|finished| - 1].index == i then 1 else 0)
  }

  /** How often `due[i]` has been handed to `execute`. */
  function StartedTimes(p: Pool, i: nat): nat {
    EndedTimes(p.finished, i) + HeldTimes(p.lanes, i)
  }

  function Tally(finished: seq<Finish>): Counts {
    if finished == [] then Counts(0, 0, 0, 0)
    else Count(Tally(finished[..|finished| - 1]), finished[|finished| - 1].outcome)
  }

  /** How many deliveries have been handed out. */
  function Taken(p: Pool): nat {
    if p.next < |p.due| then p.next else |p.due|
  }

  ghost predicate EachOnce(p: Pool) {
    forall i: nat :: StartedTimes(p, i) == if i < Taken(p) then 1 else 0
  }

  ghost predicate ReturnsAreDue(p: Pool, stopping: bool) {
    forall k :: 0 <= k < |p.lanes| && p.lanes[k] == Returned ==> stopping || p.next >= |p.due|
  }

  ghost predicate PoolOk(p: Pool, stopping: bool) {
    && EachOnce(p)
    && |p.finished| + InFlight(p.lanes) == Taken(p)
    && p.counts == Tally(p.finished)
    && ReturnsAreDue(p, stopping)
  }

  lemma {:induction false} LaneChange(lanes: seq<Lane>, k: nat, lane: Lane)
    requires k < |lanes|
    ensures InFlight(lanes[k := lane]) + Busy(lanes[k]) == InFlight(lanes) + Busy(lane)
    ensures forall i: nat ::
      HeldTimes(lanes[k := lane], i) + Holds(lanes[k], i) == HeldTimes(lanes, i) + Holds(lane, i)
  {
    var n := |lanes| - 1;
    var changed := lanes[k := lane];
    if k == n {
      assert changed[..n] == lanes[..n];
    } else {
      assert changed[..n] == lanes[..n][k := lane] && changed[n] == lanes[n];
      LaneChange(lanes[..n], k, lane);
    }
  }

  lemma {:induction false} NothingHeld(lanes: seq<Lane>)
    requires forall k :: 0 <= k < |lanes| ==> !lanes[k].Running?
    ensures InFlight(lanes) == 0 && forall i: nat :: HeldTimes(lanes, i) == 0
  {
    if lanes != [] { NothingHeld(lanes[..|lanes| - 1]); }
  }

  lemma {:induction false} TallySum(finished: seq<Finish>)
    ensures Sum(Tally(finished)) == |finished|
  {
    if finished != [] { TallySum(finished[..|finished| - 1]); }
  }

  lemma FreshOk(due: seq<nat>, concurrency: int, stopping: bool)
    ensures PoolOk(Fresh(due, concurrency), stopping)
  {
    NothingHeld(Fresh(due, concurrency).lanes);
  }

  lemma TakeKeeps(p: Pool, lane: nat, stopping: bool)
    requires PoolOk(p, stopping)
    ensures PoolOk(Take(p, lane, stopping), stopping) && |Take(p, lane, stopping).lanes| == |p.lanes|
    ensures Take(p, lane, stopping).due == p.due
  {
    var q := Take(p, lane, stopping);
    if lane < |p.lanes| && p.lanes[lane] == AtHead {
      LaneChange(p.lanes, lane, q.lanes[lane]);
      forall i: nat ensures StartedTimes(q, i) == if i < Taken(q) then 1 else 0 {
        assert StartedTimes(p, i) == if i < Taken(p) then 1 else 0;
      }
    }
  }

  lemma EndKeeps(p: Pool, lane: nat, o: Outcome, stopping: bool)
    requires PoolOk(p, stopping)
    ensures PoolOk(End(p, lane, o), stopping) && |End(p, lane, o).lanes| == |p.lanes|
    ensures End(p, lane, o).due == p.due
  {
    var q := End(p, lane, o);
    if lane < |p.lanes| && p.lanes[lane].Running? {
      LaneChange(p.lanes, lane, AtHead);
      assert q.finished[..|p.finished|] == p.finished;
      forall i: nat ensures StartedTimes(q, i) == if i < Taken(q) then 1 else 0 {
        assert StartedTimes(p, i) == if i < Taken(p) then 1 else 0;
      }
    }
  }

  /** At most `LaneCount` deliveries are in flight, and every delivery the cursor has
      passed has been handed to `execute` once; the others not at all. */
  lemma NeverTwice(p: Pool, stopping: bool, i: nat)
    requires PoolOk(p, stopping)
    ensures InFlight(p.lanes) <= |p.lanes|
    ensures StartedTimes(p, i) == if i < p.next && i < |p.due| then 1 else 0
  {}

  lemma {:induction false} IdleHolds(lanes: seq<Lane>, i: nat)
    requires InFlight(lanes) == 0
    ensures HeldTimes(lanes, i) == 0
  {
    if lanes != [] { IdleHolds(lanes[..|lanes| - 1], i); }
  }

  /** When every lane has returned, nothing is in flight, and without a stop the cursor
      has passed every due delivery. */
  lemma ReturnedPoolIsSettled(p: Pool, stopping: bool)
    requires PoolOk(p, stopping) && AllReturned(p) && p.lanes != []
    ensures InFlight(p.lanes) == 0 && (stopping || p.next >= |p.due|)
  {
    assert p.lanes[0] == Returned;
    NothingHeld(p.lanes);
  }

  /** With nothing in flight, exactly the deliveries that the cursor has passed were
      executed, each once, and the four counts add up to their number. */
  lemma SettledPoolCovers(p: Pool, stopping: bool)
    requires PoolOk(p, stopping) && InFlight(p.lanes) == 0
    ensures forall i: nat :: EndedTimes(p.finished, i) == if i < Taken(p) then 1 else 0
    ensures Sum(p.counts) == |p.finished| == Taken(p) && p.counts == Tally(p.finished)
  {
    TallySum(p.finished);
    forall i: nat ensures EndedTimes(p.finished, i) == if i < Taken(p) then 1 else 0 {
      IdleHolds(p.lanes, i);
      assert StartedTimes(p, i) == if i < Taken(p) then 1 else 0;
    }
  }
}
