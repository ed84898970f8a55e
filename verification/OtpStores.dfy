/** The two OTP send stores, and the memory store under its per-key lock
    (apps/api/src/auth/otp-send-guard.ts, apps/api/src/stores/redis.ts). */
module OtpStores {
  import opened OtpLimiter
  import opened Times
  import KeyLock

  function HistoryOf(entries: map<string, seq<int>>, key: string): seq<int> {
    if key in entries then entries[key] else []
  }

  /** `createMemoryOtpSendStore`: the body that runs under the key's lock. */
  class MemoryOtpStore {
    var entries: map<string, seq<int>>

    constructor ()
      ensures entries == map[]
    {
      entries := map[];
    }

    method TryRecordSend(key: string, p: Policy, now: int) returns (d: Decision)
      modifies this
      ensures d == Attempt(HistoryOf(old(entries), key), p, now).0
      ensures HistoryOf(entries, key) == Attempt(HistoryOf(old(entries), key), p, now).1
      ensures forall k :: k != key ==> HistoryOf(entries, k) == HistoryOf(old(entries), k)
    {
      var (decision, next) := Attempt(HistoryOf(entries, key), p, now);
      if decision.Allowed? {
        entries := entries[key := next];
      }
      return decision;
    }
  }

  /** A script replies, or stops with an error that its caller is thrown. */
  datatype ScriptResult = Replied(decision: Decision) | ScriptError

  /** `createRedisOtpSendStore`: `OTP_SEND_LUA`, one atomic script. */
  class RedisOtpStore {
    var keys: map<string, Kept>

    constructor ()
      ensures keys == map[]
    {
      keys := map[];
    }

    ghost function KeptAt(key: string): Kept
      reads this
    {
      if key in keys then keys[key] else Kept([], 0)
    }

    /** `GET`: a key is gone once the clock is past its deadline, and at the deadline
        itself when the server has already dropped it. */
    method Get(key: string, now: int, dropAtDeadline: bool) returns (history: seq<int>)
      ensures history == Surviving(KeptAt(key), now, dropAtDeadline)
    {
      if key !in keys || now > keys[key].expireAt || (now == keys[key].expireAt && dropAtDeadline) {
        return [];
      }
      return keys[key].history;
    }

    /** One attempt on the surviving history; only when nothing may ever be sent and nothing was, the
        script has no oldest send to compute with. */
    method TryRecordSend(key: string, p: Policy, ttlSeconds: nat, now: int, dropAtDeadline: bool)
      returns (r: ScriptResult)
      modifies this
      ensures r.ScriptError? <==>
              p.maxSends == 0 && Recent(Surviving(old(KeptAt(key)), now, dropAtDeadline), p, now) == []
      ensures r.Replied? ==>
              r.decision == AttemptKept(old(KeptAt(key)), p, 1000 * ttlSeconds, now, dropAtDeadline).0
      ensures KeptAt(key) == AttemptKept(old(KeptAt(key)), p, 1000 * ttlSeconds, now, dropAtDeadline).1
      ensures forall k :: k != key ==> KeptAt(k) == old(KeptAt(k))
    {
      var parsed := Get(key, now, dropAtDeadline);
      var recent := [];
      for i := 0 to |parsed|
        invariant recent == Recent(parsed[..i], p, now)
      {
        assert parsed[..i + 1][..i] == parsed[..i];
        if parsed[i] > now - p.windowMs {
          recent := recent + [parsed[i]];
        }
      }
      assert parsed[..|parsed|] == parsed;
      if |recent| > 0 {
        var cooldownEnds := recent[|recent| - 1] + p.cooldownMs;
        if now < cooldownEnds {
          return Replied(Denied(CeilSeconds(cooldownEnds - now)));
        }
      }
      if |recent| >= p.maxSends {
        if recent == [] {
          return ScriptError;
        }
        var wait := CeilSeconds(recent[0] + p.windowMs - now);
        return Replied(Denied(if wait < 1 then 1 else wait));
      }
      recent := recent + [now];
      keys := keys[key := Kept(recent, now + 1000 * ttlSeconds)];
      return Replied(Allowed);
    }
  }

  // ------------------------------------------------------------ under the lock

  /** The work of one `check`: the clock was read before the call queued for its key. */
  function SendWork(p: Policy, now: int): seq<int> -> seq<int> {
    history => Attempt(history, p, now).1
  }

  /** The send times, in arrival order, of the calls on `key` that wrote. */
  function WrittenTimes(calls: seq<KeyLock.Call<seq<int>>>, times: seq<int>, key: string, n: nat): seq<int>
    requires n <= |calls| && n <= |times|
  {
    if n == 0 then []
    else
      var before := WrittenTimes(calls, times, key, n - 1);
      if calls[n - 1].key == key && calls[n - 1].wrote then before + [times[n - 1]] else before
  }

  lemma {:induction false} SendAllSnoc(l: Log, p: Policy, times: seq<int>, now: int)
    ensures SendAll(l, p, times + [now]) == Send(SendAll(l, p, times), p, now)
    decreases |times|
  {
    if times == [] {
      assert (times + [now])[1..] == [];
    } else {
      assert (times + [now])[1..] == times[1..] + [now];
      SendAllSnoc(Send(l, p, times[0]), p, times[1..], now);
    }
  }

  /** The history after attempts at `times`, one after another. */
  function Replay(step: (int, seq<int>) -> seq<int>, times: seq<int>): seq<int> {
    if times == [] then [] else step(times[|times| - 1], Replay(step, times[..|times| - 1]))
  }

  function SendStep(p: Policy): (int, seq<int>) -> seq<int> {
    (now, history) => Attempt(history, p, now).1
  }

  lemma {:induction false} ReplayIsSendAll(p: Policy, times: seq<int>)
    ensures Replay(SendStep(p), times) == SendAll(NEW, p, times).history
  {
    if times != [] {
      var n := |times| - 1;
      ReplayIsSendAll(p, times[..n]);
      SendAllSnoc(NEW, p, times[..n], times[n]);
      assert times == times[..n] + [times[n]];
    }
  }

  /** Every call's work is `step` at its own clock reading. */
  ghost predicate Works(calls: seq<KeyLock.Call<seq<int>>>, times: seq<int>, step: (int, seq<int>) -> seq<int>) {
    |calls| <= |times| && forall i, h :: 0 <= i < |calls| ==> calls[i].work(h) == step(times[i], h)
  }

  lemma {:induction false} SequentialIsReplay(
    calls: seq<KeyLock.Call<seq<int>>>, times: seq<int>, step: (int, seq<int>) -> seq<int>, key: string, n: nat)
    requires n <= |calls| && Works(calls, times, step)
    ensures KeyLock.Sequential(calls, key, n, []) == Replay(step, WrittenTimes(calls, times, key, n))
  {
    if n > 0 {
      SequentialIsReplay(calls, times, step, key, n - 1);
      var before := WrittenTimes(calls, times, key, n - 1);
      assert (before + [times[n - 1]])[..|before|] == before;
    }
  }

  /** Every call is a `check` that read its clock before it queued. */
  ghost predicate Checks(calls: seq<KeyLock.Call<seq<int>>>, times: seq<int>, p: Policy) {
    |times| == |calls| && forall i :: 0 <= i < |calls| ==> calls[i].work == SendWork(p, times[i])
  }

  lemma ChecksWork(calls: seq<KeyLock.Call<seq<int>>>, times: seq<int>, p: Policy)
    requires Checks(calls, times, p)
    ensures Works(calls, times, SendStep(p))
  {
    forall i, h | 0 <= i < |calls| ensures calls[i].work(h) == SendStep(p)(times[i], h) {
      assert calls[i].work == SendWork(p, times[i]);
    }
  }

  lemma SequentialIsSendAll(calls: seq<KeyLock.Call<seq<int>>>, times: seq<int>, p: Policy, key: string, n: nat)
    requires n <= |calls| && Checks(calls, times, p)
    ensures KeyLock.Sequential(calls, key, n, []) == SendAll(NEW, p, WrittenTimes(calls, times, key, n)).history
  {
    ChecksWork(calls, times, p);
    SequentialIsReplay(calls, times, SendStep(p), key, n);
    ReplayIsSendAll(p, WrittenTimes(calls, times, key, n));
  }

  lemma {:induction false} WrittenTimesMonotone(calls: seq<KeyLock.Call<seq<int>>>, times: seq<int>, key: string,
      n: nat)
    requires n <= |calls| == |times| && Monotone(times)
    ensures Monotone(WrittenTimes(calls, times, key, n))
    ensures forall t :: t in WrittenTimes(calls, times, key, n) ==> n > 0 && t <= times[n - 1]
  {
    if n > 0 {
      WrittenTimesMonotone(calls, times, key, n - 1);
      var before := WrittenTimes(calls, times, key, n - 1);
      forall t | t in before ensures t <= times[n - 1] {
        assert n > 1 && times[n - 2] <= times[n - 1];
      }
      assert forall i :: 0 <= i < |before| ==> before[i] in before;
    }
  }

  /** The attempts of the first `n` calls on `key`, one after another. */
  function InOrder(calls: seq<KeyLock.Call<seq<int>>>, times: seq<int>, p: Policy, key: string, n: nat): Log
    requires n <= |calls| && n <= |times|
  {
    SendAll(NEW, p, WrittenTimes(calls, times, key, n))
  }

  /** A call that has read the history decides as in that order. */
  ghost predicate DecidesInOrder(calls: seq<KeyLock.Call<seq<int>>>, times: seq<int>, p: Policy, id: nat)
    requires id < |calls| && id < |times|
  {
    calls[id].phase.HasRead? ==>
      Attempt(calls[id].phase.seen, p, times[id]).0
        == Attempt(InOrder(calls, times, p, calls[id].key, id).history, p, times[id]).0
  }

  /** Overlapping `check` calls, each an asynchronous get and set with other calls in
      between, leave under every key the history of one attempt after another in
      arrival order. */
  lemma OverlappingSendsAreARun(
    es: seq<KeyLock.Event<seq<int>>>, l: KeyLock.Lock<seq<int>>, times: seq<int>, p: Policy, key: string)
    requires l == KeyLock.Run(KeyLock.Empty(), es, []) && Checks(l.calls, times, p)
    ensures KeyLock.Get(l.store, key, []) == InOrder(l.calls, times, p, key, |l.calls|).history
  {
    KeyLock.LockedCallsAreSequential(es, [], key);
    SequentialIsSendAll(l.calls, times, p, key, |l.calls|);
  }

  /** And each call is answered as it is in that run. */
  lemma OverlappingSendsDecideInOrder(
    es: seq<KeyLock.Event<seq<int>>>, l: KeyLock.Lock<seq<int>>, times: seq<int>, p: Policy, id: nat)
    requires l == KeyLock.Run(KeyLock.Empty(), es, []) && Checks(l.calls, times, p) && id < |l.calls|
    ensures DecidesInOrder(l.calls, times, p, id)
  {
    if l.calls[id].phase.HasRead? {
      KeyLock.ReadsAreSequential(es, [], id);
      SequentialIsSendAll(l.calls, times, p, l.calls[id].key, id);
    }
  }

  // ------------------------------------------------------------ what the calls were allowed

  /** A call's turn: the history it read and its clock reading. */
  datatype Turn = Turn(seen: seq<int>, now: int)

  /** The turn that the event takes, when it writes for a call on `key`. */
  function TurnOf(l: KeyLock.Lock<seq<int>>, e: KeyLock.Event<seq<int>>, times: seq<int>, key: string): seq<Turn> {
    if e.Write? && e.id < |l.calls| && e.id < |times| && l.calls[e.id].key == key && l.calls[e.id].phase.HasRead?
    then [Turn(l.calls[e.id].phase.seen, times[e.id])] else []
  }

  /** The turns on `key`, as they come. */
  function Turns(l: KeyLock.Lock<seq<int>>, es: seq<KeyLock.Event<seq<int>>>, times: seq<int>, key: string): seq<Turn>
    decreases |es|
  {
    if es == [] then []
    else TurnOf(l, es[0], times, key) + Turns(KeyLock.Step(l, es[0], []), es[1..], times, key)
  }

  /** The times of the turns in which the limiter answers that the code may be sent. */
  function AllowedSends(turns: seq<Turn>, p: Policy): seq<int> {
    if turns == [] then []
    else
      var here := if Attempt(turns[0].seen, p, turns[0].now).0.Allowed? then [turns[0].now] else [];
      here + AllowedSends(turns[1..], p)
  }

  function TurnTimes(turns: seq<Turn>): seq<int> {
    if turns == [] then [] else [turns[0].now] + TurnTimes(turns[1..])
  }

  /** Each turn read what the turn before it left, the first one `history`. */
  ghost predicate Follow(turns: seq<Turn>, history: seq<int>, step: (int, seq<int>) -> seq<int>) {
    turns != [] ==> turns[0].seen == history && Follow(turns[1..], step(turns[0].now, history), step)
  }

  lemma SendAllFirst(l: Log, p: Policy, now: int, rest: seq<int>)
    ensures SendAll(l, p, [now] + rest) == SendAll(Send(l, p, now), p, rest)
  {
    assert ([now] + rest)[1..] == rest;
  }

  /** A turn that read the history of a log answers as the attempt on that log. */
  lemma TurnIsSend(turns: seq<Turn>, l: Log, next: Log, p: Policy)
    requires turns != [] && turns[0].seen == l.history && next == Send(l, p, turns[0].now)
    ensures next.history == SendStep(p)(turns[0].now, l.history)
    ensures l.sends + AllowedSends(turns, p) == next.sends + AllowedSends(turns[1..], p)
  {}

  lemma {:induction false} FollowingSends(turns: seq<Turn>, l: Log, p: Policy)
    requires Follow(turns, l.history, SendStep(p))
    ensures SendAll(l, p, TurnTimes(turns)).sends == l.sends + AllowedSends(turns, p)
  {
    if turns != [] {
      var now, rest, next := turns[0].now, turns[1..], Send(l, p, turns[0].now);
      TurnIsSend(turns, l, next, p);
      FollowingSends(rest, next, p);
      SendAllFirst(l, p, now, TurnTimes(rest));
    }
  }

  /** Every step keeps the calls and their work. */
  lemma StepKeepsCalls(l: KeyLock.Lock<seq<int>>, e: KeyLock.Event<seq<int>>)
    ensures var c := KeyLock.Step(l, e, []).calls;
            && |l.calls| <= |c|
            && forall i :: 0 <= i < |l.calls| ==> c[i].key == l.calls[i].key && c[i].work == l.calls[i].work
  {}

  lemma {:induction false} RunKeepsCalls(l: KeyLock.Lock<seq<int>>, es: seq<KeyLock.Event<seq<int>>>)
    ensures var c := KeyLock.Run(l, es, []).calls;
            && |l.calls| <= |c|
            && forall i :: 0 <= i < |l.calls| ==> c[i].key == l.calls[i].key && c[i].work == l.calls[i].work
    decreases |es|
  {
    if es != [] {
      StepKeepsCalls(l, es[0]);
      RunKeepsCalls(KeyLock.Step(l, es[0], []), es[1..]);
    }
  }

  lemma {:induction false} SameWritten(
    a: seq<KeyLock.Call<seq<int>>>, b: seq<KeyLock.Call<seq<int>>>, times: seq<int>, key: string, n: nat)
    requires n <= |a| && n <= |b| && n <= |times|
    requires forall i :: 0 <= i < n ==> a[i].key == b[i].key && a[i].wrote == b[i].wrote
    ensures WrittenTimes(a, times, key, n) == WrittenTimes(b, times, key, n)
  {
    if n > 0 { SameWritten(a, b, times, key, n - 1); }
  }

  lemma {:induction false} IdleWritten(calls: seq<KeyLock.Call<seq<int>>>, times: seq<int>, key: string, m: nat, n: nat)
    requires m <= n <= |calls| && n <= |times|
    requires forall i :: m <= i < n && calls[i].key == key ==> !calls[i].wrote
    ensures WrittenTimes(calls, times, key, n) == WrittenTimes(calls, times, key, m)
  {
    if m < n { IdleWritten(calls, times, key, m, n - 1); }
  }

  /** A step that writes nothing leaves the written times as they are. */
  lemma QuietStep(l: KeyLock.Lock<seq<int>>, e: KeyLock.Event<seq<int>>, times: seq<int>, key: string)
    requires |KeyLock.Step(l, e, []).calls| <= |times|
    requires e.Write? && e.id < |l.calls| ==> !l.calls[e.id].phase.HasRead?
    ensures var c := KeyLock.Step(l, e, []).calls;
            |l.calls| <= |c| && WrittenTimes(c, times, key, |c|) == WrittenTimes(l.calls, times, key, |l.calls|)
  {
    var c := KeyLock.Step(l, e, []).calls;
    IdleWritten(c, times, key, |l.calls|, |c|);
    SameWritten(c, l.calls, times, key, |l.calls|);
  }

  /** A write comes last among the written times of its key. */
  lemma WriteIsLast(
    calls: seq<KeyLock.Call<seq<int>>>, id: nat, call: KeyLock.Call<seq<int>>, times: seq<int>, key: string)
    requires id < |calls| <= |times| && call.key == calls[id].key && call.wrote && !calls[id].wrote
    requires forall i :: id < i < |calls| && calls[i].key == call.key ==> !calls[i].wrote
    ensures WrittenTimes(calls[id := call], times, key, |calls|)
         == if call.key == key then WrittenTimes(calls, times, key, id) + [times[id]]
            else WrittenTimes(calls, times, key, |calls|)
    ensures call.key == key ==> WrittenTimes(calls, times, key, |calls|) == WrittenTimes(calls, times, key, id)
  {
    var next := calls[id := call];
    if call.key == key {
      IdleWritten(calls, times, key, id, |calls|);
      IdleWritten(next, times, key, id + 1, |calls|);
      SameWritten(next, calls, times, key, id);
    } else {
      SameOthers(next, calls, times, key, |calls|);
    }
  }

  lemma {:induction false} SameOthers(
    a: seq<KeyLock.Call<seq<int>>>, b: seq<KeyLock.Call<seq<int>>>, times: seq<int>, key: string, n: nat)
    requires n <= |a| && n <= |b| && n <= |times|
    requires forall i :: 0 <= i < n ==> a[i].key == b[i].key && (a[i].key == key ==> a[i].wrote == b[i].wrote)
    ensures WrittenTimes(a, times, key, n) == WrittenTimes(b, times, key, n)
  {
    if n > 0 { SameOthers(a, b, times, key, n - 1); }
  }

  /** What the lock guarantees a call that has read: it read what the attempts before it left, and
      nobody behind it on its key has written. */
  ghost predicate ReadsLast(
    calls: seq<KeyLock.Call<seq<int>>>, id: nat, times: seq<int>, step: (int, seq<int>) -> seq<int>)
  {
    && id < |calls| <= |times| && calls[id].phase.HasRead? && !calls[id].wrote
    && calls[id].phase.seen == Replay(step, WrittenTimes(calls, times, calls[id].key, id))
    && forall i :: id < i < |calls| && calls[i].key == calls[id].key ==> !calls[i].wrote
  }

  lemma LockReadsLast(l: KeyLock.Lock<seq<int>>, id: nat, times: seq<int>, step: (int, seq<int>) -> seq<int>)
    requires KeyLock.Inv(l, []) && id < |l.calls| && l.calls[id].phase.HasRead?
    requires Works(l.calls, times, step)
    ensures ReadsLast(l.calls, id, times, step)
  {
    KeyLock.LaterAreIdle(l, id, []);
    assert KeyLock.Fresh(l.calls, id, []);
    SequentialIsReplay(l.calls, times, step, l.calls[id].key, id);
  }

  lemma StepReads(l: KeyLock.Lock<seq<int>>, e: KeyLock.Event<seq<int>>, times: seq<int>,
      step: (int, seq<int>) -> seq<int>)
    requires KeyLock.Inv(l, []) && Works(l.calls, times, step)
    ensures e.Write? && e.id < |l.calls| && l.calls[e.id].phase.HasRead? ==> ReadsLast(l.calls, e.id, times, step)
    ensures KeyLock.Inv(KeyLock.Step(l, e, []), [])
  {
    KeyLock.StepKeeps(l, e, []);
    if e.Write? && e.id < |l.calls| && l.calls[e.id].phase.HasRead? { LockReadsLast(l, e.id, times, step); }
  }

  function AllWritten(l: KeyLock.Lock<seq<int>>, times: seq<int>, key: string): seq<int>
    requires |l.calls| <= |times|
  {
    WrittenTimes(l.calls, times, key, |l.calls|)
  }

  lemma StepTurn(l: KeyLock.Lock<seq<int>>, e: KeyLock.Event<seq<int>>, next: KeyLock.Lock<seq<int>>,
      times: seq<int>, step: (int, seq<int>) -> seq<int>, key: string, turn: seq<Turn>)
    requires next == KeyLock.Step(l, e, []) && |l.calls| <= |times| && |next.calls| <= |times|
    requires turn == TurnOf(l, e, times, key)
    requires e.Write? && e.id < |l.calls| && l.calls[e.id].phase.HasRead? ==> ReadsLast(l.calls, e.id, times, step)
    ensures AllWritten(next, times, key) == AllWritten(l, times, key) + TurnTimes(turn)
    ensures turn != [] ==> turn[0].seen == Replay(step, AllWritten(l, times, key))
  {
    if e.Write? && e.id < |l.calls| && l.calls[e.id].phase.HasRead? {
      WriteIsLast(l.calls, e.id, next.calls[e.id], times, key);
    } else {
      QuietStep(l, e, times, key);
    }
  }

  lemma ReplaySnoc(step: (int, seq<int>) -> seq<int>, times: seq<int>, now: int)
    ensures Replay(step, times + [now]) == step(now, Replay(step, times))
  {
    assert (times + [now])[..|times|] == times;
  }

  lemma FollowFirst(turn: seq<Turn>, rest: seq<Turn>, before: seq<int>, step: (int, seq<int>) -> seq<int>)
    requires |turn| <= 1 && (turn != [] ==> turn[0].seen == Replay(step, before))
    requires Follow(rest, Replay(step, before + TurnTimes(turn)), step)
    ensures Follow(turn + rest, Replay(step, before), step)
  {
    if turn == [] {
      assert turn + rest == rest && before + TurnTimes(turn) == before;
    } else {
      assert (turn + rest)[1..] == rest;
      assert TurnTimes(turn) == [turn[0].now];
      ReplaySnoc(step, before, turn[0].now);
    }
  }

  lemma TimesFirst(turn: seq<Turn>, rest: seq<Turn>, before: seq<int>)
    requires |turn| <= 1
    ensures before + TurnTimes(turn + rest) == before + TurnTimes(turn) + TurnTimes(rest)
  {
    if turn == [] {
      assert turn + rest == rest;
    } else {
      assert (turn + rest)[1..] == rest;
    }
  }

  lemma {:induction false} TurnsFollow(l: KeyLock.Lock<seq<int>>, es: seq<KeyLock.Event<seq<int>>>,
      last: KeyLock.Lock<seq<int>>, times: seq<int>, step: (int, seq<int>) -> seq<int>, key: string)
    requires Works(last.calls, times, step) && Works(l.calls, times, step)
    requires KeyLock.Inv(l, []) && last == KeyLock.Run(l, es, [])
    ensures Follow(Turns(l, es, times, key), Replay(step, AllWritten(l, times, key)), step)
    ensures AllWritten(last, times, key) == AllWritten(l, times, key) + TurnTimes(Turns(l, es, times, key))
    decreases |es|
  {
    if es != [] {
      var next := KeyLock.Step(l, es[0], []);
      StepReads(l, es[0], times, step);
      EarlierWorks(next, es[1..], last, times, step);
      TurnsFollow(next, es[1..], last, times, step, key);
      var turn, rest := TurnOf(l, es[0], times, key), Turns(next, es[1..], times, key);
      StepTurn(l, es[0], next, times, step, key, turn);
      FollowFirst(turn, rest, AllWritten(l, times, key), step);
      TimesFirst(turn, rest, AllWritten(l, times, key));
    }
  }

  lemma EarlierWorks(l: KeyLock.Lock<seq<int>>, es: seq<KeyLock.Event<seq<int>>>, last: KeyLock.Lock<seq<int>>,
      times: seq<int>, step: (int, seq<int>) -> seq<int>)
    requires last == KeyLock.Run(l, es, []) && Works(last.calls, times, step)
    ensures Works(l.calls, times, step)
  {
    RunKeepsCalls(l, es);
  }

  lemma EmptyIsFine(times: seq<int>, step: (int, seq<int>) -> seq<int>)
    ensures KeyLock.Inv<seq<int>>(KeyLock.Empty(), []) && Works(KeyLock.Empty().calls, times, step)
  {}

  lemma TurnsAreSpaced(l: KeyLock.Lock<seq<int>>, turns: seq<Turn>, times: seq<int>, p: Policy, key: string)
    requires Checks(l.calls, times, p) && Monotone(times)
    requires Follow(turns, [], SendStep(p)) && AllWritten(l, times, key) == TurnTimes(turns)
    ensures WithinLimits(AllowedSends(turns, p), p)
  {
    WrittenTimesMonotone(l.calls, times, key, |l.calls|);
    FollowersAreSpaced(turns, TurnTimes(turns), p);
  }

  lemma FollowersAreSpaced(turns: seq<Turn>, times: seq<int>, p: Policy)
    requires Follow(turns, [], SendStep(p)) && times == TurnTimes(turns) && Monotone(times)
    ensures WithinLimits(AllowedSends(turns, p), p)
  {
    FollowingSends(turns, NEW, p);
    SendsAreSpaced(p, times);
    assert [] + AllowedSends(turns, p) == AllowedSends(turns, p);
  }

  /** However the calls overlap, the sends they are allowed, as they are answered, keep the cap and
      the spacing, when the clock readings are monotone in arrival order. */
  lemma OverlappingSendsAreSpaced(
    es: seq<KeyLock.Event<seq<int>>>, l: KeyLock.Lock<seq<int>>, times: seq<int>, p: Policy, key: string)
    requires l == KeyLock.Run(KeyLock.Empty(), es, []) && Checks(l.calls, times, p) && Monotone(times)
    ensures WithinLimits(AllowedSends(Turns(KeyLock.Empty(), es, times, key), p), p)
  {
    ChecksWork(l.calls, times, p);
    EmptyIsFine(times, SendStep(p));
    TurnsFollow(KeyLock.Empty(), es, l, times, SendStep(p), key);
    var turns := Turns(KeyLock.Empty(), es, times, key);
    assert [] + TurnTimes(turns) == TurnTimes(turns);
    TurnsAreSpaced(l, turns, times, p, key);
  }
}
