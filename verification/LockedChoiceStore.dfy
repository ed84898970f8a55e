/** The in-process choice store under its per-key lock is the atomic store. */
module LockedChoiceStore {
  // apps/api/src/stores/choice.ts and apps/api/src/stores/with-key-lock.ts. Overlapping calls on one
  // record each read its entry and later write it back, with steps of other calls in between.

  import opened Options
  import opened ChoiceDomain
  import opened ChoiceStore
  import opened MemoryChoiceStore
  import KeyLock

  datatype Op =
    | OpOpen(record: Record)
    | OpClaim(bind: Bind, option: string)
    | OpComplete(bind: Bind, option: string)
    | OpPeek

  /** A call on the record `id`, with the clock reading it works with. */
  datatype Ask = Ask(id: ChoiceId, op: Op, now: nat)

  type Held = Option<MemoryEntry>

  function After(held: Held, ask: Ask, ttl: nat): Held {
    match ask.op
    case OpOpen(record) => AfterOpening(held, record, ask.now, ttl)
    case OpClaim(bind, option) => AfterClaiming(held, bind, option, ask.now)
    case OpComplete(bind, option) => AfterCompleting(held, bind, option, ask.now)
    case OpPeek => AfterPeeking(held, ask.now)
  }

  function AfterAll(asks: seq<Ask>, ttl: nat): Held {
    if asks == [] then None else After(AfterAll(asks[..|asks| - 1], ttl), asks[|asks| - 1], ttl)
  }

  // ------------------------------------------------------------ the atomic run

  function ClockOf(asks: seq<Ask>): nat {
    if asks == [] then 0 else asks[|asks| - 1].now
  }

  function WaitFor(clock: nat, now: nat): Call {
    CallPass(if clock <= now then now - clock else 0)
  }

  function CallsOf(ask: Ask): seq<Call> {
    match ask.op
    case OpOpen(record) => [CallOpen(record)]
    case OpClaim(bind, option) => [CallClaim(ask.id, bind, option)]
    case OpComplete(bind, option) => [CallComplete(ask.id, bind, option)]
    case OpPeek => []
  }

  /** The same asks as calls of the atomic store, each after the wait up to its reading. */
  function Schedule(asks: seq<Ask>): seq<Call> {
    if asks == [] then []
    else
      var before := asks[..|asks| - 1];
      (Schedule(before) + [WaitFor(ClockOf(before), asks[|asks| - 1].now)]) + CallsOf(asks[|asks| - 1])
  }

  /** The asks are on one record, and their readings do not go back. */
  ghost predicate InLine(asks: seq<Ask>, id: ChoiceId) {
    && (forall i :: 0 <= i < |asks| ==> asks[i].id == id && (asks[i].op.OpOpen? ==> asks[i].op.record.choiceId == id))
    && (forall i, j :: 0 <= i < j < |asks| ==> asks[i].now <= asks[j].now)
  }

  function Lookup(v: View, id: ChoiceId): Option<Entry> {
    if id in v then Some(v[id]) else None
  }

  function LiveEntry(held: Held, now: nat): Option<Entry> {
    if IsLive(held, now) then Some(Entry(held.value.value.record, held.value.expiresAtMs)) else None
  }

  lemma {:induction false} RunMore(b: Books, cs: seq<Call>, ds: seq<Call>, ttl: nat)
    ensures ChoiceStore.Run(b, cs + ds, ttl) == ChoiceStore.Run(ChoiceStore.Run(b, cs, ttl), ds, ttl)
    decreases |cs|
  {
    if cs == [] {
      assert cs + ds == ds;
    } else {
      assert (cs + ds)[1..] == cs[1..] + ds;
      RunMore(ChoiceStore.Step(b, cs[0], ttl), cs[1..], ds, ttl);
    }
  }

  lemma RunOne(b: Books, c: Call, ttl: nat)
    ensures ChoiceStore.Run(b, [c], ttl) == ChoiceStore.Step(b, c, ttl)
  {
    assert [c][1..] == [];
  }

  /** The books hold what is held. */
  ghost predicate Same(b: Books, held: Held, id: ChoiceId) {
    LiveEntry(held, b.now) == Lookup(b.view, id)
  }

  lemma WaitSame(b: Books, held: Held, id: ChoiceId, now: nat, ttl: nat)
    requires Same(b, held, id) && b.now <= now
    ensures var c := ChoiceStore.Step(b, WaitFor(b.now, now), ttl);
            Same(c, held, id) && c.now == now
  {}

  lemma ViewAfterClaim(b: Books, id: ChoiceId, bind: Bind, option: string)
    requires Consistent(b)
    ensures ClaimStep(b, id, bind, option).view == AfterClaim(b.view, id, bind, option)
    ensures ClaimStep(b, id, bind, option).now == b.now
  {}

  lemma ViewAfterComplete(b: Books, id: ChoiceId, bind: Bind, option: string)
    requires Consistent(b)
    ensures CompleteStep(b, id, bind, option).view == AfterComplete(b.view, id, bind, option)
    ensures CompleteStep(b, id, bind, option).now == b.now
  {}

  /** The three changes of one entry, on the live view and on what is held. */
  lemma OpenAlike(v: View, held: Held, record: Record, now: nat, ttl: nat)
    requires LiveEntry(held, now) == Lookup(v, record.choiceId)
    ensures LiveEntry(AfterOpening(held, record, now, ttl), now)
         == Lookup(if ttl == 0 then v else Opened(v, record, now + ttl), record.choiceId)
  {}

  lemma ClaimAlike(v: View, held: Held, id: ChoiceId, bind: Bind, option: string, now: nat)
    requires LiveEntry(held, now) == Lookup(v, id)
    ensures LiveEntry(AfterClaiming(held, bind, option, now), now) == Lookup(AfterClaim(v, id, bind, option), id)
  {}

  lemma CompleteAlike(v: View, held: Held, id: ChoiceId, bind: Bind, option: string, now: nat)
    requires LiveEntry(held, now) == Lookup(v, id)
    ensures LiveEntry(AfterCompleting(held, bind, option, now), now) == Lookup(AfterComplete(v, id, bind, option), id)
  {}

  lemma AskSame(b: Books, held: Held, ask: Ask, ttl: nat)
    requires Consistent(b) && Same(b, held, ask.id) && b.now == ask.now
    requires (ask.op.OpOpen? ==> ask.op.record.choiceId == ask.id)
    ensures var c := ChoiceStore.Run(b, CallsOf(ask), ttl);
            Same(c, After(held, ask, ttl), ask.id) && c.now == b.now
  {
    match ask.op
    case OpOpen(record) =>
      RunOne(b, CallOpen(record), ttl);
      OpenAlike(b.view, held, record, b.now, ttl);
    case OpClaim(bind, option) =>
      RunOne(b, CallClaim(ask.id, bind, option), ttl);
      ViewAfterClaim(b, ask.id, bind, option);
      ClaimAlike(b.view, held, ask.id, bind, option, b.now);
    case OpComplete(bind, option) =>
      RunOne(b, CallComplete(ask.id, bind, option), ttl);
      ViewAfterComplete(b, ask.id, bind, option);
      CompleteAlike(b.view, held, ask.id, bind, option, b.now);
    case OpPeek =>
  }

  lemma {:induction false} ScheduleSame(asks: seq<Ask>, id: ChoiceId, ttl: nat)
    requires InLine(asks, id)
    ensures var b := ChoiceStore.Run(EMPTY, Schedule(asks), ttl);
            Same(b, AfterAll(asks, ttl), id) && b.now == ClockOf(asks)
  {
    if asks != [] {
      var before, ask := asks[..|asks| - 1], asks[|asks| - 1];
      ScheduleSame(before, id, ttl);
      var b := ChoiceStore.Run(EMPTY, Schedule(before), ttl);
      var wait := WaitFor(ClockOf(before), ask.now);
      RunMore(EMPTY, Schedule(before), [wait], ttl);
      RunOne(b, wait, ttl);
      WaitSame(b, AfterAll(before, ttl), id, ask.now, ttl);
      RunMore(EMPTY, Schedule(before) + [wait], CallsOf(ask), ttl);
      ChoiceStore.RunKeeps(EMPTY, Schedule(before) + [wait], ttl);
      AskSame(ChoiceStore.Step(b, wait, ttl), AfterAll(before, ttl), ask, ttl);
    }
  }

  // ------------------------------------------------------------ under the lock

  function Work(ask: Ask, ttl: nat): Held -> Held {
    (held: Held) => After(held, ask, ttl)
  }

  /** Every call is one of the store's, and `key` is the lock key of `id`. */
  ghost predicate Serves(calls: seq<KeyLock.Call<Held>>, asks: seq<Ask>, ttl: nat, key: string, id: ChoiceId) {
    && |asks| == |calls|
    && (forall i :: 0 <= i < |calls| ==> calls[i].work == Work(asks[i], ttl))
    && (forall i :: 0 <= i < |calls| ==> (calls[i].key == key <==> asks[i].id == id))
  }

  /** Of the first `n` asks those on `key` that have written, in arrival order. */
  function Written(calls: seq<KeyLock.Call<Held>>, asks: seq<Ask>, key: string, n: nat): seq<Ask>
    requires n <= |calls| && n <= |asks|
  {
    if n == 0 then []
    else
      var before := Written(calls, asks, key, n - 1);
      if calls[n - 1].key == key && calls[n - 1].wrote then before + [asks[n - 1]] else before
  }

  lemma {:induction false} SequentialIsAfterAll(
    calls: seq<KeyLock.Call<Held>>, asks: seq<Ask>, ttl: nat, key: string, n: nat)
    requires n <= |calls| == |asks| && forall i :: 0 <= i < |calls| ==> calls[i].work == Work(asks[i], ttl)
    ensures KeyLock.Sequential(calls, key, n, None) == AfterAll(Written(calls, asks, key, n), ttl)
  {
    if n > 0 {
      SequentialIsAfterAll(calls, asks, ttl, key, n - 1);
      var before := Written(calls, asks, key, n - 1);
      assert (before + [asks[n - 1]])[..|before|] == before;
    }
  }

  /** The readings of the calls on one record, taken one after another under its lock. */
  ghost predicate Ordered(asks: seq<Ask>, id: ChoiceId) {
    && (forall i, j :: 0 <= i < j < |asks| && asks[i].id == id && asks[j].id == id ==> asks[i].now <= asks[j].now)
    && (forall i :: 0 <= i < |asks| && asks[i].id == id && asks[i].op.OpOpen? ==> asks[i].op.record.choiceId == id)
  }

  ghost predicate AskedBefore(asks: seq<Ask>, id: ChoiceId, n: nat, ask: Ask)
    requires n <= |asks|
  {
    exists i :: 0 <= i < n && asks[i].id == id && asks[i] == ask
  }

  ghost predicate AllAskedBefore(asks: seq<Ask>, id: ChoiceId, n: nat, written: seq<Ask>)
    requires n <= |asks|
  {
    forall k :: 0 <= k < |written| ==> AskedBefore(asks, id, n, written[k])
  }

  lemma {:induction false} WrittenInLine(
    calls: seq<KeyLock.Call<Held>>, asks: seq<Ask>, ttl: nat, key: string, id: ChoiceId, n: nat)
    requires Serves(calls, asks, ttl, key, id) && Ordered(asks, id) && n <= |calls|
    ensures InLine(Written(calls, asks, key, n), id) && AllAskedBefore(asks, id, n, Written(calls, asks, key, n))
  {
    if n > 0 {
      WrittenInLine(calls, asks, ttl, key, id, n - 1);
      var before, written := Written(calls, asks, key, n - 1), Written(calls, asks, key, n);
      forall k | 0 <= k < |written| ensures AskedBefore(asks, id, n, written[k]) {
        if k < |before| {
          assert AskedBefore(asks, id, n - 1, before[k]);
        } else {
          assert asks[n - 1].id == id && written[k] == asks[n - 1];
        }
      }
      forall k | 0 <= k < |before| && asks[n - 1].id == id ensures before[k].now <= asks[n - 1].now {
        assert AskedBefore(asks, id, n - 1, before[k]);
      }
    }
  }

  /** Overlapping calls of the memory store are atomic: over every interleaving the
      entry under a key is that of the atomic store after the calls that have written,
      one by one in arrival order. */
  lemma OverlappingCallsAreAtomic(
    es: seq<KeyLock.Event<Held>>, l: KeyLock.Lock<Held>, asks: seq<Ask>, ttl: nat, key: string, id: ChoiceId)
    requires l == KeyLock.Run(KeyLock.Empty(), es, None)
    requires Serves(l.calls, asks, ttl, key, id) && Ordered(asks, id)
    ensures var written := Written(l.calls, asks, key, |l.calls|);
            LiveEntry(KeyLock.Get(l.store, key, None), ClockOf(written))
              == Lookup(ChoiceStore.Run(EMPTY, Schedule(written), ttl).view, id)
  {
    KeyLock.LockedCallsAreSequential(es, None, key);
    SequentialIsAfterAll(l.calls, asks, ttl, key, |l.calls|);
    WrittenInLine(l.calls, asks, ttl, key, id, |l.calls|);
    ScheduleSame(Written(l.calls, asks, key, |l.calls|), id, ttl);
  }

  /** The view that a call takes its decision on. */
  function Seen(held: Held, id: ChoiceId, now: nat): View {
    if IsLive(held, now) then map[id := LiveEntry(held, now).value] else map[]
  }

  /** The atomic store when the call's turn comes, at the call's reading. */
  function AtTurn(written: seq<Ask>, now: nat, ttl: nat): View {
    ChoiceStore.Run(EMPTY, Schedule(written) + [WaitFor(ClockOf(written), now)], ttl).view
  }

  /** And each call is answered as the atomic store answers it in its turn. */
  lemma OverlappingCallsAnswerAtomically(
    es: seq<KeyLock.Event<Held>>, l: KeyLock.Lock<Held>, asks: seq<Ask>, ttl: nat, key: string, id: ChoiceId, n: nat)
    requires l == KeyLock.Run(KeyLock.Empty(), es, None)
    requires Serves(l.calls, asks, ttl, key, id) && Ordered(asks, id)
    requires n < |l.calls| && l.calls[n].key == key && l.calls[n].phase.HasRead?
    ensures var seen := Seen(l.calls[n].phase.seen, id, asks[n].now);
            var v := AtTurn(Written(l.calls, asks, key, n), asks[n].now, ttl);
            && (forall bind, option :: ClaimDecide(seen, id, bind, option) == ClaimDecide(v, id, bind, option))
            && (forall bind, option :: CompleteDecide(seen, id, bind, option) == CompleteDecide(v, id, bind, option))
            && (forall bind :: PeekDecide(seen, id, bind) == PeekDecide(v, id, bind))
            && (id in seen <==> id in v)
  {
    KeyLock.ReadsAreSequential(es, None, n);
    SequentialIsAfterAll(l.calls, asks, ttl, key, n);
    WrittenInLine(l.calls, asks, ttl, key, id, n);
    var written := Written(l.calls, asks, key, n);
    ScheduleSame(written, id, ttl);
    var b := ChoiceStore.Run(EMPTY, Schedule(written), ttl);
    ClockBefore(asks, written, id, n);
    RunMore(EMPTY, Schedule(written), [WaitFor(ClockOf(written), asks[n].now)], ttl);
    RunOne(b, WaitFor(ClockOf(written), asks[n].now), ttl);
    WaitSame(b, AfterAll(written, ttl), id, asks[n].now, ttl);
    SameEntryDecides(Seen(l.calls[n].phase.seen, id, asks[n].now), AtTurn(written, asks[n].now, ttl), id);
  }

  lemma ClockBefore(asks: seq<Ask>, written: seq<Ask>, id: ChoiceId, n: nat)
    requires n < |asks| && asks[n].id == id && Ordered(asks, id) && AllAskedBefore(asks, id, n, written)
    ensures ClockOf(written) <= asks[n].now
  {
    if written != [] { assert AskedBefore(asks, id, n, written[|written| - 1]); }
  }

  lemma SameEntryDecides(v: View, w: View, id: ChoiceId)
    requires Lookup(v, id) == Lookup(w, id)
    ensures forall bind, option :: ClaimDecide(v, id, bind, option) == ClaimDecide(w, id, bind, option)
    ensures forall bind, option :: CompleteDecide(v, id, bind, option) == CompleteDecide(w, id, bind, option)
    ensures forall bind :: PeekDecide(v, id, bind) == PeekDecide(w, id, bind)
    ensures id in v <==> id in w
  {}

  // ------------------------------------------------------------ rejected calls

  /** The call is over and has written nothing: its work was rejected. */
  predicate Rejected(call: KeyLock.Call<Held>) {
    !call.wrote && (call.phase.Settled? || call.phase.Released?)
  }

  /** As `Written`, with every rejected call in its turn as the read it may have made,
      which drops an expired entry. */
  function Turns(calls: seq<KeyLock.Call<Held>>, asks: seq<Ask>, key: string, n: nat): seq<Ask>
    requires n <= |calls| && n <= |asks|
  {
    if n == 0 then []
    else
      var before := Turns(calls, asks, key, n - 1);
      if calls[n - 1].key != key then before
      else if calls[n - 1].wrote then before + [asks[n - 1]]
      else if Rejected(calls[n - 1]) then before + [asks[n - 1].(op := OpPeek)]
      else before
  }

  /** No difference shows from `now` on. */
  predicate LiveAlike(a: Held, b: Held, now: nat) {
    IsLive(a, now) == IsLive(b, now) && (IsLive(a, now) ==> a == b)
  }

  lemma AlikeLater(a: Held, b: Held, now: nat, later: nat)
    requires LiveAlike(a, b, now) && now <= later
    ensures LiveAlike(a, b, later) && LiveEntry(a, later) == LiveEntry(b, later)
  {}

  lemma PeekIsUnseen(held: Held, now: nat)
    ensures LiveAlike(AfterPeeking(held, now), held, now)
  {}

  lemma AfterAlike(a: Held, b: Held, ask: Ask, ttl: nat)
    requires LiveAlike(a, b, ask.now)
    ensures LiveAlike(After(a, ask, ttl), After(b, ask, ttl), ask.now)
  {}

  lemma AlikeTrans(a: Held, b: Held, c: Held, now: nat)
    requires LiveAlike(a, b, now) && LiveAlike(b, c, now)
    ensures LiveAlike(a, c, now)
  {}

  lemma {:induction false} TurnsInLine(
    calls: seq<KeyLock.Call<Held>>, asks: seq<Ask>, ttl: nat, key: string, id: ChoiceId, n: nat)
    requires Serves(calls, asks, ttl, key, id) && Ordered(asks, id) && n <= |calls|
    ensures InLine(Turns(calls, asks, key, n), id)
    ensures forall m :: n <= m < |asks| && asks[m].id == id ==> ClockOf(Turns(calls, asks, key, n)) <= asks[m].now
  {
    if n > 0 {
      TurnsInLine(calls, asks, ttl, key, id, n - 1);
      var before := Turns(calls, asks, key, n - 1);
      if calls[n - 1].key == key {
        assert asks[n - 1].id == id;
        forall k | 0 <= k < |before| ensures before[k].now <= asks[n - 1].now {
          assert before[k].now <= ClockOf(before);
        }
      }
    }
  }

  lemma AllSnoc(asks: seq<Ask>, ask: Ask, ttl: nat)
    ensures AfterAll(asks + [ask], ttl) == After(AfterAll(asks, ttl), ask, ttl)
    ensures ClockOf(asks + [ask]) == ask.now
  {
    assert (asks + [ask])[..|asks|] == asks;
  }

  lemma {:induction false} TurnsAlike(
    calls: seq<KeyLock.Call<Held>>, asks: seq<Ask>, ttl: nat, key: string, id: ChoiceId, n: nat)
    requires Serves(calls, asks, ttl, key, id) && Ordered(asks, id) && n <= |calls|
    ensures LiveAlike(AfterAll(Turns(calls, asks, key, n), ttl), AfterAll(Written(calls, asks, key, n), ttl),
                      ClockOf(Turns(calls, asks, key, n)))
  {
    if n > 0 {
      TurnsAlike(calls, asks, ttl, key, id, n - 1);
      TurnsInLine(calls, asks, ttl, key, id, n - 1);
      if calls[n - 1].key == key && (calls[n - 1].wrote || Rejected(calls[n - 1])) {
        var turns, written := Turns(calls, asks, key, n - 1), Written(calls, asks, key, n - 1);
        var ask := if calls[n - 1].wrote then asks[n - 1] else asks[n - 1].(op := OpPeek);
        AlikeLater(AfterAll(turns, ttl), AfterAll(written, ttl), ClockOf(turns), ask.now);
        AllSnoc(turns, ask, ttl);
        AllSnoc(written, ask, ttl);
        if calls[n - 1].wrote {
          AfterAlike(AfterAll(turns, ttl), AfterAll(written, ttl), ask, ttl);
        } else {
          PeekIsUnseen(AfterAll(turns, ttl), ask.now);
          AlikeTrans(After(AfterAll(turns, ttl), ask, ttl), AfterAll(turns, ttl), AfterAll(written, ttl), ask.now);
        }
      }
    }
  }

  /** A call whose work is rejected changes nothing either: with its read taken into the
      atomic run, in its turn, the live entry is the same. */
  lemma RejectedCallsAreUnseen(
    es: seq<KeyLock.Event<Held>>, l: KeyLock.Lock<Held>, asks: seq<Ask>, ttl: nat, key: string, id: ChoiceId)
    requires l == KeyLock.Run(KeyLock.Empty(), es, None)
    requires Serves(l.calls, asks, ttl, key, id) && Ordered(asks, id)
    ensures var turns := Turns(l.calls, asks, key, |l.calls|);
            LiveEntry(KeyLock.Get(l.store, key, None), ClockOf(turns))
              == Lookup(ChoiceStore.Run(EMPTY, Schedule(turns), ttl).view, id)
  {
    var turns := Turns(l.calls, asks, key, |l.calls|);
    KeyLock.LockedCallsAreSequential(es, None, key);
    SequentialIsAfterAll(l.calls, asks, ttl, key, |l.calls|);
    TurnsInLine(l.calls, asks, ttl, key, id, |l.calls|);
    TurnsAlike(l.calls, asks, ttl, key, id, |l.calls|);
    ScheduleSame(turns, id, ttl);
    var written := Written(l.calls, asks, key, |l.calls|);
    AlikeLater(AfterAll(turns, ttl), AfterAll(written, ttl), ClockOf(turns), ClockOf(turns));
  }
}
