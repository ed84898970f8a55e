/** The per-key mutex built from promise tails (apps/api/src/stores/with-key-lock.ts). */
module KeyLock {
  // One microtask or awaited effect a step; calls are numbered in arrival order. The work of a call
  // is an asynchronous read-modify-write: it reads the value under its key, and later, with any
  // other calls' steps in between, writes back `work(value)`.

  import opened Options

  datatype Phase<!V> = Waiting | Started | HasRead(seen: V) | Written | Settled | Released

  /** `previous` is the call whose tail the map held on arrival. */
  datatype Call<!V> = Call(key: string, previous: Option<nat>, work: V -> V, phase: Phase<V>, wrote: bool)

  datatype Lock<!V> = Lock(calls: seq<Call<V>>, tails: map<string, nat>, store: map<string, V>)

  datatype Event<!V> =
    | Arrive(key: string, work: V -> V)
    | Start(id: nat)
    | Read(id: nat)
    | Write(id: nat)
    | Settle(id: nat)
    | Release(id: nat)

  function Get<V>(store: map<string, V>, key: string, initial: V): V {
    if key in store then store[key] else initial
  }

  /** The promise `previous.then(() => gate, () => gate)` has settled: the chain before
      it has, and its own gate was released. */
  predicate TailSettled<V>(calls: seq<Call<V>>, tail: Option<nat>)
    decreases if tail.Some? then tail.value + 1 else 0
  {
    tail.None?
    || (tail.value < |calls|
        && calls[tail.value].phase.Released?
        && var before := calls[tail.value].previous;
           (before.Some? ==> before.value < tail.value) && TailSettled(calls, before))
  }

  function SetCall<V>(l: Lock<V>, id: nat, c: Call<V>): Lock<V>
    requires id < |l.calls|
  {
    l.(calls := l.calls[id := c])
  }

  function Step<V>(l: Lock<V>, e: Event<V>, initial: V): Lock<V> {
    match e
    case Arrive(key, work) =>
      var previous := if key in l.tails then Some(l.tails[key]) else None;
      l.(calls := l.calls + [Call(key, previous, work, Waiting, false)],
         tails := l.tails[key := |l.calls|])
    case Start(id) =>
      if id < |l.calls| && l.calls[id].phase.Waiting? && TailSettled(l.calls, l.calls[id].previous)
      then SetCall(l, id, l.calls[id].(phase := Started)) else l
    case Read(id) =>
      if id < |l.calls| && l.calls[id].phase.Started?
      then SetCall(l, id, l.calls[id].(phase := HasRead(Get(l.store, l.calls[id].key, initial)))) else l
    case Write(id) =>
      if id < |l.calls| && l.calls[id].phase.HasRead?
      then SetCall(l, id, l.calls[id].(phase := Written, wrote := true))
           .(store := l.store[l.calls[id].key := l.calls[id].work(l.calls[id].phase.seen)])
      else l
    case Settle(id) =>  // fulfilled, or rejected at any point of its work
      if id < |l.calls| && (l.calls[id].phase.Started? || l.calls[id].phase.HasRead? || l.calls[id].phase.Written?)
      then SetCall(l, id, l.calls[id].(phase := Settled)) else l
    case Release(id) =>
      if id < |l.calls| && l.calls[id].phase.Settled?
      then SetCall(l, id, l.calls[id].(phase := Released)) else l
  }

  function Run<V>(l: Lock<V>, es: seq<Event<V>>, initial: V): Lock<V>
    decreases |es|
  {
    if es == [] then l else Run(Step(l, es[0], initial), es[1..], initial)
  }

  /** The value under `key` when the first `n` calls run one after another. */
  function Sequential<V>(calls: seq<Call<V>>, key: string, n: nat, initial: V): V
    requires n <= |calls|
  {
    if n == 0 then initial
    else
      var before := Sequential(calls, key, n - 1, initial);
      if calls[n - 1].key == key && calls[n - 1].wrote then calls[n - 1].work(before) else before
  }

  /** The latest of the first `n` calls that is on `key`. */
  function LastOn<V>(calls: seq<Call<V>>, key: string, n: nat): (r: Option<nat>)
    requires n <= |calls|
    ensures r.Some? ==> r.value < n && calls[r.value].key == key
  {
    if n == 0 then None
    else if calls[n - 1].key == key then Some(n - 1)
    else LastOn(calls, key, n - 1)
  }

  lemma {:induction false} LastOnIsLast<V>(calls: seq<Call<V>>, key: string, n: nat, i: nat)
    requires n <= |calls| && i < n && calls[i].key == key
    ensures LastOn(calls, key, n).Some? && i <= LastOn(calls, key, n).value
  {
    if calls[n - 1].key != key { LastOnIsLast(calls, key, n - 1, i); }
  }

  lemma {:induction false} LastOnSame<V>(a: seq<Call<V>>, b: seq<Call<V>>, key: string, n: nat)
    requires n <= |a| && n <= |b| && forall i :: 0 <= i < n ==> a[i].key == b[i].key
    ensures LastOn(a, key, n) == LastOn(b, key, n)
  {
    if n > 0 { LastOnSame(a, b, key, n - 1); }
  }

  ghost predicate LinkedAt<V>(calls: seq<Call<V>>, i: nat)
    requires i < |calls|
  {
    calls[i].previous == LastOn(calls, calls[i].key, i)
  }

  ghost predicate Linked<V>(calls: seq<Call<V>>) {
    forall i :: 0 <= i < |calls| ==> LinkedAt(calls, i)
  }

  ghost predicate TailsOk<V>(l: Lock<V>) {
    forall k :: LastOn(l.calls, k, |l.calls|) == (if k in l.tails then Some(l.tails[k]) else None)
  }

  /** All calls before `j` on its key are released. */
  ghost predicate Ahead<V>(calls: seq<Call<V>>, key: string, j: nat)
    requires j <= |calls|
  {
    forall i :: 0 <= i < j && calls[i].key == key ==> calls[i].phase.Released?
  }

  /** A call that has left the queue has all earlier calls on its key released. */
  ghost predicate Exclusive<V>(calls: seq<Call<V>>) {
    forall j :: 0 <= j < |calls| && !calls[j].phase.Waiting? ==> Ahead(calls, calls[j].key, j)
  }

  /** The work not yet written has the value that running in order would give it. */
  ghost predicate Fresh<V>(calls: seq<Call<V>>, i: nat, initial: V)
    requires i < |calls|
  {
    && (calls[i].phase.HasRead? ==> calls[i].phase.seen == Sequential(calls, calls[i].key, i, initial))
    && (calls[i].phase.Waiting? || calls[i].phase.Started? || calls[i].phase.HasRead? ==> !calls[i].wrote)
  }

  ghost predicate StoreOk<V>(l: Lock<V>, initial: V) {
    forall k :: Get(l.store, k, initial) == Sequential(l.calls, k, |l.calls|, initial)
  }

  ghost predicate Inv<V>(l: Lock<V>, initial: V) {
    && Linked(l.calls) && TailsOk(l) && Exclusive(l.calls)
    && (forall i :: 0 <= i < |l.calls| ==> Fresh(l.calls, i, initial))
    && StoreOk(l, initial)
  }

  /** A settled tail has every call on its key behind it released, and conversely. */
  lemma {:induction false} SettledMeansReleased<V>(calls: seq<Call<V>>, key: string, n: nat)
    requires Linked(calls) && n <= |calls|
    ensures TailSettled(calls, LastOn(calls, key, n)) <==> Ahead(calls, key, n)
    decreases n
  {
    var last := LastOn(calls, key, n);
    if last.None? {
      forall i | 0 <= i < n && calls[i].key == key ensures false {
        LastOnIsLast(calls, key, n, i);
      }
    } else {
      var p := last.value;
      SettledMeansReleased(calls, key, p);
      assert LinkedAt(calls, p);
      forall i | 0 <= i < n && calls[i].key == key ensures i <= p {
        LastOnIsLast(calls, key, n, i);
      }
    }
  }

  lemma {:induction false} SequentialSame<V>(a: seq<Call<V>>, b: seq<Call<V>>, key: string, n: nat, initial: V)
    requires n <= |a| && n <= |b|
    requires forall i :: 0 <= i < n ==>
            a[i].key == b[i].key && a[i].work == b[i].work && (a[i].key == key ==> a[i].wrote == b[i].wrote)
    ensures Sequential(a, key, n, initial) == Sequential(b, key, n, initial)
  {
    if n > 0 { SequentialSame(a, b, key, n - 1, initial); }
  }

  /** Calls after `m` that wrote nothing under `key` leave it as the first `m` made it. */
  lemma {:induction false} SequentialIdle<V>(calls: seq<Call<V>>, key: string, m: nat, n: nat, initial: V)
    requires m <= n <= |calls|
    requires forall i :: m <= i < n && calls[i].key == key ==> !calls[i].wrote
    ensures Sequential(calls, key, n, initial) == Sequential(calls, key, m, initial)
  {
    if m < n { SequentialIdle(calls, key, m, n - 1, initial); }
  }

  lemma ArriveKeeps<V>(l: Lock<V>, key: string, work: V -> V, initial: V)
    requires Inv(l, initial)
    ensures Inv(Step(l, Arrive(key, work), initial), initial)
  {
    var c := Step(l, Arrive(key, work), initial);
    ArriveLinks(l, Call(key, if key in l.tails then Some(l.tails[key]) else None, work, Waiting, false));
    forall k ensures Get(c.store, k, initial) == Sequential(c.calls, k, |c.calls|, initial) {
      SequentialSame(c.calls, l.calls, k, |l.calls|, initial);
    }
    forall i | 0 <= i < |c.calls| ensures Fresh(c.calls, i, initial) {
      if i < |l.calls| {
        assert Fresh(l.calls, i, initial);
        SequentialSame(c.calls, l.calls, c.calls[i].key, i, initial);
      }
    }
    forall j | 0 <= j < |c.calls| && !c.calls[j].phase.Waiting? ensures Ahead(c.calls, c.calls[j].key, j) {
      assert Ahead(l.calls, l.calls[j].key, j);
    }
  }

  lemma ArriveLinks<V>(l: Lock<V>, call: Call<V>)
    requires Linked(l.calls) && TailsOk(l)
    requires call.previous == if call.key in l.tails then Some(l.tails[call.key]) else None
    ensures Linked(l.calls + [call])
    ensures TailsOk(l.(calls := l.calls + [call], tails := l.tails[call.key := |l.calls|]))
  {
    var calls := l.calls + [call];
    forall i | 0 <= i < |calls| ensures LinkedAt(calls, i) {
      assert i < |l.calls| ==> LinkedAt(l.calls, i);
      LastOnSame(calls, l.calls, calls[i].key, i);
    }
    forall k ensures LastOn(calls, k, |calls|)
        == (if k == call.key then Some(|l.calls|) else LastOn(l.calls, k, |l.calls|)) {
      LastOnSame(calls, l.calls, k, |l.calls|);
    }
  }

  /** Only the phase and the write mark of call `id` change. */
  lemma SetCallLinks<V>(l: Lock<V>, id: nat, c: Call<V>)
    requires Linked(l.calls) && TailsOk(l) && id < |l.calls|
    requires c.key == l.calls[id].key && c.previous == l.calls[id].previous
    ensures Linked(SetCall(l, id, c).calls) && TailsOk(SetCall(l, id, c))
  {
    var n := SetCall(l, id, c);
    forall i | 0 <= i < |n.calls| ensures LinkedAt(n.calls, i) {
      assert LinkedAt(l.calls, i);
      LastOnSame(n.calls, l.calls, n.calls[i].key, i);
    }
    forall k ensures LastOn(n.calls, k, |n.calls|) == (if k in n.tails then Some(n.tails[k]) else None) {
      LastOnSame(n.calls, l.calls, k, |n.calls|);
    }
  }

  lemma SetCallExclusive<V>(calls: seq<Call<V>>, id: nat, c: Call<V>)
    requires Exclusive(calls) && id < |calls| && c.key == calls[id].key
    requires Ahead(calls, c.key, id) && (calls[id].phase.Released? ==> c.phase.Released?)
    ensures Exclusive(calls[id := c])
  {
    var n := calls[id := c];
    forall j | 0 <= j < |n| && !n[j].phase.Waiting? ensures Ahead(n, n[j].key, j) {
      assert j != id ==> Ahead(calls, calls[j].key, j);
    }
  }

  /** A step of one call that writes nothing. */
  lemma PhaseKeeps<V>(l: Lock<V>, id: nat, phase: Phase<V>, initial: V)
    requires Inv(l, initial) && id < |l.calls|
    requires Ahead(l.calls, l.calls[id].key, id)
    requires l.calls[id].phase.Released? ==> phase.Released?
    requires phase.HasRead? ==> phase.seen == Sequential(l.calls, l.calls[id].key, id, initial)
    requires phase.Waiting? || phase.Started? || phase.HasRead? ==> !l.calls[id].wrote
    ensures Inv(SetCall(l, id, l.calls[id].(phase := phase)), initial)
  {
    var c := SetCall(l, id, l.calls[id].(phase := phase));
    SetCallLinks(l, id, l.calls[id].(phase := phase));
    SetCallExclusive(l.calls, id, l.calls[id].(phase := phase));
    forall k ensures Get(c.store, k, initial) == Sequential(c.calls, k, |c.calls|, initial) {
      SequentialSame(c.calls, l.calls, k, |c.calls|, initial);
    }
    forall i | 0 <= i < |c.calls| ensures Fresh(c.calls, i, initial) {
      assert Fresh(l.calls, i, initial);
      SequentialSame(c.calls, l.calls, c.calls[i].key, i, initial);
    }
  }

  /** While a call is inside, the later calls on its key have not written. */
  lemma LaterAreIdle<V>(l: Lock<V>, id: nat, initial: V)
    requires Inv(l, initial) && id < |l.calls| && !l.calls[id].phase.Released?
    ensures forall i :: id < i < |l.calls| && l.calls[i].key == l.calls[id].key ==>
              l.calls[i].phase.Waiting? && !l.calls[i].wrote
  {
    forall i | id < i < |l.calls| && l.calls[i].key == l.calls[id].key
      ensures l.calls[i].phase.Waiting? && !l.calls[i].wrote
    {
      assert Fresh(l.calls, i, initial);
      assert !Ahead(l.calls, l.calls[i].key, i);
    }
  }

  lemma WriteStoreOk<V>(l: Lock<V>, id: nat, call: Call<V>, initial: V)
    requires StoreOk(l, initial) && id < |l.calls|
    requires call.key == l.calls[id].key && call.work == l.calls[id].work && call.wrote
    requires forall i :: id < i < |l.calls| && l.calls[i].key == call.key ==> !l.calls[i].wrote
    ensures StoreOk(l.(calls := l.calls[id := call],
                       store := l.store[call.key := call.work(Sequential(l.calls, call.key, id, initial))]), initial)
  {
    var calls := l.calls[id := call];
    var store := l.store[call.key := call.work(Sequential(l.calls, call.key, id, initial))];
    forall k ensures Get(store, k, initial) == Sequential(calls, k, |calls|, initial) {
      assert Get(l.store, k, initial) == Sequential(l.calls, k, |l.calls|, initial);
      if k == call.key {
        WrittenKey(l.calls, id, call, initial);
      } else {
        SequentialSame(calls, l.calls, k, |calls|, initial);
      }
    }
  }

  lemma WrittenKey<V>(calls: seq<Call<V>>, id: nat, call: Call<V>, initial: V)
    requires id < |calls| && call.key == calls[id].key && call.work == calls[id].work && call.wrote
    requires forall i :: id < i < |calls| && calls[i].key == call.key ==> !calls[i].wrote
    ensures Sequential(calls[id := call], call.key, |calls|, initial)
         == call.work(Sequential(calls, call.key, id, initial))
  {
    var next := calls[id := call];
    SequentialSame(next, calls, call.key, id, initial);
    SequentialIdle(next, call.key, id + 1, |calls|, initial);
  }

  lemma WriteFresh<V>(calls: seq<Call<V>>, id: nat, call: Call<V>, initial: V)
    requires id < |calls| && call.key == calls[id].key && call.work == calls[id].work && call.phase.Written?
    requires forall i :: 0 <= i < |calls| ==> Fresh(calls, i, initial)
    requires forall i :: id < i < |calls| && calls[i].key == call.key ==> calls[i].phase.Waiting?
    ensures var next := calls[id := call]; forall i :: 0 <= i < |next| ==> Fresh(next, i, initial)
  {
    var next := calls[id := call];
    forall i | 0 <= i < |next| ensures Fresh(next, i, initial) {
      assert Fresh(calls, i, initial);
      if i != id && calls[i].phase.HasRead? { SequentialSame(next, calls, calls[i].key, i, initial); }
    }
  }

  lemma WriteKeeps<V>(l: Lock<V>, id: nat, initial: V)
    requires Inv(l, initial) && id < |l.calls| && l.calls[id].phase.HasRead?
    ensures Inv(Step(l, Write(id), initial), initial)
  {
    var call := l.calls[id].(phase := Written, wrote := true);
    assert Fresh(l.calls, id, initial);
    SetCallLinks(l, id, call);
    SetCallExclusive(l.calls, id, call);
    LaterAreIdle(l, id, initial);
    WriteStoreOk(l, id, call, initial);
    WriteFresh(l.calls, id, call, initial);
    assert Step(l, Write(id), initial).calls == l.calls[id := call];
    assert TailsOk(Step(l, Write(id), initial));
  }

  lemma StartKeeps<V>(l: Lock<V>, id: nat, initial: V)
    requires Inv(l, initial)
    ensures Inv(Step(l, Start(id), initial), initial)
  {
    if id < |l.calls| && l.calls[id].phase.Waiting? && TailSettled(l.calls, l.calls[id].previous) {
      SettledMeansReleased(l.calls, l.calls[id].key, id);
      assert LinkedAt(l.calls, id) && Fresh(l.calls, id, initial);
      PhaseKeeps(l, id, Started, initial);
    }
  }

  lemma ReadKeeps<V>(l: Lock<V>, id: nat, initial: V)
    requires Inv(l, initial)
    ensures Inv(Step(l, Read(id), initial), initial)
  {
    if id < |l.calls| && l.calls[id].phase.Started? {
      var key := l.calls[id].key;
      LaterAreIdle(l, id, initial);
      assert Fresh(l.calls, id, initial);
      SequentialIdle(l.calls, key, id, |l.calls|, initial);
      PhaseKeeps(l, id, HasRead(Get(l.store, key, initial)), initial);
    }
  }

  lemma StepKeeps<V>(l: Lock<V>, e: Event<V>, initial: V)
    requires Inv(l, initial)
    ensures Inv(Step(l, e, initial), initial)
  {
    match e
    case Arrive(key, work) => ArriveKeeps(l, key, work, initial);
    case Write(id) => if id < |l.calls| && l.calls[id].phase.HasRead? { WriteKeeps(l, id, initial); }
    case Start(id) => StartKeeps(l, id, initial);
    case Read(id) => ReadKeeps(l, id, initial);
    case Settle(id) =>
      if id < |l.calls| && (l.calls[id].phase.Started? || l.calls[id].phase.HasRead? || l.calls[id].phase.Written?) {
        PhaseKeeps(l, id, Settled, initial);
      }
    case Release(id) => if id < |l.calls| && l.calls[id].phase.Settled? { PhaseKeeps(l, id, Released, initial); }
  }

  lemma {:induction false} RunKeeps<V>(l: Lock<V>, es: seq<Event<V>>, initial: V)
    requires Inv(l, initial)
    ensures Inv(Run(l, es, initial), initial)
    decreases |es|
  {
    if es != [] {
      StepKeeps(l, es[0], initial);
      RunKeeps(Step(l, es[0], initial), es[1..], initial);
    }
  }

  function Empty<V>(): Lock<V> {
    Lock([], map[], map[])
  }

  /** Mutual exclusion and arrival order: when a call is past the queue, every earlier
      call on its key has been released; so two calls on one key are never both inside. */
  lemma OneAtATimeInOrder<V>(es: seq<Event<V>>, initial: V, i: nat, j: nat)
    requires i < j < |Run(Empty(), es, initial).calls|
    requires Run(Empty(), es, initial).calls[i].key == Run(Empty(), es, initial).calls[j].key
    ensures var l := Run(Empty(), es, initial);
            l.calls[j].phase.Waiting? || l.calls[i].phase.Released?
  {
    RunKeeps(Empty(), es, initial);
    var l := Run(Empty(), es, initial);
    assert !l.calls[j].phase.Waiting? ==> Ahead(l.calls, l.calls[j].key, j);
  }

  /** Overlapping asynchronous read-modify-writes lose no update: at every moment, each
      key holds what the calls that wrote would leave if run one by one as they arrived. */
  lemma LockedCallsAreSequential<V>(es: seq<Event<V>>, initial: V, key: string)
    ensures var l := Run(Empty(), es, initial);
            Get(l.store, key, initial) == Sequential(l.calls, key, |l.calls|, initial)
  {
    RunKeeps(Empty(), es, initial);
  }

  /** What a call reads, and so what it answers, is what it would read in that sequential run:
      the value that the calls before it leave. */
  lemma ReadsAreSequential<V>(es: seq<Event<V>>, initial: V, id: nat)
    requires id < |Run(Empty(), es, initial).calls| && Run(Empty(), es, initial).calls[id].phase.HasRead?
    ensures var l := Run(Empty(), es, initial);
            l.calls[id].phase.seen == Sequential(l.calls, l.calls[id].key, id, initial)
  {
    RunKeeps(Empty(), es, initial);
    assert Fresh(Run(Empty(), es, initial).calls, id, initial);
  }

  /** Progress: the earliest unreleased call on a key can always move on, whatever the
      calls on other keys are doing and whether or not earlier work was rejected. */
  lemma FirstInLineIsNeverBlocked<V>(es: seq<Event<V>>, initial: V, id: nat)
    requires id < |Run(Empty(), es, initial).calls| && !Run(Empty(), es, initial).calls[id].phase.Released?
    requires Ahead(Run(Empty(), es, initial).calls, Run(Empty(), es, initial).calls[id].key, id)
    ensures var l := Run(Empty(), es, initial);
            match l.calls[id].phase
            case Waiting => Step(l, Start(id), initial).calls[id].phase.Started?
            case Started => Step(l, Read(id), initial).calls[id].phase.HasRead?
            case HasRead(_) => Step(l, Write(id), initial).calls[id].phase.Written?
            case Written => Step(l, Settle(id), initial).calls[id].phase.Settled?
            case Settled => Step(l, Release(id), initial).calls[id].phase.Released?
            case Released => true
  {
    RunKeeps(Empty(), es, initial);
    var l := Run(Empty(), es, initial);
    assert LinkedAt(l.calls, id) && Ahead(l.calls, l.calls[id].key, id);
    SettledMeansReleased(l.calls, l.calls[id].key, id);
  }
}
