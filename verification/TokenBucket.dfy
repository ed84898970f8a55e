/** The continuous token bucket (`TOKEN_BUCKET_LUA` of apps/api/src/stores/redis.ts),
    in exact arithmetic over a monotone millisecond clock. */
module TokenBucket {
  import opened Options
  import opened Times

  /** Hits per window; both positive. */
  datatype Limit = Limit(limit: nat, windowSec: nat)

  predicate LimitOk(r: Limit) {
    r.limit > 0 && r.windowSec > 0
  }

  /** The stored hash. */
  datatype Bucket = Bucket(tokens: real, updatedAtMs: int)

  datatype Verdict = Admitted | Refused(retryAfterSec: int)

  function Min(a: real, b: real): real {
    if a <= b then a else b
  }

  /** Refill per millisecond. */
  function Rate(r: Limit): real
    requires LimitOk(r)
  {
    (r.limit as real) / (1000.0 * (r.windowSec as real))
  }

  /** `HMGET`, with a full bucket for an absent key. */
  function Loaded(b: Option<Bucket>, r: Limit, now: int): Bucket {
    if b.Some? then b.value else Bucket(r.limit as real, now)
  }

  /** The tokens there are at `now`. */
  function Available(b: Bucket, r: Limit, now: int): real
    requires LimitOk(r)
  {
    var elapsedMs := if now > b.updatedAtMs then now - b.updatedAtMs else 0;
    var refill := ((elapsedMs as real) / 1000.0) * ((r.limit as real) / (r.windowSec as real));
    Min(r.limit as real, b.tokens + refill)
  }

  function Ceil(x: real): int {
    if x.Floor as real == x then x.Floor else x.Floor + 1
  }

  /** The whole seconds a caller is told to wait with `tokens` available. */
  function RetryAfter(tokens: real, r: Limit): int
    requires LimitOk(r)
  {
    var wait := Ceil((1.0 - tokens) * ((r.windowSec as real) / (r.limit as real)));
    if wait < 1 then 1 else wait
  }

  /** One run of the script. */
  function Consume(b: Option<Bucket>, r: Limit, now: int): (Verdict, Bucket)
    requires LimitOk(r)
  {
    var tokens := Available(Loaded(b, r, now), r, now);
    if tokens < 1.0 then (Refused(RetryAfter(tokens, r)), Bucket(tokens, now))
    else (Admitted, Bucket(tokens - 1.0, now))
  }

  /** A stored bucket that some run has left behind by `now`. */
  predicate BucketOk(b: Option<Bucket>, r: Limit, now: int) {
    b.Some? ==> 0.0 <= b.value.tokens <= r.limit as real && b.value.updatedAtMs <= now
  }

  lemma RefillIsRate(b: Bucket, r: Limit, now: int)
    requires LimitOk(r) && b.updatedAtMs <= now
    ensures Available(b, r, now) == Min(r.limit as real, b.tokens + ((now - b.updatedAtMs) as real) * Rate(r))
  {
    RateTimes((now - b.updatedAtMs) as real, r.limit as real, r.windowSec as real);
  }

  lemma RateTimes(e: real, l: real, w: real)
    requires w > 0.0
    ensures (e / 1000.0) * (l / w) == e * (l / (1000.0 * w))
  {
    var q := l / (1000.0 * w);
    assert q * (1000.0 * w) == l;
    assert l / w == 1000.0 * q by {
      assert (1000.0 * q) * w == l;
    }
  }

  lemma RateIsPositive(r: Limit)
    requires LimitOk(r)
    ensures Rate(r) > 0.0
  {}

  /** Tokens at a later moment, from the tokens at an earlier one. */
  lemma AvailableLater(b: Bucket, r: Limit, now: int, later: int)
    requires LimitOk(r) && b.updatedAtMs <= now <= later && b.tokens <= r.limit as real
    ensures Available(b, r, later) == Min(r.limit as real, Available(b, r, now) + ((later - now) as real) * Rate(r))
    ensures Available(b, r, now) <= Available(b, r, later)
    ensures b.tokens <= Available(b, r, now) <= r.limit as real
  {
    RefillIsRate(b, r, now);
    RefillIsRate(b, r, later);
    RateIsPositive(r);
    var rate := Rate(r);
    var e1, e2 := (now - b.updatedAtMs) as real, (later - now) as real;
    assert (later - b.updatedAtMs) as real == e1 + e2;
    assert (e1 + e2) * rate == e1 * rate + e2 * rate;
    assert e1 * rate >= 0.0 && e2 * rate >= 0.0;
  }

  /** The tokens a script run finds: its verdict depends on nothing else. */
  function Tokens(b: Option<Bucket>, r: Limit, now: int): real
    requires LimitOk(r)
  {
    Available(Loaded(b, r, now), r, now)
  }

  lemma ConsumeKeeps(b: Option<Bucket>, r: Limit, now: int)
    requires LimitOk(r) && BucketOk(b, r, now)
    ensures BucketOk(Some(Consume(b, r, now).1), r, now)
    ensures Tokens(b, r, now) <= r.limit as real
  {
    AvailableLater(Loaded(b, r, now), r, now, now);
  }

  // ------------------------------------------------------------ runs

  /** The bucket after hits at `times`. */
  function After(b: Option<Bucket>, r: Limit, times: seq<int>): Option<Bucket>
    requires LimitOk(r)
    decreases |times|
  {
    if times == [] then b else After(Some(Consume(b, r, times[0]).1), r, times[1..])
  }

  function Verdicts(b: Option<Bucket>, r: Limit, times: seq<int>): seq<Verdict>
    requires LimitOk(r)
    decreases |times|
  {
    if times == [] then []
    else [Consume(b, r, times[0]).0] + Verdicts(Some(Consume(b, r, times[0]).1), r, times[1..])
  }

  function AdmittedIn(vs: seq<Verdict>): nat {
    if vs == [] then 0 else (if vs[0].Admitted? then 1 else 0) + AdmittedIn(vs[1..])
  }

  lemma MonotoneTail(times: seq<int>)
    requires times != [] && Monotone(times)
    ensures Monotone(times[1..])
            && (times[1..] != [] ==> times[0] <= times[1..][0] && times[1..][|times| - 2] == times[|times| - 1])
  {
    assert forall i :: 0 <= i < |times[1..]| ==> times[1..][i] == times[i + 1];
  }

  /** The refill of a stretch of time. */
  function Refill(r: Limit, start: int, end: int): real
    requires LimitOk(r)
  {
    ((end - start) as real) * Rate(r)
  }

  lemma RefillAdds(r: Limit, start: int, middle: int, end: int)
    requires LimitOk(r)
    ensures Refill(r, start, end) == Refill(r, start, middle) + Refill(r, middle, end)
  {
    var x, y := (middle - start) as real, (end - middle) as real;
    assert (end - start) as real == x + y;
    assert (x + y) * Rate(r) == x * Rate(r) + y * Rate(r);
  }

  function Hit(v: Verdict): real {
    if v.Admitted? then 1.0 else 0.0
  }

  /** One hit, and the refill up to a later moment. */
  lemma HitIsPaid(b: Option<Bucket>, r: Limit, now: int, later: int)
    requires LimitOk(r) && BucketOk(b, r, now) && now <= later
    ensures var (v, n) := Consume(b, r, now);
            Hit(v) + Tokens(Some(n), r, later) <= Tokens(b, r, now) + Refill(r, now, later)
  {
    var (v, n) := Consume(b, r, now);
    ConsumeKeeps(b, r, now);
    RefillIsRate(n, r, later);
  }

  lemma AdmittedUnfold(b: Option<Bucket>, r: Limit, times: seq<int>)
    requires LimitOk(r) && times != []
    ensures var (v, n) := Consume(b, r, times[0]);
            (AdmittedIn(Verdicts(b, r, times)) as real)
                == Hit(v) + (AdmittedIn(Verdicts(Some(n), r, times[1..])) as real)
  {
    assert Verdicts(b, r, times)[1..] == Verdicts(Some(Consume(b, r, times[0]).1), r, times[1..]);
  }

  /** Tokens are conserved: what was admitted came from the bucket or from the refill. */
  lemma {:induction false} AdmissionsArePaid(b: Option<Bucket>, r: Limit, times: seq<int>)
    requires LimitOk(r) && times != [] && Monotone(times) && BucketOk(b, r, times[0])
    ensures var last := times[|times| - 1];
            && BucketOk(After(b, r, times), r, last)
            && (AdmittedIn(Verdicts(b, r, times)) as real) + Tokens(After(b, r, times), r, last)
                 <= Tokens(b, r, times[0]) + Refill(r, times[0], last)
    decreases |times|
  {
    var n := Consume(b, r, times[0]).1;
    ConsumeKeeps(b, r, times[0]);
    MonotoneTail(times);
    AdmittedUnfold(b, r, times);
    if |times| == 1 {
      HitIsPaid(b, r, times[0], times[0]);
      assert times[1..] == [];
    } else {
      var t0, t1, last := times[0], times[1], times[|times| - 1];
      HitIsPaid(b, r, t0, t1);
      AdmissionsArePaid(Some(n), r, times[1..]);
      assert times[1..][0] == t1 && times[1..][|times| - 2] == last;
      RefillAdds(r, t0, t1, last);
    }
  }

  lemma {:induction false} AfterIsOk(b: Option<Bucket>, r: Limit, times: seq<int>, now: int)
    requires LimitOk(r) && Monotone(times) && (times != [] ==> BucketOk(b, r, times[0]) && times[|times| - 1] <= now)
    requires times == [] ==> BucketOk(b, r, now)
    ensures BucketOk(After(b, r, times), r, now)
  {
    if times != [] { AdmissionsArePaid(b, r, times); }
  }

  /** In every run on a fresh key, between any two moments at most `limit` hits plus the
      refill of that stretch are admitted. */
  lemma AdmissionsAreBounded(r: Limit, before: seq<int>, stretch: seq<int>)
    requires LimitOk(r) && stretch != [] && Monotone(before + stretch)
    ensures (AdmittedIn(Verdicts(After(None, r, before), r, stretch)) as real)
              <= (r.limit as real) + Refill(r, stretch[0], stretch[|stretch| - 1])
  {
    var all := before + stretch;
    assert forall i :: 0 <= i < |before| ==> before[i] == all[i];
    assert forall i :: 0 <= i < |stretch| ==> stretch[i] == all[|before| + i];
    AfterIsOk(None, r, before, stretch[0]);
    var b := After(None, r, before);
    AdmissionsArePaid(b, r, stretch);
    ConsumeKeeps(b, r, stretch[0]);
    var last := stretch[|stretch| - 1];
    var n := After(b, r, stretch);
    AvailableLater(Loaded(n, r, last), r, last, last);
  }

  // ------------------------------------------------------------ what does not matter

  /** Verdicts depend on the stored hash only through the tokens of the first hit. */
  lemma SameTokensSameVerdicts(b: Option<Bucket>, c: Option<Bucket>, r: Limit, times: seq<int>)
    requires LimitOk(r) && (times != [] ==> Tokens(b, r, times[0]) == Tokens(c, r, times[0]))
    ensures Verdicts(b, r, times) == Verdicts(c, r, times)
  {}

  /** Writing the bucket back on a refused poll changes no later verdict. */
  lemma RefusedPollsAreFree(b: Option<Bucket>, r: Limit, now: int, times: seq<int>)
    requires LimitOk(r) && BucketOk(b, r, now) && Consume(b, r, now).0.Refused?
    requires Monotone([now] + times)
    ensures Verdicts(Some(Consume(b, r, now).1), r, times) == Verdicts(b, r, times)
  {
    if times != [] {
      var all := [now] + times;
      assert all[0] <= all[1] == times[0];
      var later := times[0];
      var loaded := Loaded(b, r, now);
      AvailableLater(loaded, r, now, later);
      AvailableLater(Consume(b, r, now).1, r, now, later);
      RefillIsRate(Consume(b, r, now).1, r, now);
      assert b.Some?;
      SameTokensSameVerdicts(Some(Consume(b, r, now).1), b, r, times);
    }
  }

  lemma FullAfterWindow(b: Bucket, r: Limit, now: int)
    requires LimitOk(r) && 0.0 <= b.tokens && b.updatedAtMs <= now
    ensures now - b.updatedAtMs >= 1000 * r.windowSec ==> Available(b, r, now) == r.limit as real
    ensures b.tokens == 0.0 && now - b.updatedAtMs < 1000 * r.windowSec ==> Available(b, r, now) < r.limit as real
  {
    RefillIsRate(b, r, now);
    RateIsPositive(r);
    var e, w := (now - b.updatedAtMs) as real, 1000.0 * (r.windowSec as real);
    assert w * Rate(r) == r.limit as real;
    assert e >= w ==> e * Rate(r) >= w * Rate(r);
    assert e < w ==> e * Rate(r) < w * Rate(r);
  }

  /** `n` hits in one instant are all admitted exactly when there are `n` tokens. */
  lemma {:induction false} BurstNeedsTokens(b: Option<Bucket>, r: Limit, now: int, n: nat)
    requires LimitOk(r) && BucketOk(b, r, now)
    ensures AdmittedIn(Verdicts(b, r, seq(n, _ => now))) == n <==> n as real <= Tokens(b, r, now) || n == 0
    ensures AdmittedIn(Verdicts(b, r, seq(n, _ => now))) <= n
    decreases n
  {
    if n > 0 {
      var times := seq(n, _ => now);
      assert times[1..] == seq(n - 1, _ => now);
      var (v, next) := Consume(b, r, now);
      ConsumeKeeps(b, r, now);
      RefillIsRate(next, r, now);
      BurstNeedsTokens(Some(next), r, now, n - 1);
      assert Verdicts(b, r, times)[1..] == Verdicts(Some(next), r, times[1..]);
      AvailableLater(Loaded(b, r, now), r, now, now);
    }
  }

  /** Deleting an idle key changes no verdict of any run. */
  predicate Forgettable(b: Bucket, r: Limit, now: int, times: seq<int>)
    requires LimitOk(r)
  {
    Verdicts(None, r, times) == Verdicts(Some(b), r, times)
  }

  /** The idle time after which every bucket may be deleted is the window, to the
      millisecond; the script keeps its keys for two windows. */
  lemma DeletionIsInvisibleExactly(r: Limit, idleMs: nat)
    requires LimitOk(r)
    ensures (forall b: Bucket, now: int, times: seq<int> ::
               BucketOk(Some(b), r, now) && now - b.updatedAtMs == idleMs && Monotone([now] + times) ==>
                 Forgettable(b, r, now, times))
            <==> idleMs >= 1000 * r.windowSec
  {
    if idleMs >= 1000 * r.windowSec {
      forall b: Bucket, now: int, times: seq<int>
        | BucketOk(Some(b), r, now) && now - b.updatedAtMs == idleMs && Monotone([now] + times)
        ensures Forgettable(b, r, now, times)
      {
        IdleIsForgettable(b, r, now, times);
      }
    } else {
      EarlyDeletionShows(r, idleMs);
    }
  }

  lemma IdleIsForgettable(b: Bucket, r: Limit, now: int, times: seq<int>)
    requires LimitOk(r) && BucketOk(Some(b), r, now) && now - b.updatedAtMs >= 1000 * r.windowSec
            && Monotone([now] + times)
    ensures Forgettable(b, r, now, times)
  {
    if times != [] {
      var all := [now] + times;
      assert all[0] <= all[1] == times[0];
      FullAfterWindow(b, r, times[0]);
      SameTokensSameVerdicts(None, Some(b), r, times);
    }
  }

  lemma EarlyDeletionShows(r: Limit, idleMs: nat)
    requires LimitOk(r) && idleMs < 1000 * r.windowSec
    ensures exists b: Bucket, now: int, times: seq<int> ::
              BucketOk(Some(b), r, now) && now - b.updatedAtMs == idleMs && Monotone([now] + times)
              && !Forgettable(b, r, now, times)
  {
    var b := Bucket(0.0, 0);
    var times := seq(r.limit, _ => idleMs as int);
    FullAfterWindow(b, r, idleMs);
    BurstNeedsTokens(None, r, idleMs, r.limit);
    BurstNeedsTokens(Some(b), r, idleMs, r.limit);
    assert !Forgettable(b, r, idleMs, times);
    assert Monotone([idleMs as int] + times);
  }

  // ------------------------------------------------------------ retry hint

  lemma CeilIsLeast(x: real, n: int)
    ensures x <= (Ceil(x) as real) < x + 1.0
    ensures n >= Ceil(x) <==> n as real >= x
  {}

  /** A refused caller that waits as told is admitted if nobody else consumes, and at no
      earlier whole second. */
  lemma RetryHintIsExact(b: Option<Bucket>, r: Limit, now: int, seconds: nat)
    requires LimitOk(r) && BucketOk(b, r, now) && Consume(b, r, now).0.Refused?
    ensures Consume(Some(Consume(b, r, now).1), r, now + 1000 * seconds).0.Admitted?
            <==> seconds >= Consume(b, r, now).0.retryAfterSec
  {
    var n := Consume(b, r, now).1;
    ConsumeKeeps(b, r, now);
    RetryAfterIsLeast(n.tokens, r, seconds);
    OneTokenAfter(n, r, now, seconds);
  }

  lemma RetryAfterIsLeast(tokens: real, r: Limit, seconds: nat)
    requires LimitOk(r) && tokens < 1.0
    ensures seconds >= RetryAfter(tokens, r)
            <==> tokens + (seconds as real) * ((r.limit as real) / (r.windowSec as real)) >= 1.0
  {
    var l, w := r.limit as real, r.windowSec as real;
    var wait := (1.0 - tokens) * (w / l);
    WaitArithmetic(tokens, l, w, seconds as real);
    CeilIsLeast(wait, seconds);
    CeilIsLeast(wait, 0);
  }

  lemma OneTokenAfter(n: Bucket, r: Limit, now: int, seconds: nat)
    requires LimitOk(r) && n.updatedAtMs == now
    ensures Available(n, r, now + 1000 * seconds) >= 1.0
            <==> n.tokens + (seconds as real) * ((r.limit as real) / (r.windowSec as real)) >= 1.0
  {
    RefillIsRate(n, r, now + 1000 * seconds);
    assert (1000 * seconds) as real == 1000.0 * (seconds as real);
    SecondsTimesRate(seconds as real, r.limit as real, r.windowSec as real);
  }

  lemma SecondsTimesRate(s: real, l: real, w: real)
    requires w > 0.0
    ensures (1000.0 * s) * (l / (1000.0 * w)) == s * (l / w)
  {
    RateTimes(1000.0 * s, l, w);
  }

  lemma WaitArithmetic(tokens: real, l: real, w: real, s: real)
    requires l > 0.0 && w > 0.0 && tokens < 1.0
    ensures s >= (1.0 - tokens) * (w / l) <==> tokens + s * (l / w) >= 1.0
    ensures (1.0 - tokens) * (w / l) > 0.0
  {
    var up, down := l / w, w / l;
    assert up * w == l && down * l == w;
    assert up * down == 1.0 by {
      assert (up * down) * l == up * (down * l) == l;
    }
    assert up > 0.0 && down > 0.0;
    var x := 1.0 - tokens;
    assert x * down > 0.0;
    if s >= x * down {
      assert s * up >= (x * down) * up;
      assert (x * down) * up == x * (down * up);
    } else {
      assert s * up < (x * down) * up;
      assert (x * down) * up == x * (down * up);
    }
  }

  // ------------------------------------------------------------ the store

  datatype Kept = Kept(bucket: Bucket, expireAtMs: int)

  /** `createRedisRateLimitStore`: the script over the server's keys, which the server
      may drop from their deadline on. */
  class RedisRateLimitStore {
    var keys: map<string, Kept>

    constructor ()
      ensures keys == map[]
    {
      keys := map[];
    }

    ghost function Stored(key: string): Option<Bucket>
      reads this
    {
      if key in keys then Some(keys[key].bucket) else None
    }

    /** Keys live for two windows after their last write. */
    ghost predicate Valid(key: string, r: Limit, now: int)
      reads this
    {
      && LimitOk(r) && BucketOk(Stored(key), r, now)
      && (key in keys ==> keys[key].expireAtMs == keys[key].bucket.updatedAtMs + 2000 * r.windowSec)
    }

    method Drop(key: string, now: int)
      requires key in keys && keys[key].expireAtMs <= now
      modifies this
      ensures keys == old(keys) - {key}
    {
      keys := keys - {key};
    }

    /** Whether or not the server drops the key at its deadline, the verdict and the new
        bucket are those of a key that never expires. */
    method TryConsume(key: string, r: Limit, now: int, drop: bool) returns (v: Verdict)
      requires Valid(key, r, now)
      modifies this
      ensures v == Consume(old(Stored(key)), r, now).0
      ensures Stored(key) == Some(Consume(old(Stored(key)), r, now).1)
      ensures Valid(key, r, now)
      ensures forall k :: k != key ==> Stored(k) == old(Stored(k))
    {
      ghost var before := Stored(key);
      if drop && key in keys && keys[key].expireAtMs <= now {
        FullAfterWindow(keys[key].bucket, r, now);
        Drop(key, now);
      }
      assert Tokens(Stored(key), r, now) == Tokens(before, r, now);
      var data := if key in keys then Some(keys[key].bucket) else None;
      var tokens := Available(Loaded(data, r, now), r, now);
      ConsumeKeeps(before, r, now);
      if tokens < 1.0 {
        keys := keys[key := Kept(Bucket(tokens, now), now + 2000 * r.windowSec)];
        return Refused(RetryAfter(tokens, r));
      }
      keys := keys[key := Kept(Bucket(tokens - 1.0, now), now + 2000 * r.windowSec)];
      return Admitted;
    }
  }
}
