/** The per-identifier OTP send limiter (apps/api/src/auth/otp-send-guard.ts). */
module OtpLimiter {
  // The same decision is made by `OTP_SEND_LUA` of apps/api/src/stores/redis.ts: a log of send times
  // in a sliding window, with a cooldown, kept under a key that may expire.

  import opened Times

  /** Milliseconds; the guard takes them from its policy in whole seconds. */
  datatype Policy = Policy(cooldownMs: nat, windowMs: nat, maxSends: nat)

  datatype Decision = Allowed | Denied(retryAfterSeconds: int)

  /** `Math.ceil(ms / 1000)` */
  function CeilSeconds(ms: int): int {
    (ms + 999) / 1000
  }

  /** The entries still in the window that ends at `now`. */
  function Recent(history: seq<int>, p: Policy, now: int): seq<int> {
    if history == [] then []
    else
      var rest := Recent(history[..|history| - 1], p, now);
      if history[|history| - 1] > now - p.windowMs then rest + [history[|history| - 1]] else rest
  }

  /** `applyOtpSendAttempt`: the decision, and the history that is stored after it. */
  function Attempt(history: seq<int>, p: Policy, now: int): (Decision, seq<int>) {
    var recent := Recent(history, p, now);
    if recent != [] && now < recent[|recent| - 1] + p.cooldownMs then
      (Denied(CeilSeconds(recent[|recent| - 1] + p.cooldownMs - now)), history)
    else if |recent| >= p.maxSends then
      var oldest := if recent == [] then now else recent[0];
      var wait := CeilSeconds(oldest + p.windowMs - now);
      (Denied(if wait < 1 then 1 else wait), history)
    else (Allowed, recent + [now])
  }

  // ------------------------------------------------------------ runs

  datatype Log = Log(history: seq<int>, sends: seq<int>)

  /** One attempt at `now`; `sends` remembers every allowed send for good. */
  function Send(l: Log, p: Policy, now: int): Log {
    var (d, h) := Attempt(l.history, p, now);
    Log(h, if d.Allowed? then l.sends + [now] else l.sends)
  }

  function SendAll(l: Log, p: Policy, times: seq<int>): Log
    decreases |times|
  {
    if times == [] then l else SendAll(Send(l, p, times[0]), p, times[1..])
  }

  /** The stored history is the tail of all sends: what was forgotten is older than the
      window of every later attempt. */
  ghost predicate LogOk(l: Log, p: Policy, now: int) {
    && |l.history| <= |l.sends|
    && l.history == l.sends[|l.sends| - |l.history|..]
    && (forall i :: 0 <= i < |l.sends| - |l.history| ==> l.sends[i] <= now - p.windowMs)
    && Monotone(l.sends)
    && (forall i :: 0 <= i < |l.sends| ==> l.sends[i] <= now)
    && |l.history| <= p.maxSends
  }

  /** Any two sends in order are a cooldown apart, unless the earlier one had already
      left the window; any `maxSends + 1` sends in order span a whole window. */
  ghost predicate Spaced(sends: seq<int>, p: Policy) {
    && (forall i, j :: 0 <= i < j < |sends| ==>
        sends[j] - sends[i] >= p.cooldownMs || sends[j] - sends[i] >= p.windowMs)
    && (forall i :: 0 <= i < |sends| - p.maxSends ==> sends[i + p.maxSends] - sends[i] >= p.windowMs)
  }

  /** In a sorted history the window keeps a suffix. */
  lemma {:induction false} RecentIsSuffix(history: seq<int>, p: Policy, now: int) returns (k: nat)
    requires Monotone(history)
    ensures k <= |history| && Recent(history, p, now) == history[k..]
    ensures forall i :: 0 <= i < k ==> history[i] <= now - p.windowMs
    ensures forall i :: k <= i < |history| ==> history[i] > now - p.windowMs
  {
    if history == [] {
      k := 0;
    } else {
      var n := |history| - 1;
      var before := history[..n];
      k := RecentIsSuffix(before, p, now);
      assert forall i :: 0 <= i < n ==> before[i] == history[i];
      if history[n] > now - p.windowMs {
        assert history[k..] == before[k..] + [history[n]];
      } else {
        assert forall i :: 0 <= i < n ==> history[i] <= history[n];
        assert Recent(before, p, now) == history[n + 1..];
        k := n + 1;
      }
    }
  }

  /** The window of an attempt is a suffix of all sends. */
  lemma RecentOfLog(l: Log, p: Policy, before: int, now: int) returns (s: nat)
    requires LogOk(l, p, before) && before <= now
    ensures s <= |l.sends| && Recent(l.history, p, now) == l.sends[s..]
    ensures forall i :: 0 <= i < s ==> l.sends[i] <= now - p.windowMs
    ensures forall i :: s <= i < |l.sends| ==> l.sends[i] > now - p.windowMs
    ensures |l.sends| - s <= p.maxSends
  {
    var dropped := |l.sends| - |l.history|;
    assert forall i, j :: 0 <= i <= j < |l.history| ==>
           l.history[i] == l.sends[dropped + i] && l.history[j] == l.sends[dropped + j];
    var k := RecentIsSuffix(l.history, p, now);
    s := dropped + k;
    SuffixOfSuffix(l.sends, l.history, dropped, k, now - p.windowMs);
  }

  lemma SuffixOfSuffix(sends: seq<int>, history: seq<int>, dropped: nat, k: nat, bound: int)
    requires dropped <= |sends| && history == sends[dropped..] && k <= |history|
    requires forall i :: 0 <= i < dropped ==> sends[i] <= bound
    requires forall i :: 0 <= i < k ==> history[i] <= bound
    requires forall i :: k <= i < |history| ==> history[i] > bound
    ensures history[k..] == sends[dropped + k..]
    ensures forall i :: 0 <= i < dropped + k ==> sends[i] <= bound
    ensures forall i :: dropped + k <= i < |sends| ==> sends[i] > bound
  {
    forall i | dropped <= i < |sends| ensures if i < dropped + k then sends[i] <= bound else sends[i] > bound {
      assert sends[i] == history[i - dropped];
    }
  }

  lemma AllowedIsSpaced(sends: seq<int>, p: Policy, now: int, s: nat)
    requires s <= |sends| && |sends| - s < p.maxSends
    requires Monotone(sends) && (forall i :: 0 <= i < |sends| ==> sends[i] <= now)
    requires forall i :: 0 <= i < s ==> sends[i] <= now - p.windowMs
    requires s < |sends| ==> now >= sends[|sends| - 1] + p.cooldownMs
    requires Spaced(sends, p)
    ensures Spaced(sends + [now], p) && Monotone(sends + [now])
  {
    var m := sends + [now];
    forall i, j | 0 <= i < j < |m| ensures m[j] - m[i] >= p.cooldownMs || m[j] - m[i] >= p.windowMs {
      if j == |sends| && i >= s { assert sends[i] <= sends[|sends| - 1]; }
    }
    forall i | 0 <= i < |m| - p.maxSends ensures m[i + p.maxSends] - m[i] >= p.windowMs {
      if i + p.maxSends < |sends| { assert sends[i + p.maxSends] - sends[i] >= p.windowMs; }
    }
  }

  lemma LogAfterAllowed(sends: seq<int>, p: Policy, now: int, s: nat)
    requires s <= |sends| && |sends| - s < p.maxSends
    requires Monotone(sends + [now]) && (forall i :: 0 <= i < |sends| ==> sends[i] <= now)
    requires forall i :: 0 <= i < s ==> sends[i] <= now - p.windowMs
    ensures LogOk(Log(sends[s..] + [now], sends + [now]), p, now)
  {
    assert sends[s..] + [now] == (sends + [now])[s..];
  }

  lemma LogStaysOk(l: Log, p: Policy, before: int, now: int)
    requires LogOk(l, p, before) && before <= now
    ensures LogOk(l, p, now)
  {}

  lemma SendKeeps(l: Log, p: Policy, before: int, now: int)
    requires LogOk(l, p, before) && Spaced(l.sends, p) && before <= now
    ensures LogOk(Send(l, p, now), p, now) && Spaced(Send(l, p, now).sends, p)
  {
    var s := RecentOfLog(l, p, before, now);
    var (d, h) := Attempt(l.history, p, now);
    if d.Allowed? {
      assert h == l.sends[s..] + [now] && |l.sends[s..]| < p.maxSends;
      assert s < |l.sends| ==> l.sends[s..][|l.sends| - s - 1] == l.sends[|l.sends| - 1];
      AllowedIsSpaced(l.sends, p, now, s);
      LogAfterAllowed(l.sends, p, now, s);
      assert Send(l, p, now) == Log(l.sends[s..] + [now], l.sends + [now]);
    } else {
      LogStaysOk(l, p, before, now);
    }
  }

  lemma {:induction false} SendAllKeeps(l: Log, p: Policy, before: int, times: seq<int>)
    requires LogOk(l, p, before) && Spaced(l.sends, p)
    requires Monotone(times) && (times != [] ==> before <= times[0])
    ensures var n := if times == [] then before else times[|times| - 1];
            LogOk(SendAll(l, p, times), p, n) && Spaced(SendAll(l, p, times).sends, p)
    decreases |times|
  {
    if times != [] {
      SendKeeps(l, p, before, times[0]);
      assert forall i :: 0 <= i < |times[1..]| ==> times[1..][i] == times[i + 1];
      SendAllKeeps(Send(l, p, times[0]), p, times[0], times[1..]);
    }
  }

  const NEW: Log := Log([], [])

  /** Any two sends are at least the cooldown apart (or a whole window, when that is
      shorter), and no window holds more than `maxSends` of them. */
  ghost predicate WithinLimits(sends: seq<int>, p: Policy) {
    && (forall i, j :: 0 <= i < j < |sends| ==>
          sends[j] - sends[i] >= (if p.cooldownMs <= p.windowMs then p.cooldownMs else p.windowMs))
    && (forall i :: 0 <= i < |sends| - p.maxSends ==> sends[i + p.maxSends] - sends[i] >= p.windowMs)
  }

  /** Over any run of attempts with a monotone clock the allowed sends keep the limits,
      although old entries are forgotten at every step. */
  lemma SendsAreSpaced(p: Policy, times: seq<int>)
    requires Monotone(times)
    ensures WithinLimits(SendAll(NEW, p, times).sends, p)
  {
    if times != [] { SendAllKeeps(NEW, p, times[0], times); }
  }

  ghost predicate CooldownApart(sends: seq<int>, p: Policy) {
    forall i, j :: 0 <= i < j < |sends| ==> sends[j] - sends[i] >= p.cooldownMs
  }

  /** The cooldown separates all sends of every run exactly when it is no longer than the window
      (or nothing is ever allowed): a longer one is forgotten with the send that started it. */
  lemma CooldownSpacesExactly(p: Policy)
    ensures (forall times :: Monotone(times) ==> CooldownApart(SendAll(NEW, p, times).sends, p))
            <==> p.cooldownMs <= p.windowMs || p.maxSends == 0
  {
    if p.cooldownMs <= p.windowMs || p.maxSends == 0 {
      forall times | Monotone(times) ensures CooldownApart(SendAll(NEW, p, times).sends, p) {
        SendsAreSpaced(p, times);
        if p.maxSends == 0 { NothingIsAllowed(NEW, p, times); }
      }
    } else {
      LongCooldownIsForgotten(p);
    }
  }

  lemma {:induction false} NothingIsAllowed(l: Log, p: Policy, times: seq<int>)
    requires p.maxSends == 0 && l.sends == []
    ensures SendAll(l, p, times).sends == []
    decreases |times|
  {
    if times != [] { NothingIsAllowed(Send(l, p, times[0]), p, times[1..]); }
  }

  lemma FirstSend(p: Policy)
    requires p.maxSends > 0
    ensures Send(NEW, p, 0) == Log([0], [0])
  {}

  lemma SendAfterWindow(p: Policy)
    requires p.maxSends > 0
    ensures Send(Log([0], [0]), p, p.windowMs) == Log([p.windowMs as int], [0, p.windowMs])
  {
    assert [0][..0] == [] && Recent([0], p, p.windowMs) == [];
  }

  lemma TwoSends(l: Log, p: Policy, first: int, second: int)
    ensures SendAll(l, p, [first, second]) == Send(Send(l, p, first), p, second)
  {
    assert [first, second][1..] == [second] && [second][1..] == [];
    var one := Send(l, p, first);
    assert SendAll(one, p, [second]) == SendAll(Send(one, p, second), p, []);
  }

  lemma LongCooldownIsForgotten(p: Policy)
    requires p.cooldownMs > p.windowMs && p.maxSends > 0
    ensures exists times :: Monotone(times) && !CooldownApart(SendAll(NEW, p, times).sends, p)
  {
    FirstSend(p);
    SendAfterWindow(p);
    TwoSends(NEW, p, 0, p.windowMs);
    var times: seq<int> := [0, p.windowMs];
    var sends := SendAll(NEW, p, times).sends;
    assert sends[1] - sends[0] < p.cooldownMs;
    assert Monotone(times) && !CooldownApart(sends, p);
  }

  // ------------------------------------------------------------ retry hints

  /** What the limiter answers `seconds` later when nobody has sent in between. */
  function Later(l: Log, p: Policy, now: int, seconds: int): Decision {
    Attempt(l.history, p, now + 1000 * seconds).0
  }

  predicate CooldownHoldsIn(recent: seq<int>, p: Policy, now: int) {
    recent != [] && now < recent[|recent| - 1] + p.cooldownMs
  }

  predicate CooldownHolds(l: Log, p: Policy, now: int) {
    CooldownHoldsIn(Recent(l.history, p, now), p, now)
  }

  lemma CeilBounds(ms: int)
    ensures ms <= 1000 * CeilSeconds(ms) < ms + 1000
  {}

  /** A caller stopped by the cap is let in after its hint, and at no whole second before. */
  lemma CapHintIsExact(l: Log, p: Policy, now: int, seconds: int)
    requires LogOk(l, p, now) && p.maxSends > 0
    requires Attempt(l.history, p, now).0.Denied? && !CooldownHolds(l, p, now)
    requires 0 <= seconds <= Attempt(l.history, p, now).0.retryAfterSeconds
    ensures Later(l, p, now, seconds).Allowed? <==> seconds == Attempt(l.history, p, now).0.retryAfterSeconds
  {
    var s := CapFacts(l, p, now);
    var s' := RecentOfLog(l, p, now, now + 1000 * seconds);
    DecideByWindow(l.history, p, now + 1000 * seconds, l.sends[s'..]);
    WindowAfterWaiting(l.sends, p, now, seconds, s, s', Attempt(l.history, p, now).0.retryAfterSeconds);
  }

  /** What a denial by the cap says about the sends: the window is full, its oldest send
      sets the hint, and the cooldown of its last one is over. */
  lemma CapFacts(l: Log, p: Policy, now: int) returns (s: nat)
    requires LogOk(l, p, now) && p.maxSends > 0
    requires Attempt(l.history, p, now).0.Denied? && !CooldownHolds(l, p, now)
    ensures s < |l.sends| && |l.sends| - s == p.maxSends
    ensures now >= l.sends[|l.sends| - 1] + p.cooldownMs && l.sends[s] > now - p.windowMs
    ensures forall i :: 0 <= i < s ==> l.sends[i] <= now - p.windowMs
    ensures Attempt(l.history, p, now).0.retryAfterSeconds
              == (var w := CeilSeconds(l.sends[s] + p.windowMs - now); if w < 1 then 1 else w)
  {
    s := RecentOfLog(l, p, now, now);
    DecideByWindow(l.history, p, now, l.sends[s..]);
  }

  lemma WindowAfterWaiting(sends: seq<int>, p: Policy, now: int, seconds: int, s: nat, s': nat, wait: int)
    requires s < |sends| && s' <= |sends| && |sends| - s == p.maxSends
    requires now >= sends[|sends| - 1] + p.cooldownMs && 0 <= seconds <= wait
    requires wait == (var w := CeilSeconds(sends[s] + p.windowMs - now); if w < 1 then 1 else w)
    requires sends[s] > now - p.windowMs
    requires forall i :: 0 <= i < s' ==> sends[i] <= now + 1000 * seconds - p.windowMs
    requires forall i :: s' <= i < |sends| ==> sends[i] > now + 1000 * seconds - p.windowMs
    requires forall i :: 0 <= i < s ==> sends[i] <= now - p.windowMs
    requires Monotone(sends)
    ensures var second := sends[s'..];
            (second == [] || now + 1000 * seconds >= second[|second| - 1] + p.cooldownMs) && |second| < p.maxSends
            <==> seconds == wait
  {
    CeilBounds(sends[s] + p.windowMs - now);
    if seconds == wait {
      assert sends[s] <= now + 1000 * seconds - p.windowMs;
      assert s < s';
    } else {
      assert sends[s] > now + 1000 * seconds - p.windowMs;
      assert s' <= s;
    }
  }

  /** The decision as a function of the window alone. */
  lemma DecideByWindow(history: seq<int>, p: Policy, now: int, recent: seq<int>)
    requires Recent(history, p, now) == recent && p.maxSends > 0
    ensures var d := Attempt(history, p, now).0;
            && (d.Allowed? <==> (recent == [] || now >= recent[|recent| - 1] + p.cooldownMs) && |recent| < p.maxSends)
            && (d.Denied? && !CooldownHoldsIn(recent, p, now) ==>
                  recent != [] && |recent| >= p.maxSends
                  && d.retryAfterSeconds
                      == (var wait := CeilSeconds(recent[0] + p.windowMs - now); if wait < 1 then 1 else wait))
  {}

  /** A denial by the cooldown: it holds until the cooldown of the last send is over, or
      that send has left the window, and the hint is for the former. */
  lemma CooldownHoldsUntil(l: Log, p: Policy, now: int, later: int)
    requires LogOk(l, p, now) && now <= later
    requires Attempt(l.history, p, now).0.Denied? && CooldownHolds(l, p, now)
    ensures l.sends != []
    ensures var last := l.sends[|l.sends| - 1];
            && last <= now < last + p.windowMs && now < last + p.cooldownMs
            && Attempt(l.history, p, now).0.retryAfterSeconds == CeilSeconds(last + p.cooldownMs - now)
            && (CooldownHolds(l, p, later) <==> later < last + p.cooldownMs && later < last + p.windowMs)
  {
    var s := RecentOfLog(l, p, now, now);
    var s' := RecentOfLog(l, p, now, later);
    var last := l.sends[|l.sends| - 1];
    assert l.sends[s..][|l.sends[s..]| - 1] == last;
    assert s' < |l.sends| ==> l.sends[s'..][|l.sends[s'..]| - 1] == last;
  }

  ghost predicate StoppedByCooldown(l: Log, p: Policy, now: int) {
    Attempt(l.history, p, now).0.Denied? && CooldownHolds(l, p, now)
  }

  function HintOf(d: Decision): int {
    if d.Denied? then d.retryAfterSeconds else 0
  }

  /** The cooldown is over after `hint` seconds, and holds at every whole second before. */
  ghost predicate EndsExactlyAfter(l: Log, p: Policy, now: int, hint: int) {
    forall seconds :: 0 <= seconds <= hint ==> (CooldownHolds(l, p, now + 1000 * seconds) <==> seconds < hint)
  }

  ghost predicate HintHolds(l: Log, p: Policy, now: int) {
    EndsExactlyAfter(l, p, now, HintOf(Attempt(l.history, p, now).0))
  }

  /** A caller stopped by the cooldown is told exactly when it ends, if and only if the
      last whole second before that still has the last send in its window. */
  lemma CooldownHintIsExact(l: Log, p: Policy, now: int)
    requires LogOk(l, p, now) && StoppedByCooldown(l, p, now)
    ensures l.sends != []
    ensures HintHolds(l, p, now) <==>
              now + 1000 * (HintOf(Attempt(l.history, p, now).0) - 1) < l.sends[|l.sends| - 1] + p.windowMs
  {
    CooldownHoldsUntil(l, p, now, now);
    var last := l.sends[|l.sends| - 1];
    CeilBounds(last + p.cooldownMs - now);
    forall later: int | now <= later
      ensures CooldownHolds(l, p, later) <==> later < last + p.cooldownMs && later < last + p.windowMs
    {
      CooldownHoldsUntil(l, p, now, later);
    }
    EndsByWindow(l, p, now, HintOf(Attempt(l.history, p, now).0), last);
  }

  lemma EndsByWindow(l: Log, p: Policy, now: int, hint: int, last: int)
    requires hint >= 1 && now + 1000 * (hint - 1) < last + p.cooldownMs <= now + 1000 * hint
    requires forall later: int :: now <= later ==>
               (CooldownHolds(l, p, later) <==> later < last + p.cooldownMs && later < last + p.windowMs)
    ensures EndsExactlyAfter(l, p, now, hint) <==> now + 1000 * (hint - 1) < last + p.windowMs
  {
    if EndsExactlyAfter(l, p, now, hint) {
      assert CooldownHolds(l, p, now + 1000 * (hint - 1));
    }
  }

  /** All cooldown hints of the policy's runs are exact. */
  ghost predicate HintsHold(p: Policy) {
    forall times: seq<int>, now: int :: UpTo(times, now) && StoppedByCooldown(SendAll(NEW, p, times), p, now) ==>
      HintHolds(SendAll(NEW, p, times), p, now)
  }

  predicate UpTo(times: seq<int>, now: int) {
    Monotone(times) && (times != [] ==> times[|times| - 1] <= now)
  }

  /** The hints of a policy are exact if and only if its cooldown is no longer than its
      window, or than the one second that every hint takes, or never comes up. */
  lemma CooldownHintsExactly(p: Policy)
    ensures HintsHold(p) <==>
              p.cooldownMs <= p.windowMs || p.cooldownMs <= 1000 || p.windowMs == 0 || p.maxSends == 0
  {
    if p.cooldownMs <= p.windowMs || p.cooldownMs <= 1000 || p.windowMs == 0 || p.maxSends == 0 {
      forall times: seq<int>, now: int | UpTo(times, now) && StoppedByCooldown(SendAll(NEW, p, times), p, now)
        ensures HintHolds(SendAll(NEW, p, times), p, now)
      {
        ReachedLog(p, times, now);
        if p.maxSends == 0 { NothingIsAllowed(NEW, p, times); }
        ShortCooldownHint(SendAll(NEW, p, times), p, now);
      }
    } else {
      LongCooldownMisleads(p);
    }
  }

  lemma ReachedLog(p: Policy, times: seq<int>, now: int)
    requires UpTo(times, now)
    ensures LogOk(SendAll(NEW, p, times), p, now)
  {
    if times != [] {
      SendAllKeeps(NEW, p, times[0], times);
      LogStaysOk(SendAll(NEW, p, times), p, times[|times| - 1], now);
    }
  }

  lemma ShortCooldownHint(l: Log, p: Policy, now: int)
    requires p.cooldownMs <= p.windowMs || p.cooldownMs <= 1000 || p.windowMs == 0 || l.sends == []
    requires LogOk(l, p, now) && StoppedByCooldown(l, p, now)
    ensures HintHolds(l, p, now)
  {
    CooldownHoldsUntil(l, p, now, now);
    CooldownHintIsExact(l, p, now);
    CeilBounds(l.sends[|l.sends| - 1] + p.cooldownMs - now);
  }

  /** One send at 0, and an attempt in the window whose distance to the end of the
      cooldown is one millisecond more than whole seconds. */
  lemma LongCooldownMisleads(p: Policy)
    requires p.cooldownMs > p.windowMs > 0 && p.cooldownMs > 1000 && p.maxSends > 0
    ensures !HintsHold(p)
  {
    var now := if p.windowMs >= 1000 then (p.cooldownMs - 1) % 1000 else 0;
    var times: seq<int> := [0];
    OneSend(p, times);
    ReachedLog(p, times, now);
    MisleadAfterOne(p, now);
  }

  lemma OneSend(p: Policy, times: seq<int>)
    requires p.maxSends > 0 && times == [0]
    ensures SendAll(NEW, p, times) == Log([0], [0])
  {
    FirstSend(p);
    assert times[1..] == [];
    assert SendAll(Send(NEW, p, 0), p, times[1..]) == Send(NEW, p, 0);
  }

  lemma MisleadAfterOne(p: Policy, now: int)
    requires p.cooldownMs > p.windowMs > 0 && p.cooldownMs > 1000 && LogOk(Log([0], [0]), p, now)
    requires now == if p.windowMs >= 1000 then (p.cooldownMs - 1) % 1000 else 0
    ensures StoppedByCooldown(Log([0], [0]), p, now) && !HintHolds(Log([0], [0]), p, now)
  {
    assert [0][..0] == [] && Recent([0], p, now) == [0];
    CooldownHintIsExact(Log([0], [0]), p, now);
    LastSecond(p.cooldownMs, now);
  }

  lemma LastSecond(cooldown: nat, now: int)
    requires cooldown > 1000 && (now == 0 || now == (cooldown - 1) % 1000)
    ensures now == (cooldown - 1) % 1000 ==> now + 1000 * (CeilSeconds(cooldown - now) - 1) == cooldown - 1
    ensures now == 0 ==> CeilSeconds(cooldown - now) >= 2
  {}

  /** A hint is at least one second. */
  lemma HintIsPositive(l: Log, p: Policy, now: int)
    requires Attempt(l.history, p, now).0.Denied?
    ensures Attempt(l.history, p, now).0.retryAfterSeconds >= 1
  {}

  // ------------------------------------------------------------ expiry

  /** A key with a time to live: the server may have dropped it at `expireAt` or later,
      and must have dropped it once the clock is past `expireAt`. */
  datatype Kept = Kept(history: seq<int>, expireAt: int)

  function Surviving(k: Kept, now: int, dropAtDeadline: bool): seq<int> {
    if now > k.expireAt || (now == k.expireAt && dropAtDeadline) then [] else k.history
  }

  /** An attempt on the expiring store; only an allowed send writes, with a fresh TTL. */
  function AttemptKept(k: Kept, p: Policy, ttlMs: nat, now: int, dropAtDeadline: bool): (Decision, Kept) {
    var seen := Surviving(k, now, dropAtDeadline);
    var (d, h) := Attempt(seen, p, now);
    (d, if d.Allowed? then Kept(h, now + ttlMs) else k)
  }

  datatype Try = Try(now: int, dropAtDeadline: bool)

  function DecisionsKept(k: Kept, p: Policy, ttlMs: nat, tries: seq<Try>): seq<Decision>
    decreases |tries|
  {
    if tries == [] then []
    else
      var (d, n) := AttemptKept(k, p, ttlMs, tries[0].now, tries[0].dropAtDeadline);
      [d] + DecisionsKept(n, p, ttlMs, tries[1..])
  }

  function Decisions(history: seq<int>, p: Policy, tries: seq<Try>): seq<Decision>
    decreases |tries|
  {
    if tries == [] then []
    else
      var (d, h) := Attempt(history, p, tries[0].now);
      [d] + Decisions(h, p, tries[1..])
  }

  /** The expiring key holds the same window as the one that never expires. */
  ghost predicate SameWindow(k: Kept, history: seq<int>, p: Policy, now: int) {
    && Monotone(history)
    && (k.history == history || (k.history == [] && forall i :: 0 <= i < |history| ==> history[i] <= now - p.windowMs))
    && (forall i :: 0 <= i < |history| ==> history[i] + p.windowMs <= k.expireAt)
  }

  lemma OldHistoryIsNoHistory(history: seq<int>, p: Policy, now: int)
    requires forall i :: 0 <= i < |history| ==> history[i] <= now - p.windowMs
    ensures Recent(history, p, now) == []
  {
    if history != [] { OldHistoryIsNoHistory(history[..|history| - 1], p, now); }
  }

  /** Dropping a history that is older than the window changes no decision. */
  lemma DroppedHistoryDecidesAlike(history: seq<int>, p: Policy, now: int)
    requires forall i :: 0 <= i < |history| ==> history[i] <= now - p.windowMs
    ensures Attempt([], p, now).0 == Attempt(history, p, now).0
    ensures Attempt(history, p, now).0.Allowed? ==> Attempt([], p, now).1 == Attempt(history, p, now).1 == [now]
  {
    OldHistoryIsNoHistory(history, p, now);
    assert Recent([], p, now) == [];
  }

  lemma AllowedHistory(history: seq<int>, p: Policy, now: int)
    requires Monotone(history) && (forall i :: 0 <= i < |history| ==> history[i] <= now)
    requires Attempt(history, p, now).0.Allowed?
    ensures var h := Attempt(history, p, now).1;
            Monotone(h) && forall i :: 0 <= i < |h| ==> h[i] <= now
  {
    var k := RecentIsSuffix(history, p, now);
    assert Attempt(history, p, now).1 == history[k..] + [now];
  }

  lemma AttemptsAgree(k: Kept, history: seq<int>, p: Policy, ttlMs: nat, before: int, t: Try)
    requires SameWindow(k, history, p, before) && before <= t.now && p.windowMs <= ttlMs
    requires forall i :: 0 <= i < |history| ==> history[i] <= before
    ensures var (d, n) := AttemptKept(k, p, ttlMs, t.now, t.dropAtDeadline);
            var (e, h) := Attempt(history, p, t.now);
            && d == e && SameWindow(n, h, p, t.now) && forall i :: 0 <= i < |h| ==> h[i] <= t.now
  {
    if Surviving(k, t.now, t.dropAtDeadline) != history {
      DroppedHistoryDecidesAlike(history, p, t.now);
    }
    if Attempt(history, p, t.now).0.Allowed? {
      AllowedHistory(history, p, t.now);
    }
  }

  lemma {:induction false} DecisionsAgree(k: Kept, history: seq<int>, p: Policy, ttlMs: nat, before: int,
      tries: seq<Try>)
    requires SameWindow(k, history, p, before) && p.windowMs <= ttlMs
    requires forall i :: 0 <= i < |history| ==> history[i] <= before
    requires forall i, j :: 0 <= i <= j < |tries| ==> before <= tries[i].now <= tries[j].now
    ensures DecisionsKept(k, p, ttlMs, tries) == Decisions(history, p, tries)
    decreases |tries|
  {
    if tries != [] {
      AttemptsAgree(k, history, p, ttlMs, before, tries[0]);
      var (d, n) := AttemptKept(k, p, ttlMs, tries[0].now, tries[0].dropAtDeadline);
      var (e, h) := Attempt(history, p, tries[0].now);
      DecisionsAgree(n, h, p, ttlMs, tries[0].now, tries[1..]);
    }
  }

  /** With a time to live of at least the window, expiry never shows: for every run, and
      whatever the server does at the deadline itself, all decisions are those of a
      store that keeps its keys for ever. */
  lemma ExpiryIsInvisible(p: Policy, ttlMs: nat, tries: seq<Try>)
    requires p.windowMs <= ttlMs
    requires forall i, j :: 0 <= i <= j < |tries| ==> tries[i].now <= tries[j].now
    ensures DecisionsKept(Kept([], 0), p, ttlMs, tries) == Decisions([], p, tries)
  {
    if tries != [] { DecisionsAgree(Kept([], 0), [], p, ttlMs, tries[0].now, tries); }
  }
}
