/** The shared limiter of backend/rate_limit.py: the script that Redis runs on a sorted set per key,
    against the plain rule and against the in-process limiter. The script's times are whole
    milliseconds, so its `Config` counts 1000 ticks to the second. */
module SharedLimiter {
  import opened Prelude
  import opened RateLimiter
  import opened LimiterRuns
  import opened LimiterTheorems

  /** A sorted set of scores with a time to live; each member is a fresh id, so scores may repeat. */
  datatype ZSet = ZSet(scores: seq<Time>, expireAt: Time)

  function Scores(z: Option<ZSet>): seq<Time> {
    if z.Some? then z.value.scores else []
  }

  /** ZREMRANGEBYSCORE -inf cutoff */
  function RemoveUpTo(scores: seq<Time>, cutoff: Time): seq<Time> {
    if scores == [] then []
    else if scores[0] <= cutoff then RemoveUpTo(scores[1..], cutoff)
    else [scores[0]] + RemoveUpTo(scores[1..], cutoff)
  }

  /** ZADD: the set stays ordered by score. */
  function Add(scores: seq<Time>, score: Time): seq<Time> {
    if scores == [] then [score]
    else if score < scores[0] then [score] + scores
    else [scores[0]] + Add(scores[1..], score)
  }

  /** `math.ceil(a / b)` */
  function Ceil(a: int, b: int): int
    requires b > 0
  {
    -((-a) / b)
  }

  function ScriptRetry(c: Config, oldest: Time, now: Time): int
    requires c.Valid()
  {
    var seconds := Ceil(oldest + c.window - now, c.second);
    if seconds < 1 then 1 else seconds
  }

  /** One evaluation of the script. `lost` says that Redis has dropped the key because its time to live
      has passed. */
  function Present(z: Option<ZSet>, now: Time, lost: bool): Option<ZSet> {
    if z.Some? && lost && z.value.expireAt <= now then None else z
  }

  function ExpireAt(z: Option<ZSet>, now: Time): Time {
    if z.Some? then z.value.expireAt else now
  }

  function Script(c: Config, z: Option<ZSet>, now: Time, consume: bool): (Option<ZSet>, Decision)
    requires c.Valid()
  {
    Decided(c, RemoveUpTo(Scores(z), now - c.window), ExpireAt(z, now), now, consume)
  }

  /** The rest of the script, once the scores outside the window are removed; an empty set is no key. */
  function Decided(c: Config, scores: seq<Time>, expireAt: Time, now: Time, consume: bool): (Option<ZSet>, Decision)
    requires c.Valid()
  {
    if |scores| >= c.maxEvents then
      (Some(ZSet(scores, now + c.window)), Refused(ScriptRetry(c, scores[0], now)))
    else if consume then
      (Some(ZSet(Add(scores, now), now + c.window)), Allowed)
    else
      (if scores == [] then None else Some(ZSet(scores, expireAt)), Allowed)
  }

  /** One key of Redis, changed in place by the script's commands. */
  class SharedWindow {
    const c: Config
    var z: Option<ZSet>

    constructor (c: Config)
      ensures this.c == c && z.None?
    {
      this.c := c;
      z := None;
    }

    method Evaluate(now: Time, consume: bool) returns (d: Decision)
      requires c.Valid()
      modifies this
      ensures (z, d) == Script(c, old(z), now, consume)
    {
      if z.Some? {
        var kept := RemoveUpTo(z.value.scores, now - c.window);
        z := if kept == [] then None else Some(z.value.(scores := kept));
      }
      var count := |Scores(z)|;
      if count >= c.maxEvents {
        var retryAfter := ScriptRetry(c, Scores(z)[0], now);
        z := Some(z.value.(expireAt := now + c.window));
        return Refused(retryAfter);
      }
      if consume {
        z := Some(ZSet(Add(Scores(z), now), now + c.window));
      }
      return Allowed;
    }
  }

  /** The sorted set of one key along a run of operations on all keys, and the log of what the script
      accepted for it. `DoReset` clears process memory only. */
  datatype KeyState = KeyState(z: Option<ZSet>, log: seq<Time>, clock: Time)

  function Called(c: Config, s: KeyState, now: Time, lost: bool, consume: bool): KeyState
    requires c.Valid()
  {
    var (z, d) := Script(c, Present(s.z, now, lost), now, consume);
    KeyState(z, if consume && d.Allowed? then s.log + [now] else s.log, now)
  }

  function KeyStep(c: Config, s: KeyState, key: Key, op: Op, lost: bool): KeyState
    requires c.Valid()
  {
    match op
    case DoCheck(k, now) => if k != key then s.(clock := now) else Called(c, s, now, lost, false)
    case DoRecord(k, now) => if k != key then s.(clock := now) else Called(c, s, now, lost, true)
    case DoClear(k) => if k != key then s else KeyState(None, [], s.clock)
    case DoReset => s
  }

  function KeyAfter(c: Config, key: Key, ops: seq<Op>, lost: seq<bool>): KeyState
    requires c.Valid() && |lost| == |ops|
  {
    if ops == [] then KeyState(None, [], 0)
    else KeyStep(c, KeyAfter(c, key, ops[..|ops| - 1], lost[..|ops| - 1]), key, ops[|ops| - 1], lost[|ops| - 1])
  }

  predicate InTimeOrder(c: Config, key: Key, ops: seq<Op>, lost: seq<bool>)
    requires c.Valid() && |lost| == |ops|
  {
    ops != [] ==>
      && InTimeOrder(c, key, ops[..|ops| - 1], lost[..|ops| - 1])
      && var op := ops[|ops| - 1];
         op.DoCheck? || op.DoRecord? ==> KeyAfter(c, key, ops[..|ops| - 1], lost[..|ops| - 1]).clock <= op.now
  }

  // -------------------------------------------------------------- invariant

  /** The scores count as the log does, and a set that expires holds nothing inside the window. */
  ghost predicate KeyStateOk(c: Config, s: KeyState) {
    && LogOk(c, s.log, s.clock)
    && EventsOk(c, Scores(s.z), s.log, s.clock)
    && ExpiresInTime(c, s.z)
  }

  predicate ExpiresInTime(c: Config, z: Option<ZSet>) {
    z.Some? ==> z.value.scores != [] && z.value.scores[|z.value.scores| - 1] <= z.value.expireAt - c.window
  }

  lemma {:induction false} RemovingIsPruning(scores: seq<Time>, cutoff: Time)
    requires Sorted(scores)
    ensures RemoveUpTo(scores, cutoff) == Live(scores, cutoff)
  {
    if scores != [] {
      RemovingIsPruning(scores[1..], cutoff);
      if scores[0] > cutoff && |scores| > 1 {
        assert Live(scores[1..], cutoff) == scores[1..];
      }
    }
  }

  lemma {:induction false} AddGoesLast(scores: seq<Time>, now: Time)
    requires Sorted(scores) && (scores != [] ==> scores[|scores| - 1] <= now)
    ensures Add(scores, now) == scores + [now]
  {
    if scores != [] {
      FirstIsLeast(scores, |scores| - 1);
      AddGoesLast(scores[1..], now);
    }
  }

  /** Losing an expired set costs nothing: everything in it is outside the window. */
  lemma ExpiryIsHarmless(c: Config, s: KeyState, now: Time, lost: bool)
    requires c.Valid() && KeyStateOk(c, s) && s.clock <= now
    ensures KeyStateOk(c, KeyState(Present(s.z, now, lost), s.log, now))
  {
    TimeKeepsEvents(c, Scores(s.z), s.log, s.clock, now);
    if Present(s.z, now, lost) != s.z {
      DropKeepsEvents(c, Scores(s.z), s.log, now);
    }
  }

  /** After removing, the script goes on with exactly the events the plain rule counts. */
  lemma ScriptDecidesOnLive(c: Config, s: KeyState, now: Time, consume: bool)
    requires c.Valid() && KeyStateOk(c, s) && s.clock == now
    ensures var live := Live(Scores(s.z), now - c.window);
            && Script(c, s.z, now, consume) == Decided(c, live, ExpireAt(s.z, now), now, consume)
            && EventsOk(c, live, s.log, now)
            && |live| == CountAfter(s.log, now - c.window)
            && (live != [] ==> now < live[0] + c.window && live[|live| - 1] <= ExpireAt(s.z, now) - c.window)
  {
    RemovingIsPruning(Scores(s.z), now - c.window);
    PruneKeepsEvents(c, Scores(s.z), s.log, now);
    LiveIsCounted(Scores(s.z), now - c.window, now - c.window);
  }

  lemma DecidedKeepsOk(c: Config, live: seq<Time>, expireAt: Time, log: seq<Time>, now: Time, consume: bool)
    requires c.Valid() && LogOk(c, log, now) && EventsOk(c, live, log, now)
    requires |live| == CountAfter(log, now - c.window)
    requires live != [] ==> live[|live| - 1] <= expireAt - c.window
    ensures var (z, d) := Decided(c, live, expireAt, now, consume);
            KeyStateOk(c, KeyState(z, if consume && d.Allowed? then log + [now] else log, now))
  {
    if |live| < c.maxEvents {
      AddGoesLast(live, now);
      AcceptKeepsEvents(c, live, log, now);
      AcceptKeepsLog(c, log, now, now);
    }
  }

  /** The script answers by the plain rule, keeps its invariant, and when it refuses it names the oldest
      event inside the window. */
  lemma CallFollowsThePlainRule(c: Config, s: KeyState, now: Time, lost: bool, consume: bool)
    requires c.Valid() && KeyStateOk(c, s) && s.clock <= now
    ensures var (z, d) := Script(c, Present(s.z, now, lost), now, consume);
            && (d.Allowed? <==> CountAfter(s.log, now - c.window) < c.maxEvents)
            && KeyStateOk(c, Called(c, s, now, lost, consume))
            && (d.Refused? ==> EventsOk(c, Scores(z), s.log, now) && |Scores(z)| == c.maxEvents
                               && now < Scores(z)[0] + c.window && d.retryAfter == ScriptRetry(c, Scores(z)[0], now))
  {
    ExpiryIsHarmless(c, s, now, lost);
    var t := KeyState(Present(s.z, now, lost), s.log, now);
    ScriptDecidesOnLive(c, t, now, consume);
    DecidedKeepsOk(c, Live(Scores(t.z), now - c.window), ExpireAt(t.z, now), s.log, now, consume);
  }

  /** The plain rule for the log of one key. */
  function PlainKeyStep(c: Config, log: seq<Time>, key: Key, op: Op): seq<Time> {
    match op
    case DoRecord(k, now) => if k == key && CountAfter(log, now - c.window) < c.maxEvents then log + [now] else log
    case DoClear(k) => if k == key then [] else log
    case _ => log
  }

  lemma ClockKeepsOk(c: Config, s: KeyState, now: Time)
    requires KeyStateOk(c, s) && s.clock <= now
    ensures KeyStateOk(c, s.(clock := now))
  {
    TimeKeepsEvents(c, Scores(s.z), s.log, s.clock, now);
  }

  lemma CalledFollowsThePlainRule(c: Config, s: KeyState, now: Time, lost: bool, consume: bool)
    requires c.Valid() && KeyStateOk(c, s) && s.clock <= now
    ensures KeyStateOk(c, Called(c, s, now, lost, consume))
    ensures Called(c, s, now, lost, consume).log
         == if consume && CountAfter(s.log, now - c.window) < c.maxEvents then s.log + [now] else s.log
  {
    CallFollowsThePlainRule(c, s, now, lost, consume);
  }

  /** Whether the operation is a call on the key. */
  predicate CallOn(op: Op, key: Key) {
    (op.DoCheck? || op.DoRecord?) && op.key == key
  }

  lemma OtherStepFollowsThePlainRule(c: Config, s: KeyState, key: Key, op: Op, lost: bool)
    requires c.Valid() && KeyStateOk(c, s) && !CallOn(op, key)
    requires op.DoCheck? || op.DoRecord? ==> s.clock <= op.now
    ensures KeyStateOk(c, KeyStep(c, s, key, op, lost))
    ensures KeyStep(c, s, key, op, lost).log == PlainKeyStep(c, s.log, key, op)
  {
    if op.DoCheck? || op.DoRecord? {
      ClockKeepsOk(c, s, op.now);
    }
  }

  lemma KeyStepFollowsThePlainRule(c: Config, s: KeyState, key: Key, op: Op, lost: bool)
    requires c.Valid() && KeyStateOk(c, s)
    requires op.DoCheck? || op.DoRecord? ==> s.clock <= op.now
    ensures KeyStateOk(c, KeyStep(c, s, key, op, lost))
    ensures KeyStep(c, s, key, op, lost).log == PlainKeyStep(c, s.log, key, op)
  {
    if CallOn(op, key) {
      CalledFollowsThePlainRule(c, s, op.now, lost, op.DoRecord?);
      assert KeyStep(c, s, key, op, lost) == Called(c, s, op.now, lost, op.DoRecord?);
    } else {
      OtherStepFollowsThePlainRule(c, s, key, op, lost);
    }
  }

  lemma {:induction false} ScriptRunIsOk(c: Config, key: Key, ops: seq<Op>, lost: seq<bool>)
    requires c.Valid() && |lost| == |ops| && InTimeOrder(c, key, ops, lost)
    ensures KeyStateOk(c, KeyAfter(c, key, ops, lost))
  {
    if ops != [] {
      ScriptRunIsOk(c, key, ops[..|ops| - 1], lost[..|ops| - 1]);
      KeyStepFollowsThePlainRule(c, KeyAfter(c, key, ops[..|ops| - 1], lost[..|ops| - 1]), key, ops[|ops| - 1], lost[|ops| - 1]);
    }
  }

  // --------------------------------------------------- the two limiters agree

  lemma PlainStepOfKey(c: Config, log: Log, key: Key, op: Op)
    requires !op.DoReset?
    ensures LogOf(PlainStep(c, log, op), key) == PlainKeyStep(c, LogOf(log, key), key, op)
  {
  }

  lemma NextAgrees(c: Config, s: KeyState, log: Log, key: Key, op: Op, lost: bool)
    requires c.Valid() && KeyStateOk(c, s) && !op.DoReset?
    requires op.DoCheck? || op.DoRecord? ==> s.clock <= op.now
    requires s.log == LogOf(log, key)
    ensures KeyStep(c, s, key, op, lost).log == LogOf(PlainStep(c, log, op), key)
  {
    PlainStepOfKey(c, log, key, op);
    KeyStepFollowsThePlainRule(c, s, key, op, lost);
  }

  /** However often Redis drops an expired set, the script accepts exactly what the plain rule accepts. */
  lemma {:induction false} ScriptLogIsThePlainLog(c: Config, key: Key, ops: seq<Op>, lost: seq<bool>)
    requires c.Valid() && |lost| == |ops| && InTimeOrder(c, key, ops, lost) && DoReset !in ops
    ensures KeyAfter(c, key, ops, lost).log == LogOf(PlainLog(c, ops), key)
  {
    if ops != [] {
      var n := |ops| - 1;
      ScriptLogIsThePlainLog(c, key, ops[..n], lost[..n]);
      ScriptRunIsOk(c, key, ops[..n], lost[..n]);
      NextAgrees(c, KeyAfter(c, key, ops[..n], lost[..n]), PlainLog(c, ops[..n]), key, ops[n], lost[n]);
    }
  }

  /** The in-process refusal asks for one second more than the script's exactly when the wait is a
      whole number of seconds, and otherwise for the same. */
  lemma RetriesDifferOnlyOnWholeSeconds(c: Config, oldest: Time, now: Time)
    requires c.Valid() && now < oldest + c.window
    ensures RetryAfter(c, oldest, now) - ScriptRetry(c, oldest, now) ==
            if (oldest + c.window - now) % c.second == 0 then 1 else 0
  {
    var d := oldest + c.window - now;
    var q, r := d / c.second, d % c.second;
    QuotientAndRemainder(d, c.second);
    CeilOfQuotient(d, c.second);
    assert RetryAfter(c, oldest, now) == q + 1;
    if r == 0 {
      assert q >= 1;
    }
  }

  lemma CeilOfQuotient(d: int, b: int)
    requires b > 0
    ensures Ceil(d, b) == d / b + if d % b == 0 then 0 else 1
    ensures d <= Ceil(d, b) * b < d + b
  {
    var q, r := d / b, d % b;
    assert d == q * b + r;
    if r == 0 {
      assert -d == (-q) * b;
      QuotientIs(-d, b, -q, 0);
    } else {
      assert -d == (-q - 1) * b + (b - r);
      QuotientIs(-d, b, -q - 1, b - r);
    }
  }

  lemma QuotientIs(n: int, b: int, q: int, r: int)
    requires b > 0 && n == q * b + r && 0 <= r < b
    ensures n / b == q
  {
    QuotientAndRemainder(n, b);
    var e, f := n / b - q, n % b;
    assert e * b == r - f;
    if e > 0 {
      TimesKeepsOrder(1, e, b);
    } else if e < 0 {
      TimesKeepsOrder(e, -1, b);
    }
  }

  /** Two full lists of events that count as one log start with the same event. */
  lemma SameOldest(c: Config, a: seq<Time>, b: seq<Time>, log: seq<Time>, now: Time)
    requires c.Valid() && EventsOk(c, a, log, now) && EventsOk(c, b, log, now) && |a| == |b| == c.maxEvents
    requires now < a[0] + c.window && now < b[0] + c.window
    ensures a[0] == b[0]
  {
    FullKeyOpensWithTheOldest(c, a, log, now, a[0] + c.window);
    FullKeyOpensWithTheOldest(c, a, log, now, b[0] + c.window);
    FullKeyOpensWithTheOldest(c, b, log, now, a[0] + c.window);
    FullKeyOpensWithTheOldest(c, b, log, now, b[0] + c.window);
  }

  /** Two states over one log give the same answer, and waits that differ by at most one second. */
  lemma SameLogSameAnswer(c: Config, s: State, k: KeyState, key: Key, now: Time, gone: bool, consume: bool)
    requires c.Valid() && Inv(c, s, key) && KeyStateOk(c, k) && s.clock <= now && k.clock <= now
    requires LogOf(s.log, key) == k.log
    ensures Decide(c, s.table, key, now).Allowed? <==> Script(c, Present(k.z, now, gone), now, consume).1.Allowed?
    ensures Decide(c, s.table, key, now).Refused? ==>
              var shared := Script(c, Present(k.z, now, gone), now, consume).1.retryAfter;
              shared <= Decide(c, s.table, key, now).retryAfter <= shared + 1
  {
    CallFollowsThePlainRule(c, k, now, gone, consume);
    StateDecidesByThePlainRule(c, s, key, now);
    if Full(c, s.table, key, now) {
      RefusalIsFromTheOldest(c, s, key, now);
      var live := Live(EventsOf(s.table, key), now - c.window);
      SameOldest(c, live, Scores(Script(c, Present(k.z, now, gone), now, consume).0), k.log, now);
      RetriesDifferOnlyOnWholeSeconds(c, live[0], now);
    }
  }

  /** On the same sequence of times, with no more keys in play than the in-process table may hold, the
      two limiters give the same answer to every further call, and the waits they ask for differ by at
      most one second. */
  lemma TheTwoLimitersAgree(c: Config, ops: seq<Op>, keys: set<Key>, key: Key, lost: seq<bool>, now: Time, gone: bool, consume: bool)
    requires c.Valid() && IsRun(c, ops) && RecordsWithin(ops, keys) && |keys| <= c.maxKeys && DoReset !in ops
    requires |lost| == |ops| && InTimeOrder(c, key, ops, lost)
    requires After(c, ops).clock <= now && KeyAfter(c, key, ops, lost).clock <= now
    ensures var memory := Decide(c, After(c, ops).table, key, now);
            var shared := Script(c, Present(KeyAfter(c, key, ops, lost).z, now, gone), now, consume).1;
            && (memory.Allowed? <==> shared.Allowed?)
            && (memory.Refused? ==> shared.retryAfter <= memory.retryAfter <= shared.retryAfter + 1)
  {
    FewKeysMeansThePlainLog(c, ops, keys);
    ScriptLogIsThePlainLog(c, key, ops, lost);
    ScriptRunIsOk(c, key, ops, lost);
    RunKeepsInv(c, ops, key);
    SameLogSameAnswer(c, After(c, ops), KeyAfter(c, key, ops, lost), key, now, gone, consume);
  }

  /** The script's wait is the least whole number of seconds, at least one, after which the key opens. */
  lemma ScriptRetryIsLeast(c: Config, s: KeyState, now: Time, later: Time, consume: bool)
    requires c.Valid() && KeyStateOk(c, s) && s.clock == now && now <= later
    requires Script(c, s.z, now, consume).1.Refused?
    ensures var r := Script(c, s.z, now, consume).1.retryAfter;
            && (now + r * c.second <= later ==> CountAfter(s.log, later - c.window) < c.maxEvents)
            && (later <= now + (r - 1) * c.second ==> CountAfter(s.log, later - c.window) >= c.maxEvents)
  {
    var z := Script(c, s.z, now, consume).0;
    CallFollowsThePlainRule(c, s, now, false, consume);
    FullKeyOpensWithTheOldest(c, Scores(z), s.log, now, later);
    ScriptRetryIsCeiling(c, Scores(z)[0], now);
  }

  lemma ScriptRetryIsCeiling(c: Config, oldest: Time, now: Time)
    requires c.Valid() && now < oldest + c.window
    ensures var r := ScriptRetry(c, oldest, now);
            now + (r - 1) * c.second < oldest + c.window <= now + r * c.second
  {
    var d := oldest + c.window - now;
    CeilOfQuotient(d, c.second);
    var r := Ceil(d, c.second);
    assert (r - 1) * c.second == r * c.second - c.second;
  }
}
