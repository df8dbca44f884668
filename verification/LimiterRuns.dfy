/** Runs of the in-process limiter against the plain rule: a log of accepted timestamps per key and a
    count over the window. */
module LimiterRuns {
  import opened RateLimiter

  /** The log of accepted timestamps of each key since it was last cleared or forgotten. */
  type Log = map<Key, seq<Time>>

  function LogOf(log: Log, key: Key): seq<Time> {
    if key in log then log[key] else []
  }

  function CountAfter(log: seq<Time>, cutoff: Time): nat {
    if log == [] then 0 else (if log[0] > cutoff then 1 else 0) + CountAfter(log[1..], cutoff)
  }

  function CountWithin(log: seq<Time>, from: Time, to: Time): nat {
    if log == [] then 0 else (if from <= log[0] < to then 1 else 0) + CountWithin(log[1..], from, to)
  }

  /** The plain rule: fewer than `maxEvents` accepted events inside the window. */
  predicate Allows(c: Config, log: Log, key: Key, now: Time) {
    CountAfter(LogOf(log, key), now - c.window) < c.maxEvents
  }

  datatype Op =
    | DoCheck(key: Key, now: Time)
    | DoRecord(key: Key, now: Time)
    | DoClear(key: Key)
    | DoReset

  /** A run of the limiter: its table, the log of what it accepted, and when each key was last touched
      (by an accepted record, or by an allowed check that found events), counted in operations. */
  datatype State = State(table: Table, log: Log, touch: map<Key, nat>, steps: nat, clock: Time)

  const INIT := State([], map[], map[], 0, 0)

  /** The key is gone from `t` to `u` although it still had an event inside the window. */
  predicate Forgets(c: Config, t: Table, u: Table, now: Time, k: Key) {
    !Has(u, k) && !Dead(EventsOf(t, k), now - c.window)
  }

  /** The log once the forgotten keys are out of it. */
  function LogAfterEviction(c: Config, t: Table, u: Table, log: Log, now: Time): Log {
    map k | k in log && !Forgets(c, t, u, now, k) :: log[k]
  }

  ghost predicate Enabled(s: State, op: Op) {
    op.DoCheck? || op.DoRecord? ==> s.clock <= op.now
  }

  ghost function Step(c: Config, s: State, op: Op): State {
    match op
    case DoCheck(key, now) =>
      var touched := !Full(c, s.table, key, now) && Live(EventsOf(s.table, key), now - c.window) != [];
      State(AfterCheck(c, s.table, key, now), s.log, if touched then s.touch[key := s.steps] else s.touch, s.steps + 1, now)
    case DoRecord(key, now) =>
      if Full(c, s.table, key, now) then State(AfterRecord(c, s.table, key, now), s.log, s.touch, s.steps + 1, now)
      else
        var u := AfterRecord(c, s.table, key, now);
        var log := s.log[key := LogOf(s.log, key) + [now]];
        State(u, LogAfterEviction(c, Appended(c, s.table, key, now), u, log, now),
              s.touch[key := s.steps], s.steps + 1, now)
    case DoClear(key) => State(Without(s.table, key), s.log - {key}, s.touch, s.steps + 1, s.clock)
    case DoReset => State([], map[], s.touch, s.steps + 1, s.clock)
  }

  ghost function After(c: Config, ops: seq<Op>): State {
    if ops == [] then INIT else Step(c, After(c, ops[..|ops| - 1]), ops[|ops| - 1])
  }

  ghost predicate IsRun(c: Config, ops: seq<Op>) {
    ops == [] || (IsRun(c, ops[..|ops| - 1]) && Enabled(After(c, ops[..|ops| - 1]), ops[|ops| - 1]))
  }

  // -------------------------------------------------------------- invariant

  predicate Sorted(log: seq<Time>) {
    |log| > 1 ==> log[0] <= log[1] && Sorted(log[1..])
  }

  /** Accepts that are `maxEvents` apart in the log are a window apart in time. */
  predicate Spaced(c: Config, log: seq<Time>) {
    log != [] ==> (c.maxEvents < |log| ==> log[c.maxEvents] - log[0] >= c.window) && Spaced(c, log[1..])
  }

  predicate LogOk(c: Config, log: seq<Time>, clock: Time) {
    Sorted(log) && Spaced(c, log) && (log != [] ==> log[|log| - 1] <= clock)
  }

  /** To every cutoff from now on, the events kept count as the whole log does. */
  ghost predicate CountsAs(events: seq<Time>, log: seq<Time>, cutoff: Time) {
    forall t :: cutoff <= t ==> CountAfter(events, t) == CountAfter(log, t)
  }

  ghost predicate EventsOk(c: Config, events: seq<Time>, log: seq<Time>, clock: Time) {
    && Sorted(events) && |events| <= c.maxEvents
    && (events != [] ==> events[|events| - 1] <= clock)
    && CountsAs(events, log, clock - c.window)
  }

  /** The table is in the order of the last touch, strictly. */
  predicate InOrderOfTouch(t: Table, touch: map<Key, nat>) {
    t != [] ==>
      && t[0].key in touch
      && (|t| > 1 ==> t[1].key in touch && touch[t[0].key] < touch[t[1].key])
      && InOrderOfTouch(t[1..], touch)
  }

  predicate NoneEmpty(t: Table) {
    t != [] ==> t[0].events != [] && NoneEmpty(t[1..])
  }

  ghost predicate TableOk(t: Table, touch: map<Key, nat>, steps: nat) {
    && Distinct(t) && NoneEmpty(t) && InOrderOfTouch(t, touch)
    && forall k <- touch :: touch[k] < steps
  }

  /** The invariant of the table and of one key. */
  ghost predicate Inv(c: Config, s: State, k: Key) {
    && LogOk(c, LogOf(s.log, k), s.clock)
    && EventsOk(c, EventsOf(s.table, k), LogOf(s.log, k), s.clock)
    && TableOk(s.table, s.touch, s.steps)
    && |s.table| <= c.maxKeys
  }

  lemma {:induction false} FirstIsLeast(log: seq<Time>, i: nat)
    requires Sorted(log) && i < |log|
    ensures log[0] <= log[i]
  {
    if i > 0 {
      FirstIsLeast(log[1..], i - 1);
    }
  }

  lemma {:induction false} AllCountAfter(log: seq<Time>, cutoff: Time)
    requires Sorted(log) && (log != [] ==> log[0] > cutoff)
    ensures CountAfter(log, cutoff) == |log|
  {
    if log != [] {
      AllCountAfter(log[1..], cutoff);
    }
  }

  lemma {:induction false} NoneCountAfter(log: seq<Time>, cutoff: Time)
    requires Sorted(log) && (log != [] ==> log[|log| - 1] <= cutoff)
    ensures CountAfter(log, cutoff) == 0
  {
    if log != [] {
      FirstIsLeast(log, |log| - 1);
      NoneCountAfter(log[1..], cutoff);
    }
  }

  lemma {:induction false} CountAfterLast(log: seq<Time>, x: Time, cutoff: Time)
    ensures CountAfter(log + [x], cutoff) == CountAfter(log, cutoff) + if x > cutoff then 1 else 0
  {
    if log != [] {
      CountAfterLast(log[1..], x, cutoff);
      assert (log + [x])[1..] == log[1..] + [x];
    } else {
      assert (log + [x])[1..] == [];
    }
  }

  lemma {:induction false} SortedLast(log: seq<Time>, x: Time)
    requires Sorted(log) && (log != [] ==> log[|log| - 1] <= x)
    ensures Sorted(log + [x])
  {
    if log != [] {
      SortedLast(log[1..], x);
      assert (log + [x])[1..] == log[1..] + [x];
    }
  }

  lemma {:induction false} SpacedLast(c: Config, log: seq<Time>, x: Time)
    requires Spaced(c, log) && (c.maxEvents <= |log| && c.maxEvents > 0 ==> x - log[|log| - c.maxEvents] >= c.window)
    requires c.maxEvents > 0
    ensures Spaced(c, log + [x])
  {
    if log != [] {
      SpacedLast(c, log[1..], x);
      assert (log + [x])[1..] == log[1..] + [x];
    } else {
      assert (log + [x])[1..] == [];
    }
  }

  /** Fewer than `m` events after the cutoff: the m-th last is not after it. */
  lemma {:induction false} FewAfter(log: seq<Time>, m: nat, cutoff: Time)
    requires Sorted(log) && 0 < m <= |log| && CountAfter(log, cutoff) < m
    ensures log[|log| - m] <= cutoff
  {
    if m < |log| {
      FewAfter(log[1..], m, cutoff);
    } else if log[0] > cutoff {
      AllCountAfter(log, cutoff);
    }
  }

  /** Pruning leaves exactly the events after the cutoff, and none that any later cutoff counts is lost. */
  lemma {:induction false} LiveIsCounted(events: seq<Time>, cutoff: Time, t: Time)
    requires Sorted(events) && cutoff <= t
    ensures Sorted(Live(events, cutoff)) && |Live(events, cutoff)| <= |events|
    ensures |Live(events, cutoff)| == CountAfter(events, cutoff)
    ensures CountAfter(Live(events, cutoff), t) == CountAfter(events, t)
    ensures Live(events, cutoff) != [] ==>
              Live(events, cutoff)[0] > cutoff && Live(events, cutoff)[|Live(events, cutoff)| - 1] == events[|events| - 1]
  {
    if events != [] && events[0] <= cutoff {
      LiveIsCounted(events[1..], cutoff, t);
    } else {
      AllCountAfter(events, cutoff);
    }
  }

  lemma TimeKeepsEvents(c: Config, events: seq<Time>, log: seq<Time>, clock: Time, now: Time)
    requires EventsOk(c, events, log, clock) && clock <= now
    ensures EventsOk(c, events, log, now)
  {
  }

  lemma PruneKeepsEvents(c: Config, events: seq<Time>, log: seq<Time>, now: Time)
    requires EventsOk(c, events, log, now)
    ensures EventsOk(c, Live(events, now - c.window), log, now)
    ensures |Live(events, now - c.window)| == CountAfter(log, now - c.window)
  {
    LiveIsCounted(events, now - c.window, now - c.window);
    forall t | now - c.window <= t
      ensures CountAfter(Live(events, now - c.window), t) == CountAfter(log, t)
    {
      LiveIsCounted(events, now - c.window, t);
    }
  }

  lemma AcceptKeepsEvents(c: Config, events: seq<Time>, log: seq<Time>, now: Time)
    requires EventsOk(c, events, log, now) && |events| < c.maxEvents
    ensures EventsOk(c, events + [now], log + [now], now)
  {
    SortedLast(events, now);
    forall t | now - c.window <= t
      ensures CountAfter(events + [now], t) == CountAfter(log + [now], t)
    {
      CountAfterLast(events, now, t);
      CountAfterLast(log, now, t);
    }
  }

  /** Events that are all outside the window count as none. */
  lemma DropKeepsEvents(c: Config, events: seq<Time>, log: seq<Time>, now: Time)
    requires EventsOk(c, events, log, now) && Dead(events, now - c.window)
    ensures EventsOk(c, [], log, now)
  {
    forall t | now - c.window <= t
      ensures CountAfter([], t) == CountAfter(log, t)
    {
      NoneCountAfter(events, t);
    }
  }

  lemma AcceptKeepsLog(c: Config, log: seq<Time>, clock: Time, now: Time)
    requires c.Valid() && LogOk(c, log, clock) && clock <= now && CountAfter(log, now - c.window) < c.maxEvents
    ensures LogOk(c, log + [now], now)
  {
    SortedLast(log, now);
    if c.maxEvents <= |log| {
      FewAfter(log, c.maxEvents, now - c.window);
    }
    SpacedLast(c, log, now);
  }

  // ------------------------------------------------------- tables and touch

  predicate AllBefore(t: Table, touch: map<Key, nat>, n: nat) {
    t != [] ==> t[0].key in touch && touch[t[0].key] < n && AllBefore(t[1..], touch, n)
  }

  predicate AllAfter(t: Table, touch: map<Key, nat>, n: nat) {
    t != [] ==> t[0].key in touch && n < touch[t[0].key] && AllAfter(t[1..], touch, n)
  }

  lemma {:induction false} FirstIsBeforeRest(t: Table, touch: map<Key, nat>, n: nat)
    requires InOrderOfTouch(t, touch) && (t != [] ==> n < touch[t[0].key])
    ensures AllAfter(t, touch, n)
  {
    if t != [] {
      FirstIsBeforeRest(t[1..], touch, n);
    }
  }

  lemma {:induction false} AllAfterIsInherited(t: Table, touch: map<Key, nat>, n: nat, key: Key)
    requires AllAfter(t, touch, n)
    ensures AllAfter(Without(t, key), touch, n)
  {
    if t != [] {
      AllAfterIsInherited(t[1..], touch, n, key);
      assert t[0].key != key ==> Without(t, key)[1..] == Without(t[1..], key);
    }
  }

  lemma {:induction false} WithoutKeepsOrder(t: Table, key: Key, touch: map<Key, nat>)
    requires InOrderOfTouch(t, touch) && NoneEmpty(t)
    ensures InOrderOfTouch(Without(t, key), touch) && NoneEmpty(Without(t, key))
    ensures |Without(t, key)| <= |t| && (Has(t, key) ==> |Without(t, key)| < |t|)
  {
    if t != [] {
      WithoutKeepsOrder(t[1..], key, touch);
      if t[0].key != key {
        FirstIsBeforeRest(t[1..], touch, touch[t[0].key]);
        AllAfterIsInherited(t[1..], touch, touch[t[0].key], key);
        assert Without(t, key)[1..] == Without(t[1..], key);
      }
    }
  }

  lemma {:induction false} PutKeepsOrder(t: Table, key: Key, events: seq<Time>, touch: map<Key, nat>)
    requires InOrderOfTouch(t, touch) && NoneEmpty(t) && events != []
    ensures InOrderOfTouch(Put(t, key, events), touch) && NoneEmpty(Put(t, key, events))
    ensures |Put(t, key, events)| == |t| && (t != [] ==> Put(t, key, events)[0].key == t[0].key)
  {
    if t != [] {
      PutKeepsOrder(t[1..], key, events, touch);
      assert Put(t, key, events)[1..] == if t[0].key == key then t[1..] else Put(t[1..], key, events);
    }
  }

  lemma {:induction false} TouchLast(t: Table, e: Entry, touch: map<Key, nat>, n: nat)
    requires InOrderOfTouch(t, touch) && NoneEmpty(t) && !Has(t, e.key) && e.events != []
    requires forall k <- touch :: touch[k] < n
    ensures InOrderOfTouch(t + [e], touch[e.key := n]) && NoneEmpty(t + [e])
  {
    if t != [] {
      TouchLast(t[1..], e, touch, n);
      assert (t + [e])[1..] == t[1..] + [e];
    } else {
      assert (t + [e])[1..] == [];
    }
  }

  lemma PrunedKeepsTable(t: Table, key: Key, cutoff: Time, touch: map<Key, nat>, steps: nat)
    requires TableOk(t, touch, steps)
    ensures TableOk(Pruned(t, key, cutoff), touch, steps) && |Pruned(t, key, cutoff)| <= |t|
  {
    PrunedIsDistinct(t, key, cutoff);
    WithoutKeepsOrder(t, key, touch);
    if Live(EventsOf(t, key), cutoff) != [] {
      PutKeepsOrder(t, key, Live(EventsOf(t, key), cutoff), touch);
    }
  }

  lemma MovedKeepsTable(t: Table, key: Key, events: seq<Time>, touch: map<Key, nat>, steps: nat)
    requires TableOk(t, touch, steps) && events != []
    ensures TableOk(MovedToEnd(t, key, events), touch[key := steps], steps + 1)
    ensures |MovedToEnd(t, key, events)| <= |t| + 1
    ensures Has(t, key) ==> |MovedToEnd(t, key, events)| <= |t|
  {
    MovedIsDistinct(t, key, events);
    WithoutKeepsOrder(t, key, touch);
    LookupWithout(t, key, key);
    TouchLast(Without(t, key), Entry(key, events), touch, steps);
  }

  lemma {:induction false} LookupSwept(t: Table, cutoff: Time, k: Key)
    requires Distinct(t)
    ensures EventsOf(Swept(t, cutoff), k) == if Dead(EventsOf(t, k), cutoff) then [] else EventsOf(t, k)
    ensures Has(Swept(t, cutoff), k) <==> !Dead(EventsOf(t, k), cutoff)
  {
    if t != [] {
      LookupSwept(t[1..], cutoff, k);
      AbsentIsEmpty(t[1..], t[0].key);
      if !Dead(t[0].events, cutoff) {
        assert Swept(t, cutoff)[1..] == Swept(t[1..], cutoff);
      }
    }
  }

  lemma {:induction false} SweptKeepsAllAfter(t: Table, cutoff: Time, touch: map<Key, nat>, n: nat)
    requires AllAfter(t, touch, n)
    ensures AllAfter(Swept(t, cutoff), touch, n)
  {
    if t != [] {
      SweptKeepsAllAfter(t[1..], cutoff, touch, n);
      if !Dead(t[0].events, cutoff) {
        assert Swept(t, cutoff)[1..] == Swept(t[1..], cutoff);
      }
    }
  }

  lemma {:induction false} SweptKeepsOrder(t: Table, cutoff: Time, touch: map<Key, nat>)
    requires InOrderOfTouch(t, touch) && NoneEmpty(t) && Distinct(t)
    ensures InOrderOfTouch(Swept(t, cutoff), touch) && NoneEmpty(Swept(t, cutoff)) && Distinct(Swept(t, cutoff))
  {
    if t != [] {
      SweptKeepsOrder(t[1..], cutoff, touch);
      if !Dead(t[0].events, cutoff) {
        FirstIsBeforeRest(t[1..], touch, touch[t[0].key]);
        SweptKeepsAllAfter(t[1..], cutoff, touch, touch[t[0].key]);
        LookupSwept(t[1..], cutoff, t[0].key);
        AbsentIsEmpty(t[1..], t[0].key);
        assert Swept(t, cutoff)[1..] == Swept(t[1..], cutoff);
      }
    }
  }

  lemma {:induction false} LatestKeepsOrder(t: Table, n: nat, touch: map<Key, nat>)
    requires InOrderOfTouch(t, touch) && NoneEmpty(t) && Distinct(t)
    ensures InOrderOfTouch(Latest(t, n), touch) && NoneEmpty(Latest(t, n)) && Distinct(Latest(t, n))
  {
    if |t| > n {
      LatestKeepsOrder(t[1..], n, touch);
    }
  }

  lemma {:induction false} LatestLength(t: Table, n: nat)
    ensures |Latest(t, n)| == if |t| <= n then |t| else n
  {
    if |t| > n {
      LatestLength(t[1..], n);
    }
  }

  /** Whatever is cut off was touched before everything that stays; the rest is looked up as before. */
  lemma {:induction false} LookupLatest(t: Table, n: nat, touch: map<Key, nat>, k: Key)
    requires InOrderOfTouch(t, touch) && Distinct(t)
    ensures Has(Latest(t, n), k) ==> Has(t, k) && EventsOf(Latest(t, n), k) == EventsOf(t, k)
    ensures !Has(Latest(t, n), k) ==> EventsOf(Latest(t, n), k) == []
    ensures Has(t, k) && !Has(Latest(t, n), k) ==>
              |Latest(t, n)| == n && k in touch && AllAfter(Latest(t, n), touch, touch[k])
  {
    if |t| > n {
      LookupLatest(t[1..], n, touch, k);
      LatestLength(t[1..], n);
      FirstIsBeforeRest(t[1..], touch, touch[t[0].key]);
      AllAfterOfLatest(t[1..], n, touch, touch[t[0].key]);
    } else if !Has(t, k) {
      AbsentIsEmpty(t, k);
    }
  }

  lemma {:induction false} AllAfterOfLatest(t: Table, n: nat, touch: map<Key, nat>, m: nat)
    requires AllAfter(t, touch, m)
    ensures AllAfter(Latest(t, n), touch, m)
  {
    if |t| > n {
      AllAfterOfLatest(t[1..], n, touch, m);
    }
  }

  /** The entry at the recently used end stays there, if it is live. */
  lemma {:induction false} LastStays(t: Table, cutoff: Time)
    requires t != [] && !Dead(t[|t| - 1].events, cutoff)
    ensures Swept(t, cutoff) != [] && Swept(t, cutoff)[|Swept(t, cutoff)| - 1] == t[|t| - 1]
  {
    if |t| > 1 {
      LastStays(t[1..], cutoff);
    }
  }

  lemma {:induction false} LastIsThere(t: Table)
    requires t != []
    ensures Has(t, t[|t| - 1].key)
  {
    if |t| > 1 {
      LastIsThere(t[1..]);
    }
  }

  // ------------------------------------------------------------------ steps

  lemma LookupPruned(t: Table, key: Key, cutoff: Time, k: Key)
    ensures EventsOf(Pruned(t, key, cutoff), k) == if k == key then Live(EventsOf(t, key), cutoff) else EventsOf(t, k)
  {
    LookupWithout(t, key, k);
    LookupPut(t, key, Live(EventsOf(t, key), cutoff), k);
    if !Has(t, key) {
      AbsentIsEmpty(t, key);
    }
  }

  lemma LookupMoved(t: Table, key: Key, events: seq<Time>, k: Key)
    ensures EventsOf(MovedToEnd(t, key, events), k) == if k == key then events else EventsOf(t, k)
  {
    LookupWithout(t, key, k);
    LookupLast(Without(t, key), Entry(key, events), k);
    if !Has(t, k) {
      AbsentIsEmpty(t, k);
    }
  }

  /** Pruning any key keeps what is known of `k`, and leaves of `k` itself what the plain rule counts. */
  lemma PrunedKeepsKey(c: Config, t: Table, log: seq<Time>, clock: Time, key: Key, now: Time, k: Key)
    requires EventsOk(c, EventsOf(t, k), log, clock) && clock <= now
    ensures EventsOk(c, EventsOf(Pruned(t, key, now - c.window), k), log, now)
    ensures EventsOk(c, Live(EventsOf(t, k), now - c.window), log, now)
    ensures |Live(EventsOf(t, k), now - c.window)| == CountAfter(log, now - c.window)
  {
    LookupPruned(t, key, now - c.window, k);
    TimeKeepsEvents(c, EventsOf(t, k), log, clock, now);
    PruneKeepsEvents(c, EventsOf(t, k), log, now);
  }

  lemma CheckKeepsTable(c: Config, s: State, key: Key, now: Time)
    requires c.Valid() && TableOk(s.table, s.touch, s.steps)
    ensures var next := Step(c, s, DoCheck(key, now));
            TableOk(next.table, next.touch, next.steps) && |next.table| <= |s.table|
  {
    var live := Live(EventsOf(s.table, key), now - c.window);
    var pruned := Pruned(s.table, key, now - c.window);
    PrunedKeepsTable(s.table, key, now - c.window, s.touch, s.steps);
    if live != [] {
      if !Has(s.table, key) {
        AbsentIsEmpty(s.table, key);
      }
      LookupPut(s.table, key, live, key);
      MovedKeepsTable(pruned, key, live, s.touch, s.steps);
    }
  }

  lemma CheckKeepsKey(c: Config, s: State, key: Key, now: Time, k: Key)
    requires c.Valid() && Inv(c, s, k) && s.clock <= now
    ensures EventsOk(c, EventsOf(AfterCheck(c, s.table, key, now), k), LogOf(s.log, k), now)
  {
    PrunedKeepsKey(c, s.table, LogOf(s.log, k), s.clock, key, now, k);
    LookupMoved(Pruned(s.table, key, now - c.window), key, Live(EventsOf(s.table, key), now - c.window), k);
  }

  lemma {:induction false} LatestKeepsLast(v: Table, n: nat)
    requires v != [] && n > 0
    ensures Has(Latest(v, n), v[|v| - 1].key)
  {
    if |v| > n {
      LatestKeepsLast(v[1..], n);
    } else {
      LastIsThere(v);
    }
  }

  lemma LatestKeepsTable(v: Table, n: nat, touch: map<Key, nat>, steps: nat)
    requires TableOk(v, touch, steps)
    ensures TableOk(Latest(v, n), touch, steps)
  {
    LatestKeepsOrder(v, n, touch);
  }

  lemma SweptKeepsTable(t: Table, cutoff: Time, touch: map<Key, nat>, steps: nat)
    requires TableOk(t, touch, steps)
    ensures TableOk(Swept(t, cutoff), touch, steps)
  {
    SweptKeepsOrder(t, cutoff, touch);
  }

  lemma EvictedKeepsTable(c: Config, t: Table, touch: map<Key, nat>, steps: nat, now: Time)
    requires c.Valid() && TableOk(t, touch, steps)
    ensures TableOk(Evicted(c, t, now), touch, steps) && |Evicted(c, t, now)| <= c.maxKeys
  {
    if |t| > c.maxKeys {
      SweptKeepsTable(t, now - c.window, touch, steps);
      LatestKeepsTable(Swept(t, now - c.window), c.maxKeys, touch, steps);
      LatestLength(Swept(t, now - c.window), c.maxKeys);
    }
  }

  lemma EvictedKeepsLast(c: Config, t: Table, now: Time)
    requires c.Valid() && t != [] && !Dead(t[|t| - 1].events, now - c.window)
    ensures Has(Evicted(c, t, now), t[|t| - 1].key)
  {
    if |t| <= c.maxKeys {
      LastIsThere(t);
    } else {
      LastStays(t, now - c.window);
      LatestKeepsLast(Swept(t, now - c.window), c.maxKeys);
    }
  }

  /** What eviction means for one key: it is looked up as before, or it is gone, and if it is forgotten
      then the table is full of keys touched after it. */
  predicate KeyEvicted(c: Config, t: Table, u: Table, touch: map<Key, nat>, now: Time, k: Key) {
    && EventsOf(u, k) == (if Has(u, k) then EventsOf(t, k) else [])
    && (Forgets(c, t, u, now, k) ==> |u| == c.maxKeys && k in touch && AllAfter(u, touch, touch[k]))
  }

  lemma LatestEvicts(c: Config, t: Table, v: Table, touch: map<Key, nat>, now: Time, k: Key)
    requires Distinct(v) && InOrderOfTouch(v, touch)
    requires EventsOf(v, k) == if Dead(EventsOf(t, k), now - c.window) then [] else EventsOf(t, k)
    requires Has(v, k) <==> !Dead(EventsOf(t, k), now - c.window)
    ensures KeyEvicted(c, t, Latest(v, c.maxKeys), touch, now, k)
  {
    LookupLatest(v, c.maxKeys, touch, k);
  }

  lemma EvictedKeepsKey(c: Config, t: Table, touch: map<Key, nat>, now: Time, k: Key)
    requires c.Valid() && Distinct(t) && NoneEmpty(t) && InOrderOfTouch(t, touch)
    ensures KeyEvicted(c, t, Evicted(c, t, now), touch, now, k)
  {
    if |t| <= c.maxKeys {
      if !Has(t, k) {
        AbsentIsEmpty(t, k);
      }
    } else {
      SweptKeepsOrder(t, now - c.window, touch);
      LookupSwept(t, now - c.window, k);
      LatestEvicts(c, t, Swept(t, now - c.window), touch, now, k);
    }
  }

  lemma EvictionKeepsKey(c: Config, t: Table, u: Table, log: Log, touch: map<Key, nat>, now: Time, k: Key)
    requires EventsOk(c, EventsOf(t, k), LogOf(log, k), now) && KeyEvicted(c, t, u, touch, now, k)
    ensures EventsOk(c, EventsOf(u, k), LogOf(LogAfterEviction(c, t, u, log, now), k), now)
  {
    if !Has(u, k) && !Forgets(c, t, u, now, k) {
      DropKeepsEvents(c, EventsOf(t, k), LogOf(log, k), now);
    }
  }

  lemma AppendedKeepsTable(c: Config, s: State, key: Key, now: Time)
    requires c.Valid() && TableOk(s.table, s.touch, s.steps)
    ensures var t := Appended(c, s.table, key, now);
            && TableOk(t, s.touch[key := s.steps], s.steps + 1)
            && t != [] && t[|t| - 1].key == key && !Dead(t[|t| - 1].events, now - c.window)
  {
    PrunedKeepsTable(s.table, key, now - c.window, s.touch, s.steps);
    MovedKeepsTable(Pruned(s.table, key, now - c.window), key, Live(EventsOf(s.table, key), now - c.window) + [now],
                    s.touch, s.steps);
  }

  lemma AppendedKeepsKey(c: Config, s: State, key: Key, now: Time, k: Key)
    requires c.Valid() && Inv(c, s, k) && s.clock <= now && !Full(c, s.table, key, now)
    ensures var log := LogOf(s.log[key := LogOf(s.log, key) + [now]], k);
            EventsOk(c, EventsOf(Appended(c, s.table, key, now), k), log, now) && LogOk(c, log, now)
  {
    var live := Live(EventsOf(s.table, key), now - c.window);
    PrunedKeepsKey(c, s.table, LogOf(s.log, k), s.clock, key, now, k);
    LookupMoved(Pruned(s.table, key, now - c.window), key, live + [now], k);
    if k == key {
      AcceptKeepsEvents(c, live, LogOf(s.log, key), now);
      AcceptKeepsLog(c, LogOf(s.log, key), s.clock, now);
    }
  }

  lemma RefusedRecordKeepsInv(c: Config, s: State, key: Key, now: Time, k: Key)
    requires c.Valid() && Inv(c, s, k) && s.clock <= now && Full(c, s.table, key, now)
    ensures Inv(c, Step(c, s, DoRecord(key, now)), k)
  {
    PrunedKeepsKey(c, s.table, LogOf(s.log, k), s.clock, key, now, k);
    PrunedKeepsTable(s.table, key, now - c.window, s.touch, s.steps);
  }

  lemma AcceptedRecordKeepsInv(c: Config, s: State, key: Key, now: Time, k: Key)
    requires c.Valid() && Inv(c, s, k) && s.clock <= now && !Full(c, s.table, key, now)
    ensures Inv(c, Step(c, s, DoRecord(key, now)), k)
  {
    var t := Appended(c, s.table, key, now);
    var touch := s.touch[key := s.steps];
    AppendedKeepsTable(c, s, key, now);
    AppendedKeepsKey(c, s, key, now, k);
    EvictedKeepsTable(c, t, touch, s.steps + 1, now);
    EvictedKeepsKey(c, t, touch, now, k);
    EvictionKeepsKey(c, t, Evicted(c, t, now), s.log[key := LogOf(s.log, key) + [now]], touch, now, k);
  }

  lemma ClearKeepsInv(c: Config, s: State, key: Key, k: Key)
    requires c.Valid() && Inv(c, s, k)
    ensures Inv(c, Step(c, s, DoClear(key)), k)
  {
    WithoutIsDistinct(s.table, key);
    WithoutKeepsOrder(s.table, key, s.touch);
    LookupWithout(s.table, key, k);
  }

  lemma StepKeepsInv(c: Config, s: State, op: Op, k: Key)
    requires c.Valid() && Inv(c, s, k) && Enabled(s, op)
    ensures Inv(c, Step(c, s, op), k)
  {
    match op
    case DoCheck(key, now) =>
      CheckKeepsKey(c, s, key, now, k);
      CheckKeepsTable(c, s, key, now);
    case DoRecord(key, now) =>
      if Full(c, s.table, key, now) {
        RefusedRecordKeepsInv(c, s, key, now, k);
      } else {
        AcceptedRecordKeepsInv(c, s, key, now, k);
      }
    case DoClear(key) => ClearKeepsInv(c, s, key, k);
    case DoReset =>
  }

  lemma {:induction false} RunKeepsInv(c: Config, ops: seq<Op>, k: Key)
    requires c.Valid() && IsRun(c, ops)
    ensures Inv(c, After(c, ops), k)
  {
    if ops != [] {
      RunKeepsInv(c, ops[..|ops| - 1], k);
      StepKeepsInv(c, After(c, ops[..|ops| - 1]), ops[|ops| - 1], k);
    }
  }
}
