/** What every run of the in-process limiter guarantees. */
module LimiterTheorems {
  import opened RateLimiter
  import opened LimiterRuns

  lemma StateDecidesByThePlainRule(c: Config, s: State, key: Key, now: Time)
    requires c.Valid() && Inv(c, s, key) && s.clock <= now
    ensures Decide(c, s.table, key, now).Allowed? <==> Allows(c, s.log, key, now)
  {
    PrunedKeepsKey(c, s.table, LogOf(s.log, key), s.clock, key, now, key);
  }

  /** The limiter decides as the plain rule does, on the log of what it accepted and did not forget. */
  lemma DecidesByThePlainRule(c: Config, ops: seq<Op>, key: Key, now: Time)
    requires c.Valid() && IsRun(c, ops) && After(c, ops).clock <= now
    ensures Decide(c, After(c, ops).table, key, now).Allowed? <==> Allows(c, After(c, ops).log, key, now)
  {
    RunKeepsInv(c, ops, key);
    StateDecidesByThePlainRule(c, After(c, ops), key, now);
  }

  lemma {:induction false} OnlyFirstCount(log: seq<Time>, m: nat, from: Time, to: Time)
    requires Sorted(log) && m <= |log| && (m < |log| ==> to <= log[m])
    ensures CountWithin(log, from, to) <= m
  {
    if log != [] {
      if m > 0 {
        OnlyFirstCount(log[1..], m - 1, from, to);
      } else {
        if |log| > 1 {
          FirstIsLeast(log, 1);
        }
        OnlyFirstCount(log[1..], 0, from, to);
      }
    }
  }

  lemma {:induction false} SpacedLogFitsEveryWindow(c: Config, log: seq<Time>, from: Time)
    requires c.Valid() && Sorted(log) && Spaced(c, log)
    ensures CountWithin(log, from, from + c.window) <= c.maxEvents
  {
    if log != [] {
      if from <= log[0] {
        OnlyFirstCount(log, if c.maxEvents <= |log| then c.maxEvents else |log|, from, from + c.window);
      } else {
        SpacedLogFitsEveryWindow(c, log[1..], from);
      }
    }
  }

  /** Over every run, every half-open interval as long as the window contains at most `maxEvents`
      accepted events of a key, counted from its last clearing or eviction. */
  lemma AtMostMaxEventsInAnyWindow(c: Config, ops: seq<Op>, key: Key, from: Time)
    requires c.Valid() && IsRun(c, ops)
    ensures CountWithin(LogOf(After(c, ops).log, key), from, from + c.window) <= c.maxEvents
  {
    RunKeepsInv(c, ops, key);
    SpacedLogFitsEveryWindow(c, LogOf(After(c, ops).log, key), from);
  }

  /** The table is bounded and in the order of last touch. */
  lemma TableIsBoundedAndOrdered(c: Config, ops: seq<Op>, i: nat, j: nat)
    requires c.Valid() && IsRun(c, ops)
    requires i < j < |After(c, ops).table|
    ensures var s := After(c, ops);
            && |s.table| <= c.maxKeys
            && s.table[i].key in s.touch && s.table[j].key in s.touch
            && s.touch[s.table[i].key] < s.touch[s.table[j].key]
  {
    RunKeepsInv(c, ops, After(c, ops).table[i].key);
    TouchAscends(After(c, ops).table, After(c, ops).touch, i, j);
  }

  lemma {:induction false} TouchAscends(t: Table, touch: map<Key, nat>, i: nat, j: nat)
    requires InOrderOfTouch(t, touch) && i < j < |t|
    ensures t[i].key in touch && t[j].key in touch && touch[t[i].key] < touch[t[j].key]
  {
    if i > 0 {
      TouchAscends(t[1..], touch, i - 1, j - 1);
    } else if j > 1 {
      TouchAscends(t[1..], touch, 0, j - 1);
    }
  }

  /** An accepted record keeps the key it records, and takes away a key that still has an event inside
      the window only if `maxKeys` keys, all touched after that one, remain. */
  lemma EvictionIsFair(c: Config, ops: seq<Op>, key: Key, now: Time, k: Key)
    requires c.Valid() && IsRun(c, ops) && After(c, ops).clock <= now
    requires Allows(c, After(c, ops).log, key, now)
    ensures var next := Step(c, After(c, ops), DoRecord(key, now));
            && Has(next.table, key)
            && (Forgets(c, Appended(c, After(c, ops).table, key, now), next.table, now, k) ==>
                  && |next.table| == c.maxKeys && k in next.touch
                  && AllAfter(next.table, next.touch, next.touch[k]))
  {
    var s := After(c, ops);
    DecidesByThePlainRule(c, ops, key, now);
    RunKeepsInv(c, ops, k);
    var touch := s.touch[key := s.steps];
    AppendedKeepsTable(c, s, key, now);
    EvictedKeepsTable(c, Appended(c, s.table, key, now), touch, s.steps + 1, now);
    EvictedKeepsLast(c, Appended(c, s.table, key, now), now);
    EvictedKeepsKey(c, Appended(c, s.table, key, now), touch, now, k);
  }

  // ------------------------------------------------ what an eviction takes away

  predicate InWindow(e: Entry, cutoff: Time) {
    e.events != [] && cutoff < e.events[|e.events| - 1]
  }

  /** The keys with an event inside the window. */
  function LiveKeys(t: Table, cutoff: Time): set<Key> {
    if t == [] then {}
    else (if InWindow(t[0], cutoff) then {t[0].key} else {}) + LiveKeys(t[1..], cutoff)
  }

  predicate AllInWindow(t: Table, cutoff: Time) {
    t != [] ==> InWindow(t[0], cutoff) && AllInWindow(t[1..], cutoff)
  }

  lemma {:induction false} LiveKeysAreHad(t: Table, cutoff: Time, k: Key)
    requires Distinct(t)
    ensures k in LiveKeys(t, cutoff) <==> Has(t, k) && InWindow(Entry(k, EventsOf(t, k)), cutoff)
  {
    if t != [] {
      LiveKeysAreHad(t[1..], cutoff, k);
    }
  }

  lemma {:induction false} SweptIsLive(t: Table, cutoff: Time)
    requires Distinct(t)
    ensures |Swept(t, cutoff)| == |LiveKeys(t, cutoff)|
  {
    if t != [] {
      SweptIsLive(t[1..], cutoff);
      LiveKeysAreHad(t[1..], cutoff, t[0].key);
    }
  }

  lemma {:induction false} SweptInWindow(t: Table, cutoff: Time)
    ensures AllInWindow(Swept(t, cutoff), cutoff)
  {
    if t != [] {
      SweptInWindow(t[1..], cutoff);
      if !Dead(t[0].events, cutoff) {
        assert Swept(t, cutoff)[1..] == Swept(t[1..], cutoff);
      }
    }
  }

  lemma {:induction false} LatestInWindow(t: Table, n: nat, cutoff: Time)
    requires AllInWindow(t, cutoff)
    ensures AllInWindow(Latest(t, n), cutoff)
  {
    if |t| > n {
      LatestInWindow(t[1..], n, cutoff);
    }
  }

  /** What is left of a table when room had to be made in it: only entries with an event inside the window, and
      as many keys as have one if there is room. */
  predicate RoomMade(c: Config, before: Table, after: Table, now: Time) {
    var live := |LiveKeys(before, now - c.window)|;
    AllInWindow(after, now - c.window) && |after| == if live <= c.maxKeys then live else c.maxKeys
  }

  lemma EvictedInWindow(c: Config, t: Table, now: Time)
    requires |t| > c.maxKeys
    ensures AllInWindow(Evicted(c, t, now), now - c.window)
  {
    SweptInWindow(t, now - c.window);
    LatestInWindow(Swept(t, now - c.window), c.maxKeys, now - c.window);
  }

  lemma SizeOfEvicted(c: Config, t: Table, live: set<Key>, now: Time)
    requires Distinct(t) && |t| > c.maxKeys && live == LiveKeys(t, now - c.window)
    ensures |Evicted(c, t, now)| == if |live| <= c.maxKeys then |live| else c.maxKeys
  {
    SweptIsLive(t, now - c.window);
    LatestLength(Swept(t, now - c.window), c.maxKeys);
  }

  lemma ForgottenOnlyForLive(c: Config, t: Table, now: Time, k: Key)
    requires c.Valid() && Distinct(t) && Forgets(c, t, Evicted(c, t, now), now, k)
    ensures |t| > c.maxKeys && |LiveKeys(t, now - c.window)| > c.maxKeys
  {
    if !Has(t, k) {
      AbsentIsEmpty(t, k);
    }
    SweptIsLive(t, now - c.window);
    LookupSwept(t, now - c.window, k);
  }

  /** Over every run: an accepted record leaves the table, with the key at the recently used end, as it is while
      that is within the bound. Beyond it, every entry left has an event inside the window, the table holds as
      many keys as have one if there is room, and a key that has one goes only if more than `maxKeys` have.
      Whatever stays keeps its events. */
  lemma ExpiredEntriesGoFirst(c: Config, ops: seq<Op>, key: Key, now: Time, k: Key)
    requires c.Valid() && IsRun(c, ops) && After(c, ops).clock <= now
    requires Allows(c, After(c, ops).log, key, now)
    ensures var before := Appended(c, After(c, ops).table, key, now);
            var after := Step(c, After(c, ops), DoRecord(key, now)).table;
            && (|before| <= c.maxKeys ==> after == before)
            && (|before| > c.maxKeys ==> RoomMade(c, before, after, now))
            && (Forgets(c, before, after, now, k) ==> |LiveKeys(before, now - c.window)| > c.maxKeys)
            && (Has(after, k) ==> EventsOf(after, k) == EventsOf(before, k))
  {
    var s := After(c, ops);
    var before := Appended(c, s.table, key, now);
    DecidesByThePlainRule(c, ops, key, now);
    RunKeepsInv(c, ops, k);
    AppendedKeepsTable(c, s, key, now);
    EvictedKeepsKey(c, before, s.touch[key := s.steps], now, k);
    if |before| > c.maxKeys {
      EvictedInWindow(c, before, now);
      SizeOfEvicted(c, before, LiveKeys(before, now - c.window), now);
    }
    if Forgets(c, before, Evicted(c, before, now), now, k) {
      ForgottenOnlyForLive(c, before, now, k);
    }
  }

  // -------------------------------------------- few keys: the plain log itself

  /** The log the plain rule builds, with no table at all. */
  function PlainStep(c: Config, log: Log, op: Op): Log {
    match op
    case DoCheck(_, _) => log
    case DoRecord(key, now) => if Allows(c, log, key, now) then log[key := LogOf(log, key) + [now]] else log
    case DoClear(key) => log - {key}
    case DoReset => map[]
  }

  function PlainLog(c: Config, ops: seq<Op>): Log {
    if ops == [] then map[] else PlainStep(c, PlainLog(c, ops[..|ops| - 1]), ops[|ops| - 1])
  }

  predicate KeysWithin(t: Table, keys: set<Key>) {
    t != [] ==> t[0].key in keys && KeysWithin(t[1..], keys)
  }

  lemma {:induction false} DistinctKeysFit(t: Table, keys: set<Key>)
    requires Distinct(t) && KeysWithin(t, keys)
    ensures |t| <= |keys|
  {
    if t != [] {
      OthersStayWithin(t[1..], keys, t[0].key);
      DistinctKeysFit(t[1..], keys - {t[0].key});
    }
  }

  lemma {:induction false} OthersStayWithin(t: Table, keys: set<Key>, key: Key)
    requires KeysWithin(t, keys) && !Has(t, key)
    ensures KeysWithin(t, keys - {key})
  {
    if t != [] {
      OthersStayWithin(t[1..], keys, key);
    }
  }

  lemma {:induction false} WithoutStaysWithin(t: Table, key: Key, keys: set<Key>)
    requires KeysWithin(t, keys)
    ensures KeysWithin(Without(t, key), keys)
  {
    if t != [] {
      WithoutStaysWithin(t[1..], key, keys);
      assert t[0].key != key ==> Without(t, key)[1..] == Without(t[1..], key);
    }
  }

  lemma {:induction false} PutStaysWithin(t: Table, key: Key, events: seq<Time>, keys: set<Key>)
    requires KeysWithin(t, keys)
    ensures KeysWithin(Put(t, key, events), keys)
  {
    if t != [] {
      PutStaysWithin(t[1..], key, events, keys);
      assert Put(t, key, events)[1..] == if t[0].key == key then t[1..] else Put(t[1..], key, events);
    }
  }

  lemma {:induction false} LastStaysWithin(t: Table, e: Entry, keys: set<Key>)
    requires KeysWithin(t, keys) && e.key in keys
    ensures KeysWithin(t + [e], keys)
  {
    if t != [] {
      LastStaysWithin(t[1..], e, keys);
      assert (t + [e])[1..] == t[1..] + [e];
    } else {
      assert (t + [e])[1..] == [];
    }
  }

  lemma {:induction false} HeldKeysAreWithin(t: Table, key: Key, keys: set<Key>)
    requires KeysWithin(t, keys) && Has(t, key)
    ensures key in keys
  {
    if t[0].key != key {
      HeldKeysAreWithin(t[1..], key, keys);
    }
  }

  lemma PrunedStaysWithin(t: Table, key: Key, cutoff: Time, keys: set<Key>)
    requires KeysWithin(t, keys)
    ensures KeysWithin(Pruned(t, key, cutoff), keys)
  {
    WithoutStaysWithin(t, key, keys);
    PutStaysWithin(t, key, Live(EventsOf(t, key), cutoff), keys);
  }

  lemma MovedStaysWithin(t: Table, key: Key, events: seq<Time>, keys: set<Key>)
    requires KeysWithin(t, keys) && key in keys
    ensures KeysWithin(MovedToEnd(t, key, events), keys)
  {
    WithoutStaysWithin(t, key, keys);
    LastStaysWithin(Without(t, key), Entry(key, events), keys);
  }

  /** A check moves only keys that are held, hence within `keys`. */
  lemma CheckStaysWithin(c: Config, t: Table, key: Key, now: Time, keys: set<Key>)
    requires KeysWithin(t, keys)
    ensures KeysWithin(AfterCheck(c, t, key, now), keys)
  {
    var live := Live(EventsOf(t, key), now - c.window);
    PrunedStaysWithin(t, key, now - c.window, keys);
    if live != [] {
      if !Has(t, key) {
        AbsentIsEmpty(t, key);
      }
      HeldKeysAreWithin(t, key, keys);
      MovedStaysWithin(Pruned(t, key, now - c.window), key, live, keys);
    }
  }

  ghost predicate RecordsWithin(ops: seq<Op>, keys: set<Key>) {
    forall op <- ops :: op.DoRecord? ==> op.key in keys
  }

  lemma FewKeysStep(c: Config, s: State, op: Op, keys: set<Key>)
    requires c.Valid() && Enabled(s, op)
    requires op.DoReset? || Inv(c, s, op.key)
    requires KeysWithin(s.table, keys) && |keys| <= c.maxKeys && (op.DoRecord? ==> op.key in keys)
    ensures Step(c, s, op).log == PlainStep(c, s.log, op)
    ensures KeysWithin(Step(c, s, op).table, keys)
  {
    match op
    case DoCheck(key, now) => CheckStaysWithin(c, s.table, key, now, keys);
    case DoRecord(key, now) =>
      StateDecidesByThePlainRule(c, s, key, now);
      PrunedStaysWithin(s.table, key, now - c.window, keys);
      if !Full(c, s.table, key, now) {
        RecordEvictsNothing(c, s, key, now, keys);
      }
    case DoClear(key) => WithoutStaysWithin(s.table, key, keys);
    case DoReset =>
  }

  /** With no more keys in play than the table may hold, nothing is evicted and the limiter's log is the
      plain one: pruning, dropped keys and checks leave no trace in any later decision. */
  lemma {:induction false} FewKeysMeansThePlainLog(c: Config, ops: seq<Op>, keys: set<Key>)
    requires c.Valid() && IsRun(c, ops) && RecordsWithin(ops, keys) && |keys| <= c.maxKeys
    ensures After(c, ops).log == PlainLog(c, ops)
    ensures KeysWithin(After(c, ops).table, keys)
  {
    if ops != [] {
      var before, op := ops[..|ops| - 1], ops[|ops| - 1];
      assert op in ops && forall o <- before :: o in ops;
      FewKeysMeansThePlainLog(c, before, keys);
      if !op.DoReset? {
        RunKeepsInv(c, before, op.key);
      }
      FewKeysStep(c, After(c, before), op, keys);
    }
  }

  lemma RecordEvictsNothing(c: Config, s: State, key: Key, now: Time, keys: set<Key>)
    requires c.Valid() && TableOk(s.table, s.touch, s.steps) && !Full(c, s.table, key, now)
    requires KeysWithin(s.table, keys) && key in keys && |keys| <= c.maxKeys
    ensures KeysWithin(AfterRecord(c, s.table, key, now), keys)
    ensures Step(c, s, DoRecord(key, now)).log == s.log[key := LogOf(s.log, key) + [now]]
  {
    var t := Appended(c, s.table, key, now);
    AppendedKeepsTable(c, s, key, now);
    PrunedStaysWithin(s.table, key, now - c.window, keys);
    MovedStaysWithin(Pruned(s.table, key, now - c.window), key, Live(EventsOf(s.table, key), now - c.window) + [now], keys);
    DistinctKeysFit(t, keys);
    assert AfterRecord(c, s.table, key, now) == t;
    forall k | !Has(t, k)
      ensures EventsOf(t, k) == []
    {
      AbsentIsEmpty(t, k);
    }
  }

  // ------------------------------------------------------------ retry_after

  /** Events that all count as the log does, as many as the limit: the key opens exactly when the first
      of them leaves the window. */
  lemma FullKeyOpensWithTheOldest(c: Config, live: seq<Time>, log: seq<Time>, now: Time, later: Time)
    requires c.Valid() && EventsOk(c, live, log, now) && |live| == c.maxEvents && now <= later
    ensures CountAfter(log, later - c.window) < c.maxEvents <==> live[0] + c.window <= later
  {
    assert CountAfter(live, later - c.window) == CountAfter(log, later - c.window);
    if live[0] > later - c.window {
      AllCountAfter(live, later - c.window);
    } else {
      CountAtMost(live[1..], later - c.window);
    }
  }

  lemma {:induction false} CountAtMost(log: seq<Time>, cutoff: Time)
    ensures CountAfter(log, cutoff) <= |log|
  {
    if log != [] {
      CountAtMost(log[1..], cutoff);
    }
  }

  lemma QuotientAndRemainder(d: int, second: int)
    requires second > 0
    ensures d == (d / second) * second + d % second && 0 <= d % second < second
  {
  }

  lemma RetryAfterReachesTheOldest(c: Config, oldest: Time, now: Time)
    requires c.Valid() && now < oldest + c.window
    ensures RetryAfter(c, oldest, now) >= 1
    ensures oldest + c.window <= now + RetryAfter(c, oldest, now) * c.second
  {
    var d := c.window - (now - oldest);
    QuotientAndRemainder(d, c.second);
    assert RetryAfter(c, oldest, now) == d / c.second + 1;
    assert (d / c.second + 1) * c.second == (d / c.second) * c.second + c.second;
  }

  /** A refusal counts from the oldest event inside the window. */
  lemma RefusalIsFromTheOldest(c: Config, s: State, key: Key, now: Time)
    requires c.Valid() && Inv(c, s, key) && s.clock <= now && Full(c, s.table, key, now)
    ensures var live := Live(EventsOf(s.table, key), now - c.window);
            && EventsOk(c, live, LogOf(s.log, key), now) && |live| == c.maxEvents
            && now < live[0] + c.window
            && Decide(c, s.table, key, now) == Refused(RetryAfter(c, live[0], now))
  {
    PrunedKeepsKey(c, s.table, LogOf(s.log, key), s.clock, key, now, key);
    LiveIsCounted(EventsOf(s.table, key), now - c.window, now - c.window);
  }

  lemma StateOpensAfterRetry(c: Config, s: State, key: Key, now: Time, later: Time)
    requires c.Valid() && Inv(c, s, key) && s.clock <= now && Full(c, s.table, key, now)
    requires now + Decide(c, s.table, key, now).retryAfter * c.second <= later
    ensures Decide(c, s.table, key, now).retryAfter >= 1
    ensures Allows(c, s.log, key, later)
  {
    var live := Live(EventsOf(s.table, key), now - c.window);
    RefusalIsFromTheOldest(c, s, key, now);
    RetryAfterReachesTheOldest(c, live[0], now);
    FullKeyOpensWithTheOldest(c, live, LogOf(s.log, key), now, later);
  }

  /** Whoever waits the `retryAfter` seconds of a refusal, with nothing else accepted for the key in the
      meantime, is allowed. */
  lemma WaitingOutRetryAfterSucceeds(c: Config, ops: seq<Op>, key: Key, now: Time, later: Time)
    requires c.Valid() && IsRun(c, ops) && After(c, ops).clock <= now
    requires Decide(c, After(c, ops).table, key, now).Refused?
    requires now + Decide(c, After(c, ops).table, key, now).retryAfter * c.second <= later
    ensures Decide(c, After(c, ops).table, key, now).retryAfter >= 1
    ensures Allows(c, After(c, ops).log, key, later)
  {
    RunKeepsInv(c, ops, key);
    StateOpensAfterRetry(c, After(c, ops), key, now, later);
  }
}
