/** The in-process sliding-window limiter of backend/rate_limit.py: per key a deque of accepted
    timestamps, in a dictionary ordered by last use and bounded in size. */
module RateLimiter {
  import opened Prelude


  /** Keys are only compared for equality. */
  type Key(==,!new,0)

  /** A reading of the clock, in ticks of any length. */
  type Time = int

  /** The window and a second, both in ticks. */
  datatype Config = Config(maxEvents: nat, window: Time, maxKeys: nat, second: Time) {
    predicate Valid() {
      maxEvents > 0 && window > 0 && maxKeys > 0 && second > 0
    }
  }

  datatype Entry = Entry(key: Key, events: seq<Time>)

  /** The items of the ordered dictionary, least recently used first. */
  type Table = seq<Entry>

  datatype Decision = Allowed | Refused(retryAfter: int)

  predicate Has(t: Table, key: Key) {
    t != [] && (t[0].key == key || Has(t[1..], key))
  }

  predicate Distinct(t: Table) {
    t != [] ==> !Has(t[1..], t[0].key) && Distinct(t[1..])
  }

  function EventsOf(t: Table, key: Key): seq<Time> {
    if t == [] then [] else if t[0].key == key then t[0].events else EventsOf(t[1..], key)
  }

  function Without(t: Table, key: Key): Table {
    if t == [] then [] else if t[0].key == key then Without(t[1..], key) else [t[0]] + Without(t[1..], key)
  }

  function Put(t: Table, key: Key, events: seq<Time>): Table {
    if t == [] then [] else if t[0].key == key then [Entry(key, events)] + t[1..] else [t[0]] + Put(t[1..], key, events)
  }

  /** The entry moved to the recently used end, with these events. */
  function MovedToEnd(t: Table, key: Key, events: seq<Time>): Table {
    Without(t, key) + [Entry(key, events)]
  }

  /** The timestamps that are still inside the window. */
  function Live(events: seq<Time>, cutoff: Time): seq<Time> {
    if events != [] && events[0] <= cutoff then Live(events[1..], cutoff) else events
  }

  function Pruned(t: Table, key: Key, cutoff: Time): Table {
    var live := Live(EventsOf(t, key), cutoff);
    if live == [] then Without(t, key) else Put(t, key, live)
  }

  /** The refusal of the source: `int(window - (now - oldest)) + 1`, at least 1. */
  function RetryAfter(c: Config, oldest: Time, now: Time): int
    requires c.Valid()
  {
    var seconds := (c.window - (now - oldest)) / c.second + 1;
    if seconds < 1 then 1 else seconds
  }

  predicate Full(c: Config, t: Table, key: Key, now: Time) {
    |Live(EventsOf(t, key), now - c.window)| >= c.maxEvents
  }

  function Decide(c: Config, t: Table, key: Key, now: Time): Decision
    requires c.Valid()
  {
    if Full(c, t, key, now) then Refused(RetryAfter(c, Live(EventsOf(t, key), now - c.window)[0], now)) else Allowed
  }

  function AfterCheck(c: Config, t: Table, key: Key, now: Time): Table {
    var live := Live(EventsOf(t, key), now - c.window);
    var pruned := Pruned(t, key, now - c.window);
    if Full(c, t, key, now) || live == [] then pruned else MovedToEnd(pruned, key, live)
  }

  function Appended(c: Config, t: Table, key: Key, now: Time): Table {
    MovedToEnd(Pruned(t, key, now - c.window), key, Live(EventsOf(t, key), now - c.window) + [now])
  }

  function AfterRecord(c: Config, t: Table, key: Key, now: Time): Table {
    if Full(c, t, key, now) then Pruned(t, key, now - c.window) else Evicted(c, Appended(c, t, key, now), now)
  }

  predicate Dead(events: seq<Time>, cutoff: Time) {
    events == [] || events[|events| - 1] <= cutoff
  }

  function Swept(t: Table, cutoff: Time): Table {
    if t == [] then []
    else if Dead(t[0].events, cutoff) then Swept(t[1..], cutoff)
    else [t[0]] + Swept(t[1..], cutoff)
  }

  /** The last `n` entries. */
  function Latest(t: Table, n: nat): Table {
    if |t| <= n then t else Latest(t[1..], n)
  }

  function Evicted(c: Config, t: Table, now: Time): Table {
    if |t| <= c.maxKeys then t else Latest(Swept(t, now - c.window), c.maxKeys)
  }

  /** The source's object. Its lock makes each method one step. */
  class SlidingWindowLimiter {
    const config: Config
    var entries: Table

    ghost predicate Valid()
      reads this
    {
      config.Valid() && Distinct(entries)
    }

    constructor (config: Config)
      requires config.Valid()
      ensures this.config == config && Valid() && entries == []
    {
      this.config := config;
      entries := [];
    }

    method Prune(key: Key, now: Time) returns (events: seq<Time>)
      requires Valid()
      modifies this
      ensures entries == Pruned(old(entries), key, now - config.window) && Valid()
      ensures events == Live(EventsOf(old(entries), key), now - config.window)
    {
      PrunedIsDistinct(entries, key, now - config.window);
      var cutoff := now - config.window;
      events := EventsOf(entries, key);
      while events != [] && events[0] <= cutoff
        invariant Live(events, cutoff) == Live(EventsOf(entries, key), cutoff)
        decreases |events|
      {
        events := events[1..];
      }
      entries := if events == [] then Without(entries, key) else Put(entries, key, events);
    }

    method Check(key: Key, now: Time) returns (d: Decision)
      requires Valid()
      modifies this
      ensures entries == AfterCheck(config, old(entries), key, now) && Valid()
      ensures d == Decide(config, old(entries), key, now)
    {
      var events := Prune(key, now);
      if |events| >= config.maxEvents {
        return Refused(RetryAfter(config, events[0], now));
      }
      if events != [] {
        MovedIsDistinct(entries, key, events);
        entries := Without(entries, key) + [Entry(key, events)];
      }
      d := Allowed;
    }

    method Record(key: Key, now: Time) returns (d: Decision)
      requires Valid()
      modifies this
      ensures entries == AfterRecord(config, old(entries), key, now) && Valid()
      ensures d == Decide(config, old(entries), key, now)
    {
      var events := Prune(key, now);
      if |events| >= config.maxEvents {
        return Refused(RetryAfter(config, events[0], now));
      }
      events := events + [now];
      MovedIsDistinct(entries, key, events);
      entries := Without(entries, key) + [Entry(key, events)];
      EvictIfNeeded(now);
      d := Allowed;
    }

    method Clear(key: Key)
      requires Valid()
      modifies this
      ensures entries == Without(old(entries), key) && Valid()
    {
      WithoutIsDistinct(entries, key);
      entries := Without(entries, key);
    }

    method Reset()
      requires Valid()
      modifies this
      ensures entries == [] && Valid()
    {
      entries := [];
    }

    /** The dead entries go first, listed before any is deleted; then the least recently used. */
    method EvictIfNeeded(now: Time)
      requires Valid()
      modifies this
      ensures entries == Evicted(config, old(entries), now) && Valid()
    {
      if |entries| <= config.maxKeys {
        return;
      }
      var cutoff := now - config.window;
      var dead := [];
      for i := 0 to |entries|
        invariant dead == DeadKeys(entries[..i], cutoff)
      {
        assert entries[..i + 1][..i] == entries[..i];
        if Dead(entries[i].events, cutoff) {
          dead := dead + [entries[i].key];
        }
      }
      assert entries[..|entries|] == entries;
      DeletingTheDeadSweeps(entries, cutoff);
      for i := 0 to |dead|
        invariant Distinct(entries) && DeleteAll(entries, dead[i..]) == Swept(old(entries), cutoff)
      {
        assert dead[i..][1..] == dead[i + 1..];
        WithoutIsDistinct(entries, dead[i]);
        entries := Without(entries, dead[i]);
      }
      while |entries| > config.maxKeys
        invariant Distinct(entries)
        invariant Latest(entries, config.maxKeys) == Latest(Swept(old(entries), cutoff), config.maxKeys)
        decreases |entries|
      {
        entries := entries[1..];
      }
    }
  }

  /** The source's constructor refuses values that are not positive. */
  method NewLimiter(config: Config) returns (limiter: Option<SlidingWindowLimiter>)
    requires config.second > 0
    ensures limiter.Some? <==> config.maxEvents > 0 && config.window > 0 && config.maxKeys > 0
    ensures limiter.Some? ==>
              fresh(limiter.value) && limiter.value.config == config && limiter.value.Valid() && limiter.value.entries == []
  {
    if config.maxEvents <= 0 || config.window <= 0 || config.maxKeys <= 0 {
      return None;
    }
    var made := new SlidingWindowLimiter(config);
    limiter := Some(made);
  }

  // --------------------------------------------------------- dictionary laws

  lemma {:induction false} LookupWithout(t: Table, key: Key, k: Key)
    ensures Has(Without(t, key), k) <==> Has(t, k) && k != key
    ensures EventsOf(Without(t, key), k) == if k == key then [] else EventsOf(t, k)
  {
    if t != [] {
      LookupWithout(t[1..], key, k);
      if t[0].key != key {
        assert Without(t, key)[1..] == Without(t[1..], key);
      }
    }
  }

  lemma {:induction false} LookupPut(t: Table, key: Key, events: seq<Time>, k: Key)
    ensures Has(Put(t, key, events), k) <==> Has(t, k)
    ensures EventsOf(Put(t, key, events), k) == if k == key && Has(t, key) then events else EventsOf(t, k)
  {
    if t != [] {
      LookupPut(t[1..], key, events, k);
      if t[0].key != key {
        assert Put(t, key, events)[1..] == Put(t[1..], key, events);
      }
    }
  }

  lemma {:induction false} LookupLast(t: Table, e: Entry, k: Key)
    ensures Has(t + [e], k) <==> Has(t, k) || k == e.key
    ensures EventsOf(t + [e], k) == if Has(t, k) then EventsOf(t, k) else if k == e.key then e.events else []
  {
    if t != [] {
      LookupLast(t[1..], e, k);
      assert (t + [e])[1..] == t[1..] + [e];
    } else {
      assert (t + [e])[1..] == [];
    }
  }

  lemma {:induction false} AbsentIsEmpty(t: Table, key: Key)
    requires !Has(t, key)
    ensures EventsOf(t, key) == [] && Without(t, key) == t
  {
    if t != [] {
      AbsentIsEmpty(t[1..], key);
    }
  }

  lemma {:induction false} WithoutIsDistinct(t: Table, key: Key)
    requires Distinct(t)
    ensures Distinct(Without(t, key))
  {
    if t != [] {
      WithoutIsDistinct(t[1..], key);
      if t[0].key != key {
        LookupWithout(t[1..], key, t[0].key);
        assert Without(t, key)[1..] == Without(t[1..], key);
      }
    }
  }

  lemma {:induction false} PutIsDistinct(t: Table, key: Key, events: seq<Time>)
    requires Distinct(t)
    ensures Distinct(Put(t, key, events))
  {
    if t != [] && t[0].key != key {
      PutIsDistinct(t[1..], key, events);
      LookupPut(t[1..], key, events, t[0].key);
      assert Put(t, key, events)[1..] == Put(t[1..], key, events);
    }
  }

  lemma {:induction false} LastIsDistinct(t: Table, e: Entry)
    requires Distinct(t) && !Has(t, e.key)
    ensures Distinct(t + [e])
  {
    if t != [] {
      LastIsDistinct(t[1..], e);
      LookupLast(t[1..], e, t[0].key);
      assert (t + [e])[1..] == t[1..] + [e];
    }
  }

  lemma PrunedIsDistinct(t: Table, key: Key, cutoff: Time)
    requires Distinct(t)
    ensures Distinct(Pruned(t, key, cutoff))
  {
    WithoutIsDistinct(t, key);
    PutIsDistinct(t, key, Live(EventsOf(t, key), cutoff));
  }

  lemma MovedIsDistinct(t: Table, key: Key, events: seq<Time>)
    requires Distinct(t)
    ensures Distinct(MovedToEnd(t, key, events))
  {
    WithoutIsDistinct(t, key);
    LookupWithout(t, key, key);
    LastIsDistinct(Without(t, key), Entry(key, events));
  }

  function DeadKeys(t: Table, cutoff: Time): seq<Key> {
    if t == [] then []
    else DeadKeys(t[..|t| - 1], cutoff) + if Dead(t[|t| - 1].events, cutoff) then [t[|t| - 1].key] else []
  }

  function DeleteAll(t: Table, keys: seq<Key>): Table
    decreases |keys|
  {
    if keys == [] then t else DeleteAll(Without(t, keys[0]), keys[1..])
  }

  lemma {:induction false} DeadKeysFromTheFront(t: Table, cutoff: Time)
    requires t != []
    ensures DeadKeys(t, cutoff) == (if Dead(t[0].events, cutoff) then [t[0].key] else []) + DeadKeys(t[1..], cutoff)
  {
    if |t| > 1 {
      DeadKeysFromTheFront(t[..|t| - 1], cutoff);
      assert t[..|t| - 1][1..] == t[1..][..|t| - 2];
    }
  }

  lemma {:induction false} DeadKeysAreThere(t: Table, cutoff: Time)
    ensures forall k <- DeadKeys(t, cutoff) :: Has(t, k)
  {
    if t != [] {
      DeadKeysFromTheFront(t, cutoff);
      DeadKeysAreThere(t[1..], cutoff);
    }
  }

  lemma {:induction false} DeleteAllKeepsFirst(t: Table, keys: seq<Key>)
    requires t != [] && t[0].key !in keys
    ensures DeleteAll(t, keys) == [t[0]] + DeleteAll(t[1..], keys)
    decreases |keys|
  {
    if keys != [] {
      assert keys[0] in keys && forall k <- keys[1..] :: k in keys;
      assert Without(t, keys[0])[1..] == Without(t[1..], keys[0]);
      DeleteAllKeepsFirst(Without(t, keys[0]), keys[1..]);
    }
  }

  /** Deleting the dead keys one by one leaves the live entries in their order. */
  lemma {:induction false} DeletingTheDeadSweeps(t: Table, cutoff: Time)
    requires Distinct(t)
    ensures DeleteAll(t, DeadKeys(t, cutoff)) == Swept(t, cutoff)
  {
    if t != [] {
      DeadKeysFromTheFront(t, cutoff);
      DeadKeysAreThere(t[1..], cutoff);
      DeletingTheDeadSweeps(t[1..], cutoff);
      var rest := DeadKeys(t[1..], cutoff);
      if Dead(t[0].events, cutoff) {
        assert DeadKeys(t, cutoff)[1..] == rest;
        AbsentIsEmpty(t[1..], t[0].key);
      } else {
        assert DeadKeys(t, cutoff) == rest;
        assert t[0].key !in rest;
        DeleteAllKeepsFirst(t, rest);
      }
    }
  }
}
