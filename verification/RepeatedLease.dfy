/** A run in which one lease is written twice, so that a renewal and a claim that started from the same row
    can both land: a worker is closed while it renews, starts again, and reclaims its job at the very reading
    of the clock that its leftover call still carries. */
module RepeatedLease {
  import opened Prelude
  import opened JobTable
  import opened LeaseProtocol
  import opened LeaseTheorems
  import opened Text

  const LATER: nat := 100_000_000

  function Showing(t: Table, id: JobId): Candidate
    requires id in t
  {
    Candidate(id, t[id].queue, t[id].lease)
  }

  /** A worker between two claims, and a table of one row that it could claim. */
  ghost predicate CanClaim(acts: seq<Action>, w: WorkerId, id: JobId) {
    && IsRun(acts)
    && var s := After(acts);
       w in s.pcs && s.pcs[w].Idle? && s.jobs.Keys == {id} && Eligible(s.jobs[id], s.clock)
  }

  lemma Extend(acts: seq<Action>, a: Action)
    requires IsRun(acts) && Enabled(After(acts), a)
    ensures IsRun(acts + [a]) && After(acts + [a]) == Step(After(acts), a)
  {
    var more := acts + [a];
    assert more != [] && more[..|more| - 1] == acts && more[|more| - 1] == a;
  }

  lemma Run2(acts: seq<Action>, a: Action, b: Action)
    requires IsRun(acts) && Enabled(After(acts), a) && Enabled(Step(After(acts), a), b)
    ensures IsRun(acts + [a, b]) && After(acts + [a, b]) == Step(Step(After(acts), a), b)
  {
    Extend(acts, a);
    Extend(acts + [a], b);
    assert acts + [a] + [b] == acts + [a, b];
  }

  /** From between two claims to the answer of the query. */
  function Queries(w: WorkerId, c: Candidate): seq<Action> {
    [WorkerMove(w, Go([])), WorkerMove(w, Go([c]))]
  }

  lemma Asks(s: State, w: WorkerId, id: JobId)
    requires w in s.pcs && s.pcs[w].Idle? && s.jobs.Keys == {id} && Eligible(s.jobs[id], s.clock)
    ensures var first, second := WorkerMove(w, Go([])), WorkerMove(w, Go([Showing(s.jobs, id)]));
            && Enabled(s, first) && Enabled(Step(s, first), second)
            && Step(Step(s, first), second) == s.(pcs := s.pcs[w := Queried(s.clock, [Showing(s.jobs, id)])])
  {
    assert Listed([Showing(s.jobs, id)], id);
    Rebound(s.pcs, w, Clocked(s.clock), Queried(s.clock, [Showing(s.jobs, id)]));
    assert s.log + [] == s.log;
  }

  lemma QueryRound(acts: seq<Action>, w: WorkerId, id: JobId)
    requires CanClaim(acts, w, id)
    ensures var s := After(acts);
            var c := Showing(s.jobs, id);
            && IsRun(acts + Queries(w, c))
            && After(acts + Queries(w, c)) == s.(pcs := s.pcs[w := Queried(s.clock, [c])])
  {
    var s := After(acts);
    Asks(s, w, id);
    Run2(acts, WorkerMove(w, Go([])), WorkerMove(w, Go([Showing(s.jobs, id)])));
  }

  function Claim(w: WorkerId, c: Candidate): seq<Action> {
    Queries(w, c) + [WorkerMove(w, Go([])), WorkerMove(w, Go([]))]
  }

  lemma QueriedClaims(s: State, w: WorkerId, c: Candidate)
    requires w in s.pcs && s.pcs[w] == Queried(s.clock, [c]) && ClaimMatches(s.jobs, c)
    ensures var go := WorkerMove(w, Go([]));
            && Enabled(s, go) && Enabled(Step(s, go), go)
            && Step(Step(s, go), go) == s.(
               pcs := s.pcs[w := Executing(c.id, s.clock)],
               jobs := s.jobs[c.id := Claimed(s.jobs[c.id], w, s.clock, s.clock)],
               threads := s.threads + {(w, c.id)},
               log := s.log + [ClaimedBy(c.id, w, s.clock)])
  {
    assert s.pcs[w := Claiming(s.clock, s.clock, [c])][w := Executing(c.id, s.clock)] == s.pcs[w := Executing(c.id, s.clock)];
    assert s.log + [] == s.log;
  }

  lemma ClaimRound(acts: seq<Action>, w: WorkerId, id: JobId)
    requires CanClaim(acts, w, id)
    ensures var s := After(acts);
            var c := Showing(s.jobs, id);
            && IsRun(acts + Claim(w, c))
            && After(acts + Claim(w, c)) == s.(
               pcs := s.pcs[w := Executing(id, s.clock)],
               jobs := s.jobs[id := Claimed(s.jobs[id], w, s.clock, s.clock)],
               threads := s.threads + {(w, id)},
               log := s.log + [ClaimedBy(id, w, s.clock)])
  {
    var s := After(acts);
    var c := Showing(s.jobs, id);
    QueryRound(acts, w, id);
    var queried, go := acts + Queries(w, c), WorkerMove(w, Go([]));
    QueriedClaims(After(queried), w, c);
    Run2(queried, go, go);
    ConcatIsAssociative(acts, Queries(w, c), [go, go]);
    Rebound(s.pcs, w, Queried(s.clock, [c]), Executing(id, s.clock));
  }

  /** A worker works, starts a renewal, is closed before it lands, and starts again. */
  function Abandon(w: WorkerId): seq<Action> {
    [Tick(LATER), WorkerMove(w, Beat), Close(w), Start(w)]
  }

  ghost predicate Works(s: State, w: WorkerId, id: JobId) {
    w in s.pcs && s.pcs[w] == Executing(id, s.clock)
  }

  function Abandoned(s: State, w: WorkerId, id: JobId): State {
    var at := s.clock + LATER;
    s.(clock := at, pcs := s.pcs[w := Idle], orphans := s.orphans + [Orphan(w, Renewing(id, at))])
  }

  lemma Run4(acts: seq<Action>, a: Action, b: Action, c: Action, d: Action)
    requires IsRun(acts)
    requires var s := After(acts);
             && Enabled(s, a) && Enabled(Step(s, a), b) && Enabled(Step(Step(s, a), b), c)
             && Enabled(Step(Step(Step(s, a), b), c), d)
    ensures IsRun(acts + [a, b, c, d])
    ensures After(acts + [a, b, c, d]) == Step(Step(Step(Step(After(acts), a), b), c), d)
  {
    Run2(acts, a, b);
    Run2(acts + [a, b], c, d);
    ConcatIsAssociative(acts, [a, b], [c, d]);
    assert [a, b] + [c, d] == [a, b, c, d];
  }

  lemma AbandonSteps(s: State, w: WorkerId, id: JobId)
    requires Works(s, w, id)
    ensures var s1 := Step(s, Tick(LATER));
            var s2 := Step(s1, WorkerMove(w, Beat));
            var s3 := Step(s2, Close(w));
            && Enabled(s1, WorkerMove(w, Beat)) && Enabled(s2, Close(w)) && Enabled(s3, Start(w))
            && Step(s3, Start(w)) == Abandoned(s, w, id)
  {
    var at := s.clock + LATER;
    assert s.pcs[w := Renewing(id, at)][w := Stopped][w := Idle] == s.pcs[w := Idle];
    assert s.log + [] == s.log;
  }

  lemma AbandonRound(acts: seq<Action>, w: WorkerId, id: JobId)
    requires IsRun(acts) && Works(After(acts), w, id)
    ensures IsRun(acts + Abandon(w)) && After(acts + Abandon(w)) == Abandoned(After(acts), w, id)
  {
    AbandonSteps(After(acts), w, id);
    Run4(acts, Tick(LATER), WorkerMove(w, Beat), Close(w), Start(w));
  }

  /** The worker owns the job under a lease that its own leftover call is about to write again. */
  ghost predicate Haunted(s: State, w: WorkerId, id: JobId) {
    && s.jobs.Keys == {id} && Owns(s.jobs, id, w)
    && s.jobs[id].lease == Some(s.clock + LEASE)
    && s.orphans == [Orphan(w, Renewing(id, s.clock))]
  }

  lemma OneWorkerIsReachable(w: WorkerId, id: JobId) returns (acts: seq<Action>)
    ensures IsRun(acts) && Works(After(acts), w, id) && After(acts).pcs.Keys == {w}
    ensures var s := After(acts);
            && s.orphans == [] && s.jobs.Keys == {id} && Owns(s.jobs, id, w) && s.jobs[id].lease == Some(s.clock + LEASE)
  {
    var create, start := CreateRun(id, "", map[]), Start(w);
    Extend([], create);
    Extend([] + [create], start);
    acts := [] + [create] + [start];
    ClaimRound(acts, w, id);
    acts := acts + Claim(w, Showing(After(acts).jobs, id));
  }

  lemma HauntedIsReachable(w: WorkerId, id: JobId) returns (acts: seq<Action>)
    ensures IsRun(acts) && Haunted(After(acts), w, id) && After(acts).pcs.Keys == {w}
  {
    acts := OneWorkerIsReachable(w, id);
    AbandonRound(acts, w, id);
    acts := acts + Abandon(w);
    ClaimRound(acts, w, id);
    acts := acts + Claim(w, Showing(After(acts).jobs, id));
  }

  /** A rival starts and waits until the lease has run out. */
  lemma RivalWaits(acts: seq<Action>, w: WorkerId, v: WorkerId, id: JobId)
    requires IsRun(acts) && Haunted(After(acts), w, id) && v !in After(acts).pcs
    ensures var s, more := After(acts), acts + [Start(v), Tick(LATER)];
            After(more) == s.(clock := s.clock + LATER, pcs := s.pcs[v := Idle]) && CanClaim(more, v, id)
  {
    Run2(acts, Start(v), Tick(LATER));
  }

  /** Then it asks for jobs. */
  lemma RivalQueries(acts: seq<Action>, w: WorkerId, v: WorkerId, id: JobId) returns (more: seq<Action>)
    requires IsRun(acts) && Haunted(After(acts), w, id) && v !in After(acts).pcs
    ensures var s := After(acts);
            var c := Showing(s.jobs, id);
            && IsRun(more)
            && After(more) == s.(clock := s.clock + LATER, pcs := s.pcs[v := Queried(s.clock + LATER, [c])])
  {
    var s := After(acts);
    RivalWaits(acts, w, v, id);
    more := acts + [Start(v), Tick(LATER)];
    QueryRound(more, v, id);
    more := more + Queries(v, Showing(s.jobs, id));
    Rebound(s.pcs, v, Idle, Queried(s.clock + LATER, [Showing(s.jobs, id)]));
  }

  /** The leftover renewal lands and leaves the lease as it was; the rival's claim lands after it. */
  lemma BothLand(s: State, w: WorkerId, v: WorkerId, id: JobId, stamp: Time)
    requires s.jobs.Keys == {id} && Owns(s.jobs, id, w) && s.jobs[id].lease == Some(stamp + LEASE)
    requires s.orphans == [Orphan(w, Renewing(id, stamp))]
    requires v in s.pcs && s.pcs[v] == Queried(s.clock, [Showing(s.jobs, id)])
    ensures var orphan, go := OrphanMove(0, Go([])), WorkerMove(v, Go([]));
            var s1 := Step(s, orphan);
            && Enabled(s, orphan) && Enabled(s1, go) && Enabled(Step(s1, go), go)
            && Step(Step(s1, go), go).log == s.log + [RenewedBy(id, w, stamp), ClaimedBy(id, v, s.clock)]
  {
    var s1 := Step(s, OrphanMove(0, Go([])));
    assert s1.log == s.log + [RenewedBy(id, w, stamp)];
    QueriedClaims(s1, v, Showing(s.jobs, id));
  }

  lemma BothLandNext(asked: seq<Action>, w: WorkerId, v: WorkerId, id: JobId, stamp: Time) returns (acts: seq<Action>)
    requires IsRun(asked)
    requires var s := After(asked);
             && s.jobs.Keys == {id} && Owns(s.jobs, id, w) && s.jobs[id].lease == Some(stamp + LEASE)
             && s.orphans == [Orphan(w, Renewing(id, stamp))]
             && v in s.pcs && s.pcs[v] == Queried(s.clock, [Showing(s.jobs, id)])
    ensures IsRun(acts) && asked <= acts
    ensures After(acts).log == After(asked).log + [RenewedBy(id, w, stamp), ClaimedBy(id, v, After(asked).clock)]
  {
    var orphan, go := OrphanMove(0, Go([])), WorkerMove(v, Go([]));
    BothLand(After(asked), w, v, id, stamp);
    Extend(asked, orphan);
    Run2(asked + [orphan], go, go);
    acts := asked + [orphan] + [go, go];
  }

  /** From one snapshot of a row, a renewal and a claim of two different workers both land: a run in which
      the same lease is written twice exists. */
  lemma RenewalAndClaimCanBothLand(w: WorkerId, v: WorkerId, id: JobId) returns (acts: seq<Action>, i: nat, c: Candidate)
    requires w != v
    ensures IsRun(acts) && i <= |acts| && c.id == id && c.queue == Processing && Shows(StateAt(acts, i).jobs, c)
    ensures exists stamp, later ::
              After(acts).log == StateAt(acts, i).log + [RenewedBy(id, w, stamp), ClaimedBy(id, v, later)]
  {
    acts := HauntedIsReachable(w, id);
    var stamp := After(acts).clock;
    acts := RivalQueries(acts, w, v, id);
    var asked := acts;
    i, c := |acts|, Showing(After(acts).jobs, id);
    acts := BothLandNext(asked, w, v, id, stamp);
    assert acts[..i] == asked;
  }
}
