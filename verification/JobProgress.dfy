/** The queue never jams: whatever state a run has reached, one restarted worker can give every unfinished
    job its outcome. */
module JobProgress {
  import opened Prelude
  import opened Text
  import opened JobTable
  import opened LeaseProtocol
  import opened RepeatedLease

  // ------------------------------------------------- the claim query has an answer

  lemma FirstToStart(t: Table, ids: set<JobId>) returns (first: JobId)
    requires ids != {} && ids <= t.Keys
    ensures first in ids && forall id <- ids :: t[first].startedAt <= t[id].startedAt
    decreases ids
  {
    first :| first in ids;
    if ids != {first} {
      assert ids - {first} != {};
      var other := FirstToStart(t, ids - {first});
      first := if t[other].startedAt < t[first].startedAt then other else first;
    }
  }

  lemma SelectTheRest(cands: seq<Candidate>, rest: set<JobId>, t: Table, now: Time) returns (found: seq<Candidate>)
    requires |cands| <= CANDIDATE_LIMIT && Selecting(cands, rest, t, now)
    ensures IsSnapshot(found, t, now) && (cands != [] || rest != {} ==> found != [])
    decreases rest
  {
    if rest == {} || |cands| == CANDIDATE_LIMIT {
      found := cands;
    } else {
      var first := FirstToStart(t, rest);
      var c := Candidate(first, t[first].queue, t[first].lease);
      SelectOne(cands, rest, t, now, c);
      found := SelectTheRest(cands + [c], rest - {first}, t, now);
    }
  }

  // ------------------------------------------------------------- one job served

  function Round(w: WorkerId, found: seq<Candidate>, error: Option<string>): seq<Action> {
    Asking(w, found) + Trying(w) + [WorkerMove(w, Complete(error))]
  }

  function Asking(w: WorkerId, found: seq<Candidate>): seq<Action> {
    [WorkerMove(w, Go([])), WorkerMove(w, Go(found))]
  }

  function Trying(w: WorkerId): seq<Action> {
    [WorkerMove(w, Go([])), WorkerMove(w, Go([]))]
  }

  /** A worker between two claims, which the query answers with some candidates. */
  ghost predicate Asks(s: State, w: WorkerId, found: seq<Candidate>) {
    w in s.pcs && s.pcs[w].Idle? && found != [] && IsSnapshot(found, s.jobs, s.clock)
  }

  function WithFound(s: State, w: WorkerId, found: seq<Candidate>): State {
    s.(pcs := s.pcs[w := Queried(s.clock, found)])
  }

  function WithClaim(s: State, w: WorkerId, id: JobId): State
    requires id in s.jobs
  {
    s.(pcs := s.pcs[w := Executing(id, s.clock)],
       jobs := s.jobs[id := Claimed(s.jobs[id], w, s.clock, s.clock)],
       threads := s.threads + {(w, id)},
       log := s.log + [ClaimedBy(id, w, s.clock)])
  }

  lemma AskingSteps(acts: seq<Action>, w: WorkerId, found: seq<Candidate>)
    requires IsRun(acts) && Asks(After(acts), w, found)
    ensures IsRun(acts + Asking(w, found)) && After(acts + Asking(w, found)) == WithFound(After(acts), w, found)
  {
    var s := After(acts);
    Rebound(s.pcs, w, Clocked(s.clock), Queried(s.clock, found));
    assert s.log + [] == s.log;
    Run2(acts, WorkerMove(w, Go([])), WorkerMove(w, Go(found)));
  }

  lemma TryingSteps(acts: seq<Action>, s: State, w: WorkerId, found: seq<Candidate>)
    requires Asks(s, w, found) && IsRun(acts) && After(acts) == WithFound(s, w, found)
    ensures found[0].id in s.jobs
    ensures IsRun(acts + Trying(w)) && After(acts + Trying(w)) == WithClaim(s, w, found[0].id)
  {
    assert found[0] in found && Shows(s.jobs, found[0]);
    Rebound(s.pcs, w, Queried(s.clock, found), Claiming(s.clock, s.clock, found));
    Rebound(s.pcs, w, Claiming(s.clock, s.clock, found), Executing(found[0].id, s.clock));
    assert s.log + [] == s.log;
    Run2(acts, WorkerMove(w, Go([])), WorkerMove(w, Go([])));
  }

  /** The one job has the outcome of its execution, and everything else is as it was. */
  ghost predicate Leaves(s: State, t: State, id: JobId, error: Option<string>) {
    && id in s.jobs && t.clock == s.clock && t.pcs == s.pcs && t.jobs.Keys == s.jobs.Keys
    && OutcomeIs(t.jobs[id], error)
    && forall j <- s.jobs :: j != id ==> t.jobs[j] == s.jobs[j]
  }

  lemma CompletingStep(acts: seq<Action>, s: State, w: WorkerId, id: JobId, error: Option<string>)
    requires w in s.pcs && s.pcs[w].Idle? && id in s.jobs && IsRun(acts) && After(acts) == WithClaim(s, w, id)
    ensures var more := acts + [WorkerMove(w, Complete(error))]; IsRun(more) && Leaves(s, After(more), id, error)
  {
    Extend(acts, WorkerMove(w, Complete(error)));
    Rebound(s.pcs, w, Executing(id, s.clock), Idle);
    assert s.pcs[w := Idle] == s.pcs;
  }

  /** A round: the oldest candidate is claimed, executed, and finished with the error given. */
  lemma OneRound(acts: seq<Action>, w: WorkerId, found: seq<Candidate>, error: Option<string>)
    requires IsRun(acts) && Asks(After(acts), w, found)
    ensures var more := acts + Round(w, found, error);
            IsRun(more) && Leaves(After(acts), After(more), found[0].id, error)
  {
    var s := After(acts);
    AskingSteps(acts, w, found);
    TryingSteps(acts + Asking(w, found), s, w, found);
    CompletingStep(acts + Asking(w, found) + Trying(w), s, w, found[0].id, error);
    ConcatIsAssociative(acts, Asking(w, found), Trying(w));
    ConcatIsAssociative(acts, Asking(w, found) + Trying(w), [WorkerMove(w, Complete(error))]);
  }

  // ------------------------------------------------------------ every job served

  function Unfinished(t: Table): set<JobId> {
    set id | id in t && !Terminal(t[id])
  }

  /** Finished rows stay as they are, and every other gets the outcome of its execution. */
  ghost predicate Served(before: Table, after: Table, errors: JobId -> Option<string>) {
    && after.Keys == before.Keys
    && forall id <- before :: if Terminal(before[id]) then after[id] == before[id] else OutcomeIs(after[id], errors(id))
  }

  /** A worker between two claims, while no lease is running. */
  ghost predicate Ready(s: State, w: WorkerId) {
    w in s.pcs && s.pcs[w].Idle? && forall id <- s.jobs :: !Terminal(s.jobs[id]) ==> Eligible(s.jobs[id], s.clock)
  }

  /** Nothing but time and the one worker. */
  predicate Alone(acts: seq<Action>, w: WorkerId) {
    forall a <- acts :: a.Tick? || a == Close(w) || a == Start(w) || (a.WorkerMove? && a.worker == w)
  }

  lemma ServedOneMore(s: State, t: State, w: WorkerId, after: Table, id: JobId, errors: JobId -> Option<string>)
    requires Leaves(s, t, id, errors(id)) && id in Unfinished(s.jobs)
    ensures Unfinished(t.jobs) < Unfinished(s.jobs)
    ensures Ready(s, w) ==> Ready(t, w)
    ensures Served(t.jobs, after, errors) ==> Served(s.jobs, after, errors)
  {
    assert id !in Unfinished(t.jobs);
  }

  lemma AloneTogether(a: seq<Action>, b: seq<Action>, w: WorkerId)
    requires Alone(a, w) && Alone(b, w)
    ensures Alone(a + b, w)
  {
    assert forall x <- a + b :: x in a || x in b;
  }

  lemma AskForAll(s: State, w: WorkerId) returns (found: seq<Candidate>)
    requires Ready(s, w) && Unfinished(s.jobs) != {}
    ensures Asks(s, w, found) && found[0].id in Unfinished(s.jobs)
  {
    found := SelectTheRest([], Unfinished(s.jobs), s.jobs, s.clock);
    assert found[0] in found && Shows(s.jobs, found[0]) && Eligible(s.jobs[found[0].id], s.clock);
  }

  lemma RoundIsAlone(w: WorkerId, found: seq<Candidate>, error: Option<string>)
    ensures Alone(Round(w, found, error), w)
  {
  }

  lemma ServeOne(acts: seq<Action>, s: State, w: WorkerId, errors: JobId -> Option<string>)
    returns (round: seq<Action>, id: JobId)
    requires IsRun(acts) && s == After(acts) && Ready(s, w) && Unfinished(s.jobs) != {}
    ensures IsRun(acts + round) && Alone(round, w)
    ensures Leaves(s, After(acts + round), id, errors(id)) && id in Unfinished(s.jobs)
  {
    var found := AskForAll(s, w);
    id := found[0].id;
    round := Round(w, found, errors(id));
    OneRound(acts, w, found, errors(id));
    RoundIsAlone(w, found, errors(id));
  }

  lemma NothingToServe(t: Table, errors: JobId -> Option<string>)
    requires Unfinished(t) == {}
    ensures Served(t, t, errors)
  {
    assert forall id <- t :: !Terminal(t[id]) ==> id in Unfinished(t);
  }

  lemma {:induction false} ServeAll(acts: seq<Action>, s: State, w: WorkerId, errors: JobId -> Option<string>)
    returns (more: seq<Action>)
    requires IsRun(acts) && s == After(acts) && Ready(s, w)
    ensures IsRun(acts + more) && Alone(more, w)
    ensures Served(s.jobs, After(acts + more).jobs, errors)
    decreases Unfinished(s.jobs)
  {
    if Unfinished(s.jobs) == {} {
      more := [];
      assert acts + more == acts;
      NothingToServe(s.jobs, errors);
    } else {
      var round, id := ServeOne(acts, s, w, errors);
      var t := After(acts + round);
      ServedOneMore(s, t, w, t.jobs, id, errors);
      var rest := ServeAll(acts + round, t, w, errors);
      more := round + rest;
      ConcatIsAssociative(acts, round, rest);
      ServedOneMore(s, t, w, After(acts + more).jobs, id, errors);
      AloneTogether(round, rest, w);
    }
  }

  function Restart(s: State, w: WorkerId): seq<Action> {
    (if w in s.pcs then [Close(w)] else []) + [Start(w), Tick(LEASE + 1)]
  }

  lemma NoLeaseOutlivesItself(s: State, w: WorkerId, pcs: map<WorkerId, PC>, orphans: seq<Orphan>)
    requires Inv(s) && w in pcs && pcs[w].Idle?
    ensures Ready(s.(clock := s.clock + LEASE + 1, pcs := pcs, orphans := orphans), w)
  {
    assert forall id <- s.jobs :: RowOk(s.jobs[id], id, s.log, s.clock);
  }

  lemma Restarted(acts: seq<Action>, s: State, w: WorkerId)
    requires IsRun(acts) && s == After(acts)
    ensures var more := acts + Restart(s, w);
            IsRun(more) && After(more).jobs == s.jobs && Ready(After(more), w)
  {
    RunKeepsInv(acts);
    if w in s.pcs {
      var closed := Step(s, Close(w));
      Extend(acts, Close(w));
      NoLeaseOutlivesItself(s, w, closed.pcs[w := Idle], closed.orphans);
      Run2(acts + [Close(w)], Start(w), Tick(LEASE + 1));
      ConcatIsAssociative(acts, [Close(w)], [Start(w), Tick(LEASE + 1)]);
    } else {
      NoLeaseOutlivesItself(s, w, s.pcs[w := Idle], s.orphans);
      Run2(acts, Start(w), Tick(LEASE + 1));
      NothingBefore([Start(w), Tick(LEASE + 1)]);
    }
  }

  /** From every state that a run can reach, whoever was stopped, is late, or left calls and threads behind,
      one worker, restarted, can give every unfinished job the outcome of its execution. */
  lemma EveryJobCanBeServed(acts: seq<Action>, w: WorkerId, errors: JobId -> Option<string>) returns (more: seq<Action>)
    requires IsRun(acts)
    ensures IsRun(acts + more) && Alone(more, w)
    ensures Served(After(acts).jobs, After(acts + more).jobs, errors)
  {
    var first := Restart(After(acts), w);
    Restarted(acts, After(acts), w);
    var rest := ServeAll(acts + first, After(acts + first), w, errors);
    more := first + rest;
    ConcatIsAssociative(acts, first, rest);
  }

  // ---------------------------------------------------------- while a job is executed

  ghost predicate Told(s: State, t: State, w: WorkerId, id: JobId)
    requires w in t.pcs
  {
    && t.clock == s.clock && (t.pcs[w].Executing? <==> Owns(s.jobs, id, w))
    && (Owns(s.jobs, id, w) ==> t.pcs[w].job == id && Owns(t.jobs, id, w) && t.jobs[id].lease == Some(s.clock + LEASE))
    && (!Owns(s.jobs, id, w) ==> t.pcs[w].Idle? && t.jobs == s.jobs)
  }

  lemma HeartbeatSteps(s: State, w: WorkerId)
    requires w in s.pcs && CanTurn(s.clock, s.jobs, s.pcs[w], Beat)
    ensures var r := Step(s, WorkerMove(w, Beat));
            && Enabled(s, WorkerMove(w, Beat)) && Enabled(r, WorkerMove(w, Go([])))
            && w in Step(r, WorkerMove(w, Go([]))).pcs && Told(s, Step(r, WorkerMove(w, Go([]))), w, s.pcs[w].job)
  {
  }

  /** A heartbeat lands, and the worker goes on with its job, exactly if it still owns the row; otherwise it
      changes nothing and goes back to claiming. */
  lemma HeartbeatTellsTheOwner(acts: seq<Action>, w: WorkerId)
    requires IsRun(acts) && w in After(acts).pcs && CanTurn(After(acts).clock, After(acts).jobs, After(acts).pcs[w], Beat)
    ensures var more := acts + [WorkerMove(w, Beat), WorkerMove(w, Go([]))];
            IsRun(more) && w in After(more).pcs && Told(After(acts), After(more), w, After(acts).pcs[w].job)
  {
    HeartbeatSteps(After(acts), w);
    Run2(acts, WorkerMove(w, Beat), WorkerMove(w, Go([])));
  }

  /** What an execution writes lands exactly if its worker still owns the row, and says so. */
  lemma WriteLandsIffOwned(s: State, w: WorkerId, id: JobId, fields: map<string, Option<string>>)
    ensures var t := Step(s, ThreadWrite(w, id, fields));
            && t == s.(jobs := t.jobs, log := t.log)
            && if Owns(s.jobs, id, w) then
                 && t.log == s.log + [WrittenBy(id, w, fields)] && t.jobs.Keys == s.jobs.Keys
                 && (forall k <- fields :: k in t.jobs[id].columns && t.jobs[id].columns[k] == fields[k])
               else t == s
  {
  }
}
