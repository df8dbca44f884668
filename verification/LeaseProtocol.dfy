/** The lease protocol as a transition system: any number of workers, each a program counter, over
    one shared job table and one shared clock that never runs backwards. Every conditional UPDATE and
    every read-check-write session of the source is one step; between two steps of one worker,
    anything may happen. A worker closed in the middle of a database call leaves an orphan that
    still completes the call, and every execution leaves a thread that may write at any later time. */
module LeaseProtocol {
  import opened Prelude
  import opened JobTable

  /** Where a worker is: between two claims, after reading the clock, after the claim query, after
      computing the new lease, executing a job, or about to write a renewal. */
  datatype PC =
    | Stopped
    | Idle
    | Clocked(now: Time)
    | Queried(now: Time, todo: seq<Candidate>)
    | Claiming(now: Time, stamp: Time, todo: seq<Candidate>)
    | Executing(job: JobId, since: Time)
    | Renewing(job: JobId, stamp: Time)

  datatype Orphan = Orphan(worker: WorkerId, pc: PC)

  /** The effects that reached a row, in order. */
  datatype Event =
    | ClaimedBy(job: JobId, worker: WorkerId, stamp: Time)
    | RenewedBy(job: JobId, worker: WorkerId, stamp: Time)
    | WrittenBy(job: JobId, worker: WorkerId, fields: map<string, Option<string>>)
    | FinishedBy(job: JobId, worker: WorkerId, error: Option<string>, at: Time)

  /** `used` and `log` are history: every id ever inserted and every effect. */
  datatype State = State(
    clock: Time,
    jobs: Table,
    pcs: map<WorkerId, PC>,
    orphans: seq<Orphan>,
    threads: set<(WorkerId, JobId)>,
    used: set<JobId>,
    log: seq<Event>)

  /** One step of a worker: go on with the claim or renewal it is in (`found` is the query's answer),
      send a heartbeat, see the execution end, or fall back to the loop after an exception. */
  datatype Move =
    | Go(found: seq<Candidate>)
    | Beat
    | Complete(error: Option<string>)
    | Crash

  datatype Action =
    | Tick(elapsed: nat)
    | CreateRun(id: JobId, integration: string, columns: map<string, Option<string>>)
    | RequestSync(id: JobId, integration: string, columns: map<string, Option<string>>)
    | Start(worker: WorkerId)
    | Close(worker: WorkerId)
    | WorkerMove(worker: WorkerId, move: Move)
    | OrphanMove(k: nat, move: Move)
    | ThreadWrite(worker: WorkerId, job: JobId, fields: map<string, Option<string>>)
    | Purge(cutoff: Time)

  datatype Turn = Turn(pc: PC, jobs: Table, events: seq<Event>)

  predicate MidCall(pc: PC) {
    pc.Clocked? || pc.Queried? || pc.Claiming? || pc.Renewing?
  }

  ghost predicate CanTurn(clock: Time, t: Table, pc: PC, move: Move) {
    match move
    case Go(found) => (pc.Idle? || MidCall(pc)) && (pc.Clocked? ==> IsSnapshot(found, t, pc.now))
    case Beat => pc.Executing? && pc.since + HEARTBEAT <= clock
    case Complete(_) => pc.Executing?
    case Crash => !pc.Stopped?
  }

  function TakeTurn(clock: Time, t: Table, w: WorkerId, pc: PC, move: Move): Turn {
    match (pc, move)
    case (Idle, Go(_)) => Turn(Clocked(clock), t, [])
    case (Clocked(now), Go(found)) => Turn(Queried(now, found), t, [])
    case (Queried(now, todo), Go(_)) => Turn(Claiming(now, clock, todo), t, [])
    case (Claiming(now, stamp, todo), Go(_)) =>
      if todo == [] then Turn(Idle, t, [])
      else if ClaimMatches(t, todo[0]) then
        Turn(Executing(todo[0].id, clock), TryClaim(t, todo[0], w, now, stamp), [ClaimedBy(todo[0].id, w, stamp)])
      else Turn(Claiming(now, stamp, todo[1..]), t, [])
    case (Executing(job, _), Beat) => Turn(Renewing(job, clock), t, [])
    case (Executing(job, _), Complete(error)) =>
      Turn(Idle, Finish(t, job, w, error, clock),
           if RecordedOwner(t, job, w) then [FinishedBy(job, w, error, clock)] else [])
    case (Renewing(job, stamp), Go(_)) =>
      if Owns(t, job, w) then Turn(Executing(job, clock), Renew(t, job, w, stamp, clock), [RenewedBy(job, w, stamp)])
      else Turn(Idle, t, [])
    case _ => Turn(Idle, t, [])
  }

  ghost predicate Enabled(s: State, a: Action) {
    match a
    case CreateRun(id, _, _) => id !in s.used
    case RequestSync(id, _, _) => id !in s.used
    case Start(w) => w !in s.pcs || s.pcs[w].Stopped?
    case Close(w) => w in s.pcs
    case WorkerMove(w, move) => w in s.pcs && CanTurn(s.clock, s.jobs, s.pcs[w], move)
    case OrphanMove(k, move) => k < |s.orphans| && CanTurn(s.clock, s.jobs, s.orphans[k].pc, move)
    case ThreadWrite(w, job, _) => (w, job) in s.threads
    case Purge(cutoff) => cutoff <= s.clock
    case Tick(_) => true
  }

  ghost function Step(s: State, a: Action): State {
    match a
    case Tick(elapsed) => s.(clock := s.clock + elapsed)
    case CreateRun(id, integration, columns) =>
      s.(jobs := s.jobs[id := NewJob(CiRun, integration, columns, s.clock)], used := s.used + {id})
    case RequestSync(id, integration, columns) =>
      if exists j <- s.jobs :: ActiveSync(s.jobs[j], integration) then s
      else s.(jobs := s.jobs[id := NewJob(IntegrationSync, integration, columns, s.clock)], used := s.used + {id})
    case Start(w) => s.(pcs := s.pcs[w := Idle])
    case Close(w) =>
      if w !in s.pcs then s
      else s.(pcs := s.pcs[w := Stopped],
              orphans := if MidCall(s.pcs[w]) then s.orphans + [Orphan(w, s.pcs[w])] else s.orphans)
    case WorkerMove(w, move) =>
      if w !in s.pcs then s
      else
        var r := TakeTurn(s.clock, s.jobs, w, s.pcs[w], move);
        s.(pcs := s.pcs[w := r.pc], jobs := r.jobs, log := s.log + r.events,
           threads := if r.pc.Executing? then s.threads + {(w, r.pc.job)} else s.threads)
    case OrphanMove(k, move) =>
      if k >= |s.orphans| then s
      else
        var o := s.orphans[k];
        var r := TakeTurn(s.clock, s.jobs, o.worker, o.pc, move);
        s.(orphans := if MidCall(r.pc) then s.orphans[k := Orphan(o.worker, r.pc)] else s.orphans[..k] + s.orphans[k + 1..],
           jobs := r.jobs, log := s.log + r.events)
    case ThreadWrite(w, job, fields) =>
      var (jobs, result) := Write(s.jobs, job, Some(w), fields, s.clock);
      s.(jobs := jobs, log := if result.Written? then s.log + [WrittenBy(job, w, fields)] else s.log)
    case Purge(cutoff) => s.(jobs := Cleanup(s.jobs, cutoff))
  }

  /** The worker on whose behalf a step acts. */
  function Actor(s: State, a: Action): Option<WorkerId> {
    match a
    case WorkerMove(w, _) => Some(w)
    case OrphanMove(k, _) => if k < |s.orphans| then Some(s.orphans[k].worker) else None
    case ThreadWrite(w, _, _) => Some(w)
    case _ => None
  }

  const INIT := State(0, map[], map[], [], {}, {}, [])

  ghost function After(acts: seq<Action>): State {
    if acts == [] then INIT else Step(After(acts[..|acts| - 1]), acts[|acts| - 1])
  }

  ghost predicate IsRun(acts: seq<Action>) {
    acts == [] || (IsRun(acts[..|acts| - 1]) && Enabled(After(acts[..|acts| - 1]), acts[|acts| - 1]))
  }

  // ---------------------------------------------------------------- history

  function LastClaimant(log: seq<Event>, job: JobId): Option<WorkerId> {
    if log == [] then None
    else
      var e := log[|log| - 1];
      if e.ClaimedBy? && e.job == job then Some(e.worker) else LastClaimant(log[..|log| - 1], job)
  }

  function Claims(log: seq<Event>, job: JobId): nat {
    if log == [] then 0
    else
      var e := log[|log| - 1];
      Claims(log[..|log| - 1], job) + if e.ClaimedBy? && e.job == job then 1 else 0
  }

  /** The reading of the clock behind the lease last written. */
  function LastStamp(log: seq<Event>, job: JobId): Option<Time> {
    if log == [] then None
    else
      var e := log[|log| - 1];
      if (e.ClaimedBy? || e.RenewedBy?) && e.job == job then Some(e.stamp) else LastStamp(log[..|log| - 1], job)
  }

  predicate IsOver(log: seq<Event>, job: JobId) {
    exists e <- log :: e.FinishedBy? && e.job == job
  }

  /** An effect is in order when its job is not over and, unless it is a claim, comes from the job's
      last claimant. */
  predicate InOrder(before: seq<Event>, e: Event) {
    !IsOver(before, e.job) && (e.ClaimedBy? || LastClaimant(before, e.job) == Some(e.worker))
  }

  predicate LogInOrder(log: seq<Event>) {
    forall k :: 0 <= k < |log| ==> InOrder(log[..k], log[k])
  }

  // -------------------------------------------------------------- invariant

  predicate RowOk(job: Job, id: JobId, log: seq<Event>, clock: Time) {
    && job.worker == LastClaimant(log, id)
    && job.attempts == Claims(log, id)
    && (Terminal(job) <==> IsOver(log, id))
    && (job.queue == Processing ==>
          && LastStamp(log, id).Some? && LastStamp(log, id).value <= clock
          && job.lease == Some(LastStamp(log, id).value + LEASE))
    && (job.queue != Processing ==> job.lease == None)
    && (job.queue == Queued <==> job.worker == None)
  }

  predicate TodoOk(c: Candidate, now: Time, used: set<JobId>) {
    c.id in used && (c.queue == Queued || (c.queue == Processing && c.lease.Some? && c.lease.value < now))
  }

  predicate CallOk(pc: PC, clock: Time, used: set<JobId>) {
    match pc
    case Clocked(now) => now <= clock
    case Queried(now, todo) => now <= clock && forall c <- todo :: TodoOk(c, now, used)
    case Claiming(now, stamp, todo) => now <= stamp <= clock && forall c <- todo :: TodoOk(c, now, used)
    case Executing(job, since) => job in used && since <= clock
    case Renewing(job, stamp) => job in used && stamp <= clock
    case _ => true
  }

  /** A worker that is at a job, and was the last to claim it, finds it unfinished. */
  predicate WorkOk(w: WorkerId, pc: PC, log: seq<Event>) {
    (pc.Executing? || pc.Renewing?) && LastClaimant(log, pc.job) == Some(w) ==> !IsOver(log, pc.job)
  }

  ghost predicate OneActiveSync(t: Table) {
    forall i, j | i in t && j in t ::
      ActiveSync(t[i], t[i].integration) && ActiveSync(t[j], t[i].integration) ==> i == j
  }

  ghost predicate RowsOk(t: Table, log: seq<Event>, clock: Time, used: set<JobId>) {
    && t.Keys <= used
    && (forall e <- log :: e.job in used)
    && (forall id <- t :: RowOk(t[id], id, log, clock))
    && LogInOrder(log)
    && OneActiveSync(t)
  }

  predicate WorkersOk(pcs: map<WorkerId, PC>, log: seq<Event>, clock: Time, used: set<JobId>) {
    forall w <- pcs :: CallOk(pcs[w], clock, used) && WorkOk(w, pcs[w], log)
  }

  predicate OrphansOk(orphans: seq<Orphan>, clock: Time, used: set<JobId>) {
    forall o <- orphans :: MidCall(o.pc) && CallOk(o.pc, clock, used)
  }

  ghost predicate Inv(s: State) {
    && RowsOk(s.jobs, s.log, s.clock, s.used)
    && WorkersOk(s.pcs, s.log, s.clock, s.used)
    && OrphansOk(s.orphans, s.clock, s.used)
  }

  lemma HistoryOfAppend(log: seq<Event>, e: Event, job: JobId)
    ensures LastClaimant(log + [e], job) == if e.ClaimedBy? && e.job == job then Some(e.worker) else LastClaimant(log, job)
    ensures Claims(log + [e], job) == Claims(log, job) + if e.ClaimedBy? && e.job == job then 1 else 0
    ensures LastStamp(log + [e], job) ==
            if (e.ClaimedBy? || e.RenewedBy?) && e.job == job then Some(e.stamp) else LastStamp(log, job)
    ensures IsOver(log + [e], job) <==> IsOver(log, job) || (e.FinishedBy? && e.job == job)
  {
    assert (log + [e])[..|log|] == log;
    assert forall d :: d in log + [e] <==> d in log || d == e;
  }

  lemma NoHistory(log: seq<Event>, job: JobId)
    requires forall e <- log :: e.job != job
    ensures LastClaimant(log, job) == None && Claims(log, job) == 0 && LastStamp(log, job) == None && !IsOver(log, job)
  {
    if log != [] {
      assert log[|log| - 1] in log;
      assert forall e <- log[..|log| - 1] :: e in log;
      NoHistory(log[..|log| - 1], job);
    }
  }

  lemma OrderOfAppend(log: seq<Event>, e: Event)
    requires LogInOrder(log) && InOrder(log, e)
    ensures LogInOrder(log + [e])
  {
    forall k | 0 <= k < |log + [e]|
      ensures InOrder((log + [e])[..k], (log + [e])[k])
    {
      assert (log + [e])[..k] == log[..k];
      assert log[..|log|] == log;
    }
  }

  /** What an effect may do to its row. */
  predicate GoodChange(before: Job, after: Job, e: Event, clock: Time) {
    && after.jobType == before.jobType && after.integration == before.integration && after.startedAt == before.startedAt
    && match e
       case ClaimedBy(_, w, stamp) =>
         && stamp <= clock
         && (before.queue == Queued || (before.queue == Processing && before.lease.Some? && before.lease.value < stamp))
         && after.worker == Some(w) && after.attempts == before.attempts + 1
         && after.queue == Processing && after.lease == Some(stamp + LEASE) && after.columns == before.columns
       case RenewedBy(_, _, stamp) =>
         && stamp <= clock && before.queue == Processing && after.queue == Processing && after.columns == before.columns
         && after.worker == before.worker && after.attempts == before.attempts && after.lease == Some(stamp + LEASE)
         && after.updatedAt == clock
       case WrittenBy(_, _, fields) =>
         && before.queue == Processing && after.queue == Processing && after.columns == before.columns + fields
         && after.worker == before.worker && after.attempts == before.attempts && after.lease == before.lease
         && after.updatedAt == clock
       case FinishedBy(_, _, error, at) =>
         && before.queue == Processing && after.queue == (if IsError(error) then Failed else Done)
         && after.worker == before.worker && after.attempts == before.attempts && after.lease == None
         && at == clock && after.updatedAt == at
         && after.columns == before.columns["status" := Some(if IsError(error) then "error" else "done")]
                                           ["error" := if IsError(error) then error else None]
  }

  ghost predicate GoodEffect(s: State, e: Event, t: Table) {
    && e.job in s.jobs && InOrder(s.log, e)
    && t.Keys == s.jobs.Keys
    && (forall id <- s.jobs :: id != e.job ==> t[id] == s.jobs[id])
    && GoodChange(s.jobs[e.job], t[e.job], e, s.clock)
  }

  lemma EffectKeepsRow(before: Job, after: Job, id: JobId, log: seq<Event>, e: Event, clock: Time)
    requires RowOk(before, id, log, clock)
    requires if id == e.job then GoodChange(before, after, e, clock) else after == before
    ensures RowOk(after, id, log + [e], clock)
    ensures forall integration :: ActiveSync(after, integration) ==> ActiveSync(before, integration)
  {
    HistoryOfAppend(log, e, id);
  }

  lemma StillOneActive(before: Table, after: Table)
    requires OneActiveSync(before) && after.Keys == before.Keys
    requires forall id <- after, integration :: ActiveSync(after[id], integration) ==> ActiveSync(before[id], integration)
    requires forall id <- after :: after[id].integration == before[id].integration
    ensures OneActiveSync(after)
  {
  }

  /** The rows and the log survive a good effect, whoever causes it. */
  lemma EffectKeepsRows(s: State, e: Event, t: Table)
    requires RowsOk(s.jobs, s.log, s.clock, s.used) && GoodEffect(s, e, t)
    ensures RowsOk(t, s.log + [e], s.clock, s.used)
  {
    OrderOfAppend(s.log, e);
    forall id <- t
      ensures RowOk(t[id], id, s.log + [e], s.clock) && t[id].integration == s.jobs[id].integration
      ensures forall integration :: ActiveSync(t[id], integration) ==> ActiveSync(s.jobs[id], integration)
    {
      EffectKeepsRow(s.jobs[id], t[id], id, s.log, e, s.clock);
    }
    StillOneActive(s.jobs, t);
  }

  /** So do the workers' beliefs: only a finish can make a job over, and then its owner is done. */
  lemma EffectKeepsWorkers(pcs: map<WorkerId, PC>, log: seq<Event>, e: Event, clock: Time, used: set<JobId>)
    requires WorkersOk(pcs, log, clock, used) && InOrder(log, e)
    requires e.FinishedBy? ==> e.worker !in pcs
    ensures WorkersOk(pcs, log + [e], clock, used)
  {
    forall w <- pcs
      ensures WorkOk(w, pcs[w], log + [e])
    {
      if pcs[w].Executing? || pcs[w].Renewing? {
        HistoryOfAppend(log, e, pcs[w].job);
      }
    }
  }

  /** A worker's own turn: its effect is a good one, and its next position is sound. `main` is false
      for an orphan, about whose job nothing is assumed. */
  ghost predicate GoodTurn(s: State, w: WorkerId, r: Turn, main: bool) {
    && |r.events| <= 1
    && (if r.events == [] then r.jobs == s.jobs
        else
          && GoodEffect(s, r.events[0], r.jobs) && r.events[0].worker == w
          && (r.events[0].FinishedBy? ==> main))
    && CallOk(r.pc, s.clock, s.used)
    && (main ==> WorkOk(w, r.pc, s.log + r.events))
  }

  lemma ClaimIsGood(s: State, w: WorkerId, pc: PC, move: Move, main: bool)
    requires Inv(s) && pc.Claiming? && move.Go? && CallOk(pc, s.clock, s.used)
    ensures GoodTurn(s, w, TakeTurn(s.clock, s.jobs, w, pc, move), main)
  {
    if pc.todo == [] {
      assert s.log + [] == s.log;
    } else if ClaimMatches(s.jobs, pc.todo[0]) {
      var c := pc.todo[0];
      var e := ClaimedBy(c.id, w, pc.stamp);
      assert TodoOk(c, pc.now, s.used);
      assert RowOk(s.jobs[c.id], c.id, s.log, s.clock);
      assert GoodChange(s.jobs[c.id], Claimed(s.jobs[c.id], w, pc.now, pc.stamp), e, s.clock);
      HistoryOfAppend(s.log, e, c.id);
    } else {
      assert s.log + [] == s.log;
      assert forall c <- pc.todo[1..] :: c in pc.todo;
    }
  }

  lemma FinishIsGood(s: State, w: WorkerId, pc: PC, move: Move)
    requires Inv(s) && pc.Executing? && move.Complete? && WorkOk(w, pc, s.log)
    ensures GoodTurn(s, w, TakeTurn(s.clock, s.jobs, w, pc, move), true)
  {
    if RecordedOwner(s.jobs, pc.job, w) {
      assert RowOk(s.jobs[pc.job], pc.job, s.log, s.clock);
    }
  }

  lemma RenewalIsGood(s: State, w: WorkerId, pc: PC, move: Move, main: bool)
    requires Inv(s) && pc.Renewing? && move.Go? && CallOk(pc, s.clock, s.used)
    ensures GoodTurn(s, w, TakeTurn(s.clock, s.jobs, w, pc, move), main)
  {
    if Owns(s.jobs, pc.job, w) {
      assert RowOk(s.jobs[pc.job], pc.job, s.log, s.clock);
      HistoryOfAppend(s.log, RenewedBy(pc.job, w, pc.stamp), pc.job);
    }
  }

  lemma TurnIsGood(s: State, w: WorkerId, pc: PC, move: Move, main: bool)
    requires Inv(s) && CanTurn(s.clock, s.jobs, pc, move) && CallOk(pc, s.clock, s.used)
    requires if main then WorkOk(w, pc, s.log) else MidCall(pc)
    ensures GoodTurn(s, w, TakeTurn(s.clock, s.jobs, w, pc, move), main)
  {
    match (pc, move)
    case (Clocked(now), Go(found)) =>
      forall c <- found
        ensures TodoOk(c, now, s.used)
      {
        assert RowOk(s.jobs[c.id], c.id, s.log, s.clock);
      }
    case (Claiming(_, _, _), Go(_)) => ClaimIsGood(s, w, pc, move, main);
    case (Executing(_, _), Complete(_)) => FinishIsGood(s, w, pc, move);
    case (Executing(_, _), Beat) => assert s.log + [] == s.log;
    case (Renewing(_, _), Go(_)) => RenewalIsGood(s, w, pc, move, main);
    case _ =>
  }

  /** A good turn keeps the rows, and the beliefs of every worker but the one that takes it. */
  lemma TurnKeepsTheRest(s: State, w: WorkerId, r: Turn, main: bool)
    requires Inv(s) && GoodTurn(s, w, r, main)
    ensures RowsOk(r.jobs, s.log + r.events, s.clock, s.used)
    ensures WorkersOk(if main then s.pcs - {w} else s.pcs, s.log + r.events, s.clock, s.used)
  {
    if r.events == [] {
      assert s.log + r.events == s.log;
    } else {
      var e := r.events[0];
      assert r.events == [e];
      EffectKeepsRows(s, e, r.jobs);
      EffectKeepsWorkers(if main then s.pcs - {w} else s.pcs, s.log, e, s.clock, s.used);
    }
  }

  lemma PutWorkerBack(pcs: map<WorkerId, PC>, w: WorkerId, pc: PC, log: seq<Event>, clock: Time, used: set<JobId>)
    requires WorkersOk(pcs - {w}, log, clock, used) && CallOk(pc, clock, used) && WorkOk(w, pc, log)
    ensures WorkersOk(pcs[w := pc], log, clock, used)
  {
    assert forall v <- pcs :: v != w ==> v in pcs - {w} && (pcs - {w})[v] == pcs[v];
  }

  lemma WorkerMoveKeepsInv(s: State, w: WorkerId, move: Move)
    requires Inv(s) && Enabled(s, WorkerMove(w, move))
    ensures Inv(Step(s, WorkerMove(w, move)))
  {
    TurnIsGood(s, w, s.pcs[w], move, true);
    var r := TakeTurn(s.clock, s.jobs, w, s.pcs[w], move);
    TurnKeepsTheRest(s, w, r, true);
    PutWorkerBack(s.pcs, w, r.pc, s.log + r.events, s.clock, s.used);
  }

  lemma OrphanMoveKeepsInv(s: State, k: nat, move: Move)
    requires Inv(s) && Enabled(s, OrphanMove(k, move))
    ensures Inv(Step(s, OrphanMove(k, move)))
  {
    var o := s.orphans[k];
    assert o in s.orphans;
    TurnIsGood(s, o.worker, o.pc, move, false);
    var r := TakeTurn(s.clock, s.jobs, o.worker, o.pc, move);
    TurnKeepsTheRest(s, o.worker, r, false);
    assert forall p <- s.orphans[k := Orphan(o.worker, r.pc)] :: p in s.orphans || p == Orphan(o.worker, r.pc);
    assert forall p <- s.orphans[..k] + s.orphans[k + 1..] :: p in s.orphans;
  }

  lemma ThreadWriteKeepsInv(s: State, w: WorkerId, job: JobId, fields: map<string, Option<string>>)
    requires Inv(s)
    ensures Inv(Step(s, ThreadWrite(w, job, fields)))
  {
    if Owns(s.jobs, job, w) {
      var e := WrittenBy(job, w, fields);
      assert RowOk(s.jobs[job], job, s.log, s.clock);
      EffectKeepsRows(s, e, Write(s.jobs, job, Some(w), fields, s.clock).0);
      EffectKeepsWorkers(s.pcs, s.log, e, s.clock, s.used);
    }
  }

  /** Every step is one good effect of its actor, or leaves the rows it does not insert or purge as
      they are. */
  lemma StepEffect(s: State, a: Action) returns (events: seq<Event>)
    requires Inv(s) && Enabled(s, a)
    ensures |events| <= 1 && Step(s, a).log == s.log + events
    ensures s.used <= Step(s, a).used && s.clock <= Step(s, a).clock
    ensures if events == [] then forall id <- s.used :: id in Step(s, a).jobs ==> id in s.jobs && Step(s, a).jobs[id] == s.jobs[id]
            else GoodEffect(s, events[0], Step(s, a).jobs) && Actor(s, a) == Some(events[0].worker)
  {
    match a
    case WorkerMove(w, move) =>
      TurnIsGood(s, w, s.pcs[w], move, true);
      events := TakeTurn(s.clock, s.jobs, w, s.pcs[w], move).events;
    case OrphanMove(k, move) =>
      assert s.orphans[k] in s.orphans;
      TurnIsGood(s, s.orphans[k].worker, s.orphans[k].pc, move, false);
      events := TakeTurn(s.clock, s.jobs, s.orphans[k].worker, s.orphans[k].pc, move).events;
    case ThreadWrite(w, job, fields) =>
      events := if Owns(s.jobs, job, w) then [WrittenBy(job, w, fields)] else [];
      if Owns(s.jobs, job, w) {
        assert RowOk(s.jobs[job], job, s.log, s.clock);
      }
    case _ => events := [];
  }

  lemma InsertKeepsInv(s: State, id: JobId, job: Job)
    requires Inv(s) && id !in s.used
    requires job == NewJob(job.jobType, job.integration, job.columns, s.clock)
    requires job.jobType == IntegrationSync ==> !exists j <- s.jobs :: ActiveSync(s.jobs[j], job.integration)
    ensures Inv(s.(jobs := s.jobs[id := job], used := s.used + {id}))
  {
    NoHistory(s.log, id);
  }

  lemma StepKeepsInv(s: State, a: Action)
    requires Inv(s) && Enabled(s, a)
    ensures Inv(Step(s, a))
  {
    match a
    case CreateRun(id, integration, columns) => InsertKeepsInv(s, id, NewJob(CiRun, integration, columns, s.clock));
    case RequestSync(id, integration, columns) =>
      if !exists j <- s.jobs :: ActiveSync(s.jobs[j], integration) {
        InsertKeepsInv(s, id, NewJob(IntegrationSync, integration, columns, s.clock));
      }
    case WorkerMove(w, move) => WorkerMoveKeepsInv(s, w, move);
    case OrphanMove(k, move) => OrphanMoveKeepsInv(s, k, move);
    case ThreadWrite(w, job, fields) => ThreadWriteKeepsInv(s, w, job, fields);
    case Close(w) => assert forall o <- s.orphans + [Orphan(w, s.pcs[w])] :: o in s.orphans || o == Orphan(w, s.pcs[w]);
    case _ =>
  }

  lemma {:induction false} RunKeepsInv(acts: seq<Action>)
    requires IsRun(acts)
    ensures Inv(After(acts))
  {
    if acts != [] {
      RunKeepsInv(acts[..|acts| - 1]);
      StepKeepsInv(After(acts[..|acts| - 1]), acts[|acts| - 1]);
    }
  }
}
