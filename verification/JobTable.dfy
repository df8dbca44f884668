/** The durable job table of backend/ci_worker.py: one row per provider job, changed only by
    conditional updates. Every statement of the source is a function on the table; the class
    `JobStore` holds the table and performs the source's methods in place. */
module JobTable {
  import opened Prelude

  type JobId = string
  type WorkerId = string

  /** Microseconds. The source stores ISO strings; IsoTime proves that their order is this order. */
  type Time = int

  const LEASE: Time := 90_000_000
  const HEARTBEAT: Time := 30_000_000
  const CANDIDATE_LIMIT: nat := 10

  datatype QueueStatus = Queued | Processing | Done | Failed

  datatype JobType = CiRun | IntegrationSync

  /** `columns` holds the descriptive columns (status, external run, result, error, ...), which no
      condition of the queue reads. */
  datatype Job = Job(
    jobType: JobType,
    integration: string,
    columns: map<string, Option<string>>,
    queue: QueueStatus,
    lease: Option<Time>,
    worker: Option<WorkerId>,
    attempts: nat,
    startedAt: Time,
    updatedAt: Time)

  type Table = map<JobId, Job>

  predicate Terminal(job: Job) {
    job.queue == Done || job.queue == Failed
  }

  predicate Expired(job: Job, now: Time) {
    job.lease.None? || job.lease.value < now
  }

  /** The claim query's filter. */
  predicate Eligible(job: Job, now: Time) {
    job.queue == Queued || (job.queue == Processing && Expired(job, now))
  }

  /** One row of the claim query's result. */
  datatype Candidate = Candidate(id: JobId, queue: QueueStatus, lease: Option<Time>)

  predicate Shows(t: Table, c: Candidate) {
    c.id in t && t[c.id].queue == c.queue && t[c.id].lease == c.lease
  }

  predicate Listed(cands: seq<Candidate>, id: JobId) {
    exists c <- cands :: c.id == id
  }

  lemma ListedGrows(cands: seq<Candidate>, c: Candidate)
    ensures forall id :: Listed(cands + [c], id) <==> Listed(cands, id) || id == c.id
  {
    forall id
      ensures Listed(cands + [c], id) <==> Listed(cands, id) || id == c.id
    {
      assert forall d :: d in cands + [c] <==> d in cands || d == c;
    }
  }

  /** Distinct rows in order of start. */
  predicate OldestFirst(cands: seq<Candidate>, t: Table)
    requires forall c <- cands :: c.id in t
  {
    forall i, j :: 0 <= i < j < |cands| ==>
      cands[i].id != cands[j].id && t[cands[i].id].startedAt <= t[cands[j].id].startedAt
  }

  /** What the claim query returns: eligible rows, oldest start first, at most ten of them, and none
      of the others started earlier. Ties are the database's choice. */
  ghost predicate IsSnapshot(cands: seq<Candidate>, t: Table, now: Time) {
    && |cands| <= CANDIDATE_LIMIT
    && (forall c <- cands :: Shows(t, c) && Eligible(t[c.id], now))
    && OldestFirst(cands, t)
    && (forall id <- t :: Eligible(t[id], now) ==>
          || Listed(cands, id)
          || (|cands| == CANDIDATE_LIMIT && forall c <- cands :: t[c.id].startedAt <= t[id].startedAt))
  }

  /** The query half done: `cands` chosen, `rest` the eligible rows still to choose from. */
  ghost predicate Selecting(cands: seq<Candidate>, rest: set<JobId>, t: Table, now: Time) {
    && (forall c <- cands :: Shows(t, c) && Eligible(t[c.id], now) && c.id !in rest)
    && (forall id <- rest :: id in t && Eligible(t[id], now))
    && OldestFirst(cands, t)
    && (forall c <- cands, id <- rest :: t[c.id].startedAt <= t[id].startedAt)
    && (forall id <- t :: Eligible(t[id], now) ==> id in rest || Listed(cands, id))
  }

  lemma SelectOne(cands: seq<Candidate>, rest: set<JobId>, t: Table, now: Time, c: Candidate)
    requires Selecting(cands, rest, t, now)
    requires c.id in rest && Shows(t, c)
    requires forall id <- rest :: t[c.id].startedAt <= t[id].startedAt
    ensures Selecting(cands + [c], rest - {c.id}, t, now)
  {
    ListedGrows(cands, c);
    var grown := cands + [c];
    assert forall d <- grown :: d in cands || d == c;
    forall i, j | 0 <= i < j < |grown|
      ensures grown[i].id != grown[j].id && t[grown[i].id].startedAt <= t[grown[j].id].startedAt
    {
      assert grown[i] in cands;
    }
  }

  /** The WHERE clause of the claiming UPDATE: the lease is compared only for a processing row. */
  predicate ClaimMatches(t: Table, c: Candidate) {
    c.id in t && t[c.id].queue == c.queue && (c.queue == Processing ==> t[c.id].lease == c.lease)
  }

  function Claimed(job: Job, worker: WorkerId, now: Time, stamp: Time): Job {
    job.(queue := Processing, worker := Some(worker), lease := Some(stamp + LEASE),
         attempts := job.attempts + 1, updatedAt := now)
  }

  function TryClaim(t: Table, c: Candidate, worker: WorkerId, now: Time, stamp: Time): Table {
    if ClaimMatches(t, c) then t[c.id := Claimed(t[c.id], worker, now, stamp)] else t
  }

  /** The fence shared by renewals and by fenced status writes. */
  predicate Owns(t: Table, id: JobId, worker: WorkerId) {
    id in t && t[id].queue == Processing && t[id].worker == Some(worker)
  }

  function Renew(t: Table, id: JobId, worker: WorkerId, stamp: Time, at: Time): Table {
    if Owns(t, id, worker) then t[id := t[id].(lease := Some(stamp + LEASE), updatedAt := at)] else t
  }

  /** `error` is the source's truth test: a missing message and an empty one both mean success. */
  predicate IsError(error: Option<string>) {
    error.Some? && error.value != ""
  }

  /** The guard of `finish_job`, which does not look at the queue status. */
  predicate RecordedOwner(t: Table, id: JobId, worker: WorkerId) {
    id in t && t[id].worker == Some(worker)
  }

  function Finished(job: Job, error: Option<string>, at: Time): Job {
    var outcome := if IsError(error) then "error" else "done";
    job.(queue := if IsError(error) then Failed else Done,
         columns := job.columns["status" := Some(outcome)]["error" := if IsError(error) then error else None],
         lease := None,
         updatedAt := at)
  }

  /** The queue and the two columns of the outcome agree with the error handed over. */
  predicate OutcomeIs(job: Job, error: Option<string>) {
    && "status" in job.columns && "error" in job.columns
    && if error.None? || error == Some("") then
         job.queue == Done && job.columns["status"] == Some("done") && job.columns["error"] == None
       else
         job.queue == Failed && job.columns["status"] == Some("error") && job.columns["error"] == error
  }

  function Finish(t: Table, id: JobId, worker: WorkerId, error: Option<string>, at: Time): Table {
    if RecordedOwner(t, id, worker) then t[id := Finished(t[id], error, at)] else t
  }

  datatype WriteResult = Written | LostJobLease | NoSuchJob

  function Write(t: Table, id: JobId, worker: Option<WorkerId>, fields: map<string, Option<string>>, at: Time)
    : (r: (Table, WriteResult))
  {
    if worker.Some? && !Owns(t, id, worker.value) then (t, LostJobLease)
    else if id !in t then (t, NoSuchJob)
    else (t[id := t[id].(columns := t[id].columns + fields, updatedAt := at)], Written)
  }

  function Cleanup(t: Table, cutoff: Time): Table {
    map id | id in t && !(Terminal(t[id]) && t[id].updatedAt < cutoff) :: t[id]
  }

  /** An unfinished sync of the integration, onto which a new request coalesces. */
  predicate ActiveSync(job: Job, integration: string) {
    job.integration == integration && job.jobType == IntegrationSync && !Terminal(job)
  }

  function NewJob(jobType: JobType, integration: string, columns: map<string, Option<string>>, now: Time): Job {
    Job(jobType, integration, columns["status" := Some("queued")], Queued, None, None, 0, now, now)
  }

  class JobStore {
    var jobs: Table

    constructor ()
      ensures jobs == map[]
    {
      jobs := map[];
    }

    /** The claim query: repeatedly take an eligible row with the least start time. */
    method QueryCandidates(now: Time) returns (cands: seq<Candidate>)
      ensures IsSnapshot(cands, jobs, now)
    {
      cands := [];
      var rest := set id | id in jobs && Eligible(jobs[id], now);
      while rest != {} && |cands| < CANDIDATE_LIMIT
        invariant |cands| <= CANDIDATE_LIMIT
        invariant Selecting(cands, rest, jobs, now)
        decreases rest
      {
        var best := EarliestStart(rest);
        var c := Candidate(best, jobs[best].queue, jobs[best].lease);
        SelectOne(cands, rest, jobs, now, c);
        cands := cands + [c];
        rest := rest - {best};
      }
    }

    method EarliestStart(ids: set<JobId>) returns (best: JobId)
      requires ids != {} && ids <= jobs.Keys
      ensures best in ids
      ensures forall id <- ids :: jobs[best].startedAt <= jobs[id].startedAt
    {
      best :| best in ids;
      var rest := ids - {best};
      while rest != {}
        invariant best in ids && rest <= ids
        invariant forall id <- ids - rest :: jobs[best].startedAt <= jobs[id].startedAt
        decreases rest
      {
        var id :| id in rest;
        if jobs[id].startedAt < jobs[best].startedAt {
          best := id;
        }
        rest := rest - {id};
      }
    }

    /** `claim_next`, with no other worker in between: `now` and `stamp` are its two clock readings.
        It returns nothing only when no row is eligible, and otherwise an eligible row with the
        oldest start, which it alone changes. */
    method ClaimNext(worker: WorkerId, now: Time, stamp: Time) returns (claimed: Option<JobId>)
      modifies this
      ensures claimed.None? <==> forall id <- old(jobs) :: !Eligible(old(jobs)[id], now)
      ensures claimed.None? ==> forall id <- jobs ::
                jobs[id].queue == Done || jobs[id].queue == Failed
                || (jobs[id].queue == Processing && jobs[id].lease.Some? && now <= jobs[id].lease.value)
      ensures claimed.None? ==> jobs == old(jobs)
      ensures claimed.Some? ==>
                && claimed.value in old(jobs) && Eligible(old(jobs)[claimed.value], now)
                && (forall id <- old(jobs) :: Eligible(old(jobs)[id], now) ==>
                      old(jobs)[claimed.value].startedAt <= old(jobs)[id].startedAt)
                && jobs == old(jobs)[claimed.value := Claimed(old(jobs)[claimed.value], worker, now, stamp)]
                && Owns(jobs, claimed.value, worker) && !Eligible(jobs[claimed.value], stamp + LEASE)
                && jobs[claimed.value].updatedAt == now
    {
      var cands := QueryCandidates(now);
      assert cands != [] ==> cands[0] in cands && ClaimMatches(jobs, cands[0]);
      claimed := TryCandidates(cands, worker, now, stamp);
      assert claimed.None? ==> cands == [] && forall id :: !Listed(cands, id);
    }

    /** The claim loop, over candidates read at some earlier moment: the first one whose row is still
        as it was read is claimed, and without one nothing changes. */
    method TryCandidates(cands: seq<Candidate>, worker: WorkerId, now: Time, stamp: Time)
      returns (claimed: Option<JobId>)
      modifies this
      ensures claimed.None? ==> jobs == old(jobs) && forall c <- cands :: !ClaimMatches(jobs, c)
      ensures claimed.None? ==> forall c <- cands ::
                c.id !in jobs || jobs[c.id].queue != c.queue || (c.queue == Processing && jobs[c.id].lease != c.lease)
      ensures claimed.Some? ==>
                exists i :: && 0 <= i < |cands| && cands[i].id == claimed.value
                            && ClaimMatches(old(jobs), cands[i])
                            && old(jobs)[cands[i].id].queue == cands[i].queue
                            && (cands[i].queue == Processing ==> old(jobs)[cands[i].id].lease == cands[i].lease)
                            && (forall k :: 0 <= k < i ==> !ClaimMatches(old(jobs), cands[k]))
                            && jobs == old(jobs)[claimed.value := Claimed(old(jobs)[claimed.value], worker, now, stamp)]
    {
      for i := 0 to |cands|
        invariant jobs == old(jobs)
        invariant forall k :: 0 <= k < i ==> !ClaimMatches(jobs, cands[k])
      {
        var c := cands[i];
        if ClaimMatches(jobs, c) {
          jobs := jobs[c.id := Claimed(jobs[c.id], worker, now, stamp)];
          return Some(c.id);
        }
      }
      claimed := None;
    }

    method RenewLease(id: JobId, worker: WorkerId, stamp: Time, at: Time) returns (renewed: bool)
      modifies this
      ensures renewed == (id in old(jobs) && old(jobs)[id].queue == Processing && old(jobs)[id].worker == Some(worker))
      ensures jobs == Renew(old(jobs), id, worker, stamp, at)
    {
      renewed := Owns(jobs, id, worker);
      if renewed {
        jobs := jobs[id := jobs[id].(lease := Some(stamp + LEASE), updatedAt := at)];
      }
    }

    method FinishJob(id: JobId, worker: WorkerId, error: Option<string>, at: Time)
      modifies this
      ensures jobs == Finish(old(jobs), id, worker, error, at)
      ensures !(id in old(jobs) && old(jobs)[id].worker == Some(worker)) ==> jobs == old(jobs)
      ensures id in old(jobs) && old(jobs)[id].worker == Some(worker) ==>
                id in jobs && jobs[id].lease == None && jobs[id].updatedAt == at && OutcomeIs(jobs[id], error)
    {
      if id !in jobs || jobs[id].worker != Some(worker) {
        return;
      }
      var job := jobs[id];
      if error.Some? && error.value != "" {
        job := job.(queue := Failed, columns := job.columns["status" := Some("error")]["error" := error]);
      } else {
        job := job.(queue := Done, columns := job.columns["status" := Some("done")]["error" := None]);
      }
      jobs := jobs[id := job.(lease := None, updatedAt := at)];
    }

    /** `_update_job`: the row is looked up under the fence when a worker is given. */
    method UpdateJob(id: JobId, worker: Option<WorkerId>, fields: map<string, Option<string>>, at: Time)
      returns (r: WriteResult)
      modifies this
      ensures (jobs, r) == Write(old(jobs), id, worker, fields, at)
      ensures r == LostJobLease <==> worker.Some? && !Owns(old(jobs), id, worker.value)
      ensures r == NoSuchJob <==> worker.None? && id !in old(jobs)
      ensures r != Written ==> jobs == old(jobs)
      ensures r == Written ==>
                && id in jobs && jobs[id].(columns := old(jobs)[id].columns, updatedAt := old(jobs)[id].updatedAt) == old(jobs)[id]
                && jobs[id].updatedAt == at && forall k <- fields :: k in jobs[id].columns && jobs[id].columns[k] == fields[k]
    {
      var found := id in jobs && (worker.None? || Owns(jobs, id, worker.value));
      if !found {
        return if worker.Some? then LostJobLease else NoSuchJob;
      }
      jobs := jobs[id := jobs[id].(columns := jobs[id].columns + fields, updatedAt := at)];
      r := Written;
    }

    /** `cleanup_expired_jobs`: exactly the finished rows older than the cutoff go. */
    method CleanupExpired(cutoff: Time) returns (deleted: nat)
      modifies this
      ensures jobs == Cleanup(old(jobs), cutoff)
      ensures deleted == |old(jobs)| - |jobs|
      ensures forall id <- old(jobs) :: id in jobs <==> !(Terminal(old(jobs)[id]) && old(jobs)[id].updatedAt < cutoff)
    {
      var gone := set id | id in jobs && Terminal(jobs[id]) && jobs[id].updatedAt < cutoff;
      deleted := |gone|;
      ghost var kept := Cleanup(jobs, cutoff);
      assert kept.Keys == jobs.Keys - gone;
      assert |kept.Keys| == |jobs.Keys| - |gone|;
      jobs := map id | id in jobs && id !in gone :: jobs[id];
      assert jobs == kept;
    }

    /** `enqueue_sync_job`: an active sync of the integration is returned as it is, the latest start
        first; only without one is a row inserted. `newId` is the generated id. */
    method EnqueueSync(integration: string, newId: JobId, columns: map<string, Option<string>>, now: Time)
      returns (id: JobId)
      requires newId !in jobs
      modifies this
      ensures id in jobs && jobs[id].jobType == IntegrationSync && jobs[id].integration == integration
      ensures id in jobs && (jobs[id].queue == Queued || jobs[id].queue == Processing)
      ensures id == newId ==> forall j <- old(jobs) ::
                old(jobs)[j].jobType == IntegrationSync && old(jobs)[j].integration == integration ==> Terminal(old(jobs)[j])
      ensures if exists j <- old(jobs) :: ActiveSync(old(jobs)[j], integration)
              then jobs == old(jobs) && forall j <- jobs :: ActiveSync(jobs[j], integration) ==> jobs[j].startedAt <= jobs[id].startedAt
              else id == newId && jobs == old(jobs)[newId := NewJob(IntegrationSync, integration, columns, now)]
    {
      var active := set j | j in jobs && ActiveSync(jobs[j], integration);
      if active != {} {
        id := LatestStart(active);
        return;
      }
      assert forall j <- jobs :: ActiveSync(jobs[j], integration) ==> j in active;
      jobs := jobs[newId := NewJob(IntegrationSync, integration, columns, now)];
      id := newId;
    }

    method LatestStart(ids: set<JobId>) returns (best: JobId)
      requires ids != {} && ids <= jobs.Keys
      ensures best in ids
      ensures forall id <- ids :: jobs[id].startedAt <= jobs[best].startedAt
    {
      best :| best in ids;
      var rest := ids - {best};
      while rest != {}
        invariant best in ids && rest <= ids
        invariant forall id <- ids - rest :: jobs[id].startedAt <= jobs[best].startedAt
        decreases rest
      {
        var id :| id in rest;
        if jobs[best].startedAt < jobs[id].startedAt {
          best := id;
        }
        rest := rest - {id};
      }
    }
  }
}
