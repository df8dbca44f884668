/** What every run leaves in the descriptive columns of a job, and when a row starts and goes. */
module JobColumns {
  import opened Prelude
  import opened JobTable
  import opened LeaseProtocol
  import opened LeaseTheorems

  /** What an effect sets a column to. A finish records the outcome and its error text. */
  function SetBy(e: Event, name: string): Option<Option<string>> {
    match e
    case WrittenBy(_, _, fields) => if name in fields then Some(fields[name]) else None
    case FinishedBy(_, _, error, _) =>
      var failed := error.Some? && error.value != "";
      if name == "status" then Some(Some(if failed then "error" else "done"))
      else if name == "error" then Some(if failed then error else None)
      else None
    case _ => None
  }

  predicate Sets(e: Event, id: JobId, name: string) {
    e.job == id && SetBy(e, name).Some?
  }

  /** What the last effect that sets the column sets it to. */
  function LastSet(log: seq<Event>, id: JobId, name: string): Option<Option<string>> {
    if log == [] then None
    else
      var e := log[|log| - 1];
      if Sets(e, id, name) then SetBy(e, name) else LastSet(log[..|log| - 1], id, name)
  }

  /** The last finish of the job. */
  function LastFinish(log: seq<Event>, id: JobId): Option<Event> {
    if log == [] then None
    else
      var e := log[|log| - 1];
      if e.FinishedBy? && e.job == id then Some(e) else LastFinish(log[..|log| - 1], id)
  }

  predicate Shown(columns: map<string, Option<string>>, name: string, value: Option<string>) {
    name in columns && columns[name] == value
  }

  /** The row shows what the history set last, and a terminal row its one outcome. */
  predicate Told(job: Job, id: JobId, name: string, log: seq<Event>) {
    && (LastSet(log, id, name).Some? ==> Shown(job.columns, name, LastSet(log, id, name).value))
    && (job.queue == Queued ==> Shown(job.columns, "status", Some("queued")))
    && (Terminal(job) ==>
          && LastFinish(log, id).Some? && LastFinish(log, id).value.FinishedBy?
          && var e := LastFinish(log, id).value;
             && job.queue == (if e.error.Some? && e.error.value != "" then Failed else Done)
             && job.updatedAt == e.at
             && LastSet(log, id, "status") == SetBy(e, "status") && LastSet(log, id, "error") == SetBy(e, "error"))
  }

  lemma SetOfAppend(log: seq<Event>, e: Event, id: JobId, name: string)
    ensures LastSet(log + [e], id, name) == if Sets(e, id, name) then SetBy(e, name) else LastSet(log, id, name)
    ensures LastFinish(log + [e], id) == if e.FinishedBy? && e.job == id then Some(e) else LastFinish(log, id)
  {
    assert (log + [e])[..|log|] == log;
  }

  lemma EffectTells(before: Job, after: Job, id: JobId, name: string, log: seq<Event>, e: Event, clock: Time)
    requires Told(before, id, name, log)
    requires if id == e.job then GoodChange(before, after, e, clock) else after == before
    ensures Told(after, id, name, log + [e])
  {
    SetOfAppend(log, e, id, name);
    SetOfAppend(log, e, id, "status");
    SetOfAppend(log, e, id, "error");
  }

  lemma {:induction false} NothingSet(log: seq<Event>, id: JobId, name: string)
    requires forall e <- log :: e.job != id
    ensures LastSet(log, id, name) == None
  {
    if log != [] {
      assert log[|log| - 1] in log;
      assert forall e <- log[..|log| - 1] :: e in log;
      NothingSet(log[..|log| - 1], id, name);
    }
  }

  /** What is known of the rows after a step, whatever the step was. */
  ghost predicate Follows(s: State, t: Table, log: seq<Event>, events: seq<Event>) {
    && |events| <= 1 && log == s.log + events
    && if events == [] then forall id <- s.used :: id in t ==> id in s.jobs && t[id] == s.jobs[id]
       else GoodEffect(s, events[0], t)
  }

  lemma FollowingIsTold(s: State, t: Table, log: seq<Event>, events: seq<Event>, id: JobId, name: string)
    requires Follows(s, t, log, events) && id in s.used && id in s.jobs && id in t && Told(s.jobs[id], id, name, s.log)
    ensures Told(t[id], id, name, log)
  {
    if events == [] {
      assert s.log + events == s.log;
    } else {
      assert events == [events[0]];
      EffectTells(s.jobs[id], t[id], id, name, s.log, events[0], s.clock);
    }
  }

  lemma NewRow(s: State, a: Action, id: JobId)
    requires Inv(s) && Enabled(s, a) && id !in s.jobs && id in Step(s, a).jobs
    ensures id !in s.used && Step(s, a).log == s.log
    ensures var job := Step(s, a).jobs[id];
            job.startedAt == s.clock && job.queue == Queued && Shown(job.columns, "status", Some("queued"))
  {
    var events := StepEffect(s, a);
    assert s.log + [] == s.log;
  }

  lemma StepFollows(s: State, a: Action) returns (events: seq<Event>)
    requires Inv(s) && Enabled(s, a)
    ensures Follows(s, Step(s, a).jobs, Step(s, a).log, events)
    ensures s.jobs.Keys <= s.used && s.used <= Step(s, a).used && s.clock <= Step(s, a).clock
  {
    events := StepEffect(s, a);
  }

  lemma StepTells(s: State, a: Action, id: JobId, name: string)
    requires Inv(s) && Enabled(s, a) && id in Step(s, a).jobs
    requires id in s.jobs ==> Told(s.jobs[id], id, name, s.log)
    ensures Told(Step(s, a).jobs[id], id, name, Step(s, a).log)
  {
    if id in s.jobs {
      var events := StepFollows(s, a);
      FollowingIsTold(s, Step(s, a).jobs, Step(s, a).log, events, id, name);
    } else {
      NewRow(s, a, id);
      NothingSet(s.log, id, name);
    }
  }

  lemma {:induction false} RunTells(acts: seq<Action>, n: nat, id: JobId, name: string)
    requires IsRun(acts) && n <= |acts| && id in StateAt(acts, n).jobs
    ensures Told(StateAt(acts, n).jobs[id], id, name, StateAt(acts, n).log)
    decreases n
  {
    if n > 0 {
      NextState(acts, n - 1);
      if id in StateAt(acts, n - 1).jobs {
        RunTells(acts, n - 1, id, name);
      }
      StepTells(StateAt(acts, n - 1), acts[n - 1], id, name);
    }
  }

  /** Over every run, a column shows what the last write or finish that set it set it to. */
  lemma ColumnsTellTheHistory(acts: seq<Action>, id: JobId, name: string)
    requires IsRun(acts) && id in After(acts).jobs && LastSet(After(acts).log, id, name).Some?
    ensures Shown(After(acts).jobs[id].columns, name, LastSet(After(acts).log, id, name).value)
  {
    assert acts[..|acts|] == acts;
    RunTells(acts, |acts|, id, name);
  }

  lemma {:induction false} LastFinishIsInLog(log: seq<Event>, id: JobId)
    requires LastFinish(log, id).Some?
    ensures var e := LastFinish(log, id).value; e in log && e.FinishedBy? && e.job == id
  {
    var e := log[|log| - 1];
    if !(e.FinishedBy? && e.job == id) {
      LastFinishIsInLog(log[..|log| - 1], id);
    }
  }

  /** Over every run, what the queue says of a terminal row and what its columns say is one outcome: `done`
      without an error, or `error` with the text, not empty, that the step that finished it was given. A row
      that nobody has claimed says `queued`. */
  lemma OutcomeIsRecorded(acts: seq<Action>, id: JobId)
    requires IsRun(acts) && id in After(acts).jobs
    ensures var s := After(acts);
            var job := s.jobs[id];
            && (Terminal(job) ==>
                  && (job.queue == Done <==> Shown(job.columns, "status", Some("done")))
                  && (job.queue == Done ==> Shown(job.columns, "error", None))
                  && (job.queue == Failed <==> Shown(job.columns, "status", Some("error")))
                  && (job.queue == Failed ==> exists e <- s.log :: && e.FinishedBy? && e.job == id && e.error.Some? && e.error.value != ""
                                                                    && Shown(job.columns, "error", e.error)))
            && (job.queue == Queued ==> Shown(job.columns, "status", Some("queued")))
  {
    assert acts[..|acts|] == acts;
    RunTells(acts, |acts|, id, "status");
    RunTells(acts, |acts|, id, "error");
    if Terminal(After(acts).jobs[id]) {
      LastFinishIsInLog(After(acts).log, id);
    }
  }

  // ------------------------------------------------------------ what nobody sets

  /** The rows agree on the column, and on what never changes. */
  predicate SameUnset(before: Job, after: Job, name: string) {
    && (name in after.columns <==> name in before.columns)
    && (name in before.columns ==> after.columns[name] == before.columns[name])
    && after.jobType == before.jobType && after.integration == before.integration && after.startedAt == before.startedAt
  }

  lemma FollowingKeepsUnset(s: State, t: Table, log: seq<Event>, events: seq<Event>, id: JobId, name: string)
    requires Follows(s, t, log, events) && id in s.used && id in s.jobs && id in t && UnsetSince(log, |s.log|, id, name)
    ensures SameUnset(s.jobs[id], t[id], name)
  {
    if events != [] {
      assert log[|s.log|] == events[0];
    }
  }

  predicate UnsetSince(log: seq<Event>, m: nat, id: JobId, name: string) {
    forall k | m <= k < |log| :: !Sets(log[k], id, name)
  }

  lemma StillThere(acts: seq<Action>, n: nat, id: JobId)
    requires IsRun(acts) && n < |acts| && id in StateAt(acts, n).used && id in StateAt(acts, n + 1).jobs
    ensures id in StateAt(acts, n).jobs
  {
    NextState(acts, n);
    var events := StepFollows(StateAt(acts, n), acts[n]);
  }

  lemma {:induction false} UsedGrows(acts: seq<Action>, i: nat, n: nat)
    requires IsRun(acts) && i <= n <= |acts|
    ensures StateAt(acts, i).used <= StateAt(acts, n).used && StateAt(acts, i).clock <= StateAt(acts, n).clock
    decreases n
  {
    if i < n {
      UsedGrows(acts, i, n - 1);
      NextState(acts, n - 1);
      var events := StepEffect(StateAt(acts, n - 1), acts[n - 1]);
    }
  }

  lemma JobIsUsed(acts: seq<Action>, i: nat, id: JobId)
    requires IsRun(acts) && i <= |acts| && id in StateAt(acts, i).jobs
    ensures id in StateAt(acts, i).used
  {
    StateHasInv(acts, i);
  }

  lemma ThereBefore(acts: seq<Action>, i: nat, n: nat, id: JobId)
    requires IsRun(acts) && i < n <= |acts| && id in StateAt(acts, i).jobs && id in StateAt(acts, n).jobs
    ensures id in StateAt(acts, n - 1).jobs
  {
    UsedGrows(acts, i, n - 1);
    JobIsUsed(acts, i, id);
    StillThere(acts, n - 1, id);
  }

  lemma UnsetPrefix(log: seq<Event>, more: seq<Event>, m: nat, id: JobId, name: string)
    requires log <= more && m <= |log| && UnsetSince(more, m, id, name)
    ensures UnsetSince(log, m, id, name)
    ensures UnsetSince(more, |log|, id, name)
  {
    forall k | m <= k < |log| ensures !Sets(log[k], id, name) {
      assert more[k] == log[k];
    }
  }

  lemma UnsetStep(acts: seq<Action>, n: nat, id: JobId, name: string)
    requires IsRun(acts) && n < |acts| && id in StateAt(acts, n).jobs && id in StateAt(acts, n + 1).jobs
    requires UnsetSince(StateAt(acts, n + 1).log, |StateAt(acts, n).log|, id, name)
    ensures SameUnset(StateAt(acts, n).jobs[id], StateAt(acts, n + 1).jobs[id], name)
  {
    NextState(acts, n);
    var events := StepFollows(StateAt(acts, n), acts[n]);
    FollowingKeepsUnset(StateAt(acts, n), StateAt(acts, n + 1).jobs, StateAt(acts, n + 1).log, events, id, name);
  }

  lemma SameUnsetIsTransitive(a: Job, b: Job, c: Job, name: string)
    requires SameUnset(a, b, name) && SameUnset(b, c, name)
    ensures SameUnset(a, c, name)
  {
  }

  /** Over every run, a column that no write or finish sets stays as it was, and so do the job's kind, its
      integration and its start. */
  lemma {:induction false} UnsetColumnsStay(acts: seq<Action>, i: nat, n: nat, id: JobId, name: string)
    requires IsRun(acts) && i <= n <= |acts| && id in StateAt(acts, i).jobs && id in StateAt(acts, n).jobs
    requires UnsetSince(StateAt(acts, n).log, |StateAt(acts, i).log|, id, name)
    ensures SameUnset(StateAt(acts, i).jobs[id], StateAt(acts, n).jobs[id], name)
    decreases n
  {
    if i < n {
      ThereBefore(acts, i, n, id);
      LogGrows(acts, i, n - 1);
      LogGrows(acts, n - 1, n);
      UnsetPrefix(StateAt(acts, n - 1).log, StateAt(acts, n).log, |StateAt(acts, i).log|, id, name);
      UnsetStep(acts, n - 1, id, name);
      UnsetColumnsStay(acts, i, n - 1, id, name);
      SameUnsetIsTransitive(StateAt(acts, i).jobs[id], StateAt(acts, n - 1).jobs[id], StateAt(acts, n).jobs[id], name);
    }
  }

  // ---------------------------------------------------------- starts and purges

  lemma StartStep(acts: seq<Action>, n: nat, id: JobId)
    requires IsRun(acts) && n < |acts| && id in StateAt(acts, n + 1).jobs
    ensures StateAt(acts, n).clock <= StateAt(acts, n + 1).clock
    ensures var start := StateAt(acts, n + 1).jobs[id].startedAt;
            if id in StateAt(acts, n).jobs then start == StateAt(acts, n).jobs[id].startedAt
            else start == StateAt(acts, n).clock && id !in StateAt(acts, n).used
  {
    NextState(acts, n);
    var events := StepFollows(StateAt(acts, n), acts[n]);
    if id !in StateAt(acts, n).jobs {
      NewRow(StateAt(acts, n), acts[n], id);
    }
  }

  lemma {:induction false} StartIsPast(acts: seq<Action>, n: nat, id: JobId)
    requires IsRun(acts) && n <= |acts| && id in StateAt(acts, n).jobs
    ensures StateAt(acts, n).jobs[id].startedAt <= StateAt(acts, n).clock
    decreases n
  {
    if n > 0 {
      StartStep(acts, n - 1, id);
      if id in StateAt(acts, n - 1).jobs {
        StartIsPast(acts, n - 1, id);
      }
    }
  }

  lemma {:induction false} StartsBefore(acts: seq<Action>, k: nat, n: nat, id: JobId)
    requires IsRun(acts) && k <= n <= |acts| && id in StateAt(acts, k).jobs && id in StateAt(acts, n).jobs
    ensures StateAt(acts, n).jobs[id].startedAt <= StateAt(acts, k).clock
    decreases n
  {
    if k < n {
      ThereBefore(acts, k, n, id);
      StartStep(acts, n - 1, id);
      StartsBefore(acts, k, n - 1, id);
    } else {
      StartIsPast(acts, n, id);
    }
  }

  lemma {:induction false} StartsAfter(acts: seq<Action>, k: nat, n: nat, id: JobId)
    requires IsRun(acts) && k <= n <= |acts| && id !in StateAt(acts, k).jobs && id in StateAt(acts, n).jobs
    ensures StateAt(acts, n).jobs[id].startedAt >= StateAt(acts, k).clock
    decreases n
  {
    StartStep(acts, n - 1, id);
    if id in StateAt(acts, n - 1).jobs {
      StartsAfter(acts, k, n - 1, id);
    } else {
      UsedGrows(acts, k, n - 1);
    }
  }

  /** Over every run, a job that was there before another one came starts no later, so that the claim query,
      which takes the oldest start first, serves jobs in the order of their arrival. */
  lemma OlderJobsStartFirst(acts: seq<Action>, k: nat, n: nat, older: JobId, newer: JobId)
    requires IsRun(acts) && k <= n <= |acts|
    requires older in StateAt(acts, k).jobs && newer !in StateAt(acts, k).jobs
    requires older in StateAt(acts, n).jobs && newer in StateAt(acts, n).jobs
    ensures StateAt(acts, n).jobs[older].startedAt <= StateAt(acts, n).jobs[newer].startedAt
  {
    StartsBefore(acts, k, n, older);
    StartsAfter(acts, k, n, newer);
  }

  /** A row as it was asked for: waiting, unclaimed, with its columns but for the status. */
  ghost predicate IsAsked(job: Job, kind: JobType, integration: string, columns: map<string, Option<string>>, at: Time) {
    && job.jobType == kind && job.integration == integration && job.startedAt == at
    && job.queue == Queued && job.worker == None && job.lease == None && job.attempts == 0
    && Shown(job.columns, "status", Some("queued"))
    && forall name | name != "status" :: (name in job.columns <==> name in columns) && (name in columns ==> job.columns[name] == columns[name])
  }

  /** A sync of the integration that is waiting or running. */
  predicate SyncGoesOn(job: Job, integration: string) {
    job.jobType == IntegrationSync && job.integration == integration && (job.queue == Queued || job.queue == Processing)
  }

  /** A requested run is queued as it was asked for, and a requested sync is afterwards waiting or running for its
      integration, newly queued as it was asked for if none was. */
  lemma RequestsAreServed(s: State, a: Action)
    requires Inv(s) && Enabled(s, a)
    ensures a.CreateRun? ==>
              a.id in Step(s, a).jobs && IsAsked(Step(s, a).jobs[a.id], CiRun, a.integration, a.columns, s.clock)
    ensures a.RequestSync? ==> exists j <- Step(s, a).jobs :: SyncGoesOn(Step(s, a).jobs[j], a.integration)
    ensures a.RequestSync? && (forall j <- s.jobs :: !SyncGoesOn(s.jobs[j], a.integration)) ==>
              a.id in Step(s, a).jobs && IsAsked(Step(s, a).jobs[a.id], IntegrationSync, a.integration, a.columns, s.clock)
  {
    if a.RequestSync? {
      assert forall j <- s.jobs :: ActiveSync(s.jobs[j], a.integration) <==> SyncGoesOn(s.jobs[j], a.integration);
      if exists j <- s.jobs :: ActiveSync(s.jobs[j], a.integration) {
        assert Step(s, a) == s;
      } else {
        assert SyncGoesOn(Step(s, a).jobs[a.id], a.integration);
      }
    }
  }

  lemma OnlyPurgesRemove(s: State, a: Action, id: JobId)
    requires Inv(s) && Enabled(s, a) && id in s.jobs && id !in Step(s, a).jobs
    ensures a.Purge? && Terminal(s.jobs[id]) && s.jobs[id].updatedAt < a.cutoff
  {
    var events := StepEffect(s, a);
  }

  lemma PurgeStep(s: State, cutoff: Time, id: JobId)
    requires id in s.jobs
    ensures id !in Step(s, Purge(cutoff)).jobs <==> Terminal(s.jobs[id]) && s.jobs[id].updatedAt < cutoff
  {
  }

  lemma FinishIsTheLast(acts: seq<Action>, id: JobId, e: Event)
    requires IsRun(acts) && e in After(acts).log && e.FinishedBy? && e.job == id
    ensures LastFinish(After(acts).log, id) == Some(e)
  {
    var log := After(acts).log;
    FinishedHasALast(log, id, e);
    LastFinishIsInLog(log, id);
    var last := LastFinish(log, id).value;
    var a: nat :| a < |log| && log[a] == e;
    var b: nat :| b < |log| && log[b] == last;
    if a < b {
      OneOutcome(acts, a, b);
    } else if b < a {
      OneOutcome(acts, b, a);
    }
  }

  lemma {:induction false} FinishedHasALast(log: seq<Event>, id: JobId, e: Event)
    requires e in log && e.FinishedBy? && e.job == id
    ensures LastFinish(log, id).Some?
  {
    var last := log[|log| - 1];
    if !(last.FinishedBy? && last.job == id) {
      FinishedHasALast(log[..|log| - 1], id, e);
    }
  }

  predicate FinishedBefore(log: seq<Event>, id: JobId, cutoff: Time) {
    exists e <- log :: e.FinishedBy? && e.job == id && e.at < cutoff
  }

  lemma TerminalHasAFinish(acts: seq<Action>, id: JobId) returns (e: Event)
    requires IsRun(acts) && id in After(acts).jobs && Terminal(After(acts).jobs[id])
    ensures e in After(acts).log && e.FinishedBy? && e.job == id && After(acts).jobs[id].updatedAt == e.at
    ensures LastFinish(After(acts).log, id) == Some(e)
  {
    assert acts[..|acts|] == acts;
    RunTells(acts, |acts|, id, "status");
    LastFinishIsInLog(After(acts).log, id);
    e := LastFinish(After(acts).log, id).value;
  }

  lemma FinishIsTerminal(acts: seq<Action>, id: JobId, e: Event)
    requires IsRun(acts) && id in After(acts).jobs && e in After(acts).log && e.FinishedBy? && e.job == id
    ensures Terminal(After(acts).jobs[id])
  {
    RunKeepsInv(acts);
    assert RowOk(After(acts).jobs[id], id, After(acts).log, After(acts).clock);
  }

  /** A row is finished and last changed before the cutoff exactly if it was finished before it. */
  lemma OldIff(acts: seq<Action>, id: JobId, cutoff: Time)
    requires IsRun(acts) && id in After(acts).jobs
    ensures var job := After(acts).jobs[id];
            Terminal(job) && job.updatedAt < cutoff <==> FinishedBefore(After(acts).log, id, cutoff)
  {
    var job := After(acts).jobs[id];
    if Terminal(job) {
      var last := TerminalHasAFinish(acts, id);
      forall e | e in After(acts).log && e.FinishedBy? && e.job == id ensures e == last {
        FinishIsTheLast(acts, id, e);
      }
    } else {
      forall e | e in After(acts).log && e.FinishedBy? && e.job == id ensures false {
        FinishIsTerminal(acts, id, e);
      }
    }
  }

  /** Over every run, a row goes only by a purge, and by it exactly if it was finished before the cutoff. */
  lemma PurgedAfterItsFinish(acts: seq<Action>, k: nat, id: JobId)
    requires IsRun(acts) && k < |acts| && id in StateAt(acts, k).jobs
    ensures id !in StateAt(acts, k + 1).jobs <==>
            acts[k].Purge? && FinishedBefore(StateAt(acts, k).log, id, acts[k].cutoff)
  {
    var s := StateAt(acts, k);
    NextState(acts, k);
    if acts[k].Purge? {
      PrefixIsRun(acts, k);
      PurgeStep(s, acts[k].cutoff, id);
      OldIff(acts[..k], id, acts[k].cutoff);
    } else if id !in Step(s, acts[k]).jobs {
      OnlyPurgesRemove(s, acts[k], id);
    }
  }
}
