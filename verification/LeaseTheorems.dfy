/** What every run of the lease protocol guarantees. */
module LeaseTheorems {
  import opened Prelude
  import opened JobTable
  import opened LeaseProtocol

  ghost function StateAt(acts: seq<Action>, k: nat): State
    requires k <= |acts|
  {
    After(acts[..k])
  }

  lemma {:induction false} PrefixIsRun(acts: seq<Action>, k: nat)
    requires IsRun(acts) && k <= |acts|
    ensures IsRun(acts[..k])
  {
    if k < |acts| {
      PrefixIsRun(acts[..|acts| - 1], k);
      assert acts[..|acts| - 1][..k] == acts[..k];
    } else {
      assert acts[..k] == acts;
    }
  }

  lemma NextState(acts: seq<Action>, k: nat)
    requires IsRun(acts) && k < |acts|
    ensures Inv(StateAt(acts, k)) && Enabled(StateAt(acts, k), acts[k])
    ensures StateAt(acts, k + 1) == Step(StateAt(acts, k), acts[k]) && Inv(StateAt(acts, k + 1))
  {
    PrefixIsRun(acts, k);
    PrefixIsRun(acts, k + 1);
    RunKeepsInv(acts[..k]);
    RunKeepsInv(acts[..k + 1]);
    assert acts[..k + 1][..k] == acts[..k];
  }

  // ------------------------------------------------------------- the fence

  lemma {:induction false} LastClaimIsInLog(log: seq<Event>, job: JobId) returns (c: nat)
    requires LastClaimant(log, job).Some?
    ensures c < |log| && log[c].ClaimedBy? && log[c].job == job && log[c].worker == LastClaimant(log, job).value
    ensures forall k :: c < k < |log| && log[k].ClaimedBy? ==> log[k].job != job
  {
    var e := log[|log| - 1];
    if e.ClaimedBy? && e.job == job {
      c := |log| - 1;
    } else {
      c := LastClaimIsInLog(log[..|log| - 1], job);
    }
  }

  /** Once a worker has claimed a job, a write, renewal or finish of any other worker reaches the row
      only if that other worker has claimed the job again in between. */
  lemma NothingFromTheOldOwner(acts: seq<Action>, a: nat, b: nat)
    requires IsRun(acts)
    requires a < b < |After(acts).log|
    requires var log := After(acts).log;
             && log[a].ClaimedBy? && !log[b].ClaimedBy?
             && log[b].job == log[a].job && log[b].worker != log[a].worker
    ensures var log := After(acts).log;
            exists c :: a < c < b && log[c].ClaimedBy? && log[c].job == log[b].job && log[c].worker == log[b].worker
  {
    RunKeepsInv(acts);
    var log := After(acts).log;
    assert InOrder(log[..b], log[b]);
    var c := LastClaimIsInLog(log[..b], log[b].job);
    assert log[..b][a] == log[a];
    assert log[..b][c] == log[c];
  }

  /** A job has one outcome, and nothing reaches it afterwards. */
  lemma OneOutcome(acts: seq<Action>, a: nat, b: nat)
    requires IsRun(acts)
    requires a < b < |After(acts).log| && After(acts).log[a].FinishedBy?
    ensures After(acts).log[b].job != After(acts).log[a].job
  {
    RunKeepsInv(acts);
    var log := After(acts).log;
    assert InOrder(log[..b], log[b]);
    assert log[..b][a] in log[..b];
  }

  /** The attempt counter is the number of successful claims, and the recorded worker the last one to
      claim; a row is terminal exactly when its outcome is in the history. */
  lemma RowsTellTheHistory(acts: seq<Action>, id: JobId)
    requires IsRun(acts) && id in After(acts).jobs
    ensures var s := After(acts);
            && s.jobs[id].attempts == Claims(s.log, id)
            && s.jobs[id].worker == LastClaimant(s.log, id)
            && (Terminal(s.jobs[id]) <==> exists e <- s.log :: e.FinishedBy? && e.job == id)
  {
    RunKeepsInv(acts);
    assert RowOk(After(acts).jobs[id], id, After(acts).log, After(acts).clock);
  }

  /** A step changes a row only if its worker owns the row at that moment, or claims it by the step;
      a finished row is never changed. */
  lemma OnlyOwnersAndClaimantsChangeRows(acts: seq<Action>, k: nat, id: JobId)
    requires IsRun(acts) && k < |acts|
    requires id in StateAt(acts, k).jobs && id in StateAt(acts, k + 1).jobs
    requires StateAt(acts, k + 1).jobs[id] != StateAt(acts, k).jobs[id]
    ensures var s, next := StateAt(acts, k), StateAt(acts, k + 1);
            && !Terminal(s.jobs[id])
            && Actor(s, acts[k]).Some?
            && var w := Actor(s, acts[k]).value;
               || Owns(s.jobs, id, w)
               || (next.jobs[id].attempts == s.jobs[id].attempts + 1 && Owns(next.jobs, id, w))
  {
    NextState(acts, k);
    var events := StepEffect(StateAt(acts, k), acts[k]);
  }

  predicate FinalOrGone(s: State, id: JobId, row: Job) {
    id in s.used && (id in s.jobs ==> s.jobs[id] == row)
  }

  lemma FinishedRowSurvivesStep(s: State, a: Action, id: JobId, row: Job)
    requires Inv(s) && Enabled(s, a) && FinalOrGone(s, id, row) && Terminal(row)
    ensures FinalOrGone(Step(s, a), id, row)
  {
    var events := StepEffect(s, a);
  }

  /** A finished row stays as it is until it is purged, and its id never comes back. */
  lemma {:induction false} FinishedRowsAreFinal(acts: seq<Action>, k: nat, n: nat, id: JobId)
    requires IsRun(acts) && k <= n <= |acts|
    requires id in StateAt(acts, k).jobs && Terminal(StateAt(acts, k).jobs[id])
    ensures FinalOrGone(StateAt(acts, n), id, StateAt(acts, k).jobs[id])
    decreases n
  {
    if k < n {
      FinishedRowsAreFinal(acts, k, n - 1, id);
      NextState(acts, n - 1);
      FinishedRowSurvivesStep(StateAt(acts, n - 1), acts[n - 1], id, StateAt(acts, k).jobs[id]);
    } else {
      PrefixIsRun(acts, k);
      RunKeepsInv(acts[..k]);
    }
  }

  // ---------------------------------------------------------------- leases

  /** The lease of the job, written at the last claim or renewal, has not run out. */
  predicate Covered(s: State, id: JobId) {
    LastStamp(s.log, id).Some? && s.clock <= LastStamp(s.log, id).value + LEASE
  }

  /** `w` has the job, or has finished it, with no claim since the state `start`. */
  predicate StillWith(start: State, s: State, id: JobId, w: WorkerId) {
    && id in s.used
    && Claims(s.log, id) == Claims(start.log, id)
    && (id in s.jobs ==> s.jobs[id].worker == Some(w) && (s.jobs[id].queue == Processing || Terminal(s.jobs[id])))
  }

  lemma CoveredStepKeepsOwner(start: State, s: State, a: Action, id: JobId, w: WorkerId)
    requires Inv(s) && Enabled(s, a) && StillWith(start, s, id, w)
    requires Owns(s.jobs, id, w) ==> Covered(s, id)
    ensures StillWith(start, Step(s, a), id, w)
  {
    var events := StepEffect(s, a);
    if events == [] {
      assert s.log + events == s.log;
    } else {
      var e := events[0];
      assert events == [e];
      HistoryOfAppend(s.log, e, id);
      assert id in s.jobs ==> RowOk(s.jobs[id], id, s.log, s.clock);
    }
  }

  /** While each renewal lands before the lease written last runs out, nobody else's claim of the job
      succeeds: from a state in which `w` owns the job, the job stays with `w` until `w` finishes it. */
  lemma {:induction false} HeartbeatsKeepTheJob(acts: seq<Action>, i: nat, n: nat, id: JobId, w: WorkerId)
    requires IsRun(acts) && i <= n <= |acts|
    requires Owns(StateAt(acts, i).jobs, id, w)
    requires forall k :: i <= k < n && Owns(StateAt(acts, k).jobs, id, w) ==> Covered(StateAt(acts, k), id)
    ensures StillWith(StateAt(acts, i), StateAt(acts, n), id, w)
    decreases n
  {
    if i < n {
      HeartbeatsKeepTheJob(acts, i, n - 1, id, w);
      NextState(acts, n - 1);
      CoveredStepKeepsOwner(StateAt(acts, i), StateAt(acts, n - 1), acts[n - 1], id, w);
    } else {
      PrefixIsRun(acts, i);
      RunKeepsInv(acts[..i]);
    }
  }

  /** A landed claim beats everyone who saw the same row: a rival's claim from the same candidate no
      longer matches, and the former owner neither renews, nor writes, nor finishes. */
  lemma ClaimBeatsItsRivals(t: Table, c: Candidate, w: WorkerId, now: Time, stamp: Time, rival: WorkerId)
    requires TodoOk(c, now, t.Keys) && now <= stamp && ClaimMatches(t, c)
    ensures var t' := TryClaim(t, c, w, now, stamp);
            && !ClaimMatches(t', c)
            && (rival != w ==> !Owns(t', c.id, rival) && !RecordedOwner(t', c.id, rival))
  {
  }

  /** A renewal that lands first beats a claim of the same row, except when it writes back the very
      lease the claim saw. */
  lemma RenewalBeatsClaim(t: Table, c: Candidate, owner: WorkerId, stamp: Time, at: Time)
    requires Owns(t, c.id, owner) && ClaimMatches(t, c)
    ensures ClaimMatches(Renew(t, c.id, owner, stamp, at), c) <==> c.lease == Some(stamp + LEASE)
  {
  }

  /** What a worker that is not disturbed by its own orphans believes about the lease it wrote last. */
  predicate LeaseIsOlder(s: State, w: WorkerId, pc: PC) {
    match pc
    case Executing(id, since) => Owns(s.jobs, id, w) ==> s.jobs[id].lease.Some? && s.jobs[id].lease.value <= since + LEASE
    case Renewing(id, stamp) => Owns(s.jobs, id, w) ==> s.jobs[id].lease.Some? && s.jobs[id].lease.value < stamp + LEASE
    case _ => true
  }

  predicate LeasesAreOlder(s: State) {
    forall w <- s.pcs :: LeaseIsOlder(s, w, s.pcs[w])
  }

  lemma OwnTurnKeepsLeaseOlder(s: State, w: WorkerId, move: Move)
    requires Inv(s) && Enabled(s, WorkerMove(w, move)) && LeaseIsOlder(s, w, s.pcs[w])
    ensures LeaseIsOlder(Step(s, WorkerMove(w, move)), w, Step(s, WorkerMove(w, move)).pcs[w])
  {
    assert CallOk(s.pcs[w], s.clock, s.used);
  }

  lemma OtherStepsKeepLeaseOlder(s: State, a: Action, w: WorkerId)
    requires Inv(s) && Enabled(s, a) && s.orphans == []
    requires w in s.pcs && LeaseIsOlder(s, w, s.pcs[w]) && CallOk(s.pcs[w], s.clock, s.used)
    requires a.WorkerMove? ==> a.worker != w
    ensures LeaseIsOlder(Step(s, a), w, s.pcs[w])
  {
    var events := StepEffect(s, a);
    if (s.pcs[w].Executing? || s.pcs[w].Renewing?) && events != [] && events[0].job == s.pcs[w].job {
      assert RowOk(s.jobs[events[0].job], events[0].job, s.log, s.clock);
      assert Step(s, a).log[|s.log|] == events[0];
      assert events[0].worker == w ==> events[0].WrittenBy?;
    }
  }

  lemma LeasesStayOlder(s: State, a: Action)
    requires Inv(s) && Enabled(s, a) && LeasesAreOlder(s) && s.orphans == []
    ensures LeasesAreOlder(Step(s, a))
  {
    var next := Step(s, a);
    forall w <- next.pcs
      ensures LeaseIsOlder(next, w, next.pcs[w])
    {
      if a.WorkerMove? && a.worker == w {
        OwnTurnKeepsLeaseOlder(s, w, a.move);
      } else if w in s.pcs {
        OtherStepsKeepLeaseOlder(s, a, w);
      }
    }
  }

  lemma RenewalMovesForward(s: State, a: Action, e: Event)
    requires Inv(s) && Enabled(s, a) && LeasesAreOlder(s) && s.orphans == []
    requires e.RenewedBy? && Step(s, a).log == s.log + [e]
    ensures e.job in s.jobs && s.jobs[e.job].lease.Some? && s.jobs[e.job].lease.value < e.stamp + LEASE
  {
    assert Step(s, a).log[|s.log|] == e;
    if a.WorkerMove? {
      assert LeaseIsOlder(s, a.worker, s.pcs[a.worker]);
    }
  }

  ghost predicate NeverOrphaned(acts: seq<Action>) {
    forall m :: 0 <= m <= |acts| ==> StateAt(acts, m).orphans == []
  }

  lemma {:induction false} LeasesAreOlderAt(acts: seq<Action>, k: nat)
    requires IsRun(acts) && k <= |acts| && NeverOrphaned(acts)
    ensures LeasesAreOlder(StateAt(acts, k))
  {
    if k > 0 {
      LeasesAreOlderAt(acts, k - 1);
      NextState(acts, k - 1);
      LeasesStayOlder(StateAt(acts, k - 1), acts[k - 1]);
    }
  }

  // -------------------------------------------------- who wins from one snapshot

  /** A claim or renewal of the job: an effect that writes its lease. */
  predicate Stamps(e: Event, job: JobId) {
    (e.ClaimedBy? || e.RenewedBy?) && e.job == job
  }

  predicate StampedSince(log: seq<Event>, m: nat, job: JobId) {
    exists k :: m <= k < |log| && Stamps(log[k], job)
  }

  /** No two claims or renewals of the job come from one reading of the clock. */
  predicate NoStampTwice(log: seq<Event>, job: JobId) {
    forall a, b | 0 <= a < b < |log| && Stamps(log[a], job) && Stamps(log[b], job) :: log[a].stamp != log[b].stamp
  }

  lemma {:induction false} StampIsInLog(log: seq<Event>, job: JobId) returns (k: nat)
    requires LastStamp(log, job).Some?
    ensures k < |log| && Stamps(log[k], job) && log[k].stamp == LastStamp(log, job).value
    ensures forall m :: k < m < |log| ==> !Stamps(log[m], job)
  {
    k := |log| - 1;
    if !Stamps(log[k], job) {
      k := StampIsInLog(log[..|log| - 1], job);
    }
  }

  lemma {:induction false} NoStampNoClaimant(log: seq<Event>, job: JobId)
    requires LastStamp(log, job).None?
    ensures LastClaimant(log, job).None? && forall k :: 0 <= k < |log| ==> !Stamps(log[k], job)
  {
    if log != [] {
      NoStampNoClaimant(log[..|log| - 1], job);
      forall k | 0 <= k < |log| ensures !Stamps(log[k], job) {
        assert k < |log| - 1 ==> log[..|log| - 1][k] == log[k];
      }
    }
  }

  /** The stamp behind the lease stays the same exactly while no claim or renewal lands. */
  lemma LastStampTellsSince(log: seq<Event>, m: nat, job: JobId)
    requires m <= |log| && NoStampTwice(log, job) && LastStamp(log[..m], job).Some?
    ensures LastStamp(log, job) == LastStamp(log[..m], job) <==> !StampedSince(log, m, job)
  {
    var a := StampIsInLog(log[..m], job);
    assert log[..m][a] == log[a];
    if LastStamp(log, job).None? {
      NoStampNoClaimant(log, job);
    } else {
      var b := StampIsInLog(log, job);
      if b < m {
        assert log[..m][b] == log[b];
      }
    }
  }

  lemma {:induction false} NeverClaimedNeverStamped(log: seq<Event>, job: JobId)
    requires LogInOrder(log) && LastClaimant(log, job).None?
    ensures LastStamp(log, job).None?
  {
    if log != [] {
      var before := log[..|log| - 1];
      forall k | 0 <= k < |before| ensures InOrder(before[..k], before[k]) {
        assert InOrder(log[..k], log[k]);
        assert before[..k] == log[..k];
      }
      assert InOrder(before, log[|log| - 1]);
      NeverClaimedNeverStamped(before, job);
    }
  }

  lemma {:induction false} LogGrows(acts: seq<Action>, i: nat, n: nat)
    requires IsRun(acts) && i <= n <= |acts|
    ensures StateAt(acts, i).log <= StateAt(acts, n).log
    decreases n
  {
    if i < n {
      LogGrows(acts, i, n - 1);
      NextState(acts, n - 1);
      var events := StepEffect(StateAt(acts, n - 1), acts[n - 1]);
    }
  }

  lemma StateHasInv(acts: seq<Action>, k: nat)
    requires IsRun(acts) && k <= |acts|
    ensures Inv(StateAt(acts, k))
  {
    PrefixIsRun(acts, k);
    RunKeepsInv(acts[..k]);
  }

  lemma RowIsOk(acts: seq<Action>, k: nat, id: JobId)
    requires IsRun(acts) && k <= |acts| && id in StateAt(acts, k).jobs
    ensures RowOk(StateAt(acts, k).jobs[id], id, StateAt(acts, k).log, StateAt(acts, k).clock)
  {
    StateHasInv(acts, k);
  }

  lemma SameLeaseIffSameStamp(before: Job, after: Job, id: JobId, log: seq<Event>, later: seq<Event>, at: Time, end: Time)
    requires RowOk(before, id, log, at) && RowOk(after, id, later, end)
    requires before.queue == Processing && after.queue == Processing
    ensures before.lease == after.lease <==> LastStamp(log, id) == LastStamp(later, id)
  {
  }

  /** In every run, orphans included: a claim from what a query showed of a processing row can land exactly
      while the row is processing under a lease written at the same reading of the clock. */
  lemma ClaimLandsIffSameStamp(acts: seq<Action>, i: nat, n: nat, c: Candidate)
    requires IsRun(acts) && i <= n <= |acts|
    requires Shows(StateAt(acts, i).jobs, c) && c.queue == Processing
    ensures var s := StateAt(acts, n);
            ClaimMatches(s.jobs, c) <==>
              && c.id in s.jobs && s.jobs[c.id].queue == Processing
              && LastStamp(s.log, c.id) == LastStamp(StateAt(acts, i).log, c.id)
  {
    var s, t := StateAt(acts, i), StateAt(acts, n);
    if c.id in t.jobs && t.jobs[c.id].queue == Processing {
      RowIsOk(acts, i, c.id);
      RowIsOk(acts, n, c.id);
      SameLeaseIffSameStamp(s.jobs[c.id], t.jobs[c.id], c.id, s.log, t.log, s.clock, t.clock);
    }
  }

  lemma QueuedMeansUnstamped(acts: seq<Action>, n: nat, id: JobId)
    requires IsRun(acts) && n <= |acts| && id in StateAt(acts, n).jobs && StateAt(acts, n).jobs[id].queue == Queued
    ensures forall k :: 0 <= k < |StateAt(acts, n).log| ==> !Stamps(StateAt(acts, n).log[k], id)
  {
    StateHasInv(acts, n);
    RowIsOk(acts, n, id);
    NeverClaimedNeverStamped(StateAt(acts, n).log, id);
    NoStampNoClaimant(StateAt(acts, n).log, id);
  }

  /** In every run in which no two claims or renewals of the job come from one reading of the clock: a claim
      from a query's answer can land exactly while the row is in the status it showed and nobody has claimed or
      renewed the job since. So of the claims and renewals that start from one state of a row, the first to
      land is the only one. */
  lemma OneWinner(acts: seq<Action>, i: nat, n: nat, c: Candidate)
    requires IsRun(acts) && i <= n <= |acts|
    requires Shows(StateAt(acts, i).jobs, c) && (c.queue == Queued || c.queue == Processing)
    requires NoStampTwice(StateAt(acts, n).log, c.id)
    ensures var s := StateAt(acts, n);
            ClaimMatches(s.jobs, c) <==>
              c.id in s.jobs && s.jobs[c.id].queue == c.queue && !StampedSince(s.log, |StateAt(acts, i).log|, c.id)
  {
    LogGrows(acts, i, n);
    var s, t := StateAt(acts, i), StateAt(acts, n);
    RowIsOk(acts, i, c.id);
    if c.queue == Processing {
      ClaimLandsIffSameStamp(acts, i, n, c);
      assert t.log[..|s.log|] == s.log;
      LastStampTellsSince(t.log, |s.log|, c.id);
    } else if c.id in t.jobs && t.jobs[c.id].queue == Queued {
      QueuedMeansUnstamped(acts, n, c.id);
    }
  }

  // ------------------------------------------- without orphans no stamp comes twice

  /** Every claim or renewal of the job writes a later lease than the one before. */
  predicate StampsRise(log: seq<Event>, job: JobId) {
    log == [] ||
      var before, e := log[..|log| - 1], log[|log| - 1];
      && StampsRise(before, job)
      && (Stamps(e, job) && LastStamp(before, job).Some? ==> LastStamp(before, job).value < e.stamp)
  }

  lemma StampRises(s: State, a: Action, e: Event)
    requires Inv(s) && Enabled(s, a) && LeasesAreOlder(s) && s.orphans == []
    requires Step(s, a).log == s.log + [e] && Stamps(e, e.job) && LastStamp(s.log, e.job).Some?
    ensures LastStamp(s.log, e.job).value < e.stamp
  {
    var events := StepEffect(s, a);
    assert Step(s, a).log[|s.log|] == e;
    assert events == [e];
    assert RowOk(s.jobs[e.job], e.job, s.log, s.clock);
    if e.RenewedBy? {
      RenewalMovesForward(s, a, e);
    } else if s.jobs[e.job].queue == Queued {
      NeverClaimedNeverStamped(s.log, e.job);
    }
  }

  lemma StepKeepsStampsRising(s: State, a: Action, job: JobId)
    requires Inv(s) && Enabled(s, a) && LeasesAreOlder(s) && s.orphans == []
    requires StampsRise(s.log, job)
    ensures StampsRise(Step(s, a).log, job)
  {
    var events := StepEffect(s, a);
    if events == [] {
      assert s.log + events == s.log;
    } else {
      assert events == [events[0]] && (s.log + events)[..|s.log|] == s.log;
      if Stamps(events[0], job) && LastStamp(s.log, job).Some? {
        StampRises(s, a, events[0]);
      }
    }
  }

  lemma {:induction false} StampsRiseWithoutOrphans(acts: seq<Action>, n: nat, job: JobId)
    requires IsRun(acts) && n <= |acts| && NeverOrphaned(acts)
    ensures StampsRise(StateAt(acts, n).log, job)
    decreases n
  {
    if n > 0 {
      StampsRiseWithoutOrphans(acts, n - 1, job);
      NextState(acts, n - 1);
      LeasesAreOlderAt(acts, n - 1);
      StepKeepsStampsRising(StateAt(acts, n - 1), acts[n - 1], job);
    }
  }

  lemma {:induction false} LastStampIsAtLeast(log: seq<Event>, job: JobId, a: nat)
    requires StampsRise(log, job) && a < |log| && Stamps(log[a], job)
    ensures LastStamp(log, job).Some? && log[a].stamp <= LastStamp(log, job).value
  {
    if a < |log| - 1 {
      LastStampIsAtLeast(log[..|log| - 1], job, a);
    }
  }

  lemma {:induction false} RisingStampsDiffer(log: seq<Event>, job: JobId)
    requires StampsRise(log, job)
    ensures NoStampTwice(log, job)
  {
    if log != [] {
      var before := log[..|log| - 1];
      RisingStampsDiffer(before, job);
      forall a, b | 0 <= a < b < |log| && Stamps(log[a], job) && Stamps(log[b], job) ensures log[a].stamp != log[b].stamp {
        assert before[a] == log[a];
        if b < |before| {
          assert before[b] == log[b];
        } else {
          LastStampIsAtLeast(before, job, a);
        }
      }
    }
  }

  /** If no worker is closed in the middle of a call, no stamp comes twice, and so a snapshot has one winner. */
  lemma OneWinnerPerSnapshot(acts: seq<Action>, i: nat, n: nat, c: Candidate)
    requires IsRun(acts) && i <= n <= |acts| && NeverOrphaned(acts)
    requires Shows(StateAt(acts, i).jobs, c) && (c.queue == Queued || c.queue == Processing)
    ensures var s := StateAt(acts, n);
            ClaimMatches(s.jobs, c) <==>
              c.id in s.jobs && s.jobs[c.id].queue == c.queue && !StampedSince(s.log, |StateAt(acts, i).log|, c.id)
  {
    StampsRiseWithoutOrphans(acts, n, c.id);
    RisingStampsDiffer(StateAt(acts, n).log, c.id);
    OneWinner(acts, i, n, c);
  }

  lemma StampedInBetween(log: seq<Event>, middle: seq<Event>, later: seq<Event>, e: Event)
    requires log <= middle && middle + [e] <= later && (e.ClaimedBy? || e.RenewedBy?)
    ensures StampedSince(later, |log|, e.job)
  {
    assert later[|middle|] == (middle + [e])[|middle|];
  }

  lemma LandedIsStampedSince(acts: seq<Action>, i: nat, k: nat, n: nat, e: Event)
    requires IsRun(acts) && i <= k < n <= |acts| && (e.ClaimedBy? || e.RenewedBy?)
    requires StateAt(acts, k + 1).log == StateAt(acts, k).log + [e]
    ensures StampedSince(StateAt(acts, n).log, |StateAt(acts, i).log|, e.job)
  {
    LogGrows(acts, i, k);
    LogGrows(acts, k + 1, n);
    StampedInBetween(StateAt(acts, i).log, StateAt(acts, k).log, StateAt(acts, n).log, e);
  }

  /** The first claim or renewal to land on a row is the only one: from then on no claim from what the query
      showed can land. It holds in every run without orphans, and in every run in which no two claims or
      renewals of the job come from one reading of the clock. */
  lemma OnlyTheFirstLands(acts: seq<Action>, i: nat, k: nat, n: nat, c: Candidate, e: Event)
    requires IsRun(acts) && i <= k < n <= |acts|
    requires NeverOrphaned(acts) || NoStampTwice(StateAt(acts, n).log, c.id)
    requires Shows(StateAt(acts, i).jobs, c) && (c.queue == Queued || c.queue == Processing)
    requires Stamps(e, c.id) && StateAt(acts, k + 1).log == StateAt(acts, k).log + [e]
    ensures !ClaimMatches(StateAt(acts, n).jobs, c)
  {
    LandedIsStampedSince(acts, i, k, n, e);
    if NeverOrphaned(acts) {
      OneWinnerPerSnapshot(acts, i, n, c);
    } else {
      OneWinner(acts, i, n, c);
    }
  }

  /** Every job that is not finished is queued, or becomes eligible the moment its lease has passed,
      which is at most one lease from now. */
  lemma NothingIsStranded(acts: seq<Action>, id: JobId, now: Time)
    requires IsRun(acts) && id in After(acts).jobs && !Terminal(After(acts).jobs[id])
    ensures var s := After(acts);
            && (s.jobs[id].queue == Queued ==> Eligible(s.jobs[id], now))
            && (s.jobs[id].queue == Processing ==>
                  s.jobs[id].lease.Some? && (Eligible(s.jobs[id], now) <==> s.jobs[id].lease.value < now))
            && (s.clock + LEASE < now ==> Eligible(s.jobs[id], now))
  {
    RunKeepsInv(acts);
    assert RowOk(After(acts).jobs[id], id, After(acts).log, After(acts).clock);
  }

  /** One unfinished sync per integration. */
  lemma SyncsCoalesce(acts: seq<Action>, i: JobId, j: JobId, integration: string)
    requires IsRun(acts) && i in After(acts).jobs && j in After(acts).jobs
    requires forall k <- {i, j} ::
               var job := After(acts).jobs[k];
               job.jobType == IntegrationSync && job.integration == integration && (job.queue == Queued || job.queue == Processing)
    ensures i == j
  {
    RunKeepsInv(acts);
    assert i in {i, j} && j in {i, j};
    assert forall k <- {i, j} :: ActiveSync(After(acts).jobs[k], integration);
  }

  lemma ClaimLoopStep(s: State, a: Action, w: WorkerId)
    requires Enabled(s, a) && w in s.pcs && s.pcs[w].Claiming? && Step(s, a).pcs[w].Claiming?
    ensures var todo := s.pcs[w].todo;
            if a.WorkerMove? && a.worker == w
            then todo != [] && !ClaimMatches(s.jobs, todo[0]) && Step(s, a).pcs[w].todo == todo[1..]
            else Step(s, a).pcs[w] == s.pcs[w]
  {
  }

  /** A claim that comes to the end of its candidates was beaten to every one of them: each row had
      changed, at the moment the claim tried it, from what the query showed. */
  lemma {:induction false} EmptyHandedMeansBeaten(acts: seq<Action>, w: WorkerId, i: nat, n: nat, c: Candidate)
    requires IsRun(acts) && i <= n <= |acts|
    requires forall k :: i <= k <= n ==> w in StateAt(acts, k).pcs && StateAt(acts, k).pcs[w].Claiming?
    requires StateAt(acts, n).pcs[w].todo == [] && c in StateAt(acts, i).pcs[w].todo
    ensures exists k :: i <= k < n && !ClaimMatches(StateAt(acts, k).jobs, c)
    decreases n - i
  {
    NextState(acts, i);
    ClaimLoopStep(StateAt(acts, i), acts[i], w);
    if c in StateAt(acts, i + 1).pcs[w].todo {
      EmptyHandedMeansBeaten(acts, w, i + 1, n, c);
    }
  }

  lemma {:induction false} QueriedThenClaiming(acts: seq<Action>, w: WorkerId, q: nat, n: nat, c: Candidate)
      returns (i: nat)
    requires IsRun(acts) && q <= n <= |acts|
    requires forall k :: q <= k <= n ==> w in StateAt(acts, k).pcs && StillTrying(StateAt(acts, k).pcs[w])
    requires StateAt(acts, q).pcs[w].Queried? && c in StateAt(acts, q).pcs[w].todo && StateAt(acts, n).pcs[w].Claiming?
    ensures q <= i <= n && forall k :: i <= k <= n ==> StateAt(acts, k).pcs[w].Claiming?
    ensures c in StateAt(acts, i).pcs[w].todo
    decreases n - q
  {
    NextState(acts, q);
    QueryStep(StateAt(acts, q), acts[q], w);
    if StateAt(acts, q + 1).pcs[w].Queried? {
      i := QueriedThenClaiming(acts, w, q + 1, n, c);
    } else {
      i := q + 1;
      ClaimingGoesOn(acts, w, i, n);
    }
  }

  /** The worker has its query's answer and is still at it. */
  predicate StillTrying(pc: PC) {
    pc.Queried? || pc.Claiming?
  }

  lemma QueryStep(s: State, a: Action, w: WorkerId)
    requires Enabled(s, a) && w in s.pcs && s.pcs[w].Queried? && w in Step(s, a).pcs && StillTrying(Step(s, a).pcs[w])
    ensures Step(s, a).pcs[w].todo == s.pcs[w].todo
  {
  }

  lemma ClaimingStep(s: State, a: Action, w: WorkerId)
    requires Enabled(s, a) && w in s.pcs && s.pcs[w].Claiming? && w in Step(s, a).pcs && StillTrying(Step(s, a).pcs[w])
    ensures Step(s, a).pcs[w].Claiming?
  {
  }

  lemma {:induction false} ClaimingGoesOn(acts: seq<Action>, w: WorkerId, i: nat, n: nat)
    requires IsRun(acts) && i <= n <= |acts|
    requires forall k :: i <= k <= n ==> w in StateAt(acts, k).pcs && StillTrying(StateAt(acts, k).pcs[w])
    requires StateAt(acts, i).pcs[w].Claiming?
    ensures forall k :: i <= k <= n ==> StateAt(acts, k).pcs[w].Claiming?
    decreases n - i
  {
    if i < n {
      NextState(acts, i);
      ClaimingStep(StateAt(acts, i), acts[i], w);
      ClaimingGoesOn(acts, w, i + 1, n);
    }
  }

  lemma GivesUpAtTheEnd(s: State, w: WorkerId, move: Move)
    requires w in s.pcs && s.pcs[w].Claiming? && move.Go? && Step(s, WorkerMove(w, move)).pcs[w].Idle?
    ensures s.pcs[w].todo == []
  {
  }

  /** From the query on: when a claim goes back with nothing, each row of the query's answer matched when the
      query read it, and had changed by the moment the claim tried it. */
  lemma EmptyHandedMeansChangedSinceTheQuery(acts: seq<Action>, w: WorkerId, q: nat, n: nat, found: seq<Candidate>, c: Candidate)
    requires IsRun(acts) && q < n < |acts| && acts[q] == WorkerMove(w, Go(found)) && c in found
    requires w in StateAt(acts, q).pcs && StateAt(acts, q).pcs[w].Clocked?
    requires forall k :: q < k <= n ==> w in StateAt(acts, k).pcs && StillTrying(StateAt(acts, k).pcs[w])
    requires StateAt(acts, n).pcs[w].Claiming? && acts[n].WorkerMove? && acts[n].worker == w && acts[n].move.Go?
    requires w in StateAt(acts, n + 1).pcs && StateAt(acts, n + 1).pcs[w].Idle?
    ensures ClaimMatches(StateAt(acts, q).jobs, c)
    ensures exists k :: q < k < n && !ClaimMatches(StateAt(acts, k).jobs, c)
  {
    NextState(acts, q);
    NextState(acts, n);
    GivesUpAtTheEnd(StateAt(acts, n), w, acts[n].move);
    assert Shows(StateAt(acts, q).jobs, c);
    var i := QueriedThenClaiming(acts, w, q + 1, n, c);
    EmptyHandedMeansBeaten(acts, w, i, n, c);
  }

  /** `_execute` hands over `str(error)`, and `finish_job` tests it for truth: a failure is recorded as
      one exactly when its text is not empty. */
  lemma FailureIsRecordedIfItHasAText(job: Job, raised: bool, text: string, at: Time)
    ensures var error := if raised then Some(text) else None;
            && (Finished(job, error, at).queue == Failed <==> raised && text != "")
            && (raised && text == "" ==> Finished(job, error, at) == Finished(job, None, at))
  {
  }
}
