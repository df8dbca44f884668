/** The counters of a run: recounted from all cases when a result is marked (backend/routers/runs.py), and
    counted up case by case by the demo simulator (backend/ws_manager.py). Percentages are exact. */
module RunCounters {
  import opened Prelude
  import opened Text

  datatype CaseStatus = Pass | Fail | Blocked | Skip | Pending
  datatype RunStatus = Unset | PendingRun | Running | PassRun | FailRun | OtherRun(name: string)

  datatype Run = Run(status: RunStatus, progress: int, total: nat, passed: nat, failed: nat, blocked: nat)

  /** What is sent to the watchers after each result. */
  datatype Message = Message(index: nat, status: CaseStatus, progress: int, passed: nat, failed: nat, blocked: nat,
                             finished: nat, total: nat)

  // -------------------------------------------------------------- counting

  function Count(cases: seq<CaseStatus>, among: set<CaseStatus>): (n: nat)
    ensures n <= |cases|
  {
    if cases == [] then 0 else (if cases[0] in among then 1 else 0) + Count(cases[1..], among)
  }

  function Passed(cases: seq<CaseStatus>): nat {
    Count(cases, {Pass})
  }

  function Failed(cases: seq<CaseStatus>): nat {
    Count(cases, {Fail})
  }

  /** A skipped case counts as blocked. */
  function BlockedOrSkipped(cases: seq<CaseStatus>): nat {
    Count(cases, {Blocked, Skip})
  }

  function Finished(cases: seq<CaseStatus>): nat {
    Count(cases, {Pass, Fail, Blocked, Skip})
  }

  /** `run.total or len(cases)` */
  function TotalOf(r: Run, cases: seq<CaseStatus>): nat {
    if r.total != 0 then r.total else |cases|
  }

  predicate Complete(r: Run, cases: seq<CaseStatus>) {
    Finished(cases) >= TotalOf(r, cases) > 0
  }

  function ProgressOf(r: Run, cases: seq<CaseStatus>): int {
    var total := TotalOf(r, cases);
    if Complete(r, cases) then 100 else if total > 0 then Finished(cases) * 100 / total else 0
  }

  function Recounted(r: Run, cases: seq<CaseStatus>): Run {
    var failed := Failed(cases);
    Run(if Complete(r, cases) then (if failed > 0 then FailRun else PassRun)
        else if r.status == Unset || r.status == PendingRun then Running else r.status,
        ProgressOf(r, cases), r.total, Passed(cases), failed, BlockedOrSkipped(cases))
  }

  function MessageOf(r: Run, cases: seq<CaseStatus>, index: nat): Message
    requires index < |cases|
  {
    Message(index, cases[index], ProgressOf(r, cases), Passed(cases), Failed(cases), BlockedOrSkipped(cases),
            Finished(cases), TotalOf(r, cases))
  }

  /** The counters say what the cases say. */
  predicate Agrees(r: Run, cases: seq<CaseStatus>) {
    r.passed == Passed(cases) && r.failed == Failed(cases) && r.blocked == BlockedOrSkipped(cases)
  }

  lemma {:induction false} CountAfterMark(cases: seq<CaseStatus>, i: nat, status: CaseStatus, among: set<CaseStatus>)
    requires i < |cases|
    ensures Count(cases[i := status], among)
         == Count(cases, among) - (if cases[i] in among then 1 else 0) + (if status in among then 1 else 0)
  {
    if i > 0 {
      assert cases[i := status][1..] == cases[1..][i - 1 := status];
      CountAfterMark(cases[1..], i - 1, status, among);
    } else {
      assert cases[i := status][1..] == cases[1..];
    }
  }

  lemma OneOrRest(cases: seq<CaseStatus>, status: CaseStatus)
    requires cases != []
    ensures status in cases <==> cases[0] == status || status in cases[1..]
  {
    assert cases == [cases[0]] + cases[1..];
  }

  /** The three counters add up to the cases that are not pending. */
  lemma {:induction false} CountersAddUp(cases: seq<CaseStatus>)
    ensures Passed(cases) + Failed(cases) + BlockedOrSkipped(cases) == Finished(cases)
  {
    if cases != [] {
      CountersAddUp(cases[1..]);
    }
  }

  lemma {:induction false} AllFinishedIffNothingPending(cases: seq<CaseStatus>)
    ensures Finished(cases) == |cases| <==> Pending !in cases
  {
    if cases != [] {
      AllFinishedIffNothingPending(cases[1..]);
      OneOrRest(cases, Pending);
    }
  }

  lemma {:induction false} FailedIffSomeFailed(cases: seq<CaseStatus>)
    ensures Failed(cases) > 0 <==> Fail in cases
  {
    if cases != [] {
      FailedIffSomeFailed(cases[1..]);
      OneOrRest(cases, Fail);
    }
  }

  // ------------------------------------------------------ what the numbers mean

  /** How many cases are not pending. */
  function DoneIn(cases: seq<CaseStatus>): (n: nat)
    ensures n <= |cases|
  {
    |cases| - multiset(cases)[Pending]
  }

  /** Each counter is the number of cases with its statuses. */
  predicate NumbersOf(passed: nat, failed: nat, blocked: nat, cases: seq<CaseStatus>) {
    && passed == multiset(cases)[Pass] && failed == multiset(cases)[Fail]
    && blocked == multiset(cases)[Blocked] + multiset(cases)[Skip]
  }

  /** The whole percents, rounded down, that `done` makes of the total, and 100 from the total on. */
  predicate PercentOf(p: int, done: nat, total: nat) {
    && (total == 0 ==> p == 0)
    && (0 < total <= done ==> p == 100)
    && (done < total ==> p * total <= 100 * done < (p + 1) * total)
  }

  lemma OneMoreCase(c: CaseStatus, rest: seq<CaseStatus>, s: CaseStatus)
    ensures multiset([c] + rest)[s] == multiset(rest)[s] + if c == s then 1 else 0
  {
    assert multiset([c] + rest) == multiset{c} + multiset(rest);
  }

  lemma {:induction false} RetestedAreNumbers(cases: seq<CaseStatus>)
    ensures Count(cases, {Fail, Blocked}) == multiset(cases)[Fail] + multiset(cases)[Blocked]
  {
    if cases != [] {
      RetestedAreNumbers(cases[1..]);
      HeadAndTail(cases);
      OneMoreCase(cases[0], cases[1..], Fail);
      OneMoreCase(cases[0], cases[1..], Blocked);
    }
  }

  lemma {:induction false} CountersAreNumbers(cases: seq<CaseStatus>)
    ensures NumbersOf(Passed(cases), Failed(cases), BlockedOrSkipped(cases), cases)
    ensures Finished(cases) == DoneIn(cases)
  {
    if cases != [] {
      CountersAreNumbers(cases[1..]);
      HeadAndTail(cases);
      OneMoreCase(cases[0], cases[1..], Pass);
      OneMoreCase(cases[0], cases[1..], Fail);
      OneMoreCase(cases[0], cases[1..], Blocked);
      OneMoreCase(cases[0], cases[1..], Skip);
      OneMoreCase(cases[0], cases[1..], Pending);
    }
  }

  // -------------------------------------------------------------- progress

  lemma PercentBelow(part: nat, total: nat)
    requires total > 0
    ensures part < total ==> part * 100 / total < 100
    ensures part >= total ==> part * 100 / total >= 100
  {
    var q := part * 100 / total;
    assert q * total <= part * 100 < q * total + total;
    if q >= 100 {
      TimesKeepsOrder(100, q, total);
    } else {
      TimesKeepsOrder(q, 99, total);
    }
  }

  /** Progress stays within 0 and 100, and when the total is the number of cases it is 100 exactly when no
      case is pending. */
  lemma FullProgressIffNothingPending(r: Run, cases: seq<CaseStatus>)
    requires cases != []
    ensures 0 <= ProgressOf(r, cases) <= 100
    ensures TotalOf(r, cases) == |cases| ==> (ProgressOf(r, cases) == 100 <==> Pending !in cases)
  {
    AllFinishedIffNothingPending(cases);
    PercentBelow(Finished(cases), TotalOf(r, cases));
  }

  lemma PercentIsRoundedDown(done: nat, total: nat)
    requires done < total
    ensures PercentOf(done * 100 / total, done, total)
  {
  }

  /** The progress is the percentage of cases that are not pending, rounded down. */
  lemma ProgressIsThePercentage(r: Run, cases: seq<CaseStatus>)
    ensures PercentOf(ProgressOf(r, cases), DoneIn(cases), TotalOf(r, cases))
  {
    CountersAreNumbers(cases);
    if DoneIn(cases) < TotalOf(r, cases) {
      PercentIsRoundedDown(DoneIn(cases), TotalOf(r, cases));
    }
  }

  lemma PercentGrows(p: int, q: int, done: nat, more: nat, total: nat)
    requires PercentOf(p, done, total) && PercentOf(q, more, total) && done <= more
    ensures 0 <= p <= q <= 100
  {
    if total > 0 {
      PercentInRange(p, done, total);
      PercentInRange(q, more, total);
      if more < total && q < p {
        TimesKeepsOrder(q + 1, p, total);
      }
    }
  }

  lemma PercentInRange(p: int, done: nat, total: nat)
    requires PercentOf(p, done, total) && total > 0
    ensures 0 <= p <= 100
  {
    if done < total {
      if p < 0 {
        TimesKeepsOrder(p + 1, 0, total);
      }
      if p > 100 {
        TimesKeepsOrder(100, p, total);
      }
    }
  }

  /** Marking a case that was pending never lowers the progress. */
  lemma MarkingNeverLowersProgress(r: Run, cases: seq<CaseStatus>, i: nat, mark: CaseStatus)
    requires i < |cases| && cases[i] == Pending
    ensures 0 <= ProgressOf(r, cases) <= ProgressOf(r, cases[i := mark]) <= 100
  {
    ProgressIsThePercentage(r, cases);
    ProgressIsThePercentage(r, cases[i := mark]);
    assert multiset(cases[i := mark]) == multiset(cases)[Pending := multiset(cases)[Pending] - 1] + multiset{mark};
    PercentGrows(ProgressOf(r, cases), ProgressOf(r, cases[i := mark]), DoneIn(cases), DoneIn(cases[i := mark]),
                 TotalOf(r, cases));
  }

  // -------------------------------------------------------------- the simulator

  /** The first pending case, or the number of cases. */
  function NextPending(cases: seq<CaseStatus>): (n: nat)
    ensures n <= |cases| && (n < |cases| ==> cases[n] == Pending)
  {
    if cases == [] || cases[0] == Pending then 0 else 1 + NextPending(cases[1..])
  }

  /** The pending cases take the outcomes, in order. */
  function Marked(cases: seq<CaseStatus>, outcomes: seq<CaseStatus>): (r: seq<CaseStatus>)
    ensures |r| == |cases|
    decreases |outcomes|
  {
    if outcomes == [] || NextPending(cases) == |cases| then cases
    else Marked(cases[NextPending(cases) := outcomes[0]], outcomes[1..])
  }

  /** Where the pending cases are, counted from `base`. */
  function PendingAt(cases: seq<CaseStatus>, base: nat): seq<nat> {
    if cases == [] then []
    else (if cases[0] == Pending then [base] else []) + PendingAt(cases[1..], base + 1)
  }

  lemma {:induction false} MarkingTakesTheFirst(cases: seq<CaseStatus>, base: nat, outcome: CaseStatus)
    requires PendingAt(cases, base) != [] && outcome != Pending
    ensures NextPending(cases) < |cases| && PendingAt(cases, base)[0] == base + NextPending(cases)
    ensures PendingAt(cases[NextPending(cases) := outcome], base) == PendingAt(cases, base)[1..]
  {
    var n := NextPending(cases);
    if cases[0] == Pending {
      assert cases[0 := outcome][1..] == cases[1..];
    } else {
      MarkingTakesTheFirst(cases[1..], base + 1, outcome);
      assert cases[n := outcome][1..] == cases[1..][n - 1 := outcome];
    }
  }

  lemma {:induction false} NothingPending(cases: seq<CaseStatus>, base: nat)
    requires PendingAt(cases, base) == []
    ensures Pending !in cases
  {
    if cases != [] {
      NothingPending(cases[1..], base + 1);
      OneOrRest(cases, Pending);
    }
  }

  lemma {:induction false} MarkedOneMore(cases: seq<CaseStatus>, outcomes: seq<CaseStatus>, outcome: CaseStatus)
    requires var now := Marked(cases, outcomes); NextPending(now) < |cases|
    ensures var now := Marked(cases, outcomes);
            Marked(cases, outcomes + [outcome]) == now[NextPending(now) := outcome]
    decreases |outcomes|
  {
    if outcomes == [] {
      assert outcomes + [outcome] == [outcome];
      assert [outcome][1..] == [];
    } else {
      TailOfConcat(outcomes, [outcome]);
      if NextPending(cases) < |cases| {
        MarkedOneMore(cases[NextPending(cases) := outcomes[0]], outcomes[1..], outcome);
      }
    }
  }

  predicate IsOutcome(s: CaseStatus) {
    s == Pass || s == Fail || s == Blocked
  }

  lemma MarkCounts(cases: seq<CaseStatus>, i: nat, outcome: CaseStatus)
    requires i < |cases| && cases[i] == Pending && IsOutcome(outcome)
    ensures var marked := cases[i := outcome];
            && Passed(marked) == Passed(cases) + (if outcome == Pass then 1 else 0)
            && Failed(marked) == Failed(cases) + (if outcome == Fail then 1 else 0)
            && BlockedOrSkipped(marked) == BlockedOrSkipped(cases) + (if outcome == Blocked then 1 else 0)
            && Finished(marked) == Finished(cases) + 1
  {
    CountAfterMark(cases, i, outcome, {Pass});
    CountAfterMark(cases, i, outcome, {Fail});
    CountAfterMark(cases, i, outcome, {Blocked, Skip});
    CountAfterMark(cases, i, outcome, {Pass, Fail, Blocked, Skip});
  }

  /** Each message is the one the recount would send for the cases as they are then. */
  predicate SentLikeRecount(r: Run, cases: seq<CaseStatus>, outcomes: seq<CaseStatus>, sent: seq<Message>) {
    && |sent| <= |outcomes|
    && forall n | 0 <= n < |sent| :: IsRecountOf(sent[n], r, Marked(cases, outcomes[..n]), outcomes[n])
  }

  predicate IsRecountOf(sent: Message, r: Run, cases: seq<CaseStatus>, outcome: CaseStatus) {
    var n := NextPending(cases);
    n < |cases| && sent == MessageOf(r, cases[n := outcome], n)
  }

  /** After `i` turns of the simulator's loop. */
  predicate Turned(start: Run, first: seq<CaseStatus>, outcomes: seq<CaseStatus>, i: nat, cases: seq<CaseStatus>,
                   pending: seq<nat>, sent: seq<Message>) {
    && i <= |outcomes| == |pending|
    && cases == Marked(first, outcomes[..i]) && PendingAt(cases, 0) == pending[i..]
    && |sent| == i && SentLikeRecount(start, first, outcomes, sent)
  }

  lemma TurnStarts(start: Run, first: seq<CaseStatus>, outcomes: seq<CaseStatus>, pending: seq<nat>)
    requires pending == PendingAt(first, 0) && |outcomes| == |pending|
    ensures Turned(start, first, outcomes, 0, first, pending, [])
  {
    assert outcomes[..0] == [] && pending[0..] == pending;
  }

  lemma SentOneMore(start: Run, first: seq<CaseStatus>, outcomes: seq<CaseStatus>, sent: seq<Message>, m: Message)
    requires SentLikeRecount(start, first, outcomes, sent) && |sent| < |outcomes|
    requires IsRecountOf(m, start, Marked(first, outcomes[..|sent|]), outcomes[|sent|])
    ensures SentLikeRecount(start, first, outcomes, sent + [m])
  {
    forall n | 0 <= n < |sent + [m]| ensures IsRecountOf((sent + [m])[n], start, Marked(first, outcomes[..n]), outcomes[n]) {
      if n < |sent| {
        assert (sent + [m])[n] == sent[n];
      } else {
        assert (sent + [m])[n] == m && n == |sent|;
      }
    }
  }

  lemma CasesTakeTurn(first: seq<CaseStatus>, outcomes: seq<CaseStatus>, i: nat, cases: seq<CaseStatus>, pending: seq<nat>)
    requires i < |outcomes| == |pending| && outcomes[i] != Pending
    requires cases == Marked(first, outcomes[..i]) && PendingAt(cases, 0) == pending[i..]
    ensures pending[i] == NextPending(cases) && pending[i] < |cases| && cases[pending[i]] == Pending
    ensures cases[pending[i] := outcomes[i]] == Marked(first, outcomes[..i + 1])
    ensures PendingAt(cases[pending[i] := outcomes[i]], 0) == pending[i + 1..]
  {
    TakeOneMore(outcomes, i);
    TakeOneMore(pending, i);
    MarkingTakesTheFirst(cases, 0, outcomes[i]);
    MarkedOneMore(first, outcomes[..i], outcomes[i]);
  }

  lemma TurnTakes(start: Run, first: seq<CaseStatus>, outcomes: seq<CaseStatus>, i: nat, cases: seq<CaseStatus>,
                  pending: seq<nat>, sent: seq<Message>)
    requires Turned(start, first, outcomes, i, cases, pending, sent) && i < |outcomes| && outcomes[i] != Pending
    ensures pending[i] == NextPending(cases) && pending[i] < |cases| && cases[pending[i]] == Pending
    ensures var marked := cases[pending[i] := outcomes[i]];
            Turned(start, first, outcomes, i + 1, marked, pending, sent + [MessageOf(start, marked, pending[i])])
  {
    CasesTakeTurn(first, outcomes, i, cases, pending);
    SentOneMore(start, first, outcomes, sent, MessageOf(start, cases[pending[i] := outcomes[i]], pending[i]));
  }

  lemma TurnEnds(start: Run, first: seq<CaseStatus>, outcomes: seq<CaseStatus>, cases: seq<CaseStatus>,
                 pending: seq<nat>, sent: seq<Message>)
    requires Turned(start, first, outcomes, |outcomes|, cases, pending, sent)
    ensures cases == Marked(first, outcomes) && Pending !in cases
    ensures |sent| == |outcomes| && SentLikeRecount(start, first, outcomes, sent)
  {
    assert outcomes[..|outcomes|] == outcomes;
    NothingPending(cases, 0);
  }

  // ------------------------------------------------------ what the simulator does

  predicate Rising(places: seq<nat>) {
    forall m, n | 0 <= m < n < |places| :: places[m] < places[n]
  }

  predicate PendingPlace(cases: seq<CaseStatus>, base: nat, place: nat) {
    base <= place < base + |cases| && cases[place - base] == Pending
  }

  predicate PendingPlacesOf(places: seq<nat>, cases: seq<CaseStatus>, base: nat) {
    Rising(places) && forall n | 0 <= n < |places| :: PendingPlace(cases, base, places[n])
  }

  lemma OneMorePlace(cases: seq<CaseStatus>, base: nat, rest: seq<nat>)
    requires cases != [] && PendingPlacesOf(rest, cases[1..], base + 1)
    ensures PendingPlacesOf(rest, cases, base)
    ensures cases[0] == Pending ==> PendingPlacesOf([base] + rest, cases, base)
  {
    forall n | 0 <= n < |rest| ensures PendingPlace(cases, base, rest[n]) && base < rest[n] {
      assert PendingPlace(cases[1..], base + 1, rest[n]);
    }
  }

  /** The pending places, all of them and in order. */
  lemma {:induction false} PendingPlaces(cases: seq<CaseStatus>, base: nat)
    ensures var places := PendingAt(cases, base);
            PendingPlacesOf(places, cases, base) && |places| == multiset(cases)[Pending]
  {
    if cases != [] {
      PendingPlaces(cases[1..], base + 1);
      HeadAndTail(cases);
      OneMoreCase(cases[0], cases[1..], Pending);
      OneMorePlace(cases, base, PendingAt(cases[1..], base + 1));
      NothingBefore(PendingAt(cases[1..], base + 1));
    }
  }

  lemma {:induction false} MarkedCounts(cases: seq<CaseStatus>, outcomes: seq<CaseStatus>)
    requires |outcomes| <= |PendingAt(cases, 0)| && forall o <- outcomes :: IsOutcome(o)
    ensures var marked := Marked(cases, outcomes);
            && Passed(marked) == Passed(cases) + Passed(outcomes)
            && Failed(marked) == Failed(cases) + Failed(outcomes)
            && BlockedOrSkipped(marked) == BlockedOrSkipped(cases) + BlockedOrSkipped(outcomes)
            && Finished(marked) == Finished(cases) + |outcomes|
            && PendingAt(marked, 0) == PendingAt(cases, 0)[|outcomes|..]
    decreases |outcomes|
  {
    if outcomes != [] {
      assert outcomes[0] in outcomes && forall o <- outcomes[1..] :: o in outcomes;
      MarkingTakesTheFirst(cases, 0, outcomes[0]);
      MarkCounts(cases, NextPending(cases), outcomes[0]);
      MarkedCounts(cases[NextPending(cases) := outcomes[0]], outcomes[1..]);
    }
  }

  /** Places before the next pending one are never touched again. */
  lemma {:induction false} MarkedKeeps(cases: seq<CaseStatus>, outcomes: seq<CaseStatus>, i: nat)
    requires i < |cases| && cases[i] != Pending && forall o <- outcomes :: IsOutcome(o)
    ensures Marked(cases, outcomes)[i] == cases[i]
    decreases |outcomes|
  {
    if outcomes != [] && NextPending(cases) < |cases| {
      assert outcomes[0] in outcomes && forall o <- outcomes[1..] :: o in outcomes;
      MarkedKeeps(cases[NextPending(cases) := outcomes[0]], outcomes[1..], i);
    }
  }

  lemma {:induction false} MarkedTakes(cases: seq<CaseStatus>, outcomes: seq<CaseStatus>, n: nat)
    requires |outcomes| <= |PendingAt(cases, 0)| && n < |outcomes| && forall o <- outcomes :: IsOutcome(o)
    ensures PendingAt(cases, 0)[n] < |cases| && Marked(cases, outcomes)[PendingAt(cases, 0)[n]] == outcomes[n]
    decreases |outcomes|
  {
    assert outcomes[0] in outcomes && forall o <- outcomes[1..] :: o in outcomes;
    MarkingTakesTheFirst(cases, 0, outcomes[0]);
    var next := cases[NextPending(cases) := outcomes[0]];
    if n > 0 {
      MarkedTakes(next, outcomes[1..], n - 1);
    } else {
      MarkedKeeps(next, outcomes[1..], NextPending(cases));
    }
  }

  /** The message for outcome `n`: the case it went to, the counters so far, and the percentage. */
  predicate TellsOutcome(m: Message, first: seq<CaseStatus>, outcomes: seq<CaseStatus>, n: nat, total: nat)
    requires n < |outcomes|
  {
    var soFar := multiset(outcomes[..n + 1]);
    && m.index < |first| && first[m.index] == Pending && m.status == outcomes[n]
    && m.passed == multiset(first)[Pass] + soFar[Pass]
    && m.failed == multiset(first)[Fail] + soFar[Fail]
    && m.blocked == multiset(first)[Blocked] + multiset(first)[Skip] + soFar[Blocked]
    && m.finished == DoneIn(first) + n + 1 && m.total == total && PercentOf(m.progress, m.finished, total)
  }

  /** One message for each outcome, down the pending cases, and never a lower progress. */
  predicate TellsAll(sent: seq<Message>, first: seq<CaseStatus>, last: seq<CaseStatus>, outcomes: seq<CaseStatus>, total: nat) {
    && |sent| == |outcomes| == multiset(first)[Pending] && |last| == |first|
    && (forall n | 0 <= n < |sent| :: TellsOutcome(sent[n], first, outcomes, n, total) && last[sent[n].index] == outcomes[n])
    && (forall m, n | 0 <= m < n < |sent| :: sent[m].index < sent[n].index && sent[m].progress <= sent[n].progress)
    && (forall i | 0 <= i < |first| && first[i] != Pending :: last[i] == first[i])
  }

  lemma NumbersOfOutcomes(first: seq<CaseStatus>, outcomes: seq<CaseStatus>)
    requires forall o <- outcomes :: IsOutcome(o)
    ensures NumbersOf(Passed(first), Failed(first), BlockedOrSkipped(first), first)
    ensures Passed(outcomes) == multiset(outcomes)[Pass] && Failed(outcomes) == multiset(outcomes)[Fail]
    ensures BlockedOrSkipped(outcomes) == multiset(outcomes)[Blocked]
  {
    CountersAreNumbers(first);
    CountersAreNumbers(outcomes);
    assert Skip !in outcomes;
  }

  /** The message of a recount of `cases`, which hold the first cases with the outcomes up to `n`. */
  lemma RecountTells(r: Run, first: seq<CaseStatus>, outcomes: seq<CaseStatus>, n: nat, cases: seq<CaseStatus>, i: nat)
    requires n < |outcomes| && |cases| == |first| && i < |cases| && forall o <- outcomes[..n + 1] :: IsOutcome(o)
    requires first[i] == Pending && cases[i] == outcomes[n]
    requires Passed(cases) == Passed(first) + Passed(outcomes[..n + 1])
    requires Failed(cases) == Failed(first) + Failed(outcomes[..n + 1])
    requires BlockedOrSkipped(cases) == BlockedOrSkipped(first) + BlockedOrSkipped(outcomes[..n + 1])
    requires Finished(cases) == Finished(first) + n + 1
    ensures TellsOutcome(MessageOf(r, cases, i), first, outcomes, n, TotalOf(r, first))
  {
    NumbersOfOutcomes(first, outcomes[..n + 1]);
    ProgressIsThePercentage(r, cases);
    CountersAreNumbers(cases);
    CountersAreNumbers(first);
  }

  /** The case that outcome `n` goes to, and the cases before and after. */
  lemma NextPlace(first: seq<CaseStatus>, outcomes: seq<CaseStatus>, n: nat)
    requires |outcomes| <= |PendingAt(first, 0)| && n < |outcomes| && forall o <- outcomes :: IsOutcome(o)
    ensures var before, place := Marked(first, outcomes[..n]), PendingAt(first, 0)[n];
            && NextPending(before) == place < |first| && first[place] == Pending
            && Marked(first, outcomes[..n + 1]) == before[place := outcomes[n]]
  {
    assert outcomes[n] in outcomes && forall o <- outcomes[..n] :: o in outcomes;
    MarkedCounts(first, outcomes[..n]);
    MarkingTakesTheFirst(Marked(first, outcomes[..n]), 0, outcomes[n]);
    PendingPlaces(first, 0);
    assert PendingPlace(first, 0, PendingAt(first, 0)[n]);
    TakeOneMore(outcomes, n);
    MarkedOneMore(first, outcomes[..n], outcomes[n]);
  }

  lemma OutcomeIsTold(r: Run, first: seq<CaseStatus>, outcomes: seq<CaseStatus>, sent: seq<Message>, n: nat)
    requires |outcomes| == |PendingAt(first, 0)| == |sent| && n < |sent| && forall o <- outcomes :: IsOutcome(o)
    requires SentLikeRecount(r, first, outcomes, sent)
    ensures TellsOutcome(sent[n], first, outcomes, n, TotalOf(r, first)) && sent[n].index == PendingAt(first, 0)[n]
  {
    var now := outcomes[..n + 1];
    assert forall o <- now :: o in outcomes;
    NextPlace(first, outcomes, n);
    MarkedCounts(first, now);
    assert IsRecountOf(sent[n], r, Marked(first, outcomes[..n]), outcomes[n]);
    RecountTells(r, first, outcomes, n, Marked(first, now), PendingAt(first, 0)[n]);
  }

  lemma AllIsTold(r: Run, first: seq<CaseStatus>, outcomes: seq<CaseStatus>, sent: seq<Message>)
    requires |outcomes| == |PendingAt(first, 0)| == |sent| && forall o <- outcomes :: IsOutcome(o)
    requires SentLikeRecount(r, first, outcomes, sent)
    ensures TellsAll(sent, first, Marked(first, outcomes), outcomes, TotalOf(r, first))
  {
    PendingPlaces(first, 0);
    forall n | 0 <= n < |sent|
      ensures TellsOutcome(sent[n], first, outcomes, n, TotalOf(r, first)) && sent[n].index == PendingAt(first, 0)[n]
      ensures Marked(first, outcomes)[sent[n].index] == outcomes[n]
    {
      OutcomeIsTold(r, first, outcomes, sent, n);
      MarkedTakes(first, outcomes, n);
    }
    forall m, n | 0 <= m < n < |sent| ensures sent[m].index < sent[n].index && sent[m].progress <= sent[n].progress {
      PercentGrows(sent[m].progress, sent[n].progress, sent[m].finished, sent[n].finished, TotalOf(r, first));
    }
    forall i | 0 <= i < |first| && first[i] != Pending ensures Marked(first, outcomes)[i] == first[i] {
      MarkedKeeps(first, outcomes, i);
    }
  }

  lemma SimulationEnds(start: Run, first: seq<CaseStatus>, outcomes: seq<CaseStatus>, cases: seq<CaseStatus>,
                       pending: seq<nat>, sent: seq<Message>)
    requires Turned(start, first, outcomes, |outcomes|, cases, pending, sent)
    requires pending == PendingAt(first, 0) && forall o <- outcomes :: IsOutcome(o)
    ensures cases == Marked(first, outcomes) && Pending !in cases && (Failed(cases) > 0 <==> Fail in cases)
    ensures |sent| == |outcomes| && SentLikeRecount(start, first, outcomes, sent)
    ensures NumbersOf(Passed(cases), Failed(cases), BlockedOrSkipped(cases), cases)
    ensures TellsAll(sent, first, cases, outcomes, TotalOf(start, first))
  {
    TurnEnds(start, first, outcomes, cases, pending, sent);
    FailedIffSomeFailed(cases);
    CountersAreNumbers(cases);
    AllIsTold(start, first, outcomes, sent);
  }

  class RunRow {
    var status: RunStatus
    var progress: int
    var total: nat
    var passed: nat
    var failed: nat
    var blocked: nat
    var cases: seq<CaseStatus>

    function Contents(): Run
      reads this
    {
      Run(status, progress, total, passed, failed, blocked)
    }

    /** `create_run`, for tests that are all pending. */
    constructor (status: RunStatus, givenTotal: nat, tests: nat)
      ensures this.status == status && cases == seq(tests, _ => Pending) && Agrees(Contents(), cases)
      ensures total == (if givenTotal != 0 then givenTotal else tests) && progress == 0
    {
      this.status, progress := status, 0;
      total := if givenTotal != 0 then givenTotal else tests;
      passed, failed, blocked := 0, 0, 0;
      cases := seq(tests, _ => Pending);
      new;
      NothingCounted(tests);
    }

    /** `retest_run` on another run: its failed and blocked cases, pending again. */
    constructor Retest(source: seq<CaseStatus>)
      requires Fail in source || Blocked in source
      ensures status == Running && total == |cases| == multiset(source)[Fail] + multiset(source)[Blocked]
      ensures Agrees(Contents(), cases) && progress == 0 && forall c <- cases :: c == Pending
    {
      status, progress := Running, 0;
      total := Count(source, {Fail, Blocked});
      passed, failed, blocked := 0, 0, 0;
      cases := seq(Count(source, {Fail, Blocked}), _ => Pending);
      new;
      RetestedAreNumbers(source);
      NothingCounted(total);
    }

    /** A result marked by hand: everything is counted again. */
    method UpdateCase(i: nat, mark: CaseStatus) returns (sent: Message)
      requires i < |cases|
      modifies this
      ensures cases == old(cases)[i := mark]
      ensures Contents() == Recounted(old(Contents()), cases)
      ensures sent == MessageOf(old(Contents()), cases, i)
      ensures NumbersOf(passed, failed, blocked, cases) && PercentOf(progress, DoneIn(cases), sent.total)
      ensures sent == Message(i, mark, progress, passed, failed, blocked, DoneIn(cases), if total != 0 then total else |cases|)
      ensures 0 < sent.total <= DoneIn(cases) ==> status == if Fail in cases then FailRun else PassRun
      ensures !(0 < sent.total <= DoneIn(cases)) ==> status == if old(status).Unset? || old(status).PendingRun? then Running else old(status)
    {
      FailedIffSomeFailed(cases[i := mark]);
      CountersAreNumbers(cases[i := mark]);
      ProgressIsThePercentage(Contents(), cases[i := mark]);
      cases := cases[i := mark];
      var all := if total != 0 then total else |cases|;
      var finished := Recount(all);
      sent := Message(i, cases[i], progress, passed, failed, blocked, finished, all);
    }

    method Recount(all: nat) returns (finished: nat)
      requires all == TotalOf(Contents(), cases)
      modifies this`passed, this`failed, this`blocked, this`progress, this`status
      ensures Contents() == Recounted(old(Contents()), cases) && finished == Finished(cases)
    {
      passed, failed, blocked := Passed(cases), Failed(cases), BlockedOrSkipped(cases);
      finished := Finished(cases);
      var complete := finished >= all && all > 0;
      progress := if complete then 100 else if all > 0 then finished * 100 / all else 0;
      if status == Unset || status == PendingRun {
        status := Running;
      }
      if complete {
        status := if failed > 0 then FailRun else PassRun;
      }
    }

    /** The simulator: every pending case gets an outcome, and the counters are counted up. From counters
        that agree with the cases, each message is the one the recount would send. */
    method Simulate(outcomes: seq<CaseStatus>) returns (sent: seq<Message>)
      requires Agrees(Contents(), cases)
      requires |outcomes| == |PendingAt(cases, 0)| && forall o <- outcomes :: IsOutcome(o)
      modifies this
      ensures old(status) != Running || old(cases) == [] ==> Contents() == old(Contents()) && cases == old(cases) && sent == []
      ensures old(status) == Running && old(cases) != [] ==>
                && cases == Marked(old(cases), outcomes) && Pending !in cases && total == old(total)
                && |sent| == |outcomes| && SentLikeRecount(old(Contents()), old(cases), outcomes, sent)
                && SimulatedEnd(Contents(), cases) && NumbersOf(passed, failed, blocked, cases)
                && TellsAll(sent, old(cases), cases, outcomes, if total != 0 then total else |cases|)
    {
      sent := [];
      if status != Running || cases == [] {
        return;
      }
      ghost var start, first := Contents(), cases;
      var pending := PendingAt(cases, 0);
      sent := TakeTurns(outcomes, pending);
      SimulationEnds(start, first, outcomes, cases, pending, sent);
      status := if failed > 0 then FailRun else PassRun;
      progress := 100;
    }

    /** The simulator's loop. */
    method TakeTurns(outcomes: seq<CaseStatus>, pending: seq<nat>) returns (sent: seq<Message>)
      requires Agrees(Contents(), cases) && cases != []
      requires pending == PendingAt(cases, 0) && |outcomes| == |pending| && forall o <- outcomes :: IsOutcome(o)
      modifies this`cases, this`passed, this`failed, this`blocked, this`progress
      ensures Turned(old(Contents()), old(cases), outcomes, |outcomes|, cases, pending, sent)
      ensures Agrees(Contents(), cases)
    {
      ghost var start, first := Contents(), cases;
      var all := if total != 0 then total else |cases|;
      CountersAddUp(cases);
      var finished := passed + failed + blocked;
      sent := [];
      TurnStarts(start, first, outcomes, pending);
      for i := 0 to |pending|
        invariant Turned(start, first, outcomes, i, cases, pending, sent) && |cases| == |first|
        invariant Agrees(Contents(), cases) && finished == Finished(cases)
      {
        assert outcomes[i] in outcomes;
        TurnTakes(start, first, outcomes, i, cases, pending, sent);
        var message := Step(pending[i], outcomes[i], finished, all, start);
        finished := finished + 1;
        sent := sent + [message];
      }
    }

    /** One turn of the simulator's loop. */
    method Step(i: nat, outcome: CaseStatus, finished: nat, all: nat, ghost start: Run) returns (sent: Message)
      requires i < |cases| && cases[i] == Pending && IsOutcome(outcome)
      requires Agrees(Contents(), cases) && finished == Finished(cases)
      requires total == start.total && all == TotalOf(start, cases) && all > 0
      modifies this`cases, this`passed, this`failed, this`blocked, this`progress
      ensures cases == old(cases)[i := outcome] && Agrees(Contents(), cases) && finished + 1 == Finished(cases)
      ensures sent == MessageOf(start, cases, i)
    {
      MarkCounts(cases, i, outcome);
      cases := cases[i := outcome];
      if outcome == Pass {
        passed := passed + 1;
      } else if outcome == Fail {
        failed := failed + 1;
      } else {
        blocked := blocked + 1;
      }
      PercentBelow(finished + 1, all);
      var percent := (finished + 1) * 100 / all;
      progress := if percent < 100 then percent else 100;
      sent := Message(i, outcome, progress, passed, failed, blocked, finished + 1, all);
    }
  }

  lemma {:induction false} NothingCounted(n: nat)
    ensures Passed(seq(n, _ => Pending)) == Failed(seq(n, _ => Pending)) == BlockedOrSkipped(seq(n, _ => Pending)) == 0
  {
    if n > 0 {
      assert seq(n, _ => Pending)[1..] == seq(n - 1, _ => Pending);
      NothingCounted(n - 1);
    }
  }

  // -------------------------------------------------------------- both paths end alike

  /** What the simulator leaves behind: full progress, and `fail` exactly when some case failed. */
  predicate SimulatedEnd(r: Run, cases: seq<CaseStatus>) {
    Agrees(r, cases) && r.progress == 100 && r.status == if Fail in cases then FailRun else PassRun
  }

  /** A recount changes nothing of what the simulator leaves behind exactly when the run's total is no more
      than its number of cases; a larger total, which a caller may give, leaves the recount short of 100. */
  lemma RecountKeepsTheEndIff(r: Run, cases: seq<CaseStatus>)
    requires cases != [] && Pending !in cases && SimulatedEnd(r, cases)
    ensures Recounted(r, cases) == r <==> r.total <= |cases|
  {
    AllFinishedIffNothingPending(cases);
    FailedIffSomeFailed(cases);
    PercentBelow(Finished(cases), TotalOf(r, cases));
  }

  /** A complete run has the status `fail` exactly when some case failed, whichever path completed it. */
  lemma RecountEndsInFailIffSomeFailed(r: Run, cases: seq<CaseStatus>)
    requires Complete(r, cases)
    ensures Recounted(r, cases).status == if Fail in cases then FailRun else PassRun
    ensures Recounted(r, cases).progress == 100
  {
    FailedIffSomeFailed(cases);
  }
}
