/** What an import leaves in the tables: the fields of tests, the counters of runs, the defects, and the
    numbers it reports. */
module ImportContents {
  import opened Prelude
  import opened Text
  import opened Paths
  import opened TestTable
  import opened ImportFolders
  import opened Persist
  import opened Importer
  import opened ReimportTheorems
  import opened ResultLinks
  import RunCounters

  // -------------------------------------------------------------- runs

  function Statuses(cases: seq<CaseResult>): seq<string> {
    if cases == [] then [] else [cases[0].status] + Statuses(cases[1..])
  }

  /** The row of an imported run: each counter is the number of its cases with that status. */
  predicate ShowsRun(run: Run, d: RunData, id: nat) {
    var statuses := multiset(Statuses(d.cases));
    && run.id == id && run.name == d.name && run.status == d.status && run.total == |d.cases|
    && run.passed == statuses["pass"] && run.failed == statuses["fail"] && run.blocked == statuses["blocked"]
    && run.progress == (if d.cases == [] then 0 else 100)
    && run.sourceId == if d.sourceId == "" then None else Some(d.sourceId)
  }

  predicate ShowRuns(runs: seq<Run>, data: seq<RunData>, id: nat) {
    |runs| == |data| && (runs != [] ==> ShowsRun(runs[0], data[0], id) && ShowRuns(runs[1..], data[1..], id + 1))
  }

  function RunIds(runs: seq<Run>): set<string> {
    if runs == [] then {}
    else (if runs[0].sourceId.Some? then {runs[0].sourceId.value} else {}) + RunIds(runs[1..])
  }

  /** The runs whose source id is not known yet; a run without one always is new. */
  function NewRuns(known: set<string>, data: seq<RunData>): seq<RunData>
    decreases |data|
  {
    if data == [] then []
    else if data[0].sourceId == "" then [data[0]] + NewRuns(known, data[1..])
    else if data[0].sourceId in known then NewRuns(known, data[1..])
    else [data[0]] + NewRuns(known + {data[0].sourceId}, data[1..])
  }

  lemma {:induction false} KnownRun(runs: seq<Run>, sourceId: string)
    ensures HasRun(runs, sourceId) <==> sourceId in RunIds(runs)
  {
    if runs != [] {
      KnownRun(runs[1..], sourceId);
    }
  }

  lemma {:induction false} OneMoreRunId(runs: seq<Run>, r: Run)
    ensures RunIds(runs + [r]) == RunIds(runs) + if r.sourceId.Some? then {r.sourceId.value} else {}
  {
    if runs == [] {
      assert runs + [r] == [r];
      assert [r][1..] == [];
    } else {
      TailOfConcat(runs, [r]);
      OneMoreRunId(runs[1..], r);
    }
  }

  lemma {:induction false} StatusIsCounted(cases: seq<CaseResult>, status: string)
    ensures CountStatus(cases, status) == multiset(Statuses(cases))[status]
  {
    if cases != [] {
      StatusIsCounted(cases[1..], status);
      assert multiset(Statuses(cases)) == multiset{cases[0].status} + multiset(Statuses(cases[1..]));
    }
  }

  lemma NewRunShows(id: nat, d: RunData)
    ensures ShowsRun(NewRun(id, d), d, id)
  {
    StatusIsCounted(d.cases, "pass");
    StatusIsCounted(d.cases, "fail");
    StatusIsCounted(d.cases, "blocked");
  }

  lemma ShowOneMore(before: seq<Run>, after: seq<Run>, r: Run, d: RunData, rest: seq<RunData>, id: nat)
    requires before + [r] <= after && ShowsRun(r, d, id) && ShowRuns(after[|before| + 1..], rest, id + 1)
    ensures ShowRuns(after[|before|..], [d] + rest, id)
  {
    var shown := after[|before|..];
    assert shown[0] == (before + [r])[|before|];
    assert shown[1..] == after[|before| + 1..] && ([d] + rest)[1..] == rest;
  }

  lemma AddedRunIsNew(runs: seq<Run>, id: nat, d: RunData, rest: seq<RunData>)
    ensures if d.sourceId != "" && HasRun(runs, d.sourceId) then NewRuns(RunIds(runs), [d] + rest) == NewRuns(RunIds(runs), rest)
            else NewRuns(RunIds(runs), [d] + rest) == [d] + NewRuns(RunIds(runs + [NewRun(id, d)]), rest)
  {
    KnownRun(runs, d.sourceId);
    OneMoreRunId(runs, NewRun(id, d));
    assert ([d] + rest)[1..] == rest;
    assert d.sourceId == "" ==> RunIds(runs + [NewRun(id, d)]) == RunIds(runs);
  }

  lemma AddedRunIsShown(runs: seq<Run>, after: seq<Run>, id: nat, d: RunData, rest: seq<RunData>)
    requires !(d.sourceId != "" && HasRun(runs, d.sourceId)) && runs + [NewRun(id, d)] <= after
    requires ShowRuns(after[|runs| + 1..], NewRuns(RunIds(runs + [NewRun(id, d)]), rest), id + 1)
    ensures runs <= after && ShowRuns(after[|runs|..], NewRuns(RunIds(runs), [d] + rest), id)
  {
    AddedRunIsNew(runs, id, d, rest);
    NewRunShows(id, d);
    ShowOneMore(runs, after, NewRun(id, d), d, NewRuns(RunIds(runs + [NewRun(id, d)]), rest), id);
  }

  lemma RunIsShown(p: Import, titles: map<string, string>, keys: map<string, string>, s: Runs, d: RunData, rest: seq<RunData>,
                   after: seq<Run>)
    requires var next := ImportRun(p, titles, keys, s, d);
             next.runs <= after && ShowRuns(after[|next.runs|..], NewRuns(RunIds(next.runs), rest), next.nextRun)
    ensures s.runs <= after && ShowRuns(after[|s.runs|..], NewRuns(RunIds(s.runs), [d] + rest), s.nextRun)
  {
    if d.sourceId != "" && HasRun(s.runs, d.sourceId) {
      AddedRunIsNew(s.runs, s.nextRun, d, rest);
    } else {
      AddedRunIsShown(s.runs, after, s.nextRun, d, rest);
    }
  }

  lemma {:induction false} RunsAreShown(p: Import, titles: map<string, string>, keys: map<string, string>, s: Runs, data: seq<RunData>)
    ensures var u := ImportRuns(p, titles, keys, s, data);
            s.runs <= u.runs && ShowRuns(u.runs[|s.runs|..], NewRuns(RunIds(s.runs), data), s.nextRun)
    decreases |data|
  {
    if data == [] {
      assert s.runs[|s.runs|..] == [];
    } else {
      RunsAreShown(p, titles, keys, ImportRun(p, titles, keys, s, data[0]), data[1..]);
      RunIsShown(p, titles, keys, s, data[0], data[1..], ImportRuns(p, titles, keys, s, data).runs);
      HeadAndTail(data);
    }
  }

  /** The runs an import adds are those of the result that are not there yet, in order, each with the numbers
      of its cases by status. */
  lemma ImportedRunsShowTheirCases(p: Import, store: Store, r: Result, names: seq<string>)
    requires |names| == |r.tests|
    ensures var after := Imported(p, store, r, names);
            && store.runs <= after.runs
            && ShowRuns(after.runs[|store.runs|..], NewRuns(RunIds(store.runs), r.runs), store.nextRun)
  {
    var t := ImportTests(p, TestsStart(store), r.tests, names);
    RunsAreShown(p, t.titleToId, t.keyToId, RunsStart(store, t), r.runs);
  }

  // ------------------------------------------------------ an imported run and its recount

  predicate IsMark(status: string) {
    status == "pass" || status == "fail" || status == "blocked" || status == "skip" || status == "pending"
  }

  function MarkOf(status: string): RunCounters.CaseStatus
    requires IsMark(status)
  {
    if status == "pass" then RunCounters.Pass
    else if status == "fail" then RunCounters.Fail
    else if status == "blocked" then RunCounters.Blocked
    else if status == "skip" then RunCounters.Skip
    else RunCounters.Pending
  }

  function Marks(statuses: seq<string>): (r: seq<RunCounters.CaseStatus>)
    requires forall s <- statuses :: IsMark(s)
    ensures |r| == |statuses|
  {
    if statuses == [] then []
    else
      assert forall s <- statuses[1..] :: s in statuses;
      [MarkOf(statuses[0])] + Marks(statuses[1..])
  }

  lemma {:induction false} MarksAreCounted(statuses: seq<string>, status: string)
    requires IsMark(status) && forall s <- statuses :: IsMark(s)
    ensures multiset(Marks(statuses))[MarkOf(status)] == multiset(statuses)[status]
  {
    if statuses != [] {
      assert forall s <- statuses[1..] :: s in statuses;
      MarksAreCounted(statuses[1..], status);
      assert statuses == [statuses[0]] + statuses[1..];
      assert multiset(statuses) == multiset{statuses[0]} + multiset(statuses[1..]);
      RunCounters.OneMoreCase(MarkOf(statuses[0]), Marks(statuses[1..]), MarkOf(status));
    }
  }

  /** A later recount of the same cases finds the counters of an imported run right exactly if no case was
      skipped, which the recount takes for blocked, and its progress exactly if none is pending. */
  lemma ImportedRunAgreesWithRecountIff(run: Run, d: RunData, id: nat)
    requires ShowsRun(run, d, id) && forall s <- Statuses(d.cases) :: IsMark(s)
    ensures var marks := Marks(Statuses(d.cases));
            && (RunCounters.NumbersOf(run.passed, run.failed, run.blocked, marks) <==> "skip" !in Statuses(d.cases))
            && (RunCounters.PercentOf(run.progress, RunCounters.DoneIn(marks), run.total) <==> "pending" !in Statuses(d.cases))
  {
    var statuses := Statuses(d.cases);
    MarksAreCounted(statuses, "pass");
    MarksAreCounted(statuses, "fail");
    MarksAreCounted(statuses, "blocked");
    MarksAreCounted(statuses, "skip");
    MarksAreCounted(statuses, "pending");
    StatusesLength(d.cases);
    assert "skip" in statuses <==> multiset(statuses)["skip"] > 0;
    assert "pending" in statuses <==> multiset(statuses)["pending"] > 0;
  }

  lemma {:induction false} StatusesLength(cases: seq<CaseResult>)
    ensures |Statuses(cases)| == |cases|
  {
    if cases != [] {
      StatusesLength(cases[1..]);
    }
  }

  // -------------------------------------------------------------- tests

  /** The place in the table that a test is written to. */
  function PlaceOf(p: Import, s: Tests, t: TestData): nat {
    match FindTest(s.rows, p.provider, t, FolderOf(s, t).1)
    case None => |s.rows|
    case Some(i) => if p.mode == Rename then |s.rows| else i
  }

  function Places(p: Import, s: Tests, tests: seq<TestData>, names: seq<string>): (r: seq<nat>)
    requires |names| == |tests|
    ensures |r| == |tests|
    decreases |tests|
  {
    if tests == [] then []
    else [PlaceOf(p, s, tests[0])] + Places(p, ImportTest(p, s, tests[0], names[0]), tests[1..], names[1..])
  }

  /** The state in which test `j` is placed. */
  function Before(p: Import, s: Tests, tests: seq<TestData>, names: seq<string>, j: nat): Tests
    requires |names| == |tests| && j < |tests|
    decreases |tests|
  {
    if j == 0 then s else Before(p, ImportTest(p, s, tests[0], names[0]), tests[1..], names[1..], j - 1)
  }

  /** A test that was not there: all its fields, and the provider's identity if it has an id. */
  predicate ShowsNew(p: Import, r: Row, t: TestData, folder: Option<Id>, name: string, renamed: bool) {
    && r.id == name && r.title == (if renamed then t.title + " (imported)" else t.title)
    && r.kind == t.kind && r.status == t.status && r.priority == t.priority && r.owner == t.owner && r.tags == t.tags
    && (r.auto <==> t.kind == "automated") && r.folder == folder && r.updatedAt == p.now
    && (t.sourceId == "" ==> r.provider == None && r.key == None)
    && (t.sourceId != "" ==> r.provider == Some(p.provider) && r.key == Some(t.sourceId))
    && r.runner == None && r.repoUrl == None && r.sourcePath == None && r.body == None
  }

  /** A test that is overwritten: its type, priority, tags and folder, an owner if there is a new one, and the
      provider's identity if it had none. */
  predicate ShowsOverwritten(p: Import, b: Row, r: Row, t: TestData, folder: Option<Id>) {
    && r.kind == t.kind && r.priority == t.priority && r.tags == t.tags && r.folder == folder && r.updatedAt == p.now
    && r.owner == (if t.owner == "" then b.owner else t.owner)
    && (if t.sourceId != "" && (b.key == None || b.key == Some("")) then r.provider == Some(p.provider) && r.key == Some(t.sourceId)
        else r.provider == b.provider && r.key == b.key)
    && r.id == b.id && r.title == b.title && r.status == b.status && r.auto == b.auto && r.runner == b.runner
    && r.repoUrl == b.repoUrl && r.sourcePath == b.sourcePath && r.body == b.body
    && r.sourceRef == b.sourceRef && r.syncedAt == b.syncedAt
  }

  predicate ShowsTest(p: Import, before: seq<Row>, r: Row, t: TestData, folder: Option<Id>, name: string, place: nat, there: bool) {
    if place >= |before| then ShowsNew(p, r, t, folder, name, there)
    else if p.mode == Skip then r == before[place]
    else ShowsOverwritten(p, before[place], r, t, folder)
  }

  lemma FolderIsThere(s: Tests, t: TestData)
    ensures FolderThere(FolderOf(s, t).0, t) && FolderAt(FolderOf(s, t).0, t) == FolderOf(s, t).1
  {
    FilledIsThere(s.folders, s.nextFolder, None, Parts(t.folderPath));
  }

  lemma OneTestShows(p: Import, s: Tests, t: TestData, name: string)
    ensures var u := ImportTest(p, s, t, name);
            var folder := FolderOf(s, t).1;
            && PlaceOf(p, s, t) < |u.rows|
            && ShowsTest(p, s.rows, u.rows[PlaceOf(p, s, t)], t, folder, name, PlaceOf(p, s, t),
                         FindTest(s.rows, p.provider, t, folder).Some?)
  {
    FindTestBounds(s.rows, p.provider, t, FolderOf(s, t).1);
  }

  lemma OtherRowsStay(p: Import, s: Tests, t: TestData, name: string, i: nat)
    requires i < |s.rows| && i != PlaceOf(p, s, t)
    ensures var u := ImportTest(p, s, t, name); i < |u.rows| && u.rows[i] == s.rows[i]
  {
    FindTestBounds(s.rows, p.provider, t, FolderOf(s, t).1);
  }

  lemma {:induction false} RowStays(p: Import, s: Tests, tests: seq<TestData>, names: seq<string>, i: nat)
    requires |names| == |tests| && i < |s.rows| && i !in Places(p, s, tests, names)
    ensures var u := ImportTests(p, s, tests, names); i < |u.rows| && u.rows[i] == s.rows[i]
    decreases |tests|
  {
    if tests != [] {
      var rest := Places(p, ImportTest(p, s, tests[0], names[0]), tests[1..], names[1..]);
      assert Places(p, s, tests, names) == [PlaceOf(p, s, tests[0])] + rest;
      OtherRowsStay(p, s, tests[0], names[0], i);
      RowStays(p, ImportTest(p, s, tests[0], names[0]), tests[1..], names[1..], i);
    }
  }

  lemma FolderStays(p: Import, s: Tests, tests: seq<TestData>, names: seq<string>, t: TestData)
    requires |names| == |tests| && FolderThere(s.folders, t)
    ensures var u := ImportTests(p, s, tests, names); FolderThere(u.folders, t) && FolderAt(u.folders, t) == FolderAt(s.folders, t)
  {
    FoldersGrow(p, s, tests, names);
    FolderStaysThere(s.folders, ImportTests(p, s, tests, names).folders, t);
  }

  predicate LastAt(places: seq<nat>, j: nat)
    requires j < |places|
  {
    places[j] !in places[j + 1..]
  }

  /** In every mode: the row that a test is the last of the result to be written to shows that test. A new row
      shows all its fields; with `overwrite` a row that was there takes its type, priority, tags and folder;
      with `skip` it stays as it is. */
  lemma {:induction false} LastTestShows(p: Import, s: Tests, tests: seq<TestData>, names: seq<string>, j: nat)
    requires |names| == |tests| && j < |tests| && LastAt(Places(p, s, tests, names), j)
    ensures var u := ImportTests(p, s, tests, names);
            var b := Before(p, s, tests, names, j);
            var place := Places(p, s, tests, names)[j];
            && place < |u.rows| && FolderThere(u.folders, tests[j])
            && ShowsTest(p, b.rows, u.rows[place], tests[j], FolderAt(u.folders, tests[j]), names[j], place,
                         FindTest(b.rows, p.provider, tests[j], FolderAt(u.folders, tests[j])).Some?)
    decreases |tests|
  {
    var next := ImportTest(p, s, tests[0], names[0]);
    var rest := Places(p, next, tests[1..], names[1..]);
    var places := Places(p, s, tests, names);
    assert places == [PlaceOf(p, s, tests[0])] + rest;
    if j == 0 {
      assert places[1..] == rest;
      OneTestShows(p, s, tests[0], names[0]);
      RowStays(p, next, tests[1..], names[1..], places[0]);
      FolderIsThere(s, tests[0]);
      OneTestGrows(p, s, tests[0], names[0]);
      FolderStays(p, next, tests[1..], names[1..], tests[0]);
    } else {
      assert places[j + 1..] == rest[j..] && places[j] == rest[j - 1];
      LastTestShows(p, next, tests[1..], names[1..], j - 1);
    }
  }

  /** The whole import: the same, but for the statuses that its runs set afterwards. */
  lemma ImportedTestsShowTheirFields(p: Import, store: Store, r: Result, names: seq<string>, j: nat)
    requires |names| == |r.tests| && j < |r.tests| && LastAt(Places(p, TestsStart(store), r.tests, names), j)
    ensures var after := Imported(p, store, r, names);
            var b := Before(p, TestsStart(store), r.tests, names, j);
            var place := Places(p, TestsStart(store), r.tests, names)[j];
            && place < |after.rows| && FolderThere(after.folders, r.tests[j])
            && exists status ::
                 ShowsTest(p, b.rows, after.rows[place].(status := status), r.tests[j], FolderAt(after.folders, r.tests[j]),
                           names[j], place, FindTest(b.rows, p.provider, r.tests[j], FolderAt(after.folders, r.tests[j])).Some?)
  {
    var t := ImportTests(p, TestsStart(store), r.tests, names);
    LastTestShows(p, TestsStart(store), r.tests, names, j);
    RunsKeepTests(p, t.titleToId, t.keyToId, RunsStart(store, t), r.runs);
    var place := Places(p, TestsStart(store), r.tests, names)[j];
    var after := Imported(p, store, r, names);
    assert t.rows[place].(status := after.rows[place].status) == after.rows[place];
    assert after.rows[place].(status := t.rows[place].status) == t.rows[place];
  }

  /** An overwrite sets a test's type and leaves its `auto` flag, so the two agree afterwards exactly if the old
      flag happens to say what the new type does. */
  lemma OverwrittenFlagAgreesIff(p: Import, b: Row, t: TestData, folder: Option<Id>)
    ensures var r := Overwritten(p, b, t, folder);
            (r.auto <==> r.kind == "automated") <==> (b.auto <==> t.kind == "automated")
  {
  }

  // -------------------------------------------------------------- defects

  predicate ShowsDefect(p: Import, x: Defect, d: DefectData, test: Option<string>, id: nat) {
    && x.id == id && x.title == d.title && x.status == d.status && x.severity == d.severity && x.description == d.description
    && x.test == test
    && x.provider == (if d.sourceId == "" then None else Some(p.provider))
    && x.key == (if d.sourceId == "" then None else Some(d.sourceId))
  }

  /** The test a defect names by its title. */
  function TestOf(titles: map<string, string>, d: DefectData): Option<string> {
    if d.testTitle == "" then None else Lookup(titles, d.testTitle)
  }

  predicate ShowDefects(p: Import, titles: map<string, string>, defects: seq<Defect>, data: seq<DefectData>, id: nat) {
    |defects| == |data| &&
      (defects != [] ==> && ShowsDefect(p, defects[0], data[0], TestOf(titles, data[0]), id)
                         && ShowDefects(p, titles, defects[1..], data[1..], id + 1))
  }

  function DefectIds(defects: seq<Defect>, provider: string): set<string> {
    if defects == [] then {}
    else (if defects[0].provider == Some(provider) && defects[0].key.Some? then {defects[0].key.value} else {})
         + DefectIds(defects[1..], provider)
  }

  function NewDefects(known: set<string>, data: seq<DefectData>): seq<DefectData>
    decreases |data|
  {
    if data == [] then []
    else if data[0].sourceId == "" then [data[0]] + NewDefects(known, data[1..])
    else if data[0].sourceId in known then NewDefects(known, data[1..])
    else [data[0]] + NewDefects(known + {data[0].sourceId}, data[1..])
  }

  lemma {:induction false} KnownDefect(defects: seq<Defect>, provider: string, key: string)
    ensures HasDefect(defects, provider, key) <==> key in DefectIds(defects, provider)
  {
    if defects != [] {
      KnownDefect(defects[1..], provider, key);
    }
  }

  lemma {:induction false} OneMoreDefectId(defects: seq<Defect>, d: Defect, provider: string)
    ensures DefectIds(defects + [d], provider)
         == DefectIds(defects, provider) + if d.provider == Some(provider) && d.key.Some? then {d.key.value} else {}
  {
    if defects == [] {
      assert defects + [d] == [d];
      assert [d][1..] == [];
    } else {
      TailOfConcat(defects, [d]);
      OneMoreDefectId(defects[1..], d, provider);
    }
  }

  lemma ShowOneMoreDefect(p: Import, titles: map<string, string>, before: seq<Defect>, after: seq<Defect>, x: Defect,
                          d: DefectData, rest: seq<DefectData>, id: nat)
    requires before + [x] <= after && ShowsDefect(p, x, d, TestOf(titles, d), id)
    requires ShowDefects(p, titles, after[|before| + 1..], rest, id + 1)
    ensures ShowDefects(p, titles, after[|before|..], [d] + rest, id)
  {
    var shown := after[|before|..];
    assert shown[0] == (before + [x])[|before|];
    assert shown[1..] == after[|before| + 1..] && ([d] + rest)[1..] == rest;
  }

  lemma AddedDefectIsNew(p: Import, titles: map<string, string>, defects: seq<Defect>, id: nat, d: DefectData, rest: seq<DefectData>)
    ensures var known := DefectIds(defects, p.provider);
            if d.sourceId != "" && HasDefect(defects, p.provider, d.sourceId) then NewDefects(known, [d] + rest) == NewDefects(known, rest)
            else NewDefects(known, [d] + rest) == [d] + NewDefects(DefectIds(defects + [NewDefect(p, titles, id, d)], p.provider), rest)
  {
    KnownDefect(defects, p.provider, d.sourceId);
    OneMoreDefectId(defects, NewDefect(p, titles, id, d), p.provider);
    assert ([d] + rest)[1..] == rest;
    assert d.sourceId == "" ==> DefectIds(defects + [NewDefect(p, titles, id, d)], p.provider) == DefectIds(defects, p.provider);
  }

  lemma DefectIsShown(p: Import, titles: map<string, string>, s: Defects, d: DefectData, rest: seq<DefectData>, after: seq<Defect>)
    requires var next := ImportDefect(p, titles, s, d);
             && next.defects <= after
             && ShowDefects(p, titles, after[|next.defects|..], NewDefects(DefectIds(next.defects, p.provider), rest), next.nextDefect)
    ensures s.defects <= after
    ensures ShowDefects(p, titles, after[|s.defects|..], NewDefects(DefectIds(s.defects, p.provider), [d] + rest), s.nextDefect)
  {
    AddedDefectIsNew(p, titles, s.defects, s.nextDefect, d, rest);
    if !(d.sourceId != "" && HasDefect(s.defects, p.provider, d.sourceId)) {
      var x := NewDefect(p, titles, s.nextDefect, d);
      ShowOneMoreDefect(p, titles, s.defects, after, x, d, NewDefects(DefectIds(s.defects + [x], p.provider), rest), s.nextDefect);
    }
  }

  lemma {:induction false} DefectsAreShown(p: Import, titles: map<string, string>, s: Defects, data: seq<DefectData>)
    ensures var u := ImportDefects(p, titles, s, data);
            && s.defects <= u.defects
            && ShowDefects(p, titles, u.defects[|s.defects|..], NewDefects(DefectIds(s.defects, p.provider), data), s.nextDefect)
    decreases |data|
  {
    if data == [] {
      assert s.defects[|s.defects|..] == [];
    } else {
      DefectsAreShown(p, titles, ImportDefect(p, titles, s, data[0]), data[1..]);
      DefectIsShown(p, titles, s, data[0], data[1..], ImportDefects(p, titles, s, data).defects);
      HeadAndTail(data);
    }
  }

  /** The defects an import adds are those of the result that are not there yet, in order, each with its fields
      and with the test remembered last under the title it names. */
  lemma ImportedDefectsShowTheirFields(p: Import, store: Store, r: Result, names: seq<string>, d: DefectData)
    requires |names| == |r.tests|
    ensures var after := Imported(p, store, r, names);
            var titles := ImportTests(p, TestsStart(store), r.tests, names).titleToId;
            && store.defects <= after.defects
            && ShowDefects(p, titles, after.defects[|store.defects|..], NewDefects(DefectIds(store.defects, p.provider), r.defects),
                           store.nextDefect)
            && TestOf(titles, d) == if d.testTitle == "" then None else IdOfTitle(p, TestsStart(store), r.tests, names, d.testTitle)
  {
    var t := ImportTests(p, TestsStart(store), r.tests, names);
    DefectsAreShown(p, t.titleToId, DefectsStart(store), r.defects);
    TitlesAreRemembered(p, TestsStart(store), r.tests, names, d.testTitle);
  }

  // -------------------------------------------------------------- what is reported

  lemma TestCount(p: Import, s: Tests, t: TestData, name: string)
    ensures var u := ImportTest(p, s, t, name);
            && (p.mode == Skip ==> u.tests - s.tests == |u.rows| - |s.rows|)
            && (p.mode != Skip ==> u.tests == s.tests + 1 && u.skipped == s.skipped)
  {
    FindTestBounds(s.rows, p.provider, t, FolderOf(s, t).1);
  }

  lemma {:induction false} TestCounts(p: Import, s: Tests, tests: seq<TestData>, names: seq<string>)
    requires |names| == |tests|
    ensures var u := ImportTests(p, s, tests, names);
            && (p.mode == Skip ==> u.tests - s.tests == |u.rows| - |s.rows|)
            && (p.mode != Skip ==> u.tests == s.tests + |tests| && u.skipped == s.skipped)
    decreases |tests|
  {
    if tests != [] {
      TestCount(p, s, tests[0], names[0]);
      TestCounts(p, ImportTest(p, s, tests[0], names[0]), tests[1..], names[1..]);
    }
  }

  lemma {:induction false} RunCount(p: Import, titles: map<string, string>, keys: map<string, string>, s: Runs, data: seq<RunData>)
    ensures var u := ImportRuns(p, titles, keys, s, data); u.added - s.added == |u.runs| - |s.runs|
    decreases |data|
  {
    if data != [] {
      RunCount(p, titles, keys, ImportRun(p, titles, keys, s, data[0]), data[1..]);
    }
  }

  lemma {:induction false} DefectCount(p: Import, titles: map<string, string>, s: Defects, data: seq<DefectData>)
    ensures var u := ImportDefects(p, titles, s, data); u.added - s.added == |u.defects| - |s.defects|
    decreases |data|
  {
    if data != [] {
      DefectCount(p, titles, ImportDefect(p, titles, s, data[0]), data[1..]);
    }
  }

  /** Each number reported is by how much its table grew; for tests so with `skip`, while the other modes write
      every test of the result. */
  lemma CountsAreGrowths(p: Import, store: Store, r: Result, names: seq<string>)
    requires |names| == |r.tests|
    ensures var after, c := Imported(p, store, r, names), Counted(p, store, r, names);
            && c.folders == |after.folders| - |store.folders| && c.runs == |after.runs| - |store.runs|
            && c.defects == |after.defects| - |store.defects|
            && (p.mode == Skip ==> c.tests == |after.rows| - |store.rows|)
            && (p.mode != Skip ==> c.tests == |r.tests|)
  {
    var t := ImportTests(p, TestsStart(store), r.tests, names);
    TestCounts(p, TestsStart(store), r.tests, names);
    RunCount(p, t.titleToId, t.keyToId, RunsStart(store, t), r.runs);
    DefectCount(p, t.titleToId, DefectsStart(store), r.defects);
    RunsKeepTests(p, t.titleToId, t.keyToId, RunsStart(store, t), r.runs);
  }
}
