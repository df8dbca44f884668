/** Importing parsed results into the tables: `persist_import_result` of backend/importers/persist.py. */
module Persist {
  import opened Prelude
  import opened Paths
  import opened TestTable
  import opened ImportFolders

  datatype TestData = TestData(title: string, folderPath: string, kind: string, status: string, priority: string,
                               owner: string, tags: seq<string>, sourceId: string)
  datatype CaseResult = CaseResult(title: string, status: string, sourceId: string)
  datatype RunData = RunData(name: string, status: string, cases: seq<CaseResult>, sourceId: string)
  datatype DefectData = DefectData(title: string, status: string, severity: string, description: string,
                                   testTitle: string, sourceId: string)

  datatype Run = Run(id: nat, name: string, status: string, total: nat, passed: nat, failed: nat, blocked: nat,
                     progress: nat, sourceId: Option<string>)
  datatype RunCase = RunCase(run: nat, test: string, status: string)
  datatype Defect = Defect(id: nat, title: string, status: string, severity: string, description: string,
                           test: Option<string>, provider: Option<string>, key: Option<string>)

  datatype Mode = Skip | Overwrite | Rename

  /** One import: the provider its ids belong to, how conflicts are settled, whether runs set statuses. */
  datatype Import = Import(provider: string, mode: Mode, syncStatus: bool, now: nat)

  // -------------------------------------------------------------- tests

  function FindKey(rows: seq<Row>, provider: string, key: string): Option<nat> {
    if rows == [] then None
    else if rows[0].provider == Some(provider) && rows[0].key == Some(key) then Some(0)
    else Next(FindKey(rows[1..], provider, key))
  }

  function FindTitle(rows: seq<Row>, title: string, folder: Option<Id>): Option<nat> {
    if rows == [] then None
    else if rows[0].title == title && rows[0].folder == folder then Some(0)
    else Next(FindTitle(rows[1..], title, folder))
  }

  /** By the id in the source tool, or else by title and folder. */
  function FindTest(rows: seq<Row>, provider: string, t: TestData, folder: Option<Id>): Option<nat> {
    if t.sourceId != "" && FindKey(rows, provider, t.sourceId).Some? then FindKey(rows, provider, t.sourceId)
    else FindTitle(rows, t.title, folder)
  }

  lemma {:induction false} FindKeyBounds(rows: seq<Row>, provider: string, key: string)
    ensures var i := FindKey(rows, provider, key);
            i.Some? ==> i.value < |rows| && rows[i.value].provider == Some(provider) && rows[i.value].key == Some(key)
  {
    if rows != [] && !(rows[0].provider == Some(provider) && rows[0].key == Some(key)) {
      FindKeyBounds(rows[1..], provider, key);
    }
  }

  lemma {:induction false} FindTitleBounds(rows: seq<Row>, title: string, folder: Option<Id>)
    ensures var i := FindTitle(rows, title, folder);
            i.Some? ==> i.value < |rows| && rows[i.value].title == title && rows[i.value].folder == folder
  {
    if rows != [] && !(rows[0].title == title && rows[0].folder == folder) {
      FindTitleBounds(rows[1..], title, folder);
    }
  }

  lemma FindTestBounds(rows: seq<Row>, provider: string, t: TestData, folder: Option<Id>)
    ensures var i := FindTest(rows, provider, t, folder); i.Some? ==> i.value < |rows|
  {
    FindKeyBounds(rows, provider, t.sourceId);
    FindTitleBounds(rows, t.title, folder);
  }

  /** The tables of tests and folders, and what the import remembers about the tests it has seen. */
  datatype Tests = Tests(rows: seq<Row>, folders: Table, nextFolder: Id,
                         titleToId: map<string, string>, keyToId: map<string, string>, tests: nat, skipped: nat)

  function Remembered(s: Tests, t: TestData, id: string): Tests {
    s.(titleToId := s.titleToId[t.title := id],
       keyToId := if t.sourceId != "" then s.keyToId[t.sourceId := id] else s.keyToId)
  }

  function Overwritten(p: Import, r: Row, t: TestData, folder: Option<Id>): Row {
    var backfill := t.sourceId != "" && (r.key.None? || r.key == Some(""));
    r.(folder := folder, kind := t.kind, priority := t.priority, tags := t.tags,
       owner := if t.owner != "" then t.owner else r.owner, updatedAt := p.now,
       provider := if backfill then Some(p.provider) else r.provider,
       key := if backfill then Some(t.sourceId) else r.key)
  }

  function Created(p: Import, t: TestData, folder: Option<Id>, name: string): Row {
    NewRow(name).(title := t.title, folder := folder, kind := t.kind, status := t.status, priority := t.priority,
                  owner := t.owner, tags := t.tags, auto := t.kind == "automated", updatedAt := p.now,
                  provider := if t.sourceId != "" then Some(p.provider) else None,
                  key := if t.sourceId != "" then Some(t.sourceId) else None)
  }

  function Renamed(t: TestData): TestData {
    t.(title := t.title + " (imported)")
  }

  function Added(p: Import, s: Tests, t: TestData, folder: Option<Id>, name: string): Tests {
    Remembered(s.(rows := s.rows + [Created(p, t, folder, name)], tests := s.tests + 1), t, name)
  }

  /** One test whose folder is known; `name` is the id generated if it is new. */
  function Placed(p: Import, s: Tests, t: TestData, folder: Option<Id>, name: string): Tests {
    FindTestBounds(s.rows, p.provider, t, folder);
    match FindTest(s.rows, p.provider, t, folder)
    case None => Added(p, s, t, folder, name)
    case Some(i) =>
      match p.mode
      case Skip => Remembered(s.(skipped := s.skipped + 1), t, s.rows[i].id)
      case Overwrite =>
        Remembered(s.(rows := s.rows[i := Overwritten(p, s.rows[i], t, folder)], tests := s.tests + 1), t, s.rows[i].id)
      case Rename => Added(p, s, Renamed(t), folder, name)
  }

  function FolderOf(s: Tests, t: TestData): (Table, Option<Id>) {
    if t.folderPath == "" then (s.folders, None) else Filled(s.folders, s.nextFolder, None, Parts(t.folderPath))
  }

  /** The state once the folder of the test is there. */
  function InFolder(s: Tests, t: TestData): Tests {
    FillingAppends(s.folders, s.nextFolder, None, Parts(t.folderPath));
    var folders := FolderOf(s, t).0;
    s.(folders := folders, nextFolder := s.nextFolder + |folders| - |s.folders|)
  }

  function ImportTest(p: Import, s: Tests, t: TestData, name: string): Tests {
    Placed(p, InFolder(s, t), t, FolderOf(s, t).1, name)
  }

  function ImportTests(p: Import, s: Tests, tests: seq<TestData>, names: seq<string>): Tests
    requires |names| == |tests|
    decreases |tests|
  {
    if tests == [] then s else ImportTests(p, ImportTest(p, s, tests[0], names[0]), tests[1..], names[1..])
  }

  /** Every folder path is empty or canonical. */
  predicate PathsAreCanonical(tests: seq<TestData>) {
    tests != [] ==> (tests[0].folderPath != "" ==> IsCanonical(tests[0].folderPath)) && PathsAreCanonical(tests[1..])
  }

  // -------------------------------------------------------------- runs

  /** The test a case belongs to: by source id, among the tests seen and then in the table, or by title. */
  function LinkedTest(p: Import, rows: seq<Row>, titleToId: map<string, string>, keyToId: map<string, string>,
                      c: CaseResult): Option<string> {
    FindKeyBounds(rows, p.provider, c.sourceId);
    if c.sourceId != "" && c.sourceId in keyToId then Some(keyToId[c.sourceId])
    else if c.sourceId != "" && FindKey(rows, p.provider, c.sourceId).Some? then
      Some(rows[FindKey(rows, p.provider, c.sourceId).value].id)
    else if c.title in titleToId then Some(titleToId[c.title])
    else None
  }

  function LinkedOne(p: Import, rows: seq<Row>, titleToId: map<string, string>, keyToId: map<string, string>,
                     run: nat, c: CaseResult): seq<RunCase> {
    var id := LinkedTest(p, rows, titleToId, keyToId, c);
    if id.Some? then [RunCase(run, id.value, c.status)] else []
  }

  /** The cases that belong to a test. */
  function LinkedCases(p: Import, rows: seq<Row>, titleToId: map<string, string>, keyToId: map<string, string>,
                       run: nat, cases: seq<CaseResult>): seq<RunCase> {
    if cases == [] then []
    else LinkedOne(p, rows, titleToId, keyToId, run, cases[0]) + LinkedCases(p, rows, titleToId, keyToId, run, cases[1..])
  }

  /** The first row with the id takes the status. */
  function WithStatus(rows: seq<Row>, id: string, status: string): seq<Row> {
    if rows == [] then []
    else if rows[0].id == id then [rows[0].(status := status)] + rows[1..]
    else [rows[0]] + WithStatus(rows[1..], id, status)
  }

  function WithStatuses(rows: seq<Row>, cases: seq<RunCase>): seq<Row>
    decreases |cases|
  {
    if cases == [] then rows else WithStatuses(WithStatus(rows, cases[0].test, cases[0].status), cases[1..])
  }

  function CountStatus(cases: seq<CaseResult>, status: string): nat {
    if cases == [] then 0 else (if cases[0].status == status then 1 else 0) + CountStatus(cases[1..], status)
  }

  datatype Runs = Runs(rows: seq<Row>, runs: seq<Run>, cases: seq<RunCase>, nextRun: nat, added: nat, skipped: nat)

  predicate HasRun(runs: seq<Run>, sourceId: string) {
    runs != [] && (runs[0].sourceId == Some(sourceId) || HasRun(runs[1..], sourceId))
  }

  function NewRun(id: nat, d: RunData): Run {
    Run(id, d.name, d.status, |d.cases|, CountStatus(d.cases, "pass"), CountStatus(d.cases, "fail"),
        CountStatus(d.cases, "blocked"), if |d.cases| > 0 then 100 else 0,
        if d.sourceId != "" then Some(d.sourceId) else None)
  }

  function ImportRun(p: Import, titleToId: map<string, string>, keyToId: map<string, string>, s: Runs, d: RunData): Runs {
    if d.sourceId != "" && HasRun(s.runs, d.sourceId) then s.(skipped := s.skipped + 1)
    else
      var linked := LinkedCases(p, s.rows, titleToId, keyToId, s.nextRun, d.cases);
      Runs(if p.syncStatus then WithStatuses(s.rows, linked) else s.rows,
           s.runs + [NewRun(s.nextRun, d)], s.cases + linked, s.nextRun + 1, s.added + 1, s.skipped)
  }

  function ImportRuns(p: Import, titleToId: map<string, string>, keyToId: map<string, string>, s: Runs, runs: seq<RunData>): Runs
    decreases |runs|
  {
    if runs == [] then s else ImportRuns(p, titleToId, keyToId, ImportRun(p, titleToId, keyToId, s, runs[0]), runs[1..])
  }

  // -------------------------------------------------------------- defects

  datatype Defects = Defects(defects: seq<Defect>, nextDefect: nat, added: nat, skipped: nat)

  predicate HasDefect(defects: seq<Defect>, provider: string, key: string) {
    defects != [] &&
      ((defects[0].provider == Some(provider) && defects[0].key == Some(key)) || HasDefect(defects[1..], provider, key))
  }

  function NewDefect(p: Import, titleToId: map<string, string>, id: nat, d: DefectData): Defect {
    Defect(id, d.title, d.status, d.severity, d.description,
           if d.testTitle != "" && d.testTitle in titleToId then Some(titleToId[d.testTitle]) else None,
           if d.sourceId != "" then Some(p.provider) else None, if d.sourceId != "" then Some(d.sourceId) else None)
  }

  function ImportDefect(p: Import, titleToId: map<string, string>, s: Defects, d: DefectData): Defects {
    if d.sourceId != "" && HasDefect(s.defects, p.provider, d.sourceId) then s.(skipped := s.skipped + 1)
    else Defects(s.defects + [NewDefect(p, titleToId, s.nextDefect, d)], s.nextDefect + 1, s.added + 1, s.skipped)
  }

  function ImportDefects(p: Import, titleToId: map<string, string>, s: Defects, defects: seq<DefectData>): Defects
    decreases |defects|
  {
    if defects == [] then s else ImportDefects(p, titleToId, ImportDefect(p, titleToId, s, defects[0]), defects[1..])
  }

  // -------------------------------------------------------------- the import

  datatype Result = Result(tests: seq<TestData>, runs: seq<RunData>, defects: seq<DefectData>)

  datatype Store = Store(rows: seq<Row>, folders: Table, nextFolder: Id, runs: seq<Run>, cases: seq<RunCase>,
                         nextRun: nat, defects: seq<Defect>, nextDefect: nat)

  datatype Stats = Stats(folders: nat, tests: nat, runs: nat, defects: nat, skipped: nat)

  function TestsStart(store: Store): Tests {
    Tests(store.rows, store.folders, store.nextFolder, map[], map[], 0, 0)
  }

  function RunsStart(store: Store, t: Tests): Runs {
    Runs(t.rows, store.runs, store.cases, store.nextRun, 0, 0)
  }

  function DefectsStart(store: Store): Defects {
    Defects(store.defects, store.nextDefect, 0, 0)
  }

  function Imported(p: Import, store: Store, r: Result, names: seq<string>): Store
    requires |names| == |r.tests|
  {
    var t := ImportTests(p, TestsStart(store), r.tests, names);
    var u := ImportRuns(p, t.titleToId, t.keyToId, RunsStart(store, t), r.runs);
    var d := ImportDefects(p, t.titleToId, DefectsStart(store), r.defects);
    Store(u.rows, t.folders, t.nextFolder, u.runs, u.cases, u.nextRun, d.defects, d.nextDefect)
  }

  lemma OneTestGrows(p: Import, s: Tests, t: TestData, name: string)
    ensures ImportTest(p, s, t, name).folders == FolderOf(s, t).0
    ensures s.folders <= FolderOf(s, t).0
  {
    FillingAppends(s.folders, s.nextFolder, None, Parts(t.folderPath));
  }

  lemma {:induction false} FoldersGrow(p: Import, s: Tests, tests: seq<TestData>, names: seq<string>)
    requires |names| == |tests|
    ensures s.folders <= ImportTests(p, s, tests, names).folders
    decreases |tests|
  {
    if tests != [] {
      OneTestGrows(p, s, tests[0], names[0]);
      FoldersGrow(p, ImportTest(p, s, tests[0], names[0]), tests[1..], names[1..]);
    }
  }

  function Counted(p: Import, store: Store, r: Result, names: seq<string>): Stats
    requires |names| == |r.tests|
  {
    var t := ImportTests(p, TestsStart(store), r.tests, names);
    var u := ImportRuns(p, t.titleToId, t.keyToId, RunsStart(store, t), r.runs);
    var d := ImportDefects(p, t.titleToId, DefectsStart(store), r.defects);
    FoldersGrow(p, TestsStart(store), r.tests, names);
    Stats(|t.folders| - |store.folders|, t.tests, u.added, d.added, t.skipped + u.skipped + d.skipped)
  }
}
