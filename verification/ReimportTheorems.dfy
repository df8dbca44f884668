/** Importing the same result twice, and importing results for tests that were synced before. */
module ReimportTheorems {
  import opened Prelude
  import opened Text
  import opened Paths
  import opened TestTable
  import opened ImportFolders
  import opened Persist
  import opened Importer

  // ------------------------------------------------------ a test that will be skipped

  lemma {:induction false} FindKeyAppend(rows: seq<Row>, r: Row, provider: string, key: string)
    ensures FindKey(rows + [r], provider, key)
         == if FindKey(rows, provider, key).Some? then FindKey(rows, provider, key)
            else if r.provider == Some(provider) && r.key == Some(key) then Some(|rows|) else None
  {
    if rows == [] {
      assert rows + [r] == [r];
    } else {
      assert (rows + [r])[1..] == rows[1..] + [r];
      FindKeyAppend(rows[1..], r, provider, key);
    }
  }

  lemma {:induction false} FindTitleAppend(rows: seq<Row>, r: Row, title: string, folder: Option<Id>)
    ensures FindTitle(rows + [r], title, folder)
         == if FindTitle(rows, title, folder).Some? then FindTitle(rows, title, folder)
            else if r.title == title && r.folder == folder then Some(|rows|) else None
  {
    if rows == [] {
      assert rows + [r] == [r];
    } else {
      assert (rows + [r])[1..] == rows[1..] + [r];
      FindTitleAppend(rows[1..], r, title, folder);
    }
  }

  predicate FolderThere(folders: Table, t: TestData) {
    t.folderPath == "" || Follow(folders, None, Parts(t.folderPath)).Some?
  }

  function FolderAt(folders: Table, t: TestData): Option<Id>
    requires FolderThere(folders, t)
  {
    if t.folderPath == "" then None else Follow(folders, None, Parts(t.folderPath)).value
  }

  /** The folder and the test are in the tables. */
  predicate TestThere(p: Import, rows: seq<Row>, folders: Table, t: TestData) {
    FolderThere(folders, t) && FindTest(rows, p.provider, t, FolderAt(folders, t)).Some?
  }

  lemma ImportedTestIsThere(p: Import, s: Tests, t: TestData, name: string)
    requires p.mode == Skip
    ensures TestThere(p, ImportTest(p, s, t, name).rows, ImportTest(p, s, t, name).folders, t)
  {
    var folder := FolderOf(s, t).1;
    FilledIsThere(s.folders, s.nextFolder, None, Parts(t.folderPath));
    FindKeyAppend(s.rows, Created(p, t, folder, name), p.provider, t.sourceId);
    FindTitleAppend(s.rows, Created(p, t, folder, name), t.title, folder);
  }

  lemma FindTestAppend(p: Import, rows: seq<Row>, r: Row, t: TestData, folder: Option<Id>)
    requires FindTest(rows, p.provider, t, folder).Some?
    ensures FindTest(rows + [r], p.provider, t, folder).Some?
  {
    FindKeyAppend(rows, r, p.provider, t.sourceId);
    FindTitleAppend(rows, r, t.title, folder);
  }

  lemma FolderStaysThere(folders: Table, after: Table, t: TestData)
    requires folders <= after && FolderThere(folders, t)
    ensures FolderThere(after, t) && FolderAt(after, t) == FolderAt(folders, t)
  {
    if t.folderPath != "" {
      FollowGrowsMore(folders, after, None, Parts(t.folderPath));
    }
  }

  /** With `skip`, a test adds a row or none. */
  lemma SkipOnlyAppends(p: Import, s: Tests, t: TestData, name: string)
    requires p.mode == Skip
    ensures var rows := ImportTest(p, s, t, name).rows;
            rows == s.rows || rows == s.rows + [Created(p, t, FolderOf(s, t).1, name)]
  {
  }

  lemma TestStaysThere(p: Import, s: Tests, t: TestData, other: TestData, name: string)
    requires p.mode == Skip && TestThere(p, s.rows, s.folders, t)
    ensures TestThere(p, ImportTest(p, s, other, name).rows, ImportTest(p, s, other, name).folders, t)
  {
    OneTestGrows(p, s, other, name);
    FolderStaysThere(s.folders, FolderOf(s, other).0, t);
    SkipOnlyAppends(p, s, other, name);
    FindTestAppend(p, s.rows, Created(p, other, FolderOf(s, other).1, name), t, FolderAt(s.folders, t));
  }

  predicate TestsThere(p: Import, rows: seq<Row>, folders: Table, tests: seq<TestData>) {
    tests != [] ==> TestThere(p, rows, folders, tests[0]) && TestsThere(p, rows, folders, tests[1..])
  }

  lemma {:induction false} TestRemainsThere(p: Import, s: Tests, t: TestData, tests: seq<TestData>, names: seq<string>)
    requires p.mode == Skip && |names| == |tests| && TestThere(p, s.rows, s.folders, t)
    ensures TestThere(p, ImportTests(p, s, tests, names).rows, ImportTests(p, s, tests, names).folders, t)
    decreases |tests|
  {
    if tests != [] {
      TestStaysThere(p, s, t, tests[0], names[0]);
      TestRemainsThere(p, ImportTest(p, s, tests[0], names[0]), t, tests[1..], names[1..]);
    }
  }

  lemma {:induction false} ImportedTestsAreThere(p: Import, s: Tests, tests: seq<TestData>, names: seq<string>)
    requires p.mode == Skip && |names| == |tests|
    ensures TestsThere(p, ImportTests(p, s, tests, names).rows, ImportTests(p, s, tests, names).folders, tests)
    decreases |tests|
  {
    if tests != [] {
      ImportedTestIsThere(p, s, tests[0], names[0]);
      TestRemainsThere(p, ImportTest(p, s, tests[0], names[0]), tests[0], tests[1..], names[1..]);
      ImportedTestsAreThere(p, ImportTest(p, s, tests[0], names[0]), tests[1..], names[1..]);
    }
  }

  lemma SkippedTest(p: Import, s: Tests, t: TestData, name: string)
    requires p.mode == Skip && TestThere(p, s.rows, s.folders, t)
    ensures var u := ImportTest(p, s, t, name);
            u.rows == s.rows && u.folders == s.folders && u.nextFolder == s.nextFolder && u.tests == s.tests
  {
    if t.folderPath != "" {
      FollowIsFilled(s.folders, s.nextFolder, None, Parts(t.folderPath));
    }
  }

  lemma {:induction false} SkippedTests(p: Import, s: Tests, tests: seq<TestData>, names: seq<string>)
    requires p.mode == Skip && |names| == |tests| && TestsThere(p, s.rows, s.folders, tests)
    ensures var u := ImportTests(p, s, tests, names);
            u.rows == s.rows && u.folders == s.folders && u.nextFolder == s.nextFolder && u.tests == s.tests
    decreases |tests|
  {
    if tests != [] {
      SkippedTest(p, s, tests[0], names[0]);
      SkippedTests(p, ImportTest(p, s, tests[0], names[0]), tests[1..], names[1..]);
    }
  }

  lemma {:induction false} SameTestsSameTitles(a: seq<Row>, b: seq<Row>, title: string, folder: Option<Id>)
    requires SameTests(a, b)
    ensures FindTitle(a, title, folder) == FindTitle(b, title, folder)
  {
    if a != [] {
      assert a[0].(status := b[0].status) == b[0];
      forall i | 0 <= i < |a| - 1 ensures a[1..][i].(status := b[1..][i].status) == b[1..][i] {
        assert a[1..][i] == a[i + 1] && b[1..][i] == b[i + 1];
      }
      SameTestsSameTitles(a[1..], b[1..], title, folder);
    }
  }

  lemma {:induction false} StatusesKeepThem(p: Import, again: Import, a: seq<Row>, b: seq<Row>, folders: Table, tests: seq<TestData>)
    requires SameTests(a, b) && TestsThere(p, a, folders, tests) && again.provider == p.provider
    ensures TestsThere(again, b, folders, tests)
  {
    if tests != [] {
      SameTestsSameKeys(a, b, p.provider, tests[0].sourceId);
      SameTestsSameTitles(a, b, tests[0].title, FolderAt(folders, tests[0]));
      StatusesKeepThem(p, again, a, b, folders, tests[1..]);
    }
  }

  // ------------------------------------------------------ runs and defects

  lemma {:induction false} HasRunAppend(runs: seq<Run>, r: Run, sourceId: string)
    ensures HasRun(runs + [r], sourceId) <==> HasRun(runs, sourceId) || r.sourceId == Some(sourceId)
  {
    if runs == [] {
      assert runs + [r] == [r];
    } else {
      assert (runs + [r])[1..] == runs[1..] + [r];
      HasRunAppend(runs[1..], r, sourceId);
    }
  }

  predicate RunsThere(runs: seq<Run>, data: seq<RunData>)
    decreases |data|
  {
    data != [] ==> (data[0].sourceId != "" ==> HasRun(runs, data[0].sourceId)) && RunsThere(runs, data[1..])
  }

  lemma {:induction false} RunRemainsThere(p: Import, titles: map<string, string>, keys: map<string, string>, s: Runs,
                                           data: seq<RunData>, sourceId: string)
    requires HasRun(s.runs, sourceId)
    ensures HasRun(ImportRuns(p, titles, keys, s, data).runs, sourceId)
    decreases |data|
  {
    if data != [] {
      HasRunAppend(s.runs, NewRun(s.nextRun, data[0]), sourceId);
      RunRemainsThere(p, titles, keys, ImportRun(p, titles, keys, s, data[0]), data[1..], sourceId);
    }
  }

  lemma {:induction false} ImportedRunsAreThere(p: Import, titles: map<string, string>, keys: map<string, string>, s: Runs,
                                                data: seq<RunData>)
    ensures RunsThere(ImportRuns(p, titles, keys, s, data).runs, data)
    decreases |data|
  {
    if data != [] {
      var next := ImportRun(p, titles, keys, s, data[0]);
      ImportedRunsAreThere(p, titles, keys, next, data[1..]);
      if data[0].sourceId != "" {
        HasRunAppend(s.runs, NewRun(s.nextRun, data[0]), data[0].sourceId);
        RunRemainsThere(p, titles, keys, next, data[1..], data[0].sourceId);
      }
    }
  }

  predicate NoSourceIds(runs: seq<Run>) {
    runs != [] ==> runs[0].sourceId.None? && NoSourceIds(runs[1..])
  }

  /** The runs among the data without an id in the source tool. */
  function Anonymous(data: seq<RunData>): nat {
    if data == [] then 0 else (if data[0].sourceId == "" then 1 else 0) + Anonymous(data[1..])
  }

  lemma {:induction false} OnlyAnonymousRunsAreAdded(p: Import, titles: map<string, string>, keys: map<string, string>, s: Runs,
                                                     data: seq<RunData>)
      returns (more: seq<Run>)
    requires RunsThere(s.runs, data)
    ensures ImportRuns(p, titles, keys, s, data).runs == s.runs + more && NoSourceIds(more) && |more| == Anonymous(data)
    decreases |data|
  {
    more := [];
    if data == [] {
      assert s.runs + [] == s.runs;
    } else {
      var next := ImportRun(p, titles, keys, s, data[0]);
      if data[0].sourceId == "" {
        RunsGrow(s.runs, NewRun(s.nextRun, data[0]), data[1..]);
        var rest := OnlyAnonymousRunsAreAdded(p, titles, keys, next, data[1..]);
        more := [NewRun(s.nextRun, data[0])] + rest;
        ConcatIsAssociative(s.runs, [NewRun(s.nextRun, data[0])], rest);
        assert more[1..] == rest;
      } else {
        more := OnlyAnonymousRunsAreAdded(p, titles, keys, next, data[1..]);
      }
    }
  }

  lemma {:induction false} RunsGrow(runs: seq<Run>, r: Run, data: seq<RunData>)
    requires RunsThere(runs, data)
    ensures RunsThere(runs + [r], data)
    decreases |data|
  {
    if data != [] {
      HasRunAppend(runs, r, data[0].sourceId);
      RunsGrow(runs, r, data[1..]);
    }
  }

  lemma {:induction false} HasDefectAppend(defects: seq<Defect>, d: Defect, provider: string, key: string)
    ensures HasDefect(defects + [d], provider, key)
       <==> HasDefect(defects, provider, key) || (d.provider == Some(provider) && d.key == Some(key))
  {
    if defects == [] {
      assert defects + [d] == [d];
    } else {
      assert (defects + [d])[1..] == defects[1..] + [d];
      HasDefectAppend(defects[1..], d, provider, key);
    }
  }

  predicate DefectsThere(p: Import, defects: seq<Defect>, data: seq<DefectData>)
    decreases |data|
  {
    data != [] ==>
      (data[0].sourceId != "" ==> HasDefect(defects, p.provider, data[0].sourceId)) && DefectsThere(p, defects, data[1..])
  }

  lemma {:induction false} DefectRemainsThere(p: Import, titles: map<string, string>, s: Defects, data: seq<DefectData>, key: string)
    requires HasDefect(s.defects, p.provider, key)
    ensures HasDefect(ImportDefects(p, titles, s, data).defects, p.provider, key)
    decreases |data|
  {
    if data != [] {
      HasDefectAppend(s.defects, NewDefect(p, titles, s.nextDefect, data[0]), p.provider, key);
      DefectRemainsThere(p, titles, ImportDefect(p, titles, s, data[0]), data[1..], key);
    }
  }

  lemma {:induction false} ImportedDefectsAreThere(p: Import, titles: map<string, string>, s: Defects, data: seq<DefectData>)
    ensures DefectsThere(p, ImportDefects(p, titles, s, data).defects, data)
    decreases |data|
  {
    if data != [] {
      var next := ImportDefect(p, titles, s, data[0]);
      ImportedDefectsAreThere(p, titles, next, data[1..]);
      if data[0].sourceId != "" {
        HasDefectAppend(s.defects, NewDefect(p, titles, s.nextDefect, data[0]), p.provider, data[0].sourceId);
        DefectRemainsThere(p, titles, next, data[1..], data[0].sourceId);
      }
    }
  }

  predicate NoKeys(defects: seq<Defect>) {
    defects != [] ==> defects[0].key.None? && NoKeys(defects[1..])
  }

  lemma {:induction false} DefectsGrow(p: Import, defects: seq<Defect>, d: Defect, data: seq<DefectData>)
    requires DefectsThere(p, defects, data)
    ensures DefectsThere(p, defects + [d], data)
    decreases |data|
  {
    if data != [] {
      HasDefectAppend(defects, d, p.provider, data[0].sourceId);
      DefectsGrow(p, defects, d, data[1..]);
    }
  }

  lemma {:induction false} OnlyKeylessDefectsAreAdded(p: Import, titles: map<string, string>, s: Defects, data: seq<DefectData>)
      returns (more: seq<Defect>)
    requires DefectsThere(p, s.defects, data)
    ensures ImportDefects(p, titles, s, data).defects == s.defects + more && NoKeys(more)
    decreases |data|
  {
    more := [];
    if data == [] {
      assert s.defects + [] == s.defects;
    } else {
      var next := ImportDefect(p, titles, s, data[0]);
      if data[0].sourceId == "" {
        var d := NewDefect(p, titles, s.nextDefect, data[0]);
        DefectsGrow(p, s.defects, d, data[1..]);
        var rest := OnlyKeylessDefectsAreAdded(p, titles, next, data[1..]);
        more := [d] + rest;
        ConcatIsAssociative(s.defects, [d], rest);
        assert more[1..] == rest;
      } else {
        more := OnlyKeylessDefectsAreAdded(p, titles, next, data[1..]);
      }
    }
  }

  /** Importing the same result again with `skip` adds no folder and no test, changes no test but its
      status, and adds no run and no defect that has an id in the source tool. */
  lemma ImportingAgainAddsNothing(p: Import, again: Import, store: Store, r: Result, names: seq<string>, later: seq<string>)
    requires |names| == |later| == |r.tests|
    requires p.mode == Skip && again.mode == Skip && p.provider == again.provider
    ensures var once := Imported(p, store, r, names);
            var twice := Imported(again, once, r, later);
            && twice.folders == once.folders && SameTests(once.rows, twice.rows)
            && once.runs <= twice.runs && NoSourceIds(twice.runs[|once.runs|..])
            && |twice.runs| == |once.runs| + Anonymous(r.runs)
            && once.defects <= twice.defects && NoKeys(twice.defects[|once.defects|..])
  {
    var once := Imported(p, store, r, names);
    var t := ImportTests(p, TestsStart(store), r.tests, names);
    ImportedTestsAreThere(p, TestsStart(store), r.tests, names);
    RunsKeepTests(p, t.titleToId, t.keyToId, RunsStart(store, t), r.runs);
    StatusesKeepThem(p, again, t.rows, once.rows, once.folders, r.tests);
    SkippedTests(again, TestsStart(once), r.tests, later);
    var u := ImportTests(again, TestsStart(once), r.tests, later);
    RunsKeepTests(again, u.titleToId, u.keyToId, RunsStart(once, u), r.runs);
    ImportedRunsAreThere(p, t.titleToId, t.keyToId, RunsStart(store, t), r.runs);
    var runs := OnlyAnonymousRunsAreAdded(again, u.titleToId, u.keyToId, RunsStart(once, u), r.runs);
    assert (once.runs + runs)[|once.runs|..] == runs;
    ImportedDefectsAreThere(p, t.titleToId, DefectsStart(store), r.defects);
    DefectsOfProvider(p, again, once.defects, r.defects);
    var defects := OnlyKeylessDefectsAreAdded(again, u.titleToId, DefectsStart(once), r.defects);
    assert (once.defects + defects)[|once.defects|..] == defects;
  }

  lemma {:induction false} DefectsOfProvider(p: Import, again: Import, defects: seq<Defect>, data: seq<DefectData>)
    requires p.provider == again.provider && DefectsThere(p, defects, data)
    ensures DefectsThere(again, defects, data)
    decreases |data|
  {
    if data != [] {
      DefectsOfProvider(p, again, defects, data[1..]);
    }
  }
}
