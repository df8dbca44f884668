/** What importing results promises. */
module PersistTheorems {
  import opened Prelude
  import opened Paths
  import opened TestTable
  import opened Persist
  import opened Importer

  // -------------------------------------------------------------- counts

  lemma TestIsCounted(p: Import, s: Tests, t: TestData, name: string)
    ensures var u := ImportTest(p, s, t, name); u.tests + u.skipped == s.tests + s.skipped + 1
  {
    FindTestBounds(s.rows, p.provider, t, FolderOf(s, t).1);
  }

  lemma {:induction false} TestsAreCounted(p: Import, s: Tests, tests: seq<TestData>, names: seq<string>)
    requires |names| == |tests|
    ensures var u := ImportTests(p, s, tests, names); u.tests + u.skipped == s.tests + s.skipped + |tests|
    decreases |tests|
  {
    if tests != [] {
      TestIsCounted(p, s, tests[0], names[0]);
      TestsAreCounted(p, ImportTest(p, s, tests[0], names[0]), tests[1..], names[1..]);
    }
  }

  lemma {:induction false} RunsAreCounted(p: Import, titles: map<string, string>, keys: map<string, string>, s: Runs, runs: seq<RunData>)
    ensures var u := ImportRuns(p, titles, keys, s, runs); u.added + u.skipped == s.added + s.skipped + |runs|
    decreases |runs|
  {
    if runs != [] {
      RunsAreCounted(p, titles, keys, ImportRun(p, titles, keys, s, runs[0]), runs[1..]);
    }
  }

  lemma {:induction false} DefectsAreCounted(p: Import, titles: map<string, string>, s: Defects, defects: seq<DefectData>)
    ensures var u := ImportDefects(p, titles, s, defects); u.added + u.skipped == s.added + s.skipped + |defects|
    decreases |defects|
  {
    if defects != [] {
      DefectsAreCounted(p, titles, ImportDefect(p, titles, s, defects[0]), defects[1..]);
    }
  }

  /** In every mode, each test, run and defect of the result is counted once: as written or as skipped. */
  lemma EverythingIsCounted(p: Import, store: Store, r: Result, names: seq<string>)
    requires |names| == |r.tests|
    ensures var c := Counted(p, store, r, names);
            c.tests + c.runs + c.defects + c.skipped == |r.tests| + |r.runs| + |r.defects|
  {
    var t := ImportTests(p, TestsStart(store), r.tests, names);
    TestsAreCounted(p, TestsStart(store), r.tests, names);
    RunsAreCounted(p, t.titleToId, t.keyToId, RunsStart(store, t), r.runs);
    DefectsAreCounted(p, t.titleToId, DefectsStart(store), r.defects);
  }

  // -------------------------------------------------------------- references

  predicate HasTest(rows: seq<Row>, id: string) {
    rows != [] && (rows[0].id == id || HasTest(rows[1..], id))
  }

  predicate HasRunId(runs: seq<Run>, id: nat) {
    runs != [] && (runs[0].id == id || HasRunId(runs[1..], id))
  }

  /** Every run case refers to a run and a test in the tables. */
  predicate RefsOk(cases: seq<RunCase>, runs: seq<Run>, rows: seq<Row>)
    decreases |cases|
  {
    cases != [] ==> HasRunId(runs, cases[0].run) && HasTest(rows, cases[0].test) && RefsOk(cases[1..], runs, rows)
  }

  ghost predicate OnlyTests(rows: seq<Row>, ids: map<string, string>) {
    forall k <- ids :: HasTest(rows, ids[k])
  }

  lemma {:induction false} HasTestAt(rows: seq<Row>, i: nat)
    requires i < |rows|
    ensures HasTest(rows, rows[i].id)
  {
    if i > 0 {
      HasTestAt(rows[1..], i - 1);
    }
  }

  lemma {:induction false} HasTestAppend(rows: seq<Row>, r: Row, id: string)
    ensures HasTest(rows + [r], id) <==> HasTest(rows, id) || r.id == id
  {
    if rows == [] {
      assert rows + [r] == [r];
    } else {
      assert (rows + [r])[1..] == rows[1..] + [r];
      HasTestAppend(rows[1..], r, id);
    }
  }

  lemma {:induction false} HasTestUpdate(rows: seq<Row>, i: nat, r: Row, id: string)
    requires i < |rows| && r.id == rows[i].id
    ensures HasTest(rows[i := r], id) <==> HasTest(rows, id)
  {
    if i > 0 {
      assert rows[i := r][1..] == rows[1..][i - 1 := r];
      HasTestUpdate(rows[1..], i - 1, r, id);
    } else {
      assert rows[i := r][1..] == rows[1..];
    }
  }

  lemma {:induction false} HasTestSame(a: seq<Row>, b: seq<Row>, id: string)
    requires SameTests(a, b)
    ensures HasTest(a, id) <==> HasTest(b, id)
  {
    if a != [] {
      assert a[0].(status := b[0].status) == b[0];
      forall i | 0 <= i < |a| - 1 ensures a[1..][i].(status := b[1..][i].status) == b[1..][i] {
        assert a[1..][i] == a[i + 1] && b[1..][i] == b[i + 1];
      }
      HasTestSame(a[1..], b[1..], id);
    }
  }

  /** The maps the test loop keeps hold only ids in the table, and it loses no id. */
  ghost predicate TestsOk(s: Tests) {
    OnlyTests(s.rows, s.titleToId) && OnlyTests(s.rows, s.keyToId)
  }

  lemma PlacedKeepsIds(p: Import, s: Tests, t: TestData, folder: Option<Id>, name: string, id: string)
    requires HasTest(s.rows, id)
    ensures HasTest(Placed(p, s, t, folder, name).rows, id)
  {
    FindTestBounds(s.rows, p.provider, t, folder);
    HasTestAppend(s.rows, Created(p, t, folder, name), id);
    HasTestAppend(s.rows, Created(p, Renamed(t), folder, name), id);
    var i := FindTest(s.rows, p.provider, t, folder);
    if i.Some? {
      HasTestUpdate(s.rows, i.value, Overwritten(p, s.rows[i.value], t, folder), id);
    }
  }

  /** The id under which a test is remembered. */
  function PlacedId(p: Import, s: Tests, t: TestData, folder: Option<Id>, name: string): string {
    FindTestBounds(s.rows, p.provider, t, folder);
    match FindTest(s.rows, p.provider, t, folder)
    case None => name
    case Some(i) => if p.mode == Rename then name else s.rows[i].id
  }

  /** The title under which it is remembered. */
  function PlacedTitle(p: Import, s: Tests, t: TestData, folder: Option<Id>): string {
    if FindTest(s.rows, p.provider, t, folder).Some? && p.mode == Rename then Renamed(t).title else t.title
  }

  lemma PlacedIsThere(p: Import, s: Tests, t: TestData, folder: Option<Id>, name: string)
    ensures HasTest(Placed(p, s, t, folder, name).rows, PlacedId(p, s, t, folder, name))
  {
    FindTestBounds(s.rows, p.provider, t, folder);
    HasTestAppend(s.rows, Created(p, t, folder, name), name);
    HasTestAppend(s.rows, Created(p, Renamed(t), folder, name), name);
    var i := FindTest(s.rows, p.provider, t, folder);
    if i.Some? {
      HasTestAt(s.rows, i.value);
      HasTestUpdate(s.rows, i.value, Overwritten(p, s.rows[i.value], t, folder), s.rows[i.value].id);
    }
  }

  lemma PlacedRemembersTitle(p: Import, s: Tests, t: TestData, folder: Option<Id>, name: string)
    ensures Placed(p, s, t, folder, name).titleToId
         == s.titleToId[PlacedTitle(p, s, t, folder) := PlacedId(p, s, t, folder, name)]
  {
  }

  lemma PlacedRemembersKey(p: Import, s: Tests, t: TestData, folder: Option<Id>, name: string)
    ensures Placed(p, s, t, folder, name).keyToId
         == if t.sourceId != "" then s.keyToId[t.sourceId := PlacedId(p, s, t, folder, name)] else s.keyToId
  {
  }

  ghost predicate Keeps(before: seq<Row>, after: seq<Row>) {
    forall id: string :: HasTest(before, id) ==> HasTest(after, id)
  }

  lemma OneMoreId(before: seq<Row>, after: seq<Row>, ids: map<string, string>, k: string, id: string)
    requires Keeps(before, after) && OnlyTests(before, ids) && HasTest(after, id)
    ensures OnlyTests(after, ids) && OnlyTests(after, ids[k := id])
  {
  }

  lemma PlacedKeepsOk(p: Import, s: Tests, t: TestData, folder: Option<Id>, name: string)
    requires TestsOk(s)
    ensures TestsOk(Placed(p, s, t, folder, name))
  {
    var rows := Placed(p, s, t, folder, name).rows;
    var id := PlacedId(p, s, t, folder, name);
    PlacedIsThere(p, s, t, folder, name);
    forall other: string | HasTest(s.rows, other) ensures HasTest(rows, other) {
      PlacedKeepsIds(p, s, t, folder, name, other);
    }
    PlacedRemembersTitle(p, s, t, folder, name);
    PlacedRemembersKey(p, s, t, folder, name);
    OneMoreId(s.rows, rows, s.titleToId, PlacedTitle(p, s, t, folder), id);
    OneMoreId(s.rows, rows, s.keyToId, t.sourceId, id);
  }

  lemma {:induction false} TestsKeepOk(p: Import, s: Tests, tests: seq<TestData>, names: seq<string>, id: string)
    requires |names| == |tests| && TestsOk(s)
    ensures TestsOk(ImportTests(p, s, tests, names))
    ensures HasTest(s.rows, id) ==> HasTest(ImportTests(p, s, tests, names).rows, id)
    decreases |tests|
  {
    if tests != [] {
      PlacedKeepsOk(p, InFolder(s, tests[0]), tests[0], FolderOf(s, tests[0]).1, names[0]);
      if HasTest(s.rows, id) {
        PlacedKeepsIds(p, InFolder(s, tests[0]), tests[0], FolderOf(s, tests[0]).1, names[0], id);
      }
      TestsKeepOk(p, ImportTest(p, s, tests[0], names[0]), tests[1..], names[1..], id);
    }
  }

  lemma {:induction false} HasRunAppend(runs: seq<Run>, r: Run, id: nat)
    ensures HasRunId(runs + [r], id) <==> HasRunId(runs, id) || r.id == id
  {
    if runs == [] {
      assert runs + [r] == [r];
    } else {
      assert (runs + [r])[1..] == runs[1..] + [r];
      HasRunAppend(runs[1..], r, id);
    }
  }

  lemma {:induction false} LinkedRefs(p: Import, rows: seq<Row>, titles: map<string, string>, keys: map<string, string>,
                                      run: nat, cases: seq<CaseResult>, runs: seq<Run>)
    requires OnlyTests(rows, titles) && OnlyTests(rows, keys) && HasRunId(runs, run)
    ensures RefsOk(LinkedCases(p, rows, titles, keys, run, cases), runs, rows)
    decreases |cases|
  {
    if cases != [] {
      LinkedRefs(p, rows, titles, keys, run, cases[1..], runs);
      var one := LinkedOne(p, rows, titles, keys, run, cases[0]);
      FindKeyBounds(rows, p.provider, cases[0].sourceId);
      var i := FindKey(rows, p.provider, cases[0].sourceId);
      if i.Some? {
        HasTestAt(rows, i.value);
      }
      if one == [] {
        assert one + LinkedCases(p, rows, titles, keys, run, cases[1..]) == LinkedCases(p, rows, titles, keys, run, cases[1..]);
      } else {
        assert (one + LinkedCases(p, rows, titles, keys, run, cases[1..]))[1..] == LinkedCases(p, rows, titles, keys, run, cases[1..]);
      }
    }
  }

  lemma {:induction false} RefsGrow(cases: seq<RunCase>, runs: seq<Run>, rows: seq<Row>, r: Run, after: seq<Row>)
    requires RefsOk(cases, runs, rows) && SameTests(rows, after)
    ensures RefsOk(cases, runs + [r], after)
    decreases |cases|
  {
    if cases != [] {
      HasRunAppend(runs, r, cases[0].run);
      HasTestSame(rows, after, cases[0].test);
      RefsGrow(cases[1..], runs, rows, r, after);
    }
  }

  lemma {:induction false} RefsOfConcat(a: seq<RunCase>, b: seq<RunCase>, runs: seq<Run>, rows: seq<Row>)
    requires RefsOk(a, runs, rows) && RefsOk(b, runs, rows)
    ensures RefsOk(a + b, runs, rows)
    decreases |a|
  {
    if a == [] {
      assert a + b == b;
    } else {
      assert (a + b)[1..] == a[1..] + b;
      RefsOfConcat(a[1..], b, runs, rows);
    }
  }

  lemma {:induction false} RefsKeepRows(cases: seq<RunCase>, runs: seq<Run>, rows: seq<Row>, after: seq<Row>)
    requires RefsOk(cases, runs, rows) && SameTests(rows, after)
    ensures RefsOk(cases, runs, after)
    decreases |cases|
  {
    if cases != [] {
      HasTestSame(rows, after, cases[0].test);
      RefsKeepRows(cases[1..], runs, rows, after);
    }
  }

  lemma OnlyTestsSame(a: seq<Row>, b: seq<Row>, ids: map<string, string>)
    requires OnlyTests(a, ids) && SameTests(a, b)
    ensures OnlyTests(b, ids)
  {
    forall k <- ids ensures HasTest(b, ids[k]) {
      HasTestSame(a, b, ids[k]);
    }
  }

  lemma RunKeepsRefs(p: Import, titles: map<string, string>, keys: map<string, string>, s: Runs, d: RunData)
    requires OnlyTests(s.rows, titles) && OnlyTests(s.rows, keys) && RefsOk(s.cases, s.runs, s.rows)
    ensures var u := ImportRun(p, titles, keys, s, d);
            OnlyTests(u.rows, titles) && OnlyTests(u.rows, keys) && RefsOk(u.cases, u.runs, u.rows)
  {
    if !(d.sourceId != "" && HasRun(s.runs, d.sourceId)) {
      var linked := LinkedCases(p, s.rows, titles, keys, s.nextRun, d.cases);
      var r := NewRun(s.nextRun, d);
      var after := RowsAfter(p, s.rows, linked);
      RowsAfterKeepTests(p, s.rows, linked);
      OnlyTestsSame(s.rows, after, titles);
      OnlyTestsSame(s.rows, after, keys);
      HasRunAppend(s.runs, r, s.nextRun);
      LinkedRefs(p, s.rows, titles, keys, s.nextRun, d.cases, s.runs + [r]);
      RefsKeepRows(linked, s.runs + [r], s.rows, after);
      RefsGrow(s.cases, s.runs, s.rows, r, after);
      RefsOfConcat(s.cases, linked, s.runs + [r], after);
    }
  }

  lemma {:induction false} RunsKeepRefs(p: Import, titles: map<string, string>, keys: map<string, string>, s: Runs, runs: seq<RunData>)
    requires OnlyTests(s.rows, titles) && OnlyTests(s.rows, keys) && RefsOk(s.cases, s.runs, s.rows)
    ensures var u := ImportRuns(p, titles, keys, s, runs); RefsOk(u.cases, u.runs, u.rows)
    decreases |runs|
  {
    if runs != [] {
      RunKeepsRefs(p, titles, keys, s, runs[0]);
      RunsKeepRefs(p, titles, keys, ImportRun(p, titles, keys, s, runs[0]), runs[1..]);
    }
  }

  lemma {:induction false} RefsMoreTests(cases: seq<RunCase>, runs: seq<Run>, p: Import, s: Tests, tests: seq<TestData>, names: seq<string>)
    requires |names| == |tests| && TestsOk(s) && RefsOk(cases, runs, s.rows)
    ensures RefsOk(cases, runs, ImportTests(p, s, tests, names).rows)
    decreases |cases|
  {
    if cases != [] {
      TestsKeepOk(p, s, tests, names, cases[0].test);
      RefsMoreTests(cases[1..], runs, p, s, tests, names);
    }
  }

  /** In every mode, every run case refers to an existing run and test, if that was so before. */
  lemma RunCasesReferToRunsAndTests(p: Import, store: Store, r: Result, names: seq<string>)
    requires |names| == |r.tests| && RefsOk(store.cases, store.runs, store.rows)
    ensures var after := Imported(p, store, r, names); RefsOk(after.cases, after.runs, after.rows)
  {
    var t := ImportTests(p, TestsStart(store), r.tests, names);
    TestsKeepOk(p, TestsStart(store), r.tests, names, "");
    RefsMoreTests(store.cases, store.runs, p, TestsStart(store), r.tests, names);
    RunsKeepRefs(p, t.titleToId, t.keyToId, RunsStart(store, t), r.runs);
  }

  // -------------------------------------------------------------- identities

  /** The id and title of the test are as before, and so is the external identity if it had one. */
  predicate SameIdentity(a: Row, b: Row) {
    a.id == b.id && a.title == b.title && (a.key.Some? && a.key != Some("") ==> b.key == a.key && b.provider == a.provider)
  }

  predicate IdentityAt(a: seq<Row>, b: seq<Row>, i: nat) {
    i < |a| && i < |b| && SameIdentity(a[i], b[i])
  }

  lemma TestKeepsIdentity(p: Import, s: Tests, t: TestData, name: string, i: nat)
    requires i < |s.rows|
    ensures IdentityAt(s.rows, ImportTest(p, s, t, name).rows, i)
  {
    var folder := FolderOf(s, t).1;
    FindTestBounds(s.rows, p.provider, t, folder);
    match FindTest(s.rows, p.provider, t, folder)
    case None => assert IdentityAt(s.rows, s.rows + [Created(p, t, folder, name)], i);
    case Some(j) =>
      match p.mode
      case Skip =>
      case Overwrite => assert IdentityAt(s.rows, s.rows[j := Overwritten(p, s.rows[j], t, folder)], i);
      case Rename => assert IdentityAt(s.rows, s.rows + [Created(p, Renamed(t), folder, name)], i);
  }

  lemma {:induction false} TestsKeepIdentity(p: Import, s: Tests, tests: seq<TestData>, names: seq<string>, i: nat)
    requires |names| == |tests| && i < |s.rows|
    ensures IdentityAt(s.rows, ImportTests(p, s, tests, names).rows, i)
    decreases |tests|
  {
    if tests != [] {
      TestKeepsIdentity(p, s, tests[0], names[0], i);
      TestsKeepIdentity(p, ImportTest(p, s, tests[0], names[0]), tests[1..], names[1..], i);
    }
  }

  /** In every mode, an import changes neither the id nor the title of a test that was there, nor an external
      identity that it had. */
  lemma IdentityIsKept(p: Import, store: Store, r: Result, names: seq<string>, i: nat)
    requires |names| == |r.tests| && i < |store.rows|
    ensures IdentityAt(store.rows, Imported(p, store, r, names).rows, i)
  {
    var t := ImportTests(p, TestsStart(store), r.tests, names);
    TestsKeepIdentity(p, TestsStart(store), r.tests, names, i);
    RunsKeepTests(p, t.titleToId, t.keyToId, RunsStart(store, t), r.runs);
    assert t.rows[i].(status := Imported(p, store, r, names).rows[i].status) == Imported(p, store, r, names).rows[i];
  }
}
