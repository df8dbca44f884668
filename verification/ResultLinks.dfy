/** From a synced test to its CI results: which test a result belongs to and the status it leaves. */
module ResultLinks {
  import opened Prelude
  import opened Text
  import opened Paths
  import opened TestTable
  import opened TestYaml
  import opened CaseId
  import opened Persist
  import opened Importer
  import opened PersistTheorems
  import opened ReimportTheorems
  import RepoSync

  // ------------------------------------------------------ a test keeps its key

  /** How many tests have the key. */
  function WithKey(rows: seq<Row>, provider: string, key: string): nat {
    if rows == [] then 0
    else (if rows[0].provider == Some(provider) && rows[0].key == Some(key) then 1 else 0) + WithKey(rows[1..], provider, key)
  }

  lemma {:induction false} WithKeyAppend(rows: seq<Row>, r: Row, provider: string, key: string)
    ensures WithKey(rows + [r], provider, key)
         == WithKey(rows, provider, key) + if r.provider == Some(provider) && r.key == Some(key) then 1 else 0
  {
    if rows == [] {
      assert rows + [r] == [r];
      assert [r][1..] == [];
    } else {
      assert (rows + [r])[1..] == rows[1..] + [r];
      WithKeyAppend(rows[1..], r, provider, key);
    }
  }

  lemma {:induction false} WithKeySame(a: seq<Row>, b: seq<Row>, provider: string, key: string)
    requires SameTests(a, b)
    ensures WithKey(a, provider, key) == WithKey(b, provider, key)
  {
    if a != [] {
      assert a[0].(status := b[0].status) == b[0];
      forall i | 0 <= i < |a| - 1 ensures a[1..][i].(status := b[1..][i].status) == b[1..][i] {
        assert a[1..][i] == a[i + 1] && b[1..][i] == b[i + 1];
      }
      WithKeySame(a[1..], b[1..], provider, key);
    }
  }

  predicate HasKey(r: Row, provider: string, key: string) {
    r.provider == Some(provider) && r.key == Some(key)
  }

  /** Test `i` has the key, and the import has linked the key to no other test. */
  predicate Keyed(p: Import, s: Tests, key: string, i: nat) {
    && FindKey(s.rows, p.provider, key) == Some(i) && i < |s.rows|
    && (key in s.keyToId ==> s.keyToId[key] == s.rows[i].id)
  }

  /** Some test of the result carries the id. */
  predicate Carried(tests: seq<TestData>, key: string) {
    tests != [] && (tests[0].sourceId == key || Carried(tests[1..], key))
  }

  lemma OverwriteKeepsKey(p: Import, rows: seq<Row>, t: TestData, folder: Option<Id>, key: string, j: nat, i: nat)
    requires FindKey(rows, p.provider, key) == Some(i) && i < |rows| && j < |rows| && key != ""
    requires j == i || t.sourceId != key
    ensures var after := rows[j := Overwritten(p, rows[j], t, folder)];
            && FindKey(after, p.provider, key) == Some(i)
            && WithKey(after, p.provider, key) == WithKey(rows, p.provider, key)
  {
    FindKeyBounds(rows, p.provider, key);
    HasKeyUpdate(rows, j, Overwritten(p, rows[j], t, folder), p.provider, key);
  }

  lemma {:induction false} HasKeyUpdate(rows: seq<Row>, j: nat, r: Row, provider: string, key: string)
    requires j < |rows| && (HasKey(r, provider, key) <==> HasKey(rows[j], provider, key))
    ensures FindKey(rows[j := r], provider, key) == FindKey(rows, provider, key)
    ensures WithKey(rows[j := r], provider, key) == WithKey(rows, provider, key)
  {
    if j > 0 {
      assert rows[j := r][1..] == rows[1..][j - 1 := r];
      HasKeyUpdate(rows[1..], j - 1, r, provider, key);
    } else {
      assert rows[j := r][1..] == rows[1..];
    }
  }

  lemma TestKeepsKey(p: Import, s: Tests, t: TestData, name: string, key: string, i: nat)
    requires (p.mode != Rename || t.sourceId != key) && key != "" && Keyed(p, s, key, i)
    ensures var u := ImportTest(p, s, t, name);
            && Keyed(p, u, key, i) && u.rows[i].id == s.rows[i].id
            && WithKey(u.rows, p.provider, key) == WithKey(s.rows, p.provider, key)
  {
    var folder := FolderOf(s, t).1;
    FindTestBounds(s.rows, p.provider, t, folder);
    match FindTest(s.rows, p.provider, t, folder)
    case None =>
      FindKeyAppend(s.rows, Created(p, t, folder, name), p.provider, key);
      WithKeyAppend(s.rows, Created(p, t, folder, name), p.provider, key);
    case Some(j) =>
      match p.mode
      case Skip =>
      case Overwrite => OverwriteKeepsKey(p, s.rows, t, folder, key, j, i);
      case Rename =>
        FindKeyAppend(s.rows, Created(p, Renamed(t), folder, name), p.provider, key);
        WithKeyAppend(s.rows, Created(p, Renamed(t), folder, name), p.provider, key);
  }

  lemma {:induction false} TestsKeepKey(p: Import, s: Tests, tests: seq<TestData>, names: seq<string>, key: string, i: nat)
    requires (p.mode != Rename || !Carried(tests, key)) && key != "" && |names| == |tests| && Keyed(p, s, key, i)
    ensures var u := ImportTests(p, s, tests, names);
            && Keyed(p, u, key, i) && u.rows[i].id == s.rows[i].id
            && WithKey(u.rows, p.provider, key) == WithKey(s.rows, p.provider, key)
    decreases |tests|
  {
    if tests != [] {
      TestKeepsKey(p, s, tests[0], names[0], key, i);
      TestsKeepKey(p, ImportTest(p, s, tests[0], names[0]), tests[1..], names[1..], key, i);
    }
  }

  lemma RenamedTakesKey(p: Import, s: Tests, t: TestData, name: string, key: string)
    requires p.mode == Rename && key != ""
    ensures ImportTest(p, s, t, name).keyToId == if t.sourceId != "" then s.keyToId[t.sourceId := name] else s.keyToId
  {
    FindTestBounds(s.rows, p.provider, t, FolderOf(s, t).1);
  }

  /** With `rename`, a test of the result that carries the id is added anew and takes the id over. */
  lemma {:induction false} RenamedTestsTakeKey(p: Import, s: Tests, tests: seq<TestData>, names: seq<string>, key: string, id: string)
    requires p.mode == Rename && key != "" && |names| == |tests| && id !in names
    requires Carried(tests, key) || (key in s.keyToId && s.keyToId[key] != id)
    ensures var u := ImportTests(p, s, tests, names); key in u.keyToId && u.keyToId[key] != id
    decreases |tests|
  {
    if tests != [] {
      RenamedTakesKey(p, s, tests[0], names[0], key);
      assert names[0] in names && forall n | n in names[1..] :: n in names;
      RenamedTestsTakeKey(p, ImportTest(p, s, tests[0], names[0]), tests[1..], names[1..], key, id);
    }
  }

  // ------------------------------------------------------ the cases an import adds

  /** The cases of the runs that are not there yet, linked as the table was after the tests. */
  function NewCases(p: Import, rows: seq<Row>, titles: map<string, string>, keys: map<string, string>, runs: seq<Run>,
                    nextRun: nat, data: seq<RunData>): seq<RunCase>
    decreases |data|
  {
    if data == [] then []
    else if data[0].sourceId != "" && HasRun(runs, data[0].sourceId) then
      NewCases(p, rows, titles, keys, runs, nextRun, data[1..])
    else
      LinkedCases(p, rows, titles, keys, nextRun, data[0].cases)
      + NewCases(p, rows, titles, keys, runs + [NewRun(nextRun, data[0])], nextRun + 1, data[1..])
  }

  lemma {:induction false} LinkedTheSame(p: Import, a: seq<Row>, b: seq<Row>, titles: map<string, string>, keys: map<string, string>,
                                         run: nat, cases: seq<CaseResult>)
    requires SameTests(a, b)
    ensures LinkedCases(p, a, titles, keys, run, cases) == LinkedCases(p, b, titles, keys, run, cases)
    decreases |cases|
  {
    if cases != [] {
      LinkIsTheSame(p, a, b, titles, keys, keys, cases[0]);
      LinkedTheSame(p, a, b, titles, keys, run, cases[1..]);
    }
  }

  lemma {:induction false} StatusesOfConcat(rows: seq<Row>, a: seq<RunCase>, b: seq<RunCase>)
    ensures WithStatuses(rows, a + b) == WithStatuses(WithStatuses(rows, a), b)
    decreases |a|
  {
    if a == [] {
      assert a + b == b;
    } else {
      assert (a + b)[1..] == a[1..] + b;
      StatusesOfConcat(WithStatus(rows, a[0].test, a[0].status), a[1..], b);
    }
  }

  /** The runs of an import add exactly the new cases, and set statuses in their order. */
  lemma {:induction false} RunsAddTheNewCases(p: Import, rows: seq<Row>, titles: map<string, string>, keys: map<string, string>,
                                              s: Runs, data: seq<RunData>)
    requires SameTests(rows, s.rows)
    ensures var u := ImportRuns(p, titles, keys, s, data);
            var cases := NewCases(p, rows, titles, keys, s.runs, s.nextRun, data);
            u.cases == s.cases + cases && u.rows == RowsAfter(p, s.rows, cases)
    decreases |data|
  {
    if data == [] {
      assert s.cases + [] == s.cases;
    } else {
      var next := ImportRun(p, titles, keys, s, data[0]);
      var linked := LinkedCases(p, s.rows, titles, keys, s.nextRun, data[0].cases);
      LinkedTheSame(p, rows, s.rows, titles, keys, s.nextRun, data[0].cases);
      RowsAfterKeepTests(p, s.rows, linked);
      assert next.rows == s.rows || next.rows == RowsAfter(p, s.rows, linked);
      SameTestsIsTransitive(rows, s.rows, next.rows);
      RunsAddTheNewCases(p, rows, titles, keys, next, data[1..]);
      if !(data[0].sourceId != "" && HasRun(s.runs, data[0].sourceId)) {
        var rest := NewCases(p, rows, titles, keys, next.runs, next.nextRun, data[1..]);
        ConcatIsAssociative(s.cases, linked, rest);
        StatusesOfConcat(s.rows, linked, rest);
      }
    }
  }

  // ------------------------------------------------------ the status a test is left with

  /** The status of the last case of the test. */
  function LastStatus(cases: seq<RunCase>, id: string): Option<string> {
    if cases == [] then None
    else if LastStatus(cases[1..], id).Some? then LastStatus(cases[1..], id)
    else if cases[0].test == id then Some(cases[0].status)
    else None
  }

  /** No test before `i` has its id. */
  predicate FirstOfId(rows: seq<Row>, i: nat)
    requires i < |rows|
  {
    i == 0 || (rows[0].id != rows[i].id && FirstOfId(rows[1..], i - 1))
  }

  lemma {:induction false} StatusOfFirst(rows: seq<Row>, i: nat, id: string, status: string)
    requires i < |rows| && FirstOfId(rows, i)
    ensures |WithStatus(rows, id, status)| == |rows|
    ensures WithStatus(rows, id, status)[i] == if rows[i].id == id then rows[i].(status := status) else rows[i]
    ensures FirstOfId(WithStatus(rows, id, status), i)
  {
    StatusKeepsTests(rows, id, status);
    if i > 0 {
      StatusOfFirst(rows[1..], i - 1, id, status);
      var after := WithStatus(rows, id, status);
      if rows[0].id == id {
        assert after[1..] == rows[1..];
        assert after[0].id == rows[0].id;
      } else {
        assert after[1..] == WithStatus(rows[1..], id, status);
      }
    }
  }

  lemma {:induction false} LastCaseWins(rows: seq<Row>, cases: seq<RunCase>, i: nat)
    requires i < |rows| && FirstOfId(rows, i)
    ensures |WithStatuses(rows, cases)| == |rows|
    ensures var last := LastStatus(cases, rows[i].id);
            WithStatuses(rows, cases)[i].status == if last.Some? then last.value else rows[i].status
    decreases |cases|
  {
    if cases != [] {
      StatusOfFirst(rows, i, cases[0].test, cases[0].status);
      LastCaseWins(WithStatus(rows, cases[0].test, cases[0].status), cases[1..], i);
    }
  }

  lemma {:induction false} FirstOfIdAppend(rows: seq<Row>, r: Row, i: nat)
    requires i < |rows| && FirstOfId(rows, i)
    ensures FirstOfId(rows + [r], i)
  {
    if i > 0 {
      FirstOfIdAppend(rows[1..], r, i - 1);
      assert (rows + [r])[1..] == rows[1..] + [r];
    }
  }

  lemma {:induction false} FirstOfIdUpdate(rows: seq<Row>, r: Row, j: nat, i: nat)
    requires i < |rows| && j < |rows| && FirstOfId(rows, i) && r.id == rows[j].id
    ensures FirstOfId(rows[j := r], i)
  {
    if i > 0 {
      if j > 0 {
        assert rows[j := r][1..] == rows[1..][j - 1 := r];
        FirstOfIdUpdate(rows[1..], r, j - 1, i - 1);
      } else {
        assert rows[j := r][1..] == rows[1..];
      }
    }
  }

  predicate SameAt(a: seq<Row>, b: seq<Row>, i: nat) {
    i < |a| && i < |b| && FirstOfId(b, i) && b[i].id == a[i].id && b[i].status == a[i].status
  }

  lemma AppendKeepsStatus(rows: seq<Row>, r: Row, i: nat)
    requires i < |rows| && FirstOfId(rows, i)
    ensures SameAt(rows, rows + [r], i)
  {
    FirstOfIdAppend(rows, r, i);
  }

  lemma UpdateKeepsStatus(rows: seq<Row>, r: Row, j: nat, i: nat)
    requires i < |rows| && j < |rows| && FirstOfId(rows, i) && r.id == rows[j].id && r.status == rows[j].status
    ensures SameAt(rows, rows[j := r], i)
  {
    FirstOfIdUpdate(rows, r, j, i);
  }

  lemma TestKeepsStatus(p: Import, s: Tests, t: TestData, name: string, i: nat)
    requires i < |s.rows| && FirstOfId(s.rows, i)
    ensures SameAt(s.rows, ImportTest(p, s, t, name).rows, i)
  {
    var folder := FolderOf(s, t).1;
    FindTestBounds(s.rows, p.provider, t, folder);
    match FindTest(s.rows, p.provider, t, folder)
    case None => AppendKeepsStatus(s.rows, Created(p, t, folder, name), i);
    case Some(j) =>
      match p.mode
      case Skip =>
      case Overwrite => UpdateKeepsStatus(s.rows, Overwritten(p, s.rows[j], t, folder), j, i);
      case Rename => AppendKeepsStatus(s.rows, Created(p, Renamed(t), folder, name), i);
  }

  lemma {:induction false} TestsKeepStatus(p: Import, s: Tests, tests: seq<TestData>, names: seq<string>, i: nat)
    requires |names| == |tests| && i < |s.rows| && FirstOfId(s.rows, i)
    ensures SameAt(s.rows, ImportTests(p, s, tests, names).rows, i)
    decreases |tests|
  {
    if tests != [] {
      TestKeepsStatus(p, s, tests[0], names[0], i);
      TestsKeepStatus(p, ImportTest(p, s, tests[0], names[0]), tests[1..], names[1..], i);
    }
  }

  /** The cases an import adds to the table. */
  function AddedCases(p: Import, store: Store, r: Result, names: seq<string>): seq<RunCase>
    requires |names| == |r.tests|
  {
    var t := ImportTests(p, TestsStart(store), r.tests, names);
    NewCases(p, t.rows, t.titleToId, t.keyToId, store.runs, store.nextRun, r.runs)
  }

  /** With `sync_status`, in every mode, a test that was there is left with the status of the last case the
      import linked to it, in run order, and without one keeps its status. */
  lemma LastResultIsTheStatus(p: Import, store: Store, r: Result, names: seq<string>, i: nat)
    requires |names| == |r.tests| && p.syncStatus && i < |store.rows| && FirstOfId(store.rows, i)
    ensures var after := Imported(p, store, r, names);
            var cases := AddedCases(p, store, r, names);
            && after.cases == store.cases + cases
            && i < |after.rows| && after.rows[i].id == store.rows[i].id
            && var last := LastStatus(cases, store.rows[i].id);
               after.rows[i].status == if last.Some? then last.value else store.rows[i].status
  {
    var t := ImportTests(p, TestsStart(store), r.tests, names);
    TestsKeepStatus(p, TestsStart(store), r.tests, names, i);
    RunsAddTheNewCases(p, t.rows, t.titleToId, t.keyToId, RunsStart(store, t), r.runs);
    LastCaseWins(t.rows, AddedCases(p, store, r, names), i);
    StatusesKeepTests(t.rows, AddedCases(p, store, r, names));
    assert t.rows[i].(status := Imported(p, store, r, names).rows[i].status) == Imported(p, store, r, names).rows[i];
  }

  // ------------------------------------------------------ which cases are linked, and to what

  predicate Titled(tests: seq<TestData>, title: string) {
    tests != [] && (tests[0].title == title || Titled(tests[1..], title))
  }

  /** The id of the last test of the result that is remembered under the title: its own title, or with
      `rename` the new one if a test like it was there. */
  function IdOfTitle(p: Import, s: Tests, tests: seq<TestData>, names: seq<string>, title: string): Option<string>
    requires |names| == |tests|
    decreases |tests|
  {
    if tests == [] then None
    else
      var rest := IdOfTitle(p, ImportTest(p, s, tests[0], names[0]), tests[1..], names[1..], title);
      var there, folder := InFolder(s, tests[0]), FolderOf(s, tests[0]).1;
      if rest.Some? then rest
      else if title == PlacedTitle(p, there, tests[0], folder) then Some(PlacedId(p, there, tests[0], folder, names[0]))
      else None
  }

  /** The id of the last test of the result that carries the key. */
  function IdOfKey(p: Import, s: Tests, tests: seq<TestData>, names: seq<string>, key: string): Option<string>
    requires |names| == |tests|
    decreases |tests|
  {
    if tests == [] then None
    else
      var rest := IdOfKey(p, ImportTest(p, s, tests[0], names[0]), tests[1..], names[1..], key);
      if rest.Some? then rest
      else if tests[0].sourceId == key then
        Some(PlacedId(p, InFolder(s, tests[0]), tests[0], FolderOf(s, tests[0]).1, names[0]))
      else None
  }

  function Lookup(ids: map<string, string>, k: string): Option<string> {
    if k in ids then Some(ids[k]) else None
  }

  function Or(a: Option<string>, b: Option<string>): Option<string> {
    if a.Some? then a else b
  }

  lemma {:induction false} TitlesAreRemembered(p: Import, s: Tests, tests: seq<TestData>, names: seq<string>, title: string)
    requires |names| == |tests|
    ensures Lookup(ImportTests(p, s, tests, names).titleToId, title)
         == Or(IdOfTitle(p, s, tests, names, title), Lookup(s.titleToId, title))
    decreases |tests|
  {
    if tests != [] {
      PlacedRemembersTitle(p, InFolder(s, tests[0]), tests[0], FolderOf(s, tests[0]).1, names[0]);
      TitlesAreRemembered(p, ImportTest(p, s, tests[0], names[0]), tests[1..], names[1..], title);
    }
  }

  lemma {:induction false} KeysAreRemembered(p: Import, s: Tests, tests: seq<TestData>, names: seq<string>, key: string)
    requires |names| == |tests| && key != ""
    ensures Lookup(ImportTests(p, s, tests, names).keyToId, key) == Or(IdOfKey(p, s, tests, names, key), Lookup(s.keyToId, key))
    decreases |tests|
  {
    if tests != [] {
      PlacedRemembersKey(p, InFolder(s, tests[0]), tests[0], FolderOf(s, tests[0]).1, names[0]);
      KeysAreRemembered(p, ImportTest(p, s, tests[0], names[0]), tests[1..], names[1..], key);
    }
  }

  lemma {:induction false} KeyIsCarried(p: Import, s: Tests, tests: seq<TestData>, names: seq<string>, key: string)
    requires |names| == |tests|
    ensures IdOfKey(p, s, tests, names, key).Some? <==> Carried(tests, key)
    decreases |tests|
  {
    if tests != [] {
      KeyIsCarried(p, ImportTest(p, s, tests[0], names[0]), tests[1..], names[1..], key);
    }
  }

  lemma {:induction false} TitleIsTitled(p: Import, s: Tests, tests: seq<TestData>, names: seq<string>, title: string)
    requires p.mode != Rename && |names| == |tests|
    ensures IdOfTitle(p, s, tests, names, title).Some? <==> Titled(tests, title)
    decreases |tests|
  {
    if tests != [] {
      TitleIsTitled(p, ImportTest(p, s, tests[0], names[0]), tests[1..], names[1..], title);
    }
  }

  /** The case can be linked: its id is carried by a test of the result or of the table, or its title is one
      under which a test of the result is remembered. */
  predicate Linkable(p: Import, store: Store, tests: seq<TestData>, names: seq<string>, c: CaseResult)
    requires |names| == |tests|
  {
    || (c.sourceId != "" && (Carried(tests, c.sourceId) || FindKey(store.rows, p.provider, c.sourceId).Some?))
    || IdOfTitle(p, TestsStart(store), tests, names, c.title).Some?
  }

  lemma TestKeepsOtherKeys(p: Import, s: Tests, t: TestData, name: string, key: string)
    requires t.sourceId != key && key != ""
    ensures FindKey(ImportTest(p, s, t, name).rows, p.provider, key) == FindKey(s.rows, p.provider, key)
  {
    var folder := FolderOf(s, t).1;
    FindTestBounds(s.rows, p.provider, t, folder);
    FindKeyAppend(s.rows, Created(p, t, folder, name), p.provider, key);
    FindKeyAppend(s.rows, Created(p, Renamed(t), folder, name), p.provider, key);
    var j := FindTest(s.rows, p.provider, t, folder);
    if j.Some? {
      HasKeyUpdate(s.rows, j.value, Overwritten(p, s.rows[j.value], t, folder), p.provider, key);
    }
  }

  lemma {:induction false} TestsKeepOtherKeys(p: Import, s: Tests, tests: seq<TestData>, names: seq<string>, key: string)
    requires !Carried(tests, key) && key != "" && |names| == |tests|
    ensures FindKey(ImportTests(p, s, tests, names).rows, p.provider, key) == FindKey(s.rows, p.provider, key)
    decreases |tests|
  {
    if tests != [] {
      TestKeepsOtherKeys(p, s, tests[0], names[0], key);
      TestsKeepOtherKeys(p, ImportTest(p, s, tests[0], names[0]), tests[1..], names[1..], key);
    }
  }

  function IdInTable(rows: seq<Row>, provider: string, key: string): Option<string> {
    FindKeyBounds(rows, provider, key);
    match FindKey(rows, provider, key)
    case None => None
    case Some(i) => Some(rows[i].id)
  }

  /** The test a case belongs to: the last of the result that carries its id, or else the one in the table
      that does, or else the last of the result that is remembered under its title. */
  function Owner(p: Import, store: Store, tests: seq<TestData>, names: seq<string>, c: CaseResult): Option<string>
    requires |names| == |tests|
  {
    var byKey := if c.sourceId == "" then None
                 else Or(IdOfKey(p, TestsStart(store), tests, names, c.sourceId), IdInTable(store.rows, p.provider, c.sourceId));
    Or(byKey, IdOfTitle(p, TestsStart(store), tests, names, c.title))
  }

  lemma TableIdIsKept(p: Import, s: Tests, tests: seq<TestData>, names: seq<string>, key: string)
    requires !Carried(tests, key) && key != "" && |names| == |tests|
    ensures IdInTable(ImportTests(p, s, tests, names).rows, p.provider, key) == IdInTable(s.rows, p.provider, key)
  {
    TestsKeepOtherKeys(p, s, tests, names, key);
    FindKeyBounds(s.rows, p.provider, key);
    var i := FindKey(s.rows, p.provider, key);
    if i.Some? {
      TestsKeepIdentity(p, s, tests, names, i.value);
    }
  }

  /** In every mode, the test that an import links a case to, and exactly which cases it links. */
  lemma CaseGoesToItsOwner(p: Import, store: Store, tests: seq<TestData>, names: seq<string>, c: CaseResult)
    requires |names| == |tests|
    ensures var t := ImportTests(p, TestsStart(store), tests, names);
            LinkedTest(p, t.rows, t.titleToId, t.keyToId, c) == Owner(p, store, tests, names, c)
    ensures Owner(p, store, tests, names, c).Some? <==> Linkable(p, store, tests, names, c)
  {
    var s := TestsStart(store);
    var t := ImportTests(p, s, tests, names);
    TitlesAreRemembered(p, s, tests, names, c.title);
    if c.sourceId != "" {
      KeysAreRemembered(p, s, tests, names, c.sourceId);
      KeyIsCarried(p, s, tests, names, c.sourceId);
      if !Carried(tests, c.sourceId) {
        TableIdIsKept(p, s, tests, names, c.sourceId);
      }
    }
  }

  predicate AllLinkable(p: Import, store: Store, tests: seq<TestData>, names: seq<string>, cases: seq<CaseResult>)
    requires |names| == |tests|
  {
    forall c <- cases :: Linkable(p, store, tests, names, c)
  }

  /** In every mode, a run has as many cases as its total says exactly if each case can be linked; except
      with `rename`, a case whose title is that of a test in the same result always can. */
  lemma {:induction false} NoCaseIsLost(p: Import, store: Store, tests: seq<TestData>, names: seq<string>, run: nat,
                                        cases: seq<CaseResult>)
    requires |names| == |tests|
    ensures var t := ImportTests(p, TestsStart(store), tests, names);
            var linked := LinkedCases(p, t.rows, t.titleToId, t.keyToId, run, cases);
            |linked| <= |cases| && (|linked| == |cases| <==> AllLinkable(p, store, tests, names, cases))
    ensures p.mode != Rename && (forall c <- cases :: Titled(tests, c.title)) ==> AllLinkable(p, store, tests, names, cases)
    decreases |cases|
  {
    if cases != [] {
      CaseGoesToItsOwner(p, store, tests, names, cases[0]);
      NoCaseIsLost(p, store, tests, names, run, cases[1..]);
      assert cases[0] in cases && forall c | c in cases :: c == cases[0] || c in cases[1..];
      assert forall c | c in cases[1..] :: c in cases;
    }
    if p.mode != Rename {
      forall c <- cases | Titled(tests, c.title) ensures Linkable(p, store, tests, names, c) {
        TitleIsTitled(p, TestsStart(store), tests, names, c.title);
      }
    }
  }

  /** With `rename`, a test like one that is there is remembered only under its new title: a result that
      carries its old title and no source id goes to whichever test was remembered under that title before,
      and to none if there was none. */
  lemma RenamedTestLosesItsResults(p: Import, s: Tests, t: TestData, name: string, c: CaseResult)
    requires p.mode == Rename && c.sourceId == "" && c.title == t.title
    requires FindTest(s.rows, p.provider, t, FolderOf(s, t).1).Some?
    ensures var u := ImportTest(p, s, t, name);
            |u.rows| == |s.rows| + 1 && LinkedTest(p, u.rows, u.titleToId, u.keyToId, c) == Lookup(s.titleToId, c.title)
  {
    assert |Renamed(t).title| == |t.title| + 11;
  }

  // ------------------------------------------------------ the results of the new runs

  /** A case of a run that is added. */
  datatype Outcome = Outcome(run: nat, result: CaseResult)

  function OutcomesOf(run: nat, cases: seq<CaseResult>): seq<Outcome> {
    if cases == [] then [] else [Outcome(run, cases[0])] + OutcomesOf(run, cases[1..])
  }

  /** The cases of the runs that are not there yet, in order. */
  function NewOutcomes(runs: seq<Run>, nextRun: nat, data: seq<RunData>): seq<Outcome>
    decreases |data|
  {
    if data == [] then []
    else if data[0].sourceId != "" && HasRun(runs, data[0].sourceId) then NewOutcomes(runs, nextRun, data[1..])
    else OutcomesOf(nextRun, data[0].cases) + NewOutcomes(runs + [NewRun(nextRun, data[0])], nextRun + 1, data[1..])
  }

  /** What the import knows about tests when it comes to the runs. */
  function LinkOf(p: Import, t: Tests, o: Outcome): Option<string> {
    LinkedTest(p, t.rows, t.titleToId, t.keyToId, o.result)
  }

  function Linked(p: Import, t: Tests, os: seq<Outcome>): seq<RunCase> {
    if os == [] then []
    else LinkedOne(p, t.rows, t.titleToId, t.keyToId, os[0].run, os[0].result) + Linked(p, t, os[1..])
  }

  lemma {:induction false} LinkedOfConcat(p: Import, t: Tests, a: seq<Outcome>, b: seq<Outcome>)
    ensures Linked(p, t, a + b) == Linked(p, t, a) + Linked(p, t, b)
  {
    if a == [] {
      NothingBefore(b);
      NothingBefore(Linked(p, t, b));
    } else {
      TailOfConcat(a, b);
      LinkedOfConcat(p, t, a[1..], b);
      ConcatIsAssociative(LinkedOne(p, t.rows, t.titleToId, t.keyToId, a[0].run, a[0].result), Linked(p, t, a[1..]), Linked(p, t, b));
    }
  }

  lemma {:induction false} LinkedOutcomes(p: Import, t: Tests, run: nat, cases: seq<CaseResult>)
    ensures Linked(p, t, OutcomesOf(run, cases)) == LinkedCases(p, t.rows, t.titleToId, t.keyToId, run, cases)
    decreases |cases|
  {
    if cases != [] {
      LinkedOutcomes(p, t, run, cases[1..]);
      assert OutcomesOf(run, cases)[1..] == OutcomesOf(run, cases[1..]);
    }
  }

  lemma {:induction false} NewCasesAreLinked(p: Import, t: Tests, runs: seq<Run>, nextRun: nat, data: seq<RunData>)
    ensures NewCases(p, t.rows, t.titleToId, t.keyToId, runs, nextRun, data) == Linked(p, t, NewOutcomes(runs, nextRun, data))
    decreases |data|
  {
    if data != [] {
      if data[0].sourceId != "" && HasRun(runs, data[0].sourceId) {
        NewCasesAreLinked(p, t, runs, nextRun, data[1..]);
      } else {
        var more := runs + [NewRun(nextRun, data[0])];
        NewCasesAreLinked(p, t, more, nextRun + 1, data[1..]);
        LinkedOutcomes(p, t, nextRun, data[0].cases);
        LinkedOfConcat(p, t, OutcomesOf(nextRun, data[0].cases), NewOutcomes(more, nextRun + 1, data[1..]));
      }
    }
  }

  lemma {:induction false} LinkedIsIn(p: Import, t: Tests, os: seq<Outcome>, k: nat)
    requires k < |os| && LinkOf(p, t, os[k]).Some?
    ensures RunCase(os[k].run, LinkOf(p, t, os[k]).value, os[k].result.status) in Linked(p, t, os)
  {
    if k > 0 {
      LinkedIsIn(p, t, os[1..], k - 1);
    }
  }

  /** The status of the last result that is linked to the test. */
  function LastLinked(p: Import, t: Tests, os: seq<Outcome>, id: string): Option<string> {
    if os == [] then None
    else if LastLinked(p, t, os[1..], id).Some? then LastLinked(p, t, os[1..], id)
    else if LinkOf(p, t, os[0]) == Some(id) then Some(os[0].result.status)
    else None
  }

  lemma {:induction false} LastLinkedIsLast(p: Import, t: Tests, os: seq<Outcome>, id: string)
    ensures LastStatus(Linked(p, t, os), id) == LastLinked(p, t, os, id)
  {
    if os != [] {
      LastLinkedIsLast(p, t, os[1..], id);
      var one, rest := LinkedOne(p, t.rows, t.titleToId, t.keyToId, os[0].run, os[0].result), Linked(p, t, os[1..]);
      if one == [] {
        NothingBefore(rest);
      } else {
        assert one == [one[0]];
        TailOfConcat(one, rest);
        NothingBefore(rest);
      }
    }
  }

  lemma {:induction false} NoneLinkedAfter(p: Import, t: Tests, os: seq<Outcome>, k: nat, id: string)
    requires k < |os| && LinkOf(p, t, os[k]) == Some(id)
    requires forall m | k < m < |os| :: LinkOf(p, t, os[m]) != Some(id)
    ensures LastLinked(p, t, os, id) == Some(os[k].result.status)
  {
    if k > 0 {
      NoneLinkedAfter(p, t, os[1..], k - 1, id);
    } else {
      NoneLinked(p, t, os[1..], id);
    }
  }

  lemma {:induction false} NoneLinked(p: Import, t: Tests, os: seq<Outcome>, id: string)
    requires forall m | 0 <= m < |os| :: LinkOf(p, t, os[m]) != Some(id)
    ensures LastLinked(p, t, os, id) == None
  {
    if os != [] {
      forall m | 0 <= m < |os| - 1 ensures LinkOf(p, t, os[1..][m]) != Some(id) {
        assert os[1..][m] == os[m + 1];
      }
      NoneLinked(p, t, os[1..], id);
    }
  }

  // ------------------------------------------------------ main results

  /** A sync under the provider has tagged test `hit`, and it alone, with the id in the file. */
  predicate Tagged(src: RepoSync.Source, db: RepoSync.Db, d: TestYaml.Test, f: RepoSync.File, name: string,
                   p: Import, store: Store) {
    && RepoSync.HasId(d) && src.provider == Some(p.provider)
    && store.rows == RepoSync.SyncTest(src, db, d, f, name).rows
    && WithKey(store.rows, p.provider, ExternalKey(d.id.value)) == 1
  }

  lemma TaggedIsFound(src: RepoSync.Source, db: RepoSync.Db, d: TestYaml.Test, f: RepoSync.File, name: string,
                      p: Import, store: Store)
    requires Tagged(src, db, d, f, name, p, store)
    ensures var hit := RepoSync.Hit(db.rows, d, src.url, f.path);
            hit < |store.rows| && FindKey(store.rows, p.provider, ExternalKey(d.id.value)) == Some(hit)
  {
    var hit := RepoSync.Hit(db.rows, d, src.url, f.path);
    RepoSync.FindBounds(db.rows, d, src.url, f.path);
    OnlyOneIsFirst(store.rows, p.provider, ExternalKey(d.id.value), hit);
  }

  lemma KeyedResultIsLinkedIff(p: Import, store: Store, tests: seq<TestData>, names: seq<string>, i: nat, c: CaseResult)
    requires |names| == |tests| && i < |store.rows| && store.rows[i].id !in names
    requires c.sourceId != "" && FindKey(store.rows, p.provider, c.sourceId) == Some(i)
    ensures var t := ImportTests(p, TestsStart(store), tests, names);
            LinkedTest(p, t.rows, t.titleToId, t.keyToId, c) == Some(store.rows[i].id)
            <==> p.mode != Rename || !Carried(tests, c.sourceId)
  {
    var s := TestsStart(store);
    if p.mode != Rename || !Carried(tests, c.sourceId) {
      TestsKeepKey(p, s, tests, names, c.sourceId, i);
    } else {
      RenamedTestsTakeKey(p, s, tests, names, c.sourceId, store.rows[i].id);
    }
  }

  /** After the sync, an import for the provider links to the synced test every case with the id, and makes no
      other test with it, exactly unless it runs with `rename` and brings a test with that id itself. */
  lemma ResultsFindTheSyncedTest(src: RepoSync.Source, db: RepoSync.Db, d: TestYaml.Test, f: RepoSync.File, name: string,
                                 p: Import, store: Store, r: Result, names: seq<string>, c: CaseResult)
    requires |names| == |r.tests| && Tagged(src, db, d, f, name, p, store)
    requires c.sourceId == ExternalKey(d.id.value)
    requires forall row <- store.rows :: row.id !in names
    ensures var hit := RepoSync.Hit(db.rows, d, src.url, f.path);
            var t := ImportTests(p, TestsStart(store), r.tests, names);
            var own := p.mode != Rename || !Carried(r.tests, c.sourceId);
            && hit < |store.rows|
            && (LinkedTest(p, t.rows, t.titleToId, t.keyToId, c) == Some(store.rows[hit].id) <==> own)
            && (own ==> WithKey(t.rows, p.provider, c.sourceId) == 1)
  {
    var hit := RepoSync.Hit(db.rows, d, src.url, f.path);
    TaggedIsFound(src, db, d, f, name, p, store);
    assert store.rows[hit] in store.rows;
    KeyedResultIsLinkedIff(p, store, r.tests, names, hit, c);
    if p.mode != Rename || !Carried(r.tests, c.sourceId) {
      TestsKeepKey(p, TestsStart(store), r.tests, names, c.sourceId, hit);
    }
  }

  /** The status that the results linked to a test leave it with. */
  function FinalStatus(p: Import, t: Tests, os: seq<Outcome>, r: Row): string {
    var last := LastLinked(p, t, os, r.id);
    if last.Some? then last.value else r.status
  }

  /** What the runs of an import leave for the test at `i`: a run case for each result that is linked to it,
      and with `sync_status` the status of the last of them. */
  lemma RunsLeaveTheResults(p: Import, store: Store, r: Result, names: seq<string>, i: nat)
    requires |names| == |r.tests| && i < |store.rows|
    ensures var after := Imported(p, store, r, names);
            var t := ImportTests(p, TestsStart(store), r.tests, names);
            var os := NewOutcomes(store.runs, store.nextRun, r.runs);
            && after.cases == store.cases + Linked(p, t, os)
            && i < |after.rows| && after.rows[i].id == store.rows[i].id
            && (p.syncStatus && FirstOfId(store.rows, i) ==> after.rows[i].status == FinalStatus(p, t, os, store.rows[i]))
  {
    var t := ImportTests(p, TestsStart(store), r.tests, names);
    var os := NewOutcomes(store.runs, store.nextRun, r.runs);
    IdentityIsKept(p, store, r, names, i);
    RunsAddTheNewCases(p, t.rows, t.titleToId, t.keyToId, RunsStart(store, t), r.runs);
    NewCasesAreLinked(p, t, store.runs, store.nextRun, r.runs);
    if p.syncStatus && FirstOfId(store.rows, i) {
      LastResultIsTheStatus(p, store, r, names, i);
      LastLinkedIsLast(p, t, os, store.rows[i].id);
    }
  }

  /** From end to end: after the sync, an import that does not rename a test with the id adds, for every case
      with the id in a run that is not there yet, a run case of the synced test; and with `sync_status` the
      test ends with the status of the last such case, unless a later result that does not carry the id is
      linked to the test too, which is told by `CaseGoesToItsOwner`. */
  lemma ResultsReachTheSyncedTest(src: RepoSync.Source, db: RepoSync.Db, d: TestYaml.Test, f: RepoSync.File, name: string,
                                  p: Import, store: Store, r: Result, names: seq<string>, k: nat)
    requires |names| == |r.tests| && Tagged(src, db, d, f, name, p, store)
    requires forall row <- store.rows :: row.id !in names
    requires p.mode != Rename || !Carried(r.tests, ExternalKey(d.id.value))
    requires k < |NewOutcomes(store.runs, store.nextRun, r.runs)|
    requires NewOutcomes(store.runs, store.nextRun, r.runs)[k].result.sourceId == ExternalKey(d.id.value)
    ensures var hit := RepoSync.Hit(db.rows, d, src.url, f.path);
            var after := Imported(p, store, r, names);
            var os := NewOutcomes(store.runs, store.nextRun, r.runs);
            && hit < |store.rows| && hit < |after.rows| && after.rows[hit].id == store.rows[hit].id
            && RunCase(os[k].run, after.rows[hit].id, os[k].result.status) in after.cases
            && (p.syncStatus && FirstOfId(store.rows, hit)
                && (forall m | k < m < |os| :: Owner(p, store, r.tests, names, os[m].result) != Some(store.rows[hit].id)) ==>
                  after.rows[hit].status == os[k].result.status)
  {
    var hit := RepoSync.Hit(db.rows, d, src.url, f.path);
    var t := ImportTests(p, TestsStart(store), r.tests, names);
    var os := NewOutcomes(store.runs, store.nextRun, r.runs);
    ResultsFindTheSyncedTest(src, db, d, f, name, p, store, r, names, os[k].result);
    RunsLeaveTheResults(p, store, r, names, hit);
    LinkedIsIn(p, t, os, k);
    if forall m | k < m < |os| :: Owner(p, store, r.tests, names, os[m].result) != Some(store.rows[hit].id) {
      forall m | k < m < |os| ensures LinkOf(p, t, os[m]) != Some(store.rows[hit].id) {
        CaseGoesToItsOwner(p, store, r.tests, names, os[m].result);
      }
      NoneLinkedAfter(p, t, os, k, store.rows[hit].id);
    }
  }

  lemma {:induction false} OnlyOneIsFirst(rows: seq<Row>, provider: string, key: string, i: nat)
    requires i < |rows| && rows[i].provider == Some(provider) && rows[i].key == Some(key)
    requires WithKey(rows, provider, key) == 1
    ensures FindKey(rows, provider, key) == Some(i)
  {
    if i > 0 {
      SomeHasKey(rows[1..], provider, key, i - 1);
      OnlyOneIsFirst(rows[1..], provider, key, i - 1);
    }
  }

  lemma {:induction false} SomeHasKey(rows: seq<Row>, provider: string, key: string, i: nat)
    requires i < |rows| && rows[i].provider == Some(provider) && rows[i].key == Some(key)
    ensures WithKey(rows, provider, key) >= 1
  {
    if i > 0 {
      SomeHasKey(rows[1..], provider, key, i - 1);
    }
  }
}
