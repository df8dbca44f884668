/** The import as the program runs it: loops over tests, runs and cases that keep a folder cache, a cache of
    linked ids and row statuses up to date as they go, and commit at the end. */
module Importer {
  import opened Prelude
  import opened Text
  import opened Paths
  import opened TestTable
  import opened ImportFolders
  import opened Persist

  // ------------------------------------------- statuses do not change what links find

  /** The same tests, up to their status. */
  predicate SameTests(a: seq<Row>, b: seq<Row>) {
    |a| == |b| && forall i | 0 <= i < |a| :: a[i].(status := b[i].status) == b[i]
  }

  lemma {:induction false} StatusKeepsTests(rows: seq<Row>, id: string, status: string)
    ensures SameTests(rows, WithStatus(rows, id, status))
  {
    if rows != [] && rows[0].id != id {
      StatusKeepsTests(rows[1..], id, status);
      var rest := WithStatus(rows[1..], id, status);
      forall i | 0 <= i < |rows| ensures rows[i].(status := WithStatus(rows, id, status)[i].status) == WithStatus(rows, id, status)[i] {
        if i > 0 {
          assert WithStatus(rows, id, status)[i] == rest[i - 1] && rows[i] == rows[1..][i - 1];
        }
      }
    }
  }

  lemma {:induction false} StatusesKeepTests(rows: seq<Row>, cases: seq<RunCase>)
    ensures SameTests(rows, WithStatuses(rows, cases))
    decreases |cases|
  {
    if cases != [] {
      var next := WithStatus(rows, cases[0].test, cases[0].status);
      StatusKeepsTests(rows, cases[0].test, cases[0].status);
      StatusesKeepTests(next, cases[1..]);
      SameTestsIsTransitive(rows, next, WithStatuses(rows, cases));
    }
  }

  lemma SameTestsIsTransitive(a: seq<Row>, b: seq<Row>, c: seq<Row>)
    requires SameTests(a, b) && SameTests(b, c)
    ensures SameTests(a, c)
  {
  }

  lemma {:induction false} SameTestsSameKeys(a: seq<Row>, b: seq<Row>, provider: string, key: string)
    requires SameTests(a, b)
    ensures FindKey(a, provider, key) == FindKey(b, provider, key)
  {
    if a != [] {
      assert a[0].(status := b[0].status) == b[0];
      forall i | 0 <= i < |a| - 1 ensures a[1..][i].(status := b[1..][i].status) == b[1..][i] {
        assert a[1..][i] == a[i + 1] && b[1..][i] == b[i + 1];
      }
      SameTestsSameKeys(a[1..], b[1..], provider, key);
    }
  }

  /** The cache of linked ids holds the ids of the tests seen, and otherwise what the table gives. */
  ghost predicate CacheAgrees(p: Import, rows: seq<Row>, seen: map<string, string>, cache: map<string, string>) {
    && (forall k <- seen :: k in cache && cache[k] == seen[k])
    && (forall k <- cache :: k in seen || FromTable(p, rows, k, cache[k]))
  }

  predicate FromTable(p: Import, rows: seq<Row>, key: string, id: string) {
    FindKeyBounds(rows, p.provider, key);
    var i := FindKey(rows, p.provider, key);
    i.Some? && rows[i.value].id == id
  }

  lemma CacheKeepsAgreeing(p: Import, a: seq<Row>, b: seq<Row>, seen: map<string, string>, cache: map<string, string>)
    requires CacheAgrees(p, a, seen, cache) && SameTests(a, b)
    ensures CacheAgrees(p, b, seen, cache)
  {
    forall k <- cache | k !in seen ensures FromTable(p, b, k, cache[k]) {
      assert FromTable(p, a, k, cache[k]);
      SameTestsSameKeys(a, b, p.provider, k);
      FindKeyBounds(a, p.provider, k);
      assert a[FindKey(a, p.provider, k).value].(status := b[FindKey(a, p.provider, k).value].status) == b[FindKey(a, p.provider, k).value];
    }
  }

  /** Neither the cache nor the statuses set so far change which test a case belongs to. */
  lemma LinkIsTheSame(p: Import, a: seq<Row>, b: seq<Row>, titles: map<string, string>, seen: map<string, string>,
                      cache: map<string, string>, c: CaseResult)
    requires SameTests(a, b) && CacheAgrees(p, b, seen, cache)
    ensures LinkedTest(p, b, titles, cache, c) == LinkedTest(p, a, titles, seen, c)
  {
    SameTestsSameKeys(a, b, p.provider, c.sourceId);
    FindKeyBounds(a, p.provider, c.sourceId);
    var i := FindKey(a, p.provider, c.sourceId);
    if i.Some? {
      assert a[i.value].(status := b[i.value].status) == b[i.value];
    }
    if c.sourceId in cache && c.sourceId !in seen {
      assert FromTable(p, b, c.sourceId, cache[c.sourceId]);
    }
  }

  lemma {:induction false} StatusesOneMore(rows: seq<Row>, cases: seq<RunCase>, c: RunCase)
    ensures WithStatuses(rows, cases + [c]) == WithStatus(WithStatuses(rows, cases), c.test, c.status)
    decreases |cases|
  {
    if cases == [] {
      assert cases + [c] == [c];
      assert [c][1..] == [];
    } else {
      assert (cases + [c])[1..] == cases[1..] + [c];
      StatusesOneMore(WithStatus(rows, cases[0].test, cases[0].status), cases[1..], c);
    }
  }

  /** The rows once a run's cases are linked. */
  function RowsAfter(p: Import, rows: seq<Row>, linked: seq<RunCase>): seq<Row> {
    if p.syncStatus then WithStatuses(rows, linked) else rows
  }

  lemma RowsAfterKeepTests(p: Import, rows: seq<Row>, linked: seq<RunCase>)
    ensures SameTests(rows, RowsAfter(p, rows, linked))
  {
    StatusesKeepTests(rows, linked);
  }

  lemma {:induction false} RunsKeepTests(p: Import, titles: map<string, string>, keys: map<string, string>, s: Runs, data: seq<RunData>)
    ensures SameTests(s.rows, ImportRuns(p, titles, keys, s, data).rows)
    decreases |data|
  {
    if data != [] {
      var next := ImportRun(p, titles, keys, s, data[0]);
      RowsAfterKeepTests(p, s.rows, LinkedCases(p, s.rows, titles, keys, s.nextRun, data[0].cases));
      assert SameTests(s.rows, next.rows);
      RunsKeepTests(p, titles, keys, next, data[1..]);
      SameTestsIsTransitive(s.rows, next.rows, ImportRuns(p, titles, keys, s, data).rows);
    }
  }

  lemma LinkedNext(p: Import, rows: seq<Row>, titles: map<string, string>, keys: map<string, string>, run: nat,
                   cases: seq<CaseResult>, i: nat)
    requires i < |cases|
    ensures LinkedCases(p, rows, titles, keys, run, cases[i..])
         == LinkedOne(p, rows, titles, keys, run, cases[i]) + LinkedCases(p, rows, titles, keys, run, cases[i + 1..])
  {
    TakeOneMore(cases, i);
  }

  lemma RowsAfterOneMore(p: Import, before: seq<Row>, linked: seq<RunCase>, c: RunCase)
    ensures RowsAfter(p, before, linked + [c])
         == if p.syncStatus then WithStatus(RowsAfter(p, before, linked), c.test, c.status) else RowsAfter(p, before, linked)
    ensures SameTests(RowsAfter(p, before, linked), RowsAfter(p, before, linked + [c]))
  {
    StatusesOneMore(before, linked, c);
    StatusKeepsTests(RowsAfter(p, before, linked), c.test, c.status);
  }

  class ImportSession {
    const p: Import
    var rows: seq<Row>
    var titleToId: map<string, string>
    var keyToId: map<string, string>
    ghost var seen: map<string, string>

    constructor (p: Import, rows: seq<Row>)
      ensures this.p == p && this.rows == rows && titleToId == map[] && keyToId == map[] && seen == map[]
    {
      this.p, this.rows := p, rows;
      titleToId, keyToId, seen := map[], map[], map[];
    }

    /** What the test loop has done so far. */
    ghost predicate Holds(s: Tests)
      reads this
    {
      rows == s.rows && titleToId == s.titleToId && keyToId == s.keyToId
    }

    /** One test, matched, settled by the mode, or created. `counted` tells a test from a skip. */
    method PlaceTest(t: TestData, folder: Option<Id>, name: string, ghost s: Tests) returns (counted: bool)
      requires Holds(s)
      modifies this`rows, this`titleToId, this`keyToId
      ensures Holds(Placed(p, s, t, folder, name))
      ensures Placed(p, s, t, folder, name).tests == s.tests + (if counted then 1 else 0)
      ensures Placed(p, s, t, folder, name).skipped == s.skipped + (if counted then 0 else 1)
    {
      var existing := Match(t, folder);
      FindTestBounds(rows, p.provider, t, folder);
      counted := true;
      if existing.None? {
        Create(t, folder, name, s);
      } else if p.mode == Skip {
        Remember(t.title, t.sourceId, rows[existing.value].id);
        counted := false;
      } else if p.mode == Overwrite {
        var id := rows[existing.value].id;
        rows := rows[existing.value := Overwritten(p, rows[existing.value], t, folder)];
        Remember(t.title, t.sourceId, id);
      } else {
        Create(t.(title := t.title + " (imported)"), folder, name, s);
      }
    }

    method Match(t: TestData, folder: Option<Id>) returns (existing: Option<nat>)
      ensures existing == FindTest(rows, p.provider, t, folder)
    {
      existing := None;
      if t.sourceId != "" {
        existing := FindKey(rows, p.provider, t.sourceId);
      }
      if existing.None? {
        existing := FindTitle(rows, t.title, folder);
      }
    }

    method Create(t: TestData, folder: Option<Id>, name: string, ghost s: Tests)
      requires Holds(s)
      modifies this`rows, this`titleToId, this`keyToId
      ensures Holds(Added(p, s, t, folder, name))
    {
      rows := rows + [Created(p, t, folder, name)];
      Remember(t.title, t.sourceId, name);
    }

    method Remember(title: string, sourceId: string, id: string)
      modifies this`titleToId, this`keyToId
      ensures titleToId == old(titleToId)[title := id]
      ensures keyToId == if sourceId != "" then old(keyToId)[sourceId := id] else old(keyToId)
    {
      titleToId := titleToId[title := id];
      if sourceId != "" {
        keyToId := keyToId[sourceId := id];
      }
    }

    /** `_resolve_test_id`: a test found in the table is remembered for the rest of the import. */
    method Resolve(c: CaseResult, ghost before: seq<Row>) returns (id: Option<string>)
      requires SameTests(before, rows) && CacheAgrees(p, rows, seen, keyToId)
      modifies this`keyToId
      ensures CacheAgrees(p, rows, seen, keyToId)
      ensures id == LinkedTest(p, before, titleToId, seen, c)
    {
      LinkIsTheSame(p, before, rows, titleToId, seen, keyToId, c);
      FindKeyBounds(rows, p.provider, c.sourceId);
      if c.sourceId != "" {
        if c.sourceId in keyToId {
          return Some(keyToId[c.sourceId]);
        }
        var prior := FindKey(rows, p.provider, c.sourceId);
        if prior.Some? {
          keyToId := keyToId[c.sourceId := rows[prior.value].id];
          return Some(rows[prior.value].id);
        }
      }
      id := if c.title in titleToId then Some(titleToId[c.title]) else None;
    }

    /** One case: linked, unless no test is found, and its status set on the test if asked. */
    method LinkCase(c: CaseResult, run: nat, ghost before: seq<Row>, ghost linked: seq<RunCase>) returns (one: seq<RunCase>)
      requires CacheAgrees(p, rows, seen, keyToId) && rows == RowsAfter(p, before, linked)
      modifies this`rows, this`keyToId
      ensures one == LinkedOne(p, before, titleToId, seen, run, c)
      ensures CacheAgrees(p, rows, seen, keyToId) && rows == RowsAfter(p, before, linked + one)
    {
      RowsAfterKeepTests(p, before, linked);
      var id := Resolve(c, before);
      if id.None? {
        assert linked + [] == linked;
        return [];
      }
      one := [RunCase(run, id.value, c.status)];
      RowsAfterOneMore(p, before, linked, one[0]);
      CacheKeepsAgreeing(p, rows, RowsAfter(p, before, linked + one), seen, keyToId);
      if p.syncStatus {
        rows := WithStatus(rows, id.value, c.status);
      }
    }

    /** The cases of one run, linked one by one while the statuses of linked tests are set. */
    method LinkCases(cases: seq<CaseResult>, run: nat) returns (linked: seq<RunCase>)
      requires CacheAgrees(p, rows, seen, keyToId)
      modifies this`rows, this`keyToId
      ensures linked == LinkedCases(p, old(rows), titleToId, seen, run, cases)
      ensures rows == RowsAfter(p, old(rows), linked)
      ensures CacheAgrees(p, rows, seen, keyToId)
    {
      linked := [];
      assert cases[0..] == cases;
      for i := 0 to |cases|
        invariant CacheAgrees(p, rows, seen, keyToId)
        invariant rows == RowsAfter(p, old(rows), linked)
        invariant linked + LinkedCases(p, old(rows), titleToId, seen, run, cases[i..])
               == LinkedCases(p, old(rows), titleToId, seen, run, cases)
      {
        LinkedNext(p, old(rows), titleToId, seen, run, cases, i);
        var one := LinkCase(cases[i], run, old(rows), linked);
        ConcatIsAssociative(linked, one, LinkedCases(p, old(rows), titleToId, seen, run, cases[i + 1..]));
        linked := linked + one;
      }
    }

    /** Runs that are not there yet, each with its linked cases. */
    method AddRuns(start: Runs, data: seq<RunData>) returns (u: Runs)
      requires CacheAgrees(p, rows, seen, keyToId) && rows == start.rows
      modifies this`rows, this`keyToId
      ensures u == ImportRuns(p, titleToId, seen, start, data)
      ensures rows == u.rows
    {
      u := start;
      assert data[0..] == data;
      for i := 0 to |data|
        invariant CacheAgrees(p, rows, seen, keyToId) && rows == u.rows
        invariant ImportRuns(p, titleToId, seen, u, data[i..]) == ImportRuns(p, titleToId, seen, start, data)
      {
        TakeOneMore(data, i);
        u := AddRun(u, data[i]);
      }
    }

    method AddRun(u: Runs, d: RunData) returns (v: Runs)
      requires CacheAgrees(p, rows, seen, keyToId) && rows == u.rows
      modifies this`rows, this`keyToId
      ensures CacheAgrees(p, rows, seen, keyToId) && rows == v.rows
      ensures v == ImportRun(p, titleToId, seen, u, d)
    {
      if d.sourceId != "" && HasRun(u.runs, d.sourceId) {
        return u.(skipped := u.skipped + 1);
      }
      var linked := LinkCases(d.cases, u.nextRun);
      v := Runs(rows, u.runs + [NewRun(u.nextRun, d)], u.cases + linked, u.nextRun + 1, u.added + 1, u.skipped);
    }

    method AddDefects(start: Defects, data: seq<DefectData>) returns (u: Defects)
      ensures u == ImportDefects(p, titleToId, start, data)
    {
      u := start;
      assert data[0..] == data;
      for i := 0 to |data|
        invariant ImportDefects(p, titleToId, u, data[i..]) == ImportDefects(p, titleToId, start, data)
      {
        TakeOneMore(data, i);
        var d := data[i];
        if d.sourceId != "" && HasDefect(u.defects, p.provider, d.sourceId) {
          u := u.(skipped := u.skipped + 1);
        } else {
          u := Defects(u.defects + [NewDefect(p, titleToId, u.nextDefect, d)], u.nextDefect + 1, u.added + 1, u.skipped);
        }
      }
    }

    /** The session and its folder cache hold what the test loop has done so far. */
    ghost predicate InStep(folderCache: FolderImport, s: Tests)
      reads this, folderCache
    {
      folderCache.Valid() && Holds(s) && folderCache.folders == s.folders && folderCache.next == s.nextFolder
    }

    /** Each test in its folder; `ok` is false when a folder path is not canonical. */
    method AddTests(folderCache: FolderImport, tests: seq<TestData>, names: seq<string>, ghost start: Tests)
        returns (ok: bool, added: nat, skipped: nat)
      requires |names| == |tests| && InStep(folderCache, start) && start.tests == start.skipped == 0
      modifies this, folderCache
      ensures ok <==> PathsAreCanonical(tests)
      ensures ok ==> InStep(folderCache, ImportTests(p, start, tests, names)) && seen == keyToId
      ensures ok ==> added == ImportTests(p, start, tests, names).tests
      ensures ok ==> skipped == ImportTests(p, start, tests, names).skipped
    {
      added, skipped := 0, 0;
      ghost var s := start;
      assert tests[0..] == tests && names[0..] == names;
      for i := 0 to |tests|
        invariant InStep(folderCache, s) && added == s.tests && skipped == s.skipped
        invariant ImportTests(p, s, tests[i..], names[i..]) == ImportTests(p, start, tests, names)
        invariant PathsAreCanonical(tests[i..]) <==> PathsAreCanonical(tests)
      {
        TakeOneMore(tests, i);
        TakeOneMore(names, i);
        var counted;
        ok, counted := AddTest(folderCache, tests[i], names[i], s);
        if !ok {
          return;
        }
        s := ImportTest(p, s, tests[i], names[i]);
        added, skipped := if counted then added + 1 else added, if counted then skipped else skipped + 1;
      }
      seen := keyToId;
      ok := true;
    }

    method AddTest(folderCache: FolderImport, t: TestData, name: string, ghost s: Tests) returns (ok: bool, counted: bool)
      requires InStep(folderCache, s)
      modifies this, folderCache
      ensures ok <==> (t.folderPath != "" ==> IsCanonical(t.folderPath))
      ensures ok ==> InStep(folderCache, ImportTest(p, s, t, name))
      ensures ok ==> ImportTest(p, s, t, name).tests == s.tests + (if counted then 1 else 0)
      ensures ok ==> ImportTest(p, s, t, name).skipped == s.skipped + (if counted then 0 else 1)
    {
      var folderId;
      ok, folderId := ResolveFolder(folderCache, t, s);
      if !ok {
        return false, false;
      }
      counted := PlaceTest(t, folderId, name, InFolder(s, t));
    }

    method ResolveFolder(folderCache: FolderImport, t: TestData, ghost s: Tests) returns (ok: bool, id: Option<Id>)
      requires InStep(folderCache, s)
      modifies folderCache
      ensures ok <==> (t.folderPath != "" ==> IsCanonical(t.folderPath))
      ensures ok ==> InStep(folderCache, InFolder(s, t)) && id == FolderOf(s, t).1
    {
      FillingAppends(s.folders, s.nextFolder, None, Parts(t.folderPath));
      if t.folderPath == "" {
        return true, None;
      }
      var r := folderCache.GetOrCreate(t.folderPath);
      ok, id := r.Resolved?, if r.Resolved? then Some(r.id) else None;
    }
  }

  class Database {
    var store: Store

    constructor (store: Store)
      ensures this.store == store
    {
      this.store := store;
    }

    /** The whole import, committed at its end; an import with a folder path that is not canonical fails and
        commits nothing. */
    method PersistImportResult(p: Import, r: Result, names: seq<string>) returns (stats: Option<Stats>)
      requires |names| == |r.tests|
      modifies this
      ensures stats.Some? <==> PathsAreCanonical(r.tests)
      ensures stats.None? ==> store == old(store)
      ensures stats.Some? ==> store == Imported(p, old(store), r, names) && stats.value == Counted(p, old(store), r, names)
    {
      var folderCache := new FolderImport(store.folders, store.nextFolder);
      var session := new ImportSession(p, store.rows);
      var ok, tests, skipped := session.AddTests(folderCache, r.tests, names, TestsStart(store));
      if !ok {
        return None;
      }
      FoldersGrow(p, TestsStart(store), r.tests, names);
      var runs := session.AddRuns(Runs(session.rows, store.runs, store.cases, store.nextRun, 0, 0), r.runs);
      var defects := session.AddDefects(DefectsStart(store), r.defects);
      stats := Some(Stats(|folderCache.folders| - |store.folders|, tests, runs.added, defects.added,
                          skipped + runs.skipped + defects.skipped));
      store := Store(session.rows, folderCache.folders, folderCache.next, runs.runs, runs.cases, runs.nextRun,
                     defects.defects, defects.nextDefect);
    }
  }
}
