/** Syncing the same files again: exactly when it creates tests, that it settles after two syncs, and when it
    changes nothing. */
module ResyncTheorems {
  import opened Prelude
  import opened Paths
  import opened TestTable
  import opened Folders
  import opened FolderTheorems
  import opened TestYaml
  import opened CaseId
  import opened RepoSync
  import opened RepoSyncTheorems

  predicate Readable(y: Yaml, f: File) {
    Parse(y, f.content).Ok?
  }

  function DataOf(y: Yaml, f: File): Test
    requires Readable(y, f)
  {
    Parse(y, f.content).test
  }

  /** A path names one file. */
  predicate OneFilePerPath(y: Yaml, files: seq<File>) {
    forall f, g | f in files && g in files && Readable(y, f) && Readable(y, g) && f.path == g.path :: f == g
  }

  predicate Alone(y: Yaml, files: seq<File>, f: File) {
    forall g | g in files && Readable(y, g) && g.path == f.path :: g == f
  }

  /** No generated id is the id that some file carries. */
  predicate FreshNames(y: Yaml, files: seq<File>, names: seq<string>) {
    forall f, n | f in files && n in names && Readable(y, f) && HasId(DataOf(y, f)) :: DataOf(y, f).id.value != n
  }

  lemma TheRest(y: Yaml, files: seq<File>, names: seq<string>)
    requires |names| == |files| && files != []
    ensures OneFilePerPath(y, files) ==> OneFilePerPath(y, files[1..])
    ensures FreshNames(y, files, names) ==> FreshNames(y, files[1..], names[1..])
    ensures forall f :: Alone(y, files, f) ==> Alone(y, files[1..], f)
  {
    assert forall f | f in files[1..] :: f in files;
    assert forall n | n in names[1..] :: n in names;
  }

  predicate Found(y: Yaml, url: string, rows: seq<Row>, f: File)
    requires Readable(y, f)
  {
    Find(rows, DataOf(y, f), url, f.path).Some?
  }

  /** Each file finds a row of the table, by its id or by its path. */
  predicate AllFound(y: Yaml, url: string, rows: seq<Row>, files: seq<File>) {
    forall f | f in files && Readable(y, f) :: Found(y, url, rows, f)
  }

  // ------------------------------------------------------ who can take a row away

  /** The row with the id `x` is not one that a file with the data `d` is found at only by its path. */
  predicate Safe(rows: seq<Row>, url: string, x: string, d: Test, path: string) {
    FindIdBounds(rows, x);
    match FindId(rows, x)
    case None => true
    case Some(i) => !LivesAt(rows[i], url, path) || (HasId(d) && FindId(rows, d.id.value).Some?)
  }

  lemma UpdatedIsSafe(rows: seq<Row>, src: Source, x: string, d: Test, f: File, e: Test, folder: Option<Id>, g: File, j: nat)
    requires Safe(rows, src.url, x, d, f.path) && (g.path == f.path ==> e == d)
    requires Find(rows, e, src.url, g.path) == Some(j) && j < |rows|
    ensures Safe(rows[j := Applied(rows[j], e, folder, src, g)], src.url, x, d, f.path)
  {
    var r := Applied(rows[j], e, folder, src, g);
    FindIdBounds(rows, x);
    FindPathBounds(rows, src.url, f.path);
    FindIdAfterUpdate(rows, j, r, x);
    if HasId(d) {
      FindIdBounds(rows, d.id.value);
      FindIdAfterUpdate(rows, j, r, d.id.value);
    }
  }

  lemma AppendedIsSafe(rows: seq<Row>, src: Source, x: string, d: Test, f: File, e: Test, folder: Option<Id>, g: File, name: string)
    requires Safe(rows, src.url, x, d, f.path) && (g.path == f.path ==> e == d) && name != x
    ensures Safe(rows + [Applied(NewRow(if HasId(e) then e.id.value else name), e, folder, src, g)], src.url, x, d, f.path)
  {
    var r := Applied(NewRow(if HasId(e) then e.id.value else name), e, folder, src, g);
    FindIdBounds(rows, x);
    FindIdAfterAppend(rows, r, x);
    if HasId(d) {
      FindIdAfterAppend(rows, r, d.id.value);
    }
  }

  lemma SyncKeepsSafe(src: Source, db: Db, x: string, d: Test, f: File, e: Test, g: File, name: string)
    requires Safe(db.rows, src.url, x, d, f.path) && (g.path == f.path ==> e == d)
    requires Find(db.rows, e, src.url, g.path).Some? || name != x
    ensures Safe(SyncTest(src, db, e, g, name).rows, src.url, x, d, f.path)
  {
    var place := Resolved(db.folders, db.nextFolder, [], Parts(e.folderPath)).1;
    FindBounds(db.rows, e, src.url, g.path);
    match Find(db.rows, e, src.url, g.path)
    case Some(j) => UpdatedIsSafe(db.rows, src, x, d, f, e, Top(place), g, j);
    case None => AppendedIsSafe(db.rows, src, x, d, f, e, Top(place), g, name);
  }

  /** A file that has just been synced has its row at its own path, so its id takes nothing from others. */
  lemma SyncMakesSafe(src: Source, db: Db, d: Test, f: File, e: Test, g: File, name: string)
    requires HasId(e) && (g.path == f.path ==> e == d)
    ensures Safe(SyncTest(src, db, e, g, name).rows, src.url, e.id.value, d, f.path)
  {
    FileSettles(src, db, e, g, name);
    FindBounds(db.rows, e, src.url, g.path);
    var rows := SyncTest(src, db, e, g, name).rows;
    FindIdBounds(rows, e.id.value);
  }

  /** A file that is found stays found while another is synced whose id takes nothing from it, and at the same
      row if the other one is found too. */
  lemma FoundStays(src: Source, db: Db, d: Test, f: File, e: Test, g: File, name: string)
    requires Find(db.rows, d, src.url, f.path).Some? && (g.path == f.path ==> e == d)
    requires HasId(e) ==> Safe(db.rows, src.url, e.id.value, d, f.path)
    ensures var rows := SyncTest(src, db, e, g, name).rows;
            && Find(rows, d, src.url, f.path).Some?
            && (Find(db.rows, e, src.url, g.path).Some? ==>
                  Find(rows, d, src.url, f.path) == Find(db.rows, d, src.url, f.path))
  {
    var place := Resolved(db.folders, db.nextFolder, [], Parts(e.folderPath)).1;
    FindBounds(db.rows, e, src.url, g.path);
    FindPathBounds(db.rows, src.url, f.path);
    FindPathBounds(db.rows, src.url, g.path);
    match Find(db.rows, e, src.url, g.path)
    case Some(j) =>
      var r := Applied(db.rows[j], e, Top(place), src, g);
      if HasId(d) {
        FindIdAfterUpdate(db.rows, j, r, d.id.value);
      }
      FindPathAfterUpdate(db.rows, j, r, src.url, f.path);
    case None =>
      var r := Applied(NewRow(if HasId(e) then e.id.value else name), e, Top(place), src, g);
      if HasId(d) {
        FindIdAfterAppend(db.rows, r, d.id.value);
      }
      FindPathAfterAppend(db.rows, r, src.url, f.path);
  }

  lemma {:induction false} NoPathAfterUpdate(rows: seq<Row>, j: nat, r: Row, url: string, path: string)
    requires j < |rows| && FindPath(rows, url, path).None? && !LivesAt(r, url, path)
    ensures FindPath(rows[j := r], url, path).None?
  {
    if j > 0 {
      assert rows[j := r][1..] == rows[1..][j - 1 := r];
      NoPathAfterUpdate(rows[1..], j - 1, r, url, path);
    } else {
      assert rows[j := r][1..] == rows[1..];
    }
  }

  /** A file that is not found stays so while another is only updated. */
  lemma NotFoundStays(src: Source, db: Db, d: Test, f: File, e: Test, g: File, name: string)
    requires Find(db.rows, d, src.url, f.path).None? && Find(db.rows, e, src.url, g.path).Some? && g.path != f.path
    ensures Find(SyncTest(src, db, e, g, name).rows, d, src.url, f.path).None?
  {
    var place := Resolved(db.folders, db.nextFolder, [], Parts(e.folderPath)).1;
    FindBounds(db.rows, e, src.url, g.path);
    var j := Find(db.rows, e, src.url, g.path).value;
    var r := Applied(db.rows[j], e, Top(place), src, g);
    if HasId(d) {
      FindIdAfterUpdate(db.rows, j, r, d.id.value);
    }
    NoPathAfterUpdate(db.rows, j, r, src.url, f.path);
  }

  // --------------------------------------------------------- over a whole sync

  /** No id that the files carry takes the row of `f` away. */
  predicate SafeFrom(y: Yaml, url: string, rows: seq<Row>, files: seq<File>, f: File)
    requires Readable(y, f)
  {
    forall g | g in files && Readable(y, g) && HasId(DataOf(y, g)) :: Safe(rows, url, DataOf(y, g).id.value, DataOf(y, f), f.path)
  }

  predicate AllSafe(y: Yaml, url: string, rows: seq<Row>, files: seq<File>) {
    forall f | f in files && Readable(y, f) :: SafeFrom(y, url, rows, files, f)
  }

  lemma OneKeepsSafe(y: Yaml, src: Source, db: Db, f: File, g: File, name: string, x: string)
    requires Readable(y, f) && Safe(db.rows, src.url, x, DataOf(y, f), f.path)
    requires Readable(y, g) && g.path == f.path ==> g == f
    requires name != x || (Readable(y, g) && Found(y, src.url, db.rows, g))
    ensures Safe(SyncOne(y, src, db, g, name).rows, src.url, x, DataOf(y, f), f.path)
  {
    if Readable(y, g) {
      SyncKeepsSafe(src, db, x, DataOf(y, f), f, DataOf(y, g), g, name);
    }
  }

  lemma {:induction false} AllKeepSafe(y: Yaml, src: Source, db: Db, files: seq<File>, names: seq<string>, f: File, x: string)
    requires |names| == |files| && Readable(y, f) && Safe(db.rows, src.url, x, DataOf(y, f), f.path)
    requires Alone(y, files, f)
    requires x !in names
    ensures Safe(SyncAll(y, src, db, files, names).rows, src.url, x, DataOf(y, f), f.path)
    decreases |files|
  {
    if files != [] {
      assert files[0] in files && names[0] in names;
      OneKeepsSafe(y, src, db, f, files[0], names[0], x);
      TheRest(y, files, names);
      AllKeepSafe(y, src, SyncOne(y, src, db, files[0], names[0]), files[1..], names[1..], f, x);
    }
  }

  lemma {:induction false} SyncAllMakesSafe(y: Yaml, src: Source, db: Db, files: seq<File>, names: seq<string>, f: File, g: File)
    requires |names| == |files| && Readable(y, f) && g in files && Readable(y, g) && HasId(DataOf(y, g))
    requires Alone(y, files, f)
    requires DataOf(y, g).id.value !in names
    ensures Safe(SyncAll(y, src, db, files, names).rows, src.url, DataOf(y, g).id.value, DataOf(y, f), f.path)
    decreases |files|
  {
    var next := SyncOne(y, src, db, files[0], names[0]);
    if files[0] == g {
      SyncMakesSafe(src, db, DataOf(y, f), f, DataOf(y, g), g, names[0]);
      AllKeepSafe(y, src, next, files[1..], names[1..], f, DataOf(y, g).id.value);
    } else {
      SyncAllMakesSafe(y, src, next, files[1..], names[1..], f, g);
    }
  }

  /** After any sync of the files, no id among them takes the row of another. */
  lemma SyncMakesAllSafe(y: Yaml, src: Source, db: Db, files: seq<File>, names: seq<string>)
    requires |names| == |files| && OneFilePerPath(y, files) && FreshNames(y, files, names)
    ensures AllSafe(y, src.url, SyncAll(y, src, db, files, names).rows, files)
  {
    var rows := SyncAll(y, src, db, files, names).rows;
    forall f, g | f in files && Readable(y, f) && g in files && Readable(y, g) && HasId(DataOf(y, g))
      ensures Safe(rows, src.url, DataOf(y, g).id.value, DataOf(y, f), f.path)
    {
      SyncAllMakesSafe(y, src, db, files, names, f, g);
    }
  }

  lemma OneKeepsFound(y: Yaml, src: Source, db: Db, f: File, g: File, name: string, files: seq<File>)
    requires Readable(y, f) && Found(y, src.url, db.rows, f) && SafeFrom(y, src.url, db.rows, files, f)
    requires g in files && (Readable(y, g) && g.path == f.path ==> g == f)
    ensures Found(y, src.url, SyncOne(y, src, db, g, name).rows, f)
  {
    if Readable(y, g) {
      FoundStays(src, db, DataOf(y, f), f, DataOf(y, g), g, name);
    }
  }

  lemma OneKeepsAllFound(y: Yaml, src: Source, db: Db, files: seq<File>, name: string)
    requires files != [] && OneFilePerPath(y, files)
    requires AllSafe(y, src.url, db.rows, files) && AllFound(y, src.url, db.rows, files)
    ensures var next := SyncOne(y, src, db, files[0], name);
            AllSafe(y, src.url, next.rows, files[1..]) && AllFound(y, src.url, next.rows, files[1..])
  {
    var next, g := SyncOne(y, src, db, files[0], name), files[0];
    assert g in files;
    forall f | f in files[1..] && Readable(y, f)
      ensures Found(y, src.url, next.rows, f) && SafeFrom(y, src.url, next.rows, files[1..], f)
    {
      assert f in files;
      OneKeepsFound(y, src, db, f, g, name, files);
      forall h | h in files[1..] && Readable(y, h) && HasId(DataOf(y, h))
        ensures Safe(next.rows, src.url, DataOf(y, h).id.value, DataOf(y, f), f.path)
      {
        assert h in files;
        if Readable(y, g) {
          OneKeepsSafe(y, src, db, f, g, name, DataOf(y, h).id.value);
        }
      }
    }
  }

  lemma {:induction false} FoundFilesMakeNothing(y: Yaml, src: Source, db: Db, files: seq<File>, names: seq<string>, stats: Stats)
    requires |names| == |files| && OneFilePerPath(y, files)
    requires AllSafe(y, src.url, db.rows, files) && AllFound(y, src.url, db.rows, files)
    ensures CountAll(y, src, db, files, names, stats).created == stats.created
    decreases |files|
  {
    if files != [] {
      assert files[0] in files;
      OneKeepsAllFound(y, src, db, files, names[0]);
      TheRest(y, files, names);
      FoundFilesMakeNothing(y, src, SyncOne(y, src, db, files[0], names[0]), files[1..], names[1..],
                            CountOne(y, src, db, files[0], stats));
    }
  }

  lemma CreatedOnlyGrows(y: Yaml, src: Source, db: Db, files: seq<File>, names: seq<string>, stats: Stats)
    requires |names| == |files|
    ensures CountAll(y, src, db, files, names, stats).created >= stats.created
  {
    EveryFileIsCounted(y, src, db, files, names, stats);
    StatusIsLeftAlone(y, src, db, files, names);
  }

  lemma {:induction false} UnfoundFileMakesOne(y: Yaml, src: Source, db: Db, files: seq<File>, names: seq<string>, stats: Stats, f: File)
    requires |names| == |files| && OneFilePerPath(y, files)
    requires f in files && Readable(y, f) && !Found(y, src.url, db.rows, f)
    ensures CountAll(y, src, db, files, names, stats).created > stats.created
    decreases |files|
  {
    var g := files[0];
    assert g in files;
    var next, counted := SyncOne(y, src, db, g, names[0]), CountOne(y, src, db, g, stats);
    if Readable(y, g) && !Found(y, src.url, db.rows, g) {
      CreatedOnlyGrows(y, src, next, files[1..], names[1..], counted);
    } else {
      if Readable(y, g) {
        NotFoundStays(src, db, DataOf(y, f), f, DataOf(y, g), g, names[0]);
      }
      TheRest(y, files, names);
      UnfoundFileMakesOne(y, src, next, files[1..], names[1..], counted, f);
    }
  }

  /** The second sync of the same files creates nothing exactly if, after the first, each of them is found: by
      its id, or at its path. */
  lemma NothingIsCreatedAgainIff(y: Yaml, src: Source, again: Source, db: Db, files: seq<File>, names: seq<string>, later: seq<string>)
    requires |names| == |later| == |files| && again.url == src.url
    requires OneFilePerPath(y, files) && FreshNames(y, files, names)
    ensures var once := SyncAll(y, src, db, files, names);
            CountAll(y, again, once, files, later, NO_STATS).created == 0 <==> AllFound(y, src.url, once.rows, files)
  {
    var once := SyncAll(y, src, db, files, names);
    SyncMakesAllSafe(y, src, db, files, names);
    if AllFound(y, src.url, once.rows, files) {
      FoundFilesMakeNothing(y, again, once, files, later, NO_STATS);
    } else {
      var f :| f in files && Readable(y, f) && !Found(y, src.url, once.rows, f);
      UnfoundFileMakesOne(y, again, once, files, later, NO_STATS, f);
    }
  }

  lemma {:induction false} AllKeepFound(y: Yaml, src: Source, db: Db, files: seq<File>, names: seq<string>, f: File)
    requires |names| == |files| && Readable(y, f) && Found(y, src.url, db.rows, f)
    requires SafeFrom(y, src.url, db.rows, files, f) && FreshNames(y, files, names)
    requires Alone(y, files, f)
    ensures Found(y, src.url, SyncAll(y, src, db, files, names).rows, f)
    decreases |files|
  {
    if files != [] {
      assert files[0] in files && names[0] in names;
      OneKeepsFound(y, src, db, f, files[0], names[0], files);
      OneKeepsSafeFrom(y, src, db, files, names, f);
      TheRest(y, files, names);
      AllKeepFound(y, src, SyncOne(y, src, db, files[0], names[0]), files[1..], names[1..], f);
    }
  }

  lemma OneKeepsSafeFrom(y: Yaml, src: Source, db: Db, files: seq<File>, names: seq<string>, f: File)
    requires |names| == |files| && files != [] && Readable(y, f)
    requires SafeFrom(y, src.url, db.rows, files, f) && FreshNames(y, files, names)
    requires Alone(y, files, f)
    ensures SafeFrom(y, src.url, SyncOne(y, src, db, files[0], names[0]).rows, files[1..], f)
  {
    var rows := SyncOne(y, src, db, files[0], names[0]).rows;
    assert files[0] in files && names[0] in names;
    forall h | h in files[1..] && Readable(y, h) && HasId(DataOf(y, h))
      ensures Safe(rows, src.url, DataOf(y, h).id.value, DataOf(y, f), f.path)
    {
      assert h in files;
      OneKeepsSafe(y, src, db, f, files[0], names[0], DataOf(y, h).id.value);
    }
  }

  lemma SyncedIsFound(y: Yaml, src: Source, db: Db, f: File, name: string)
    requires Readable(y, f)
    ensures Found(y, src.url, SyncOne(y, src, db, f, name).rows, f)
  {
    FileSettles(src, db, DataOf(y, f), f, name);
  }

  lemma {:induction false} SyncFinds(y: Yaml, src: Source, db: Db, files: seq<File>, names: seq<string>, f: File)
    requires |names| == |files| && f in files && Readable(y, f)
    requires SafeFrom(y, src.url, db.rows, files, f) && FreshNames(y, files, names)
    requires Alone(y, files, f)
    ensures Found(y, src.url, SyncAll(y, src, db, files, names).rows, f)
    decreases |files|
  {
    var next := SyncOne(y, src, db, files[0], names[0]);
    TheRest(y, files, names);
    OneKeepsSafeFrom(y, src, db, files, names, f);
    if files[0] == f {
      SyncedIsFound(y, src, db, f, names[0]);
      AllKeepFound(y, src, next, files[1..], names[1..], f);
    } else {
      SyncFinds(y, src, next, files[1..], names[1..], f);
    }
  }

  /** Whatever the first sync and the second one create, the third creates nothing. */
  lemma ThirdSyncCreatesNothing(y: Yaml, src: Source, db: Db, files: seq<File>, names: seq<string>,
                                second: Source, later: seq<string>, third: Source, last: seq<string>)
    requires |names| == |later| == |last| == |files| && second.url == third.url == src.url
    requires OneFilePerPath(y, files) && FreshNames(y, files, names) && FreshNames(y, files, later)
    ensures var twice := SyncAll(y, second, SyncAll(y, src, db, files, names), files, later);
            CountAll(y, third, twice, files, last, NO_STATS).created == 0
  {
    var once := SyncAll(y, src, db, files, names);
    var twice := SyncAll(y, second, once, files, later);
    SyncMakesAllSafe(y, src, db, files, names);
    SyncMakesAllSafe(y, second, once, files, later);
    forall f | f in files && Readable(y, f) ensures Found(y, src.url, twice.rows, f) {
      SyncFinds(y, second, once, files, later, f);
    }
    FoundFilesMakeNothing(y, third, twice, files, last, NO_STATS);
  }

  // ------------------------------------------------------ what files leave in their rows

  /** The row without the commit and the times. */
  function Unstamped(r: Row): Row {
    r.(sourceRef := "", updatedAt := 0, syncedAt := 0)
  }

  predicate SameRows(a: seq<Row>, b: seq<Row>) {
    |a| == |b| && forall i | 0 <= i < |a| :: Unstamped(a[i]) == Unstamped(b[i])
  }

  /** The same tables, but for the commit and the times of rows. */
  predicate SameDb(a: Db, b: Db) {
    SameRows(a.rows, b.rows) && a.folders == b.folders && a.nextFolder == b.nextFolder
  }

  /** Another sync of the same repository. */
  predicate SameSource(src: Source, again: Source) {
    src.url == again.url && src.provider == again.provider
  }

  /** The row a file hits; a skipped file has no row, and 0 stands for it. */
  function HitOf(y: Yaml, src: Source, db: Db, f: File): nat {
    match Parse(y, f.content)
    case ValueError => 0
    case Ok(d) => Hit(db.rows, d, src.url, f.path)
  }

  function Hits(y: Yaml, src: Source, db: Db, files: seq<File>, names: seq<string>): (r: seq<nat>)
    requires |names| == |files|
    ensures |r| == |files|
    decreases |files|
  {
    if files == [] then []
    else [HitOf(y, src, db, files[0])] + Hits(y, src, SyncOne(y, src, db, files[0], names[0]), files[1..], names[1..])
  }

  /** What one file, or several one after the other, leave in a row: the fields of the last, the last owner
      and the last id linked, if any. */
  datatype Put = Put(test: Test, folder: Option<Id>, file: File, owner: string, link: Option<string>)

  datatype Write = Write(row: nat, put: Put)

  function PutOf(src: Source, d: Test, folder: Option<Id>, f: File): Put {
    Put(d, folder, f, d.owner, if src.provider.Some? && HasId(d) then d.id else None)
  }

  /** The row with a put, without the commit and the times. */
  function With(r: Row, src: Source, p: Put): Row {
    r.(title := p.test.title, kind := p.test.kind, priority := p.test.priority,
       owner := if p.owner != "" then p.owner else r.owner,
       tags := p.test.tags, auto := p.test.kind == "automated", runner := p.test.runner, folder := p.folder,
       repoUrl := Some(src.url), sourcePath := Some(p.file.path), body := Some(p.file.content),
       provider := if p.link.Some? then src.provider else r.provider,
       key := if p.link.Some? then Some(ExternalKey(p.link.value)) else r.key,
       sourceRef := "", updatedAt := 0, syncedAt := 0)
  }

  function Both(p: Put, q: Put): Put {
    q.(owner := if q.owner != "" then q.owner else p.owner, link := if q.link.Some? then q.link else p.link)
  }

  lemma AppliedIsWith(r: Row, src: Source, d: Test, folder: Option<Id>, f: File)
    ensures Unstamped(Applied(r, d, folder, src, f)) == With(r, src, PutOf(src, d, folder, f))
  {
  }

  lemma WithBoth(r: Row, s: Row, src: Source, p: Put, q: Put)
    requires Unstamped(s) == With(r, src, p)
    ensures With(s, src, q) == With(r, src, Both(p, q))
  {
  }

  /** A row that one more put has been written to absorbs it, and all that it absorbed before. */
  lemma AbsorbsOneMore(r: Row, s: Row, src: Source, p: Put, q: Put)
    requires With(r, src, p) == Unstamped(r) && Unstamped(s) == With(r, src, q)
    ensures With(s, src, Both(p, q)) == Unstamped(s)
  {
  }

  function WriteOf(y: Yaml, src: Source, db: Db, f: File): Option<Write> {
    match Parse(y, f.content)
    case ValueError => None
    case Ok(d) =>
      Some(Write(Hit(db.rows, d, src.url, f.path),
                 PutOf(src, d, Top(Resolved(db.folders, db.nextFolder, [], Parts(d.folderPath)).1), f)))
  }

  function Writes(y: Yaml, src: Source, db: Db, files: seq<File>, names: seq<string>): (r: seq<Option<Write>>)
    requires |names| == |files|
    ensures |r| == |files|
    decreases |files|
  {
    if files == [] then []
    else [WriteOf(y, src, db, files[0])] + Writes(y, src, SyncOne(y, src, db, files[0], names[0]), files[1..], names[1..])
  }

  function Noted(acc: map<nat, Put>, w: Option<Write>): map<nat, Put> {
    match w
    case None => acc
    case Some(Write(i, p)) => acc[i := if i in acc then Both(acc[i], p) else p]
  }

  /** What all writes together leave in each row. */
  function AllNoted(acc: map<nat, Put>, ws: seq<Option<Write>>): map<nat, Put>
    decreases |ws|
  {
    if ws == [] then acc else AllNoted(Noted(acc, ws[0]), ws[1..])
  }

  predicate Absorbs(rows: seq<Row>, src: Source, acc: map<nat, Put>) {
    forall i <- acc :: i < |rows| && With(rows[i], src, acc[i]) == Unstamped(rows[i])
  }

  lemma WithTwice(r: Row, s: Row, src: Source, p: Put)
    requires Unstamped(s) == With(r, src, p)
    ensures With(s, src, p) == Unstamped(s)
  {
  }

  lemma WriteIsAbsorbed(rows: seq<Row>, after: seq<Row>, src: Source, acc: map<nat, Put>, i: nat, r: Row, p: Put)
    requires Absorbs(rows, src, acc) && |rows| <= |after| && i < |after|
    requires forall j | 0 <= j < |rows| && j != i :: after[j] == rows[j]
    requires (i < |rows| ==> r == rows[i]) && Unstamped(after[i]) == With(r, src, p)
    ensures Absorbs(after, src, Noted(acc, Some(Write(i, p))))
  {
    WithTwice(r, after[i], src, p);
    if i in acc {
      AbsorbsOneMore(r, after[i], src, acc[i], p);
    }
  }

  lemma UpsertIsAbsorbed(rows: seq<Row>, d: Test, folder: Option<Id>, src: Source, f: File, name: string, acc: map<nat, Put>)
    requires Absorbs(rows, src, acc)
    ensures Absorbs(Upserted(rows, d, folder, src, f, name), src,
                    Noted(acc, Some(Write(Hit(rows, d, src.url, f.path), PutOf(src, d, folder, f)))))
  {
    var i := Hit(rows, d, src.url, f.path);
    FindBounds(rows, d, src.url, f.path);
    var r := if i < |rows| then rows[i] else NewRow(if HasId(d) then d.id.value else name);
    AppliedIsWith(r, src, d, folder, f);
    WriteIsAbsorbed(rows, Upserted(rows, d, folder, src, f, name), src, acc, i, r, PutOf(src, d, folder, f));
  }

  lemma OneIsAbsorbed(y: Yaml, src: Source, db: Db, f: File, name: string, acc: map<nat, Put>)
    requires Absorbs(db.rows, src, acc)
    ensures Absorbs(SyncOne(y, src, db, f, name).rows, src, Noted(acc, WriteOf(y, src, db, f)))
  {
    match Parse(y, f.content)
    case ValueError =>
    case Ok(d) =>
      UpsertIsAbsorbed(db.rows, d, Top(Resolved(db.folders, db.nextFolder, [], Parts(d.folderPath)).1), src, f, name, acc);
  }

  lemma {:induction false} SyncIsAbsorbed(y: Yaml, src: Source, db: Db, files: seq<File>, names: seq<string>, acc: map<nat, Put>)
    requires |names| == |files| && Absorbs(db.rows, src, acc)
    ensures Absorbs(SyncAll(y, src, db, files, names).rows, src, AllNoted(acc, Writes(y, src, db, files, names)))
    decreases |files|
  {
    if files != [] {
      OneIsAbsorbed(y, src, db, files[0], names[0], acc);
      SyncIsAbsorbed(y, src, SyncOne(y, src, db, files[0], names[0]), files[1..], names[1..],
                     Noted(acc, WriteOf(y, src, db, files[0])));
    }
  }

  // ------------------------------------------------------------ the same writes again

  /** The file finds the row it wrote, and its folder is there. */
  predicate Stands(y: Yaml, src: Source, db: Db, f: File, w: Option<Write>) {
    match Parse(y, f.content)
    case ValueError => w == None
    case Ok(d) =>
      && w.Some? && Find(db.rows, d, src.url, f.path) == Some(w.value.row)
      && FolderAgrees(db.folders, d, w.value.put.folder)
      && w.value.put == PutOf(src, d, w.value.put.folder, f)
  }

  predicate AllStand(y: Yaml, src: Source, db: Db, files: seq<File>, ws: seq<Option<Write>>)
    requires |ws| == |files|
  {
    forall k | 0 <= k < |files| :: Stands(y, src, db, files[k], ws[k])
  }

  predicate Replayed(once: seq<Row>, now: seq<Row>, src: Source, acc: map<nat, Put>) {
    && |now| == |once|
    && forall i | 0 <= i < |now| :: Unstamped(now[i]) == if i in acc then With(once[i], src, acc[i]) else Unstamped(once[i])
  }

  lemma WriteIsReplayed(once: seq<Row>, now: seq<Row>, src: Source, acc: map<nat, Put>, i: nat, s: Row, p: Put)
    requires Replayed(once, now, src, acc) && i < |now| && Unstamped(s) == With(now[i], src, p)
    ensures Replayed(once, now[i := s], src, Noted(acc, Some(Write(i, p))))
  {
    if i in acc {
      WithBoth(once[i], now[i], src, acc[i], p);
    }
  }

  lemma OneIsReplayed(y: Yaml, again: Source, once: seq<Row>, now: Db, f: File, name: string, w: Option<Write>, acc: map<nat, Put>)
    requires Replayed(once, now.rows, again, acc) && Stands(y, again, now, f, w)
    ensures var next := SyncOne(y, again, now, f, name);
            && Replayed(once, next.rows, again, Noted(acc, w))
            && next.folders == now.folders && next.nextFolder == now.nextFolder
  {
    match Parse(y, f.content)
    case ValueError =>
    case Ok(d) =>
      DescendIsResolved(now.folders, now.nextFolder, [], Parts(d.folderPath));
      FindBounds(now.rows, d, again.url, f.path);
      var i, p := w.value.row, w.value.put;
      AppliedIsWith(now.rows[i], again, d, p.folder, f);
      WriteIsReplayed(once, now.rows, again, acc, i, Applied(now.rows[i], d, p.folder, again, f), p);
  }

  lemma OneKeepsAllStanding(y: Yaml, again: Source, now: Db, files: seq<File>, name: string, ws: seq<Option<Write>>)
    requires |ws| == |files| && files != [] && OneFilePerPath(y, files)
    requires AllSafe(y, again.url, now.rows, files) && AllStand(y, again, now, files, ws)
    ensures var next := SyncOne(y, again, now, files[0], name);
            next.folders == now.folders ==> AllStand(y, again, next, files[1..], ws[1..])
  {
    var next, g := SyncOne(y, again, now, files[0], name), files[0];
    forall k | 0 <= k < |files| - 1 && next.folders == now.folders
      ensures Stands(y, again, next, files[1..][k], ws[1..][k])
    {
      var f := files[k + 1];
      assert Stands(y, again, now, f, ws[k + 1]) && Stands(y, again, now, g, ws[0]);
      assert f in files && g in files;
      if Readable(y, f) && Readable(y, g) {
        FoundStays(again, now, DataOf(y, f), f, DataOf(y, g), g, name);
      }
    }
  }

  lemma {:induction false} SyncIsReplayed(y: Yaml, again: Source, once: seq<Row>, now: Db, files: seq<File>,
                                          names: seq<string>, ws: seq<Option<Write>>, acc: map<nat, Put>)
    requires |names| == |ws| == |files| && OneFilePerPath(y, files) && AllSafe(y, again.url, now.rows, files)
    requires Replayed(once, now.rows, again, acc) && AllStand(y, again, now, files, ws)
    ensures var twice := SyncAll(y, again, now, files, names);
            && Replayed(once, twice.rows, again, AllNoted(acc, ws))
            && twice.folders == now.folders && twice.nextFolder == now.nextFolder
    decreases |files|
  {
    if files != [] {
      OneIsReplayed(y, again, once, now, files[0], names[0], ws[0], acc);
      OneKeepsAllStanding(y, again, now, files, names[0], ws);
      StandingMeansFound(y, again, now, files, ws);
      OneKeepsAllFound(y, again, now, files, names[0]);
      TheRest(y, files, names);
      SyncIsReplayed(y, again, once, SyncOne(y, again, now, files[0], names[0]), files[1..], names[1..], ws[1..],
                     Noted(acc, ws[0]));
    }
  }

  lemma StandingMeansFound(y: Yaml, src: Source, db: Db, files: seq<File>, ws: seq<Option<Write>>)
    requires |ws| == |files| && AllStand(y, src, db, files, ws)
    ensures AllFound(y, src.url, db.rows, files)
  {
    forall f | f in files && Readable(y, f) ensures Found(y, src.url, db.rows, f) {
      var k :| 0 <= k < |files| && files[k] == f;
      assert Stands(y, src, db, files[k], ws[k]);
    }
  }

  /** Each file finds again the row it wrote to. */
  predicate FoundAgain(y: Yaml, url: string, rows: seq<Row>, files: seq<File>, hits: seq<nat>)
    requires |hits| == |files|
  {
    forall k | 0 <= k < |files| && Readable(y, files[k]) :: Find(rows, DataOf(y, files[k]), url, files[k].path) == Some(hits[k])
  }

  lemma {:induction false} FoldersGrow(y: Yaml, src: Source, db: Db, files: seq<File>, names: seq<string>)
    requires |names| == |files|
    ensures db.folders <= SyncAll(y, src, db, files, names).folders
    decreases |files|
  {
    if files != [] {
      FoldersGrow(y, src, SyncOne(y, src, db, files[0], names[0]), files[1..], names[1..]);
      match Parse(y, files[0].content)
      case ValueError =>
      case Ok(d) => ResolvingAppends(db.folders, db.nextFolder, [], Parts(d.folderPath));
    }
  }

  lemma WriteStands(y: Yaml, src: Source, db: Db, f: File, name: string, once: Db)
    requires SyncOne(y, src, db, f, name).folders <= once.folders
    requires Readable(y, f) ==> Find(once.rows, DataOf(y, f), src.url, f.path) == Some(HitOf(y, src, db, f))
    ensures Stands(y, src, once, f, WriteOf(y, src, db, f))
  {
    match Parse(y, f.content)
    case ValueError =>
    case Ok(d) =>
      ResolvedIsThere(db.folders, db.nextFolder, [], Parts(d.folderPath));
      DescendGrowsMore(SyncOne(y, src, db, f, name).folders, once.folders, [], Parts(d.folderPath));
  }

  lemma {:induction false} WritesStand(y: Yaml, src: Source, db: Db, files: seq<File>, names: seq<string>, once: Db)
    requires |names| == |files| && SyncAll(y, src, db, files, names).folders <= once.folders
    requires FoundAgain(y, src.url, once.rows, files, Hits(y, src, db, files, names))
    ensures AllStand(y, src, once, files, Writes(y, src, db, files, names))
    decreases |files|
  {
    if files != [] {
      var next := SyncOne(y, src, db, files[0], names[0]);
      var hits, rest := Hits(y, src, db, files, names), Hits(y, src, next, files[1..], names[1..]);
      assert hits == [HitOf(y, src, db, files[0])] + rest;
      FoldersGrow(y, src, next, files[1..], names[1..]);
      WriteStands(y, src, db, files[0], names[0], once);
      assert FoundAgain(y, src.url, once.rows, files[1..], rest) by {
        forall k | 0 <= k < |files| - 1 ensures files[1..][k] == files[k + 1] && rest[k] == hits[k + 1] {
        }
      }
      WritesStand(y, src, next, files[1..], names[1..], once);
    }
  }

  lemma StandsForAnother(y: Yaml, src: Source, again: Source, db: Db, files: seq<File>, ws: seq<Option<Write>>)
    requires |ws| == |files| && SameSource(src, again) && AllStand(y, src, db, files, ws)
    ensures AllStand(y, again, db, files, ws)
  {
    forall k | 0 <= k < |files| ensures Stands(y, again, db, files[k], ws[k]) {
      assert Stands(y, src, db, files[k], ws[k]);
    }
  }

  /** When, after the first sync, each file finds again the row it was written to, the second sync creates
      nothing and changes nothing but the commit and the times. Several files may share a row. */
  lemma SyncingAgainChangesNothing(y: Yaml, src: Source, again: Source, db: Db, files: seq<File>,
                                   names: seq<string>, later: seq<string>)
    requires |names| == |later| == |files| && SameSource(src, again)
    requires OneFilePerPath(y, files) && FreshNames(y, files, names)
    requires FoundAgain(y, src.url, SyncAll(y, src, db, files, names).rows, files, Hits(y, src, db, files, names))
    ensures var once := SyncAll(y, src, db, files, names);
            && SameDb(once, SyncAll(y, again, once, files, later))
            && CountAll(y, again, once, files, later, NO_STATS).created == 0
  {
    var once, ws := SyncAll(y, src, db, files, names), Writes(y, src, db, files, names);
    WritesStand(y, src, db, files, names, once);
    StandingMeansFound(y, src, once, files, ws);
    NothingIsCreatedAgainIff(y, src, again, db, files, names, later);
    SyncMakesAllSafe(y, src, db, files, names);
    StandsForAnother(y, src, again, once, files, ws);
    SyncIsReplayed(y, again, once.rows, once, files, later, ws, map[]);
    SyncIsAbsorbed(y, src, db, files, names, map[]);
    ReplayOfAbsorbed(once.rows, SyncAll(y, again, once, files, later).rows, src, again, AllNoted(map[], ws));
  }

  lemma ReplayOfAbsorbed(once: seq<Row>, now: seq<Row>, src: Source, again: Source, acc: map<nat, Put>)
    requires SameSource(src, again) && Absorbs(once, src, acc) && Replayed(once, now, again, acc)
    ensures SameRows(once, now)
  {
  }

  // ------------------------------------------------------ exactly when nothing changes

  /** Each file with the row it finds, or would add, in this very table. */
  function WritesInto(y: Yaml, src: Source, db: Db, files: seq<File>): (r: seq<Option<Write>>)
    ensures |r| == |files|
    decreases |files|
  {
    if files == [] then [] else [WriteOf(y, src, db, files[0])] + WritesInto(y, src, db, files[1..])
  }

  lemma {:induction false} WriteIntoAt(y: Yaml, src: Source, db: Db, files: seq<File>, k: nat)
    requires k < |files|
    ensures WritesInto(y, src, db, files)[k] == WriteOf(y, src, db, files[k])
  {
    if k > 0 {
      WriteIntoAt(y, src, db, files[1..], k - 1);
    }
  }

  predicate FolderIsThere(y: Yaml, t: Table, f: File) {
    Readable(y, f) ==> Descend(t, [], Parts(DataOf(y, f).folderPath)).Some?
  }

  lemma {:induction false} FoldersAreThere(y: Yaml, src: Source, db: Db, files: seq<File>, names: seq<string>, f: File)
    requires |names| == |files| && f in files
    ensures FolderIsThere(y, SyncAll(y, src, db, files, names).folders, f)
    decreases |files|
  {
    var next := SyncOne(y, src, db, files[0], names[0]);
    if files[0] == f {
      FoldersGrow(y, src, next, files[1..], names[1..]);
      if Readable(y, f) {
        var parts := Parts(DataOf(y, f).folderPath);
        ResolvedIsThere(db.folders, db.nextFolder, [], parts);
        DescendGrowsMore(next.folders, SyncAll(y, src, db, files, names).folders, [], parts);
      }
    } else {
      FoldersAreThere(y, src, next, files[1..], names[1..], f);
    }
  }

  lemma FoundFilesStand(y: Yaml, src: Source, db: Db, files: seq<File>)
    requires AllFound(y, src.url, db.rows, files) && forall f <- files :: FolderIsThere(y, db.folders, f)
    ensures AllStand(y, src, db, files, WritesInto(y, src, db, files))
  {
    forall k | 0 <= k < |files| ensures Stands(y, src, db, files[k], WritesInto(y, src, db, files)[k]) {
      WriteIntoAt(y, src, db, files, k);
      var f := files[k];
      assert f in files && FolderIsThere(y, db.folders, f);
      if Readable(y, f) {
        DescendIsResolved(db.folders, db.nextFolder, [], Parts(DataOf(y, f).folderPath));
      }
    }
  }

  predicate RowsOnly(acc: map<nat, Put>, n: nat) {
    forall i <- acc :: i < n
  }

  lemma {:induction false} StandingRowsOnly(y: Yaml, src: Source, db: Db, files: seq<File>, ws: seq<Option<Write>>, acc: map<nat, Put>)
    requires |ws| == |files| && AllStand(y, src, db, files, ws) && RowsOnly(acc, |db.rows|)
    ensures RowsOnly(AllNoted(acc, ws), |db.rows|)
    decreases |files|
  {
    if files != [] {
      assert Stands(y, src, db, files[0], ws[0]);
      if Readable(y, files[0]) {
        FindBounds(db.rows, DataOf(y, files[0]), src.url, files[0].path);
      }
      forall k | 0 <= k < |files| - 1 ensures Stands(y, src, db, files[1..][k], ws[1..][k]) {
        assert Stands(y, src, db, files[k + 1], ws[k + 1]);
      }
      StandingRowsOnly(y, src, db, files[1..], ws[1..], Noted(acc, ws[0]));
    }
  }

  lemma SameIffAbsorbed(once: seq<Row>, now: seq<Row>, src: Source, acc: map<nat, Put>)
    requires Replayed(once, now, src, acc) && RowsOnly(acc, |once|)
    ensures SameRows(once, now) <==> Absorbs(once, src, acc)
  {
    if SameRows(once, now) {
      forall i <- acc ensures With(once[i], src, acc[i]) == Unstamped(once[i]) {
        assert Unstamped(now[i]) == Unstamped(once[i]);
      }
    }
  }

  /** Every row already says what the files that find it say together. */
  predicate RowsAgree(y: Yaml, src: Source, db: Db, files: seq<File>) {
    Absorbs(db.rows, src, AllNoted(map[], WritesInto(y, src, db, files)))
  }

  /** The second sync changes nothing but the commit and the times exactly if, after the first, each file is
      found and every row already says what the files that find it say together. */
  lemma NothingChangesAgainIff(y: Yaml, src: Source, again: Source, db: Db, files: seq<File>, names: seq<string>, later: seq<string>)
    requires |names| == |later| == |files| && again.url == src.url
    requires OneFilePerPath(y, files) && FreshNames(y, files, names)
    ensures var once := SyncAll(y, src, db, files, names);
            SameDb(once, SyncAll(y, again, once, files, later))
            <==> AllFound(y, src.url, once.rows, files) && RowsAgree(y, again, once, files)
  {
    var once := SyncAll(y, src, db, files, names);
    var twice := SyncAll(y, again, once, files, later);
    if AllFound(y, src.url, once.rows, files) {
      var ws := WritesInto(y, again, once, files);
      forall f <- files ensures FolderIsThere(y, once.folders, f) {
        FoldersAreThere(y, src, db, files, names, f);
      }
      FoundFilesStand(y, again, once, files);
      SyncMakesAllSafe(y, src, db, files, names);
      SyncIsReplayed(y, again, once.rows, once, files, later, ws, map[]);
      StandingRowsOnly(y, again, once, files, ws, map[]);
      SameIffAbsorbed(once.rows, twice.rows, again, AllNoted(map[], ws));
    } else {
      NothingIsCreatedAgainIff(y, src, again, db, files, names, later);
      EveryFileIsCounted(y, again, once, files, later, NO_STATS);
      CreatedOnlyGrows(y, again, once, files, later, NO_STATS);
    }
  }

  // ------------------------------------------------------ what a file leaves in its row

  /** The row shows the file. */
  predicate ShowsFile(r: Row, d: Test, src: Source, f: File) {
    && r.title == d.title && r.kind == d.kind && r.priority == d.priority && r.tags == d.tags && r.runner == d.runner
    && (r.auto <==> d.kind == "automated") && (d.owner != "" ==> r.owner == d.owner)
    && r.repoUrl == Some(src.url) && r.sourcePath == Some(f.path) && r.body == Some(f.content)
    && r.sourceRef == src.sha && r.updatedAt == src.now && r.syncedAt == src.now
    && (src.provider.Some? && HasId(d) ==> r.provider == src.provider && r.key == Some(ExternalKey(d.id.value)))
  }

  /** What a file leaves as it was in a row that was there: the id, the status, and without an owner or an id
      of its own the owner or the provider's identity. */
  predicate KeepsOfRow(b: Row, r: Row, d: Test, src: Source) {
    && r.id == b.id && r.status == b.status && (d.owner == "" ==> r.owner == b.owner)
    && (src.provider.None? || !HasId(d) ==> r.provider == b.provider && r.key == b.key)
  }

  lemma UpsertShows(rows: seq<Row>, d: Test, folder: Option<Id>, src: Source, f: File, name: string)
    ensures var after, i := Upserted(rows, d, folder, src, f, name), Hit(rows, d, src.url, f.path);
            && i < |after| && ShowsFile(after[i], d, src, f) && after[i].folder == folder
            && (if i < |rows| then KeepsOfRow(rows[i], after[i], d, src)
                else after[i].id == (if HasId(d) then d.id.value else name) && after[i].status == "pending")
            && forall j | 0 <= j < |rows| && j != i :: after[j] == rows[j]
  {
    FindBounds(rows, d, src.url, f.path);
  }

  predicate NotHitAgain(y: Yaml, files: seq<File>, hits: seq<nat>, i: nat)
    requires |hits| == |files|
    decreases |files|
  {
    files != [] ==> (Readable(y, files[0]) ==> hits[0] != i) && NotHitAgain(y, files[1..], hits[1..], i)
  }

  lemma {:induction false} RowIsLeftAlone(y: Yaml, src: Source, db: Db, files: seq<File>, names: seq<string>, i: nat)
    requires |names| == |files| && i < |db.rows| && NotHitAgain(y, files, Hits(y, src, db, files, names), i)
    ensures var rows := SyncAll(y, src, db, files, names).rows; i < |rows| && rows[i] == db.rows[i]
    decreases |files|
  {
    if files != [] {
      var next := SyncOne(y, src, db, files[0], names[0]);
      assert Hits(y, src, db, files, names)[1..] == Hits(y, src, next, files[1..], names[1..]);
      if Readable(y, files[0]) {
        var d := DataOf(y, files[0]);
        UpsertShows(db.rows, d, Top(Resolved(db.folders, db.nextFolder, [], Parts(d.folderPath)).1), src, files[0], names[0]);
      }
      RowIsLeftAlone(y, src, next, files[1..], names[1..], i);
    }
  }

  /** The row at `i` shows the file, and its folder is the one the file's path leads to. */
  predicate Shows(y: Yaml, src: Source, db: Db, f: File, i: nat)
    requires Readable(y, f)
  {
    i < |db.rows| && ShowsFile(db.rows[i], DataOf(y, f), src, f) && FolderAgrees(db.folders, DataOf(y, f), db.rows[i].folder)
  }

  lemma OneFileShows(y: Yaml, src: Source, db: Db, f: File, name: string)
    requires Readable(y, f)
    ensures Shows(y, src, SyncOne(y, src, db, f, name), f, HitOf(y, src, db, f))
  {
    var d := DataOf(y, f);
    UpsertShows(db.rows, d, Top(Resolved(db.folders, db.nextFolder, [], Parts(d.folderPath)).1), src, f, name);
    ResolvedIsThere(db.folders, db.nextFolder, [], Parts(d.folderPath));
  }

  lemma StillShows(y: Yaml, src: Source, db: Db, f: File, i: nat, files: seq<File>, names: seq<string>)
    requires |names| == |files| && Readable(y, f) && Shows(y, src, db, f, i)
    requires NotHitAgain(y, files, Hits(y, src, db, files, names), i)
    ensures Shows(y, src, SyncAll(y, src, db, files, names), f, i)
  {
    RowIsLeftAlone(y, src, db, files, names, i);
    FoldersGrow(y, src, db, files, names);
    DescendGrowsMore(db.folders, SyncAll(y, src, db, files, names).folders, [], Parts(DataOf(y, f).folderPath));
  }

  lemma HitsOfTail(y: Yaml, src: Source, db: Db, files: seq<File>, names: seq<string>)
    requires |names| == |files| && files != []
    ensures var hits := Hits(y, src, db, files, names);
            && hits[0] == HitOf(y, src, db, files[0])
            && hits[1..] == Hits(y, src, SyncOne(y, src, db, files[0], names[0]), files[1..], names[1..])
  {
  }

  lemma DropOneMore<T>(s: seq<T>, j: nat)
    requires 0 < j < |s|
    ensures s[j + 1..] == s[1..][j..] && s[j] == s[1..][j - 1]
  {
  }

  /** Over a whole sync, the row that a file is the last to be written to shows the file. */
  lemma {:induction false} LastFileShows(y: Yaml, src: Source, db: Db, files: seq<File>, names: seq<string>, j: nat)
    requires |names| == |files| && j < |files| && Readable(y, files[j])
    requires var hits := Hits(y, src, db, files, names); NotHitAgain(y, files[j + 1..], hits[j + 1..], hits[j])
    ensures Shows(y, src, SyncAll(y, src, db, files, names), files[j], Hits(y, src, db, files, names)[j])
    decreases |files|
  {
    var next, hits := SyncOne(y, src, db, files[0], names[0]), Hits(y, src, db, files, names);
    HitsOfTail(y, src, db, files, names);
    if j == 0 {
      OneFileShows(y, src, db, files[0], names[0]);
      StillShows(y, src, next, files[0], hits[0], files[1..], names[1..]);
    } else {
      DropOneMore(files, j);
      DropOneMore(hits, j);
      LastFileShows(y, src, next, files[1..], names[1..], j - 1);
    }
  }

  // ------------------------------------------------------------ files that are apart

  /** None of the files disturbs `f`: other paths, other ids, generated ids not in use, other rows. */
  predicate Undisturbed(y: Yaml, src: Source, db: Db, d: Test, f: File, i: nat, files: seq<File>, names: seq<string>)
    requires |names| == |files|
    decreases |files|
  {
    files != [] ==>
      && (match Parse(y, files[0].content)
          case ValueError => true
          case Ok(e) => Compatible(d, f, e, files[0], names[0]) && Hit(db.rows, e, src.url, files[0].path) != i)
      && Undisturbed(y, src, SyncOne(y, src, db, files[0], names[0]), d, f, i, files[1..], names[1..])
  }

  /** No file disturbs one before it. */
  predicate Independent(y: Yaml, src: Source, db: Db, files: seq<File>, names: seq<string>)
    requires |names| == |files|
    decreases |files|
  {
    files != [] ==>
      var next := SyncOne(y, src, db, files[0], names[0]);
      && (match Parse(y, files[0].content)
          case ValueError => true
          case Ok(d) => Undisturbed(y, src, next, d, files[0], Hit(db.rows, d, src.url, files[0].path), files[1..], names[1..]))
      && Independent(y, src, next, files[1..], names[1..])
  }

  predicate AllSettled(y: Yaml, db: Db, src: Source, files: seq<File>, hits: seq<nat>)
    requires |hits| == |files|
    decreases |files|
  {
    files != [] ==> Settled(y, db, src, files[0], hits[0]) && AllSettled(y, db, src, files[1..], hits[1..])
  }

  lemma {:induction false} StaysSettled(y: Yaml, src: Source, db: Db, d: Test, f: File, i: nat, files: seq<File>, names: seq<string>)
    requires |names| == |files|
    requires SettledAs(db, d, src, f, i) && Undisturbed(y, src, db, d, f, i, files, names)
    ensures SettledAs(SyncAll(y, src, db, files, names), d, src, f, i)
    decreases |files|
  {
    if files != [] {
      match Parse(y, files[0].content) {
        case ValueError =>
        case Ok(e) => FileStaysSettled(src, db, d, f, i, e, files[0], names[0]);
      }
      StaysSettled(y, src, SyncOne(y, src, db, files[0], names[0]), d, f, i, files[1..], names[1..]);
    }
  }

  lemma {:induction false} FirstSyncSettles(y: Yaml, src: Source, db: Db, files: seq<File>, names: seq<string>)
    requires |names| == |files| && Independent(y, src, db, files, names)
    ensures AllSettled(y, SyncAll(y, src, db, files, names), src, files, Hits(y, src, db, files, names))
    decreases |files|
  {
    if files != [] {
      var next := SyncOne(y, src, db, files[0], names[0]);
      FirstSyncSettles(y, src, next, files[1..], names[1..]);
      var hits := Hits(y, src, db, files, names);
      assert hits[1..] == Hits(y, src, next, files[1..], names[1..]);
      match Parse(y, files[0].content)
      case ValueError =>
      case Ok(d) =>
        FileSettles(src, db, d, files[0], names[0]);
        StaysSettled(y, src, next, d, files[0], hits[0], files[1..], names[1..]);
    }
  }

  /** Of any two files that can be read: other paths, other ids, another row, and the id generated for the
      second is not that of the first. */
  predicate Apart(y: Yaml, files: seq<File>, names: seq<string>, hits: seq<nat>)
    requires |names| == |hits| == |files|
  {
    forall i, j | 0 <= i < j < |files| && Parse(y, files[i].content).Ok? && Parse(y, files[j].content).Ok? ::
      && Compatible(Parse(y, files[i].content).test, files[i], Parse(y, files[j].content).test, files[j], names[j])
      && hits[i] != hits[j]
  }

  predicate OthersApart(y: Yaml, d: Test, f: File, hit: nat, files: seq<File>, names: seq<string>, hits: seq<nat>)
    requires |names| == |hits| == |files|
  {
    forall j | 0 <= j < |files| && Parse(y, files[j].content).Ok? ::
      Compatible(d, f, Parse(y, files[j].content).test, files[j], names[j]) && hits[j] != hit
  }

  lemma {:induction false} OthersApartDoNotDisturb(y: Yaml, src: Source, db: Db, d: Test, f: File, hit: nat,
                                                   files: seq<File>, names: seq<string>)
    requires |names| == |files| && OthersApart(y, d, f, hit, files, names, Hits(y, src, db, files, names))
    ensures Undisturbed(y, src, db, d, f, hit, files, names)
    decreases |files|
  {
    if files != [] {
      var next := SyncOne(y, src, db, files[0], names[0]);
      var hits := Hits(y, src, db, files, names);
      assert hits[1..] == Hits(y, src, next, files[1..], names[1..]);
      assert OthersApart(y, d, f, hit, files[1..], names[1..], hits[1..]) by {
        forall j | 0 <= j < |files| - 1 && Parse(y, files[1..][j].content).Ok?
          ensures Compatible(d, f, Parse(y, files[1..][j].content).test, files[1..][j], names[1..][j]) && hits[1..][j] != hit
        {
          assert files[1..][j] == files[j + 1] && names[1..][j] == names[j + 1] && hits[1..][j] == hits[j + 1];
        }
      }
      OthersApartDoNotDisturb(y, src, next, d, f, hit, files[1..], names[1..]);
    }
  }

  lemma FirstIsApart(y: Yaml, files: seq<File>, names: seq<string>, hits: seq<nat>)
    requires |names| == |hits| == |files| && files != [] && Apart(y, files, names, hits)
    ensures Apart(y, files[1..], names[1..], hits[1..])
    ensures Parse(y, files[0].content).Ok? ==>
              OthersApart(y, Parse(y, files[0].content).test, files[0], hits[0], files[1..], names[1..], hits[1..])
  {
    forall j | 0 <= j < |files| - 1
      ensures files[1..][j] == files[j + 1] && names[1..][j] == names[j + 1] && hits[1..][j] == hits[j + 1]
    {
    }
  }

  lemma {:induction false} ApartIsIndependent(y: Yaml, src: Source, db: Db, files: seq<File>, names: seq<string>)
    requires |names| == |files| && Apart(y, files, names, Hits(y, src, db, files, names))
    ensures Independent(y, src, db, files, names)
    decreases |files|
  {
    if files != [] {
      var next := SyncOne(y, src, db, files[0], names[0]);
      var hits := Hits(y, src, db, files, names);
      assert hits[1..] == Hits(y, src, next, files[1..], names[1..]);
      FirstIsApart(y, files, names, hits);
      ApartIsIndependent(y, src, next, files[1..], names[1..]);
      match Parse(y, files[0].content)
      case ValueError =>
      case Ok(d) => OthersApartDoNotDisturb(y, src, next, d, files[0], hits[0], files[1..], names[1..]);
    }
  }

  lemma FoundAgainOneMore(y: Yaml, url: string, rows: seq<Row>, files: seq<File>, hits: seq<nat>)
    requires |hits| == |files| && files != [] && FoundAgain(y, url, rows, files[1..], hits[1..])
    requires Readable(y, files[0]) ==> Find(rows, DataOf(y, files[0]), url, files[0].path) == Some(hits[0])
    ensures FoundAgain(y, url, rows, files, hits)
  {
    forall k | 0 < k < |files| ensures files[k] == files[1..][k - 1] && hits[k] == hits[1..][k - 1] {
    }
  }

  lemma {:induction false} SettledIsFoundAgain(y: Yaml, src: Source, db: Db, files: seq<File>, hits: seq<nat>)
    requires |hits| == |files| && AllSettled(y, db, src, files, hits)
    ensures FoundAgain(y, src.url, db.rows, files, hits)
    decreases |files|
  {
    if files != [] {
      SettledIsFoundAgain(y, src, db, files[1..], hits[1..]);
      FoundAgainOneMore(y, src.url, db.rows, files, hits);
    }
  }

  /** Files apart from each other that hit different rows the first time find them again. */
  lemma FilesApartAreFoundAgain(y: Yaml, src: Source, db: Db, files: seq<File>, names: seq<string>)
    requires |names| == |files| && Apart(y, files, names, Hits(y, src, db, files, names))
    ensures FoundAgain(y, src.url, SyncAll(y, src, db, files, names).rows, files, Hits(y, src, db, files, names))
  {
    ApartIsIndependent(y, src, db, files, names);
    FirstSyncSettles(y, src, db, files, names);
    SettledIsFoundAgain(y, src, SyncAll(y, src, db, files, names), files, Hits(y, src, db, files, names));
  }

  // --------------------------------------------------------------------- an input

  lemma UpsertIntoOneRow(r: Row, d: Test, folder: Option<Id>, src: Source, f: File, name: string)
    ensures (HasId(d) && d.id == Some(r.id)) || (!HasId(d) && LivesAt(r, src.url, f.path)) ==>
              Upserted([r], d, folder, src, f, name) == [Applied(r, d, folder, src, f)]
    ensures !HasId(d) && !LivesAt(r, src.url, f.path) ==> |Upserted([r], d, folder, src, f, name)| == 2
  {
    assert [r][1..] == [];
    assert FindPath([r][1..], src.url, f.path).None?;
    assert FindPath([r], src.url, f.path) == if LivesAt(r, src.url, f.path) then Some(0) else None;
  }

  /** A table of one row, a file without an id at the row's path and, after it, a file with the row's id: the
      first sync gives the row to the second file, and the next one creates a test for the first. */
  lemma TwoFilesOfOneRowCreateAgain(y: Yaml, src: Source, db: Db, r: Row, f: File, g: File, d: Test, e: Test, name: string)
    requires db.rows == [r] && LivesAt(r, src.url, f.path) && f.path != g.path
    requires Parse(y, f.content) == Ok(d) && !HasId(d)
    requires Parse(y, g.content) == Ok(e) && HasId(e) && e.id == Some(r.id)
    ensures var once := SyncOne(y, src, SyncOne(y, src, db, f, name), g, name);
            |once.rows| == 1 && |SyncOne(y, src, once, f, name).rows| == 2
  {
    var a := Top(Resolved(db.folders, db.nextFolder, [], Parts(d.folderPath)).1);
    UpsertIntoOneRow(r, d, a, src, f, name);
    var first := SyncOne(y, src, db, f, name);
    var s := Applied(r, d, a, src, f);
    var b := Top(Resolved(first.folders, first.nextFolder, [], Parts(e.folderPath)).1);
    UpsertIntoOneRow(s, e, b, src, g, name);
    var once := SyncOne(y, src, first, g, name);
    var c := Top(Resolved(once.folders, once.nextFolder, [], Parts(d.folderPath)).1);
    UpsertIntoOneRow(Applied(s, e, b, src, g), d, c, src, f, name);
  }
}
