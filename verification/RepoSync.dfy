/** Syncing test files into rows and writing a row back: `sync_repo` and `push_test` of
    backend/github_sync.py with the guard of backend/git_push.py. */
module RepoSync {
  import opened Prelude
  import opened Text
  import opened Paths
  import opened TestTable
  import opened Folders
  import opened FolderTheorems
  import opened TestYaml
  import opened CaseId

  datatype Db = Db(rows: seq<Row>, folders: Table, nextFolder: Id)

  datatype File = File(path: string, content: string)

  /** One sync: the repository, the commit read, the time, and the CI provider to link tests to. */
  datatype Source = Source(url: string, sha: string, now: nat, provider: Option<string>)

  datatype Stats = Stats(created: nat, updated: nat, skipped: nat, warnings: seq<string>)

  // -------------------------------------------------------------- matching

  function FindId(rows: seq<Row>, id: string): Option<nat> {
    if rows == [] then None
    else if rows[0].id == id then Some(0)
    else Next(FindId(rows[1..], id))
  }

  function FindPath(rows: seq<Row>, url: string, path: string): Option<nat> {
    if rows == [] then None
    else if rows[0].repoUrl == Some(url) && rows[0].sourcePath == Some(path) then Some(0)
    else Next(FindPath(rows[1..], url, path))
  }

  predicate HasId(d: Test) {
    d.id.Some? && d.id.value != ""
  }

  /** By the id in the file, or else by where the file is. */
  function Find(rows: seq<Row>, d: Test, url: string, path: string): Option<nat> {
    if HasId(d) && FindId(rows, d.id.value).Some? then FindId(rows, d.id.value)
    else FindPath(rows, url, path)
  }

  lemma {:induction false} FindIdBounds(rows: seq<Row>, id: string)
    ensures var i := FindId(rows, id); i.Some? ==> i.value < |rows| && rows[i.value].id == id
  {
    if rows != [] && rows[0].id != id {
      FindIdBounds(rows[1..], id);
    }
  }

  lemma {:induction false} FindPathBounds(rows: seq<Row>, url: string, path: string)
    ensures var i := FindPath(rows, url, path);
            i.Some? ==> i.value < |rows| && rows[i.value].repoUrl == Some(url) && rows[i.value].sourcePath == Some(path)
  {
    if rows != [] && !(rows[0].repoUrl == Some(url) && rows[0].sourcePath == Some(path)) {
      FindPathBounds(rows[1..], url, path);
    }
  }

  lemma FindBounds(rows: seq<Row>, d: Test, url: string, path: string)
    ensures Find(rows, d, url, path).Some? ==> Find(rows, d, url, path).value < |rows|
  {
    if HasId(d) {
      FindIdBounds(rows, d.id.value);
    }
    FindPathBounds(rows, url, path);
  }

  // ------------------------------------------------------------ one file

  /** A row once the file's fields are assigned to it. Its status is not among them. */
  function Applied(r: Row, d: Test, folder: Option<Id>, src: Source, f: File): Row {
    var linked := src.provider.Some? && HasId(d);
    r.(title := d.title, kind := d.kind, priority := d.priority,
       owner := if d.owner != "" then d.owner else r.owner,
       tags := d.tags, auto := d.kind == "automated", runner := d.runner, folder := folder,
       repoUrl := Some(src.url), sourcePath := Some(f.path), body := Some(f.content),
       provider := if linked then src.provider else r.provider,
       key := if linked then Some(ExternalKey(d.id.value)) else r.key,
       sourceRef := src.sha, updatedAt := src.now, syncedAt := src.now)
  }

  function Upserted(rows: seq<Row>, d: Test, folder: Option<Id>, src: Source, f: File, name: string): seq<Row> {
    FindBounds(rows, d, src.url, f.path);
    match Find(rows, d, src.url, f.path)
    case Some(i) => rows[i := Applied(rows[i], d, folder, src, f)]
    case None => rows + [Applied(NewRow(if HasId(d) then d.id.value else name), d, folder, src, f)]
  }

  /** The place in the table that a file is written to. */
  function Hit(rows: seq<Row>, d: Test, url: string, path: string): nat {
    match Find(rows, d, url, path)
    case Some(i) => i
    case None => |rows|
  }

  /** `name` is the id generated if the file creates a test without an id of its own. */
  function SyncTest(src: Source, db: Db, d: Test, f: File, name: string): Db {
    var (folders, place) := Resolved(db.folders, db.nextFolder, [], Parts(d.folderPath));
    ResolvingAppends(db.folders, db.nextFolder, [], Parts(d.folderPath));
    Db(Upserted(db.rows, d, Top(place), src, f, name), folders, db.nextFolder + |folders| - |db.folders|)
  }

  function SyncOne(y: Yaml, src: Source, db: Db, f: File, name: string): Db {
    match Parse(y, f.content)
    case ValueError => db
    case Ok(d) => SyncTest(src, db, d, f, name)
  }

  function CountOne(y: Yaml, src: Source, db: Db, f: File, stats: Stats): Stats {
    match Parse(y, f.content)
    case ValueError => stats.(skipped := stats.skipped + 1, warnings := stats.warnings + [f.path])
    case Ok(d) =>
      if Find(db.rows, d, src.url, f.path).Some? then stats.(updated := stats.updated + 1)
      else stats.(created := stats.created + 1)
  }

  // ------------------------------------------------------------ all files

  function SyncAll(y: Yaml, src: Source, db: Db, files: seq<File>, names: seq<string>): Db
    requires |names| == |files|
    decreases |files|
  {
    if files == [] then db
    else SyncAll(y, src, SyncOne(y, src, db, files[0], names[0]), files[1..], names[1..])
  }

  function CountAll(y: Yaml, src: Source, db: Db, files: seq<File>, names: seq<string>, stats: Stats): Stats
    requires |names| == |files|
    decreases |files|
  {
    if files == [] then stats
    else CountAll(y, src, SyncOne(y, src, db, files[0], names[0]), files[1..], names[1..],
                  CountOne(y, src, db, files[0], stats))
  }

  const NO_STATS := Stats(0, 0, 0, [])

  class Repo {
    var rows: seq<Row>
    var folders: Table
    var nextFolder: Id

    function Contents(): Db
      reads this
    {
      Db(rows, folders, nextFolder)
    }

    constructor (db: Db)
      ensures Contents() == db
    {
      rows, folders, nextFolder := db.rows, db.folders, db.nextFolder;
    }

    method SyncRepo(y: Yaml, src: Source, files: seq<File>, names: seq<string>) returns (stats: Stats)
      requires |names| == |files|
      modifies this
      ensures Contents() == SyncAll(y, src, old(Contents()), files, names)
      ensures stats == CountAll(y, src, old(Contents()), files, names, NO_STATS)
    {
      var folderCache := new FolderSync(folders, nextFolder);
      stats := NO_STATS;
      assert files[0..] == files && names[0..] == names;
      for i := 0 to |files|
        invariant fresh(folderCache) && folderCache.Valid()
        invariant folderCache.folders == folders && folderCache.next == nextFolder
        invariant SyncAll(y, src, Contents(), files[i..], names[i..]) == SyncAll(y, src, old(Contents()), files, names)
        invariant CountAll(y, src, Contents(), files[i..], names[i..], stats)
               == CountAll(y, src, old(Contents()), files, names, NO_STATS)
      {
        TakeOneMore(files, i);
        TakeOneMore(names, i);
        var data := Parse(y, files[i].content);
        if data.ValueError? {
          stats := stats.(skipped := stats.skipped + 1, warnings := stats.warnings + [files[i].path]);
          continue;
        }
        var created := SyncFile(data.test, src, files[i], names[i], folderCache);
        stats := if created then stats.(created := stats.created + 1) else stats.(updated := stats.updated + 1);
      }
    }

    method SyncFile(d: Test, src: Source, f: File, name: string, folderCache: FolderSync) returns (created: bool)
      requires folderCache.Valid() && folderCache.folders == folders && folderCache.next == nextFolder
      modifies this, folderCache
      ensures folderCache.Valid() && folderCache.folders == folders && folderCache.next == nextFolder
      ensures Contents() == SyncTest(src, old(Contents()), d, f, name)
      ensures created <==> Find(old(rows), d, src.url, f.path).None?
    {
      ResolvingAppends(folders, nextFolder, [], Parts(d.folderPath));
      var folderId := folderCache.GetOrCreate(d.folderPath);
      folders, nextFolder := folderCache.folders, folderCache.next;
      created := Upsert(d, folderId, src, f, name);
    }

    /** Given the file's current text on git, the text to commit, or nothing when that text conflicts. */
    method PushTest(y: Yaml, i: nat, current: Option<string>, commit: string, now: nat) returns (content: Option<string>)
      requires i < |rows|
      modifies this`rows
      ensures Conflict(current, old(rows[i].body)) ==> content.None? && rows == old(rows)
      ensures !Conflict(current, old(rows[i].body)) ==>
                content == Some(Rendered(y, folders, old(rows[i])))
                && rows == old(rows)[i := Pushed(y, folders, old(rows[i]), commit, now)]
                && rows[i].body == content && rows[i].sourceRef == commit && rows[i].syncedAt == now
                && rows[i].(body := old(rows[i].body), sourceRef := old(rows[i].sourceRef), syncedAt := old(rows[i].syncedAt))
                   == old(rows[i])
    {
      var path := FolderPath(folders, rows[i].folder);
      var r := rows[i];
      var text := Serialize(y, Fields(r.id, r.title, r.kind, r.runner, r.priority, r.owner, r.tags, path));
      if Conflict(current, r.body) {
        return None;
      }
      rows := rows[i := r.(sourceRef := commit, body := Some(text), syncedAt := now)];
      content := Some(text);
    }

    method Upsert(d: Test, folderId: Option<Id>, src: Source, f: File, name: string) returns (created: bool)
      modifies this`rows
      ensures rows == Upserted(old(rows), d, folderId, src, f, name)
      ensures created <==> Find(old(rows), d, src.url, f.path).None?
    {
      var existing := None;
      if HasId(d) {
        existing := FindId(rows, d.id.value);
      }
      if existing.None? {
        existing := FindPath(rows, src.url, f.path);
      }
      FindBounds(rows, d, src.url, f.path);
      var target := if existing.Some? then rows[existing.value] else NewRow(if HasId(d) then d.id.value else name);
      target := Applied(target, d, folderId, src, f);
      if existing.Some? {
        rows := rows[existing.value := target];
      } else {
        rows := rows + [target];
      }
      created := existing.None?;
    }
  }

  // ------------------------------------------------------------ writing back

  /** `render_test_yaml` before the dump */
  function FieldsOf(folders: Table, r: Row): Fields {
    Fields(r.id, r.title, r.kind, r.runner, r.priority, r.owner, r.tags, PathOf(RebuiltParts(folders, r.folder)))
  }

  function Rendered(y: Yaml, folders: Table, r: Row): string {
    y.dump(Document(FieldsOf(folders, r)))
  }

  /** `check_conflict`: a file that is not there never conflicts. */
  predicate Conflict(current: Option<string>, lastSynced: Option<string>) {
    current.Some? && Trim(current.value) != Trim(if lastSynced.Some? then lastSynced.value else "")
  }

  function Pushed(y: Yaml, folders: Table, r: Row, commit: string, now: nat): Row {
    r.(sourceRef := commit, body := Some(Rendered(y, folders, r)), syncedAt := now)
  }
}
