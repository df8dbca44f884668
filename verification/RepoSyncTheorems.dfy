/** What syncing and pushing promise over whole syncs and over every run. */
module RepoSyncTheorems {
  import opened Prelude
  import opened Text
  import opened Paths
  import opened TestTable
  import opened Folders
  import opened FolderTheorems
  import opened TestYaml
  import opened RepoSync

  // -------------------------------------------------------------- counts

  function Total(s: Stats): nat {
    s.created + s.updated + s.skipped
  }

  lemma UpsertedLength(rows: seq<Row>, d: Test, folder: Option<Id>, src: Source, f: File, name: string)
    ensures |Upserted(rows, d, folder, src, f, name)|
         == |rows| + if Find(rows, d, src.url, f.path).Some? then 0 else 1
  {
    FindBounds(rows, d, src.url, f.path);
  }

  /** Every file is created, updated or skipped with a warning, and the table grows by the tests created. */
  lemma {:induction false} EveryFileIsCounted(y: Yaml, src: Source, db: Db, files: seq<File>, names: seq<string>, stats: Stats)
    requires |names| == |files|
    ensures var s := CountAll(y, src, db, files, names, stats);
            && Total(s) == Total(stats) + |files|
            && |s.warnings| - |stats.warnings| == s.skipped - stats.skipped
            && |SyncAll(y, src, db, files, names).rows| - |db.rows| == s.created - stats.created
    decreases |files|
  {
    if files != [] {
      var next, counted := SyncOne(y, src, db, files[0], names[0]), CountOne(y, src, db, files[0], stats);
      EveryFileIsCounted(y, src, next, files[1..], names[1..], counted);
      match Parse(y, files[0].content)
      case ValueError =>
      case Ok(d) =>
        var place := Resolved(db.folders, db.nextFolder, [], Parts(d.folderPath)).1;
        UpsertedLength(db.rows, d, Top(place), src, files[0], names[0]);
    }
  }

  // -------------------------------------------------------------- status

  predicate StatusKept(before: seq<Row>, after: seq<Row>) {
    |before| <= |after| && forall i | 0 <= i < |before| :: after[i].id == before[i].id && after[i].status == before[i].status
  }

  lemma UpsertKeepsStatus(rows: seq<Row>, d: Test, folder: Option<Id>, src: Source, f: File, name: string)
    ensures StatusKept(rows, Upserted(rows, d, folder, src, f, name))
  {
    FindBounds(rows, d, src.url, f.path);
  }

  /** A sync never changes the status or the id of a test that was there. */
  lemma {:induction false} StatusIsLeftAlone(y: Yaml, src: Source, db: Db, files: seq<File>, names: seq<string>)
    requires |names| == |files|
    ensures StatusKept(db.rows, SyncAll(y, src, db, files, names).rows)
    decreases |files|
  {
    if files != [] {
      StatusIsLeftAlone(y, src, SyncOne(y, src, db, files[0], names[0]), files[1..], names[1..]);
      match Parse(y, files[0].content)
      case ValueError =>
      case Ok(d) =>
        var place := Resolved(db.folders, db.nextFolder, [], Parts(d.folderPath)).1;
        UpsertKeepsStatus(db.rows, d, Top(place), src, files[0], names[0]);
    }
  }

  // -------------------------------------------------------------- stamps

  /** A row as a sync of the source writes it. */
  predicate WrittenBy(r: Row, src: Source) {
    && r.repoUrl == Some(src.url) && r.sourcePath.Some? && r.body.Some?
    && r.sourceRef == src.sha && r.updatedAt == src.now && r.syncedAt == src.now
    && (r.auto <==> r.kind == "automated")
  }

  predicate WrittenOrSame(before: seq<Row>, after: seq<Row>, src: Source) {
    && |before| <= |after|
    && forall i | 0 <= i < |after| :: (i < |before| && after[i] == before[i]) || WrittenBy(after[i], src)
  }

  lemma UpsertIsWritten(rows: seq<Row>, d: Test, folder: Option<Id>, src: Source, f: File, name: string)
    ensures WrittenOrSame(rows, Upserted(rows, d, folder, src, f, name), src)
  {
    FindBounds(rows, d, src.url, f.path);
  }

  /** A sync leaves every row either as it was or with the commit and the time of this sync, and with an `auto`
      flag that agrees with its type. */
  lemma {:induction false} WrittenRowsAreStamped(y: Yaml, src: Source, db: Db, files: seq<File>, names: seq<string>)
    requires |names| == |files|
    ensures WrittenOrSame(db.rows, SyncAll(y, src, db, files, names).rows, src)
    decreases |files|
  {
    if files != [] {
      WrittenRowsAreStamped(y, src, SyncOne(y, src, db, files[0], names[0]), files[1..], names[1..]);
      match Parse(y, files[0].content)
      case ValueError =>
      case Ok(d) =>
        var place := Resolved(db.folders, db.nextFolder, [], Parts(d.folderPath)).1;
        UpsertIsWritten(db.rows, d, Top(place), src, files[0], names[0]);
    }
  }

  // ------------------------------------------------------ a file that has settled

  function Stamped(r: Row, src: Source): Row {
    r.(sourceRef := src.sha, updatedAt := src.now, syncedAt := src.now)
  }

  /** The row already says what the file says. */
  predicate Says(r: Row, d: Test, src: Source, f: File) {
    Applied(r, d, r.folder, src, f) == Stamped(r, src)
  }

  predicate FolderAgrees(t: Table, d: Test, folder: Option<Id>) {
    var found := Descend(t, [], Parts(d.folderPath));
    found.Some? && Top(found.value) == folder
  }

  predicate SettledAs(db: Db, d: Test, src: Source, f: File, i: nat) {
    && Find(db.rows, d, src.url, f.path) == Some(i)
    && i < |db.rows|
    && Says(db.rows[i], d, src, f)
    && FolderAgrees(db.folders, d, db.rows[i].folder)
  }

  /** The file matches row `i`, and syncing it again has nothing to change there. */
  predicate Settled(y: Yaml, db: Db, src: Source, f: File, i: nat) {
    match Parse(y, f.content)
    case ValueError => true
    case Ok(d) => SettledAs(db, d, src, f, i)
  }

  lemma {:induction false} FindIdAfterUpdate(rows: seq<Row>, j: nat, r: Row, id: string)
    requires j < |rows| && r.id == rows[j].id
    ensures FindId(rows[j := r], id) == FindId(rows, id)
  {
    if j > 0 {
      assert rows[j := r][1..] == rows[1..][j - 1 := r];
      FindIdAfterUpdate(rows[1..], j - 1, r, id);
    } else {
      assert rows[j := r][1..] == rows[1..];
    }
  }

  lemma {:induction false} FindIdAfterAppend(rows: seq<Row>, r: Row, id: string)
    ensures FindId(rows + [r], id)
         == if FindId(rows, id).Some? then FindId(rows, id) else if r.id == id then Some(|rows|) else None
  {
    if rows == [] {
      assert rows + [r] == [r];
    } else {
      assert (rows + [r])[1..] == rows[1..] + [r];
      FindIdAfterAppend(rows[1..], r, id);
    }
  }

  predicate LivesAt(r: Row, url: string, path: string) {
    r.repoUrl == Some(url) && r.sourcePath == Some(path)
  }

  /** Moving a row to the path makes it the match; moving another row away leaves the match. */
  lemma {:induction false} FindPathAfterUpdate(rows: seq<Row>, j: nat, r: Row, url: string, path: string)
    requires j < |rows|
    ensures LivesAt(r, url, path) && FindPath(rows, url, path) == Some(j) ==> FindPath(rows[j := r], url, path) == Some(j)
    ensures !LivesAt(r, url, path) && FindPath(rows, url, path).Some? && FindPath(rows, url, path) != Some(j)
        ==> FindPath(rows[j := r], url, path) == FindPath(rows, url, path)
  {
    if j > 0 {
      assert rows[j := r][1..] == rows[1..][j - 1 := r];
      FindPathAfterUpdate(rows[1..], j - 1, r, url, path);
    } else {
      assert rows[j := r][1..] == rows[1..];
    }
  }

  lemma {:induction false} FindPathAfterAppend(rows: seq<Row>, r: Row, url: string, path: string)
    ensures FindPath(rows + [r], url, path)
         == if FindPath(rows, url, path).Some? then FindPath(rows, url, path)
            else if LivesAt(r, url, path) then Some(|rows|) else None
  {
    if rows == [] {
      assert rows + [r] == [r];
    } else {
      assert (rows + [r])[1..] == rows[1..] + [r];
      FindPathAfterAppend(rows[1..], r, url, path);
    }
  }

  /** After a sync of the file, the file has settled. */
  lemma FileSettles(src: Source, db: Db, d: Test, f: File, name: string)
    ensures SettledAs(SyncTest(src, db, d, f, name), d, src, f, Hit(db.rows, d, src.url, f.path))
  {
    var place := Resolved(db.folders, db.nextFolder, [], Parts(d.folderPath)).1;
    ResolvedIsThere(db.folders, db.nextFolder, [], Parts(d.folderPath));
    FindBounds(db.rows, d, src.url, f.path);
    match Find(db.rows, d, src.url, f.path)
    case Some(i) =>
      var r := Applied(db.rows[i], d, Top(place), src, f);
      if HasId(d) {
        FindIdAfterUpdate(db.rows, i, r, d.id.value);
      }
      FindPathAfterUpdate(db.rows, i, r, src.url, f.path);
    case None =>
      var r := Applied(NewRow(if HasId(d) then d.id.value else name), d, Top(place), src, f);
      if HasId(d) {
        FindIdAfterAppend(db.rows, r, d.id.value);
      }
      FindPathAfterAppend(db.rows, r, src.url, f.path);
  }

  /** Two files that cannot disturb each other: other paths, other ids, and `name` is not an id in use. */
  predicate Compatible(d: Test, f: File, e: Test, g: File, name: string) {
    && f.path != g.path
    && (HasId(d) && HasId(e) ==> d.id != e.id)
    && (HasId(d) ==> d.id != Some(name))
  }

  lemma {:induction false} DescendGrowsMore(t: Table, u: Table, up: seq<Folder>, parts: seq<string>)
    requires t <= u && Descend(t, up, parts).Some?
    ensures Descend(u, up, parts) == Descend(t, up, parts)
    decreases |parts|
  {
    if parts != [] {
      FindGrowsMore(t, u[|t|..], Top(up), parts[0]);
      assert t + u[|t|..] == u;
      DescendGrowsMore(t, u, [FindChild(t, Top(up), parts[0]).value] + up, parts[1..]);
    }
  }

  /** Syncing another file that hits another row leaves it settled. */
  lemma FileStaysSettled(src: Source, db: Db, d: Test, f: File, i: nat, e: Test, g: File, name: string)
    requires SettledAs(db, d, src, f, i) && Compatible(d, f, e, g, name) && Hit(db.rows, e, src.url, g.path) != i
    ensures SettledAs(SyncTest(src, db, e, g, name), d, src, f, i)
  {
    var place := Resolved(db.folders, db.nextFolder, [], Parts(e.folderPath)).1;
    ResolvingAppends(db.folders, db.nextFolder, [], Parts(e.folderPath));
    DescendGrowsMore(db.folders, Resolved(db.folders, db.nextFolder, [], Parts(e.folderPath)).0, [], Parts(d.folderPath));
    FindBounds(db.rows, e, src.url, g.path);
    match Find(db.rows, e, src.url, g.path)
    case Some(j) =>
      var r := Applied(db.rows[j], e, Top(place), src, g);
      if HasId(d) {
        FindIdAfterUpdate(db.rows, j, r, d.id.value);
      }
      FindPathAfterUpdate(db.rows, j, r, src.url, f.path);
    case None =>
      var r := Applied(NewRow(if HasId(e) then e.id.value else name), e, Top(place), src, g);
      if HasId(d) {
        FindIdAfterAppend(db.rows, r, d.id.value);
      }
      FindPathAfterAppend(db.rows, r, src.url, f.path);
  }

  // ------------------------------------------------------ pushing, then syncing

  predicate SameTest(a: Row, b: Row) {
    && a.id == b.id && a.title == b.title && a.kind == b.kind && a.runner == b.runner && a.priority == b.priority
    && a.owner == b.owner && a.tags == b.tags && a.folder == b.folder && a.status == b.status
  }

  /** Pushing a row in normal form and syncing the file it wrote leaves the test as it was, keeps the folder
      tree, and the next push finds no conflict. */
  lemma PushThenSyncKeepsTheTest(y: Yaml, src: Source, db: Db, i: nat, path: string, up: seq<Folder>, name: string)
    requires i < |db.rows| && FindId(db.rows, db.rows[i].id) == Some(i) && db.rows[i].id != ""
    requires Undumps(y, FieldsOf(db.folders, db.rows[i])) && NormalForm(FieldsOf(db.folders, db.rows[i]))
    requires NoTwins(db.folders) && Reaches(db.folders, db.rows[i].folder, up)
    requires Canonical(RebuiltParts(db.folders, db.rows[i].folder))
    ensures var content := Rendered(y, db.folders, db.rows[i]);
            var after := SyncOne(y, src, db, File(path, content), name);
            && |after.rows| == |db.rows| && after.folders == db.folders
            && SameTest(db.rows[i], after.rows[i])
            && after.rows[i].body == Some(content)
            && Rendered(y, after.folders, after.rows[i]) == content
            && !Conflict(Some(content), after.rows[i].body)
  {
    var r := db.rows[i];
    var f := FieldsOf(db.folders, r);
    var content := Rendered(y, db.folders, r);
    RoundTripIffNormalForm(y, f);
    var d := Parse(y, content).test;
    RebuiltPathFindsItsFolder(db.folders, db.nextFolder, r.folder, up);
    assert d.id == Some(r.id) && HasId(d);
    assert d.folderPath == PathOf(RebuiltParts(db.folders, r.folder));
    FindBounds(db.rows, d, src.url, path);
    assert Find(db.rows, d, src.url, path) == Some(i);
    var after := SyncOne(y, src, db, File(path, content), name);
    assert after.rows[i] == Applied(r, d, r.folder, src, File(path, content));
    assert after.rows[i].owner == r.owner;
  }

  // ------------------------------------------------------ runs of edits, syncs and pushes

  /** What someone or something does: to the files on git, to a test in the UI, or between the two. */
  datatype Event =
    | GitWrite(url: string, path: string, content: Option<string>)
    | UiEdit(row: nat, title: string, status: string, priority: string, owner: string, tags: seq<string>, folder: Option<Id>)
    | Sync(src: Source, files: seq<File>, names: seq<string>)
    | Push(row: nat, commit: string, now: nat)

  /** A text that a row was last synced from or pushed to. */
  datatype Seen = Seen(row: nat, content: string)

  /** The files on git by repository and path, and the history of what rows were synced from and pushed to. */
  datatype World = World(db: Db, git: map<(string, string), string>, seen: seq<Seen>)

  function Current(git: map<(string, string), string>, r: Row): Option<string> {
    if r.repoUrl.Some? && r.sourcePath.Some? && (r.repoUrl.value, r.sourcePath.value) in git
    then Some(git[(r.repoUrl.value, r.sourcePath.value)]) else None
  }

  predicate Linked(r: Row) {
    r.repoUrl.Some? && r.sourcePath.Some?
  }

  function Trail(y: Yaml, src: Source, db: Db, files: seq<File>, names: seq<string>): seq<Seen>
    requires |names| == |files|
    decreases |files|
  {
    if files == [] then []
    else
      (match Parse(y, files[0].content)
       case ValueError => []
       case Ok(d) => [Seen(Hit(db.rows, d, src.url, files[0].path), files[0].content)])
      + Trail(y, src, SyncOne(y, src, db, files[0], names[0]), files[1..], names[1..])
  }

  function Step(y: Yaml, w: World, e: Event): World {
    match e
    case GitWrite(url, path, content) =>
      w.(git := if content.Some? then w.git[(url, path) := content.value] else w.git - {(url, path)})
    case UiEdit(i, title, status, priority, owner, tags, folder) =>
      if i < |w.db.rows| then
        w.(db := w.db.(rows := w.db.rows[i := w.db.rows[i].(title := title, status := status, priority := priority,
                                                            owner := owner, tags := tags, folder := folder)]))
      else w
    case Sync(src, files, names) =>
      if |names| == |files| then
        w.(db := SyncAll(y, src, w.db, files, names), seen := w.seen + Trail(y, src, w.db, files, names))
      else w
    case Push(i, commit, now) =>
      if i < |w.db.rows| && Linked(w.db.rows[i]) && !Conflict(Current(w.git, w.db.rows[i]), w.db.rows[i].body) then
        var r := w.db.rows[i];
        var content := Rendered(y, w.db.folders, r);
        World(w.db.(rows := w.db.rows[i := Pushed(y, w.db.folders, r, commit, now)]),
              w.git[(r.repoUrl.value, r.sourcePath.value) := content], w.seen + [Seen(i, content)])
      else w
  }

  function After(y: Yaml, w: World, events: seq<Event>): World
    decreases |events|
  {
    if events == [] then w else After(y, Step(y, w, events[0]), events[1..])
  }

  /** The text the row was last synced from or pushed to. */
  function LastSeen(seen: seq<Seen>, row: nat): Option<string> {
    if seen == [] then None
    else if LastSeen(seen[1..], row).Some? then LastSeen(seen[1..], row)
    else if seen[0].row == row then Some(seen[0].content)
    else None
  }

  predicate BodiesAreSeen(rows: seq<Row>, seen: seq<Seen>) {
    forall i | 0 <= i < |rows| :: rows[i].body == LastSeen(seen, i)
  }

  lemma {:induction false} SeenOneMore(seen: seq<Seen>, s: Seen, row: nat)
    ensures LastSeen(seen + [s], row) == if s.row == row then Some(s.content) else LastSeen(seen, row)
  {
    if seen == [] {
      assert seen + [s] == [s];
    } else {
      assert (seen + [s])[1..] == seen[1..] + [s];
      SeenOneMore(seen[1..], s, row);
    }
  }

  lemma SyncTestIsSeen(src: Source, db: Db, d: Test, f: File, name: string, seen: seq<Seen>)
    requires BodiesAreSeen(db.rows, seen)
    ensures BodiesAreSeen(SyncTest(src, db, d, f, name).rows, seen + [Seen(Hit(db.rows, d, src.url, f.path), f.content)])
  {
    FindBounds(db.rows, d, src.url, f.path);
    var s := Seen(Hit(db.rows, d, src.url, f.path), f.content);
    forall i | 0 <= i < |SyncTest(src, db, d, f, name).rows|
      ensures SyncTest(src, db, d, f, name).rows[i].body == LastSeen(seen + [s], i)
    {
      SeenOneMore(seen, s, i);
    }
  }

  lemma {:induction false} SyncIsSeen(y: Yaml, src: Source, db: Db, files: seq<File>, names: seq<string>, seen: seq<Seen>)
    requires |names| == |files| && BodiesAreSeen(db.rows, seen)
    ensures BodiesAreSeen(SyncAll(y, src, db, files, names).rows, seen + Trail(y, src, db, files, names))
    decreases |files|
  {
    if files == [] {
      assert seen + [] == seen;
    } else {
      var next := SyncOne(y, src, db, files[0], names[0]);
      var rest := Trail(y, src, next, files[1..], names[1..]);
      match Parse(y, files[0].content)
      case ValueError =>
        SyncIsSeen(y, src, next, files[1..], names[1..], seen);
        assert [] + rest == rest;
      case Ok(d) =>
        var s := Seen(Hit(db.rows, d, src.url, files[0].path), files[0].content);
        SyncTestIsSeen(src, db, d, files[0], names[0], seen);
        SyncIsSeen(y, src, next, files[1..], names[1..], seen + [s]);
        ConcatIsAssociative(seen, [s], rest);
    }
  }

  lemma StepIsSeen(y: Yaml, w: World, e: Event)
    requires BodiesAreSeen(w.db.rows, w.seen)
    ensures BodiesAreSeen(Step(y, w, e).db.rows, Step(y, w, e).seen)
  {
    match e
    case Sync(src, files, names) =>
      if |names| == |files| {
        SyncIsSeen(y, src, w.db, files, names, w.seen);
      }
    case Push(i, commit, now) =>
      if i < |w.db.rows| {
        var s := Seen(i, Rendered(y, w.db.folders, w.db.rows[i]));
        forall k: nat ensures LastSeen(w.seen + [s], k) == if i == k then Some(s.content) else LastSeen(w.seen, k) {
          SeenOneMore(w.seen, s, k);
        }
      }
    case _ =>
  }

  lemma {:induction false} RunIsSeen(y: Yaml, w: World, events: seq<Event>)
    requires BodiesAreSeen(w.db.rows, w.seen)
    ensures BodiesAreSeen(After(y, w, events).db.rows, After(y, w, events).seen)
    decreases |events|
  {
    if events != [] {
      StepIsSeen(y, w, events[0]);
      RunIsSeen(y, Step(y, w, events[0]), events[1..]);
    }
  }

  /** Over every run, a push changes a file on git only if the file's text is, up to surrounding white
      space, what the row was last synced from or pushed to; a row that never was has the empty text. */
  lemma PushOverwritesOnlyWhatWasSeen(y: Yaml, w: World, events: seq<Event>, push: Event, url: string, path: string)
    requires w.seen == [] && forall r <- w.db.rows :: r.body.None?
    requires push.Push? && (url, path) in After(y, w, events).git
    ensures var before := After(y, w, events);
            var after := Step(y, before, push);
            (url, path) !in after.git || after.git[(url, path)] != before.git[(url, path)] ==>
              && push.row < |before.db.rows|
              && before.db.rows[push.row].repoUrl == Some(url) && before.db.rows[push.row].sourcePath == Some(path)
              && var last := LastSeen(before.seen, push.row);
                 Trim(before.git[(url, path)]) == Trim(if last.Some? then last.value else "")
  {
    RunIsSeen(y, w, events);
  }

  /** Over every run, a push is refused, and changes nothing, exactly if the file is there and differs by more than
      surrounding white space from what the row was last synced from or pushed to; otherwise the row's text is on
      git, is what the row remembers, and no other file changes. */
  lemma PushIsRefusedIff(y: Yaml, w: World, events: seq<Event>, push: Event, url: string, path: string)
    requires w.seen == [] && forall r <- w.db.rows :: r.body.None?
    requires push.Push? && push.row < |After(y, w, events).db.rows|
    requires var r := After(y, w, events).db.rows[push.row]; r.repoUrl == Some(url) && r.sourcePath == Some(path)
    ensures var before := After(y, w, events);
            var after := Step(y, before, push);
            var file, last := (url, path), LastSeen(before.seen, push.row);
            if file in before.git && Trim(before.git[file]) != Trim(if last.Some? then last.value else "") then after == before
            else
              && after.git == before.git[file := Rendered(y, before.db.folders, before.db.rows[push.row])]
              && after.db.rows[push.row].body == Some(after.git[file]) == LastSeen(after.seen, push.row)
              && after.db.rows[push.row].sourceRef == push.commit
  {
    RunIsSeen(y, w, events);
    StepIsSeen(y, After(y, w, events), push);
  }
}
