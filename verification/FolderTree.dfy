/** The folder forest of backend/routers/folders.py, built by recursion over a parent map that may hold
    cycles and dangling parents. */
module FolderTree {
  import opened Prelude
  import opened Text
  import opened Paths
  import opened Folders
  import opened FolderTheorems

  datatype Tree = Node(folder: Folder, children: seq<Tree>)

  /** The order of Python strings: by code point, a prefix first. */
  predicate AtMost(a: string, b: string) {
    a == "" || (b != "" && (a[0] < b[0] || (a[0] == b[0] && AtMost(a[1..], b[1..]))))
  }

  function SortKey(tree: Tree): string {
    Lower(tree.folder.name)
  }

  function Insert(tree: Tree, sorted: seq<Tree>): seq<Tree> {
    if sorted == [] || AtMost(SortKey(tree), SortKey(sorted[0])) then [tree] + sorted
    else [sorted[0]] + Insert(tree, sorted[1..])
  }

  function Sort(trees: seq<Tree>): seq<Tree> {
    if trees == [] then [] else Insert(trees[0], Sort(trees[1..]))
  }

  // ------------------------------------------------------------ termination

  /** Every row of `rest` is the row of its id in the table. */
  predicate Rows(t: Table, rest: Table) {
    rest != [] ==> ById(t, rest[0].id) == Some(rest[0]) && Rows(t, rest[1..])
  }

  lemma {:induction false} AllRows(before: Table, t: Table)
    requires DistinctIds(before + t)
    ensures Rows(before + t, t)
    decreases |t|
  {
    if t != [] {
      assert before + t == (before + [t[0]]) + t[1..];
      AllRows(before + [t[0]], t[1..]);
      FirstOfItsId(before, t);
    }
  }

  lemma {:induction false} FirstOfItsId(before: Table, t: Table)
    requires t != [] && DistinctIds(before + t)
    ensures ById(before + t, t[0].id) == Some(t[0])
  {
    if before == [] {
      assert before + t == t;
    } else {
      assert (before + t)[1..] == before[1..] + t;
      FirstOfItsId(before[1..], t);
    }
  }

  lemma TableRows(t: Table)
    requires DistinctIds(t)
    ensures Rows(t, t)
  {
    assert [] + t == t;
    AllRows([], t);
  }

  lemma {:induction false} OnThePath(up: seq<Folder>, id: Id)
    ensures id in Ids(up) ==> exists i :: 0 <= i < |up| && up[i].id == id
  {
    if up != [] && up[0].id != id {
      OnThePath(up[1..], id);
      if id in Ids(up[1..]) {
        var i :| 0 <= i < |up[1..]| && up[1..][i].id == id;
        assert up[i + 1].id == id;
      }
    }
  }

  /** A repeated id on a call path would give a root folder a parent, so each call adds an id. */
  lemma NewOnThePath(t: Table, f: Folder, up: seq<Folder>)
    requires ById(t, f.id) == Some(f) && Reaches(t, f.parent, up)
    ensures Reaches(t, Some(f.id), [f] + up)
    ensures |Ids(t) - Ids([f] + up)| < |Ids(t) - Ids(up)|
  {
    var way := [f] + up;
    assert way[1..] == up;
    FoundIsListed(t, f.id);
    OnThePath(up, f.id);
    if f.id in Ids(up) {
      var i :| 0 <= i < |up| && up[i].id == f.id;
      ChainIsDistinct(t, Some(f.id), way, i + 1);
    }
    OneFewer(Ids(t), Ids(up), f.id);
    assert Ids(way) == Ids(up) + {f.id};
  }

  // ------------------------------------------------------------ the recursion

  function TreesOf(t: Table, rest: Table, parent: Option<Id>, up: seq<Folder>): seq<Tree>
    requires DistinctIds(t) && Rows(t, rest) && Reaches(t, parent, up)
    decreases |Ids(t) - Ids(up)|, |rest|
  {
    if rest == [] then []
    else if rest[0].parent == parent then
      NewOnThePath(t, rest[0], up);
      TableRows(t);
      [Node(rest[0], Sort(TreesOf(t, t, Some(rest[0].id), [rest[0]] + up)))] + TreesOf(t, rest[1..], parent, up)
    else TreesOf(t, rest[1..], parent, up)
  }

  function Forest(t: Table, parent: Option<Id>, up: seq<Folder>): seq<Tree>
    requires DistinctIds(t) && Reaches(t, parent, up)
  {
    TableRows(t);
    Sort(TreesOf(t, t, parent, up))
  }

  function HeadTree(t: Table, f: Folder, parent: Option<Id>, up: seq<Folder>): seq<Tree>
    requires DistinctIds(t) && ById(t, f.id) == Some(f) && Reaches(t, parent, up)
  {
    if f.parent == parent then
      NewOnThePath(t, f, up);
      [Node(f, Forest(t, Some(f.id), [f] + up))]
    else []
  }

  lemma TreesOfHead(t: Table, rest: Table, parent: Option<Id>, up: seq<Folder>)
    requires DistinctIds(t) && Rows(t, rest) && Reaches(t, parent, up) && rest != []
    ensures TreesOf(t, rest, parent, up) == HeadTree(t, rest[0], parent, up) + TreesOf(t, rest[1..], parent, up)
  {
  }

  lemma {:induction false} RowsFrom(t: Table, rest: Table, i: nat)
    requires Rows(t, rest) && i <= |rest|
    ensures Rows(t, rest[i..])
  {
    if i == 0 {
      assert rest[0..] == rest;
    } else {
      RowsFrom(t, rest[1..], i - 1);
      assert rest[1..][i - 1..] == rest[i..];
    }
  }

  function TreesFrom(t: Table, i: nat, parent: Option<Id>, up: seq<Folder>): seq<Tree>
    requires DistinctIds(t) && Reaches(t, parent, up) && i <= |t|
  {
    TableRows(t);
    RowsFrom(t, t, i);
    TreesOf(t, t[i..], parent, up)
  }

  lemma TreesFromNext(t: Table, i: nat, parent: Option<Id>, up: seq<Folder>)
    requires DistinctIds(t) && Reaches(t, parent, up) && i < |t|
    ensures ById(t, t[i].id) == Some(t[i])
    ensures TreesFrom(t, i, parent, up) == HeadTree(t, t[i], parent, up) + TreesFrom(t, i + 1, parent, up)
  {
    TableRows(t);
    RowsFrom(t, t, i);
    TakeOneMore(t, i);
    TreesOfHead(t, t[i..], parent, up);
  }

  method BuildTree(folders: Table, parentId: Option<Id>, ghost up: seq<Folder>) returns (result: seq<Tree>)
    requires DistinctIds(folders) && Reaches(folders, parentId, up)
    ensures result == Forest(folders, parentId, up)
    decreases |Ids(folders) - Ids(up)|
  {
    result := [];
    assert folders[0..] == folders;
    for i := 0 to |folders|
      invariant result + TreesFrom(folders, i, parentId, up) == TreesFrom(folders, 0, parentId, up)
    {
      var f := folders[i];
      ghost var before := result;
      TreesFromNext(folders, i, parentId, up);
      if f.parent == parentId {
        NewOnThePath(folders, f, up);
        var children := BuildTree(folders, Some(f.id), [f] + up);
        result := result + [Node(f, children)];
      }
      assert result == before + HeadTree(folders, f, parentId, up);
      ConcatIsAssociative(before, HeadTree(folders, f, parentId, up), TreesFrom(folders, i + 1, parentId, up));
    }
    assert result == TreesFrom(folders, 0, parentId, up);
    result := Sort(result);
  }

  // ------------------------------------------------------------ every folder once

  function Occurrences(trees: seq<Tree>, f: Folder): nat {
    if trees == [] then 0
    else (if trees[0].folder == f then 1 else 0) + Occurrences(trees[0].children, f) + Occurrences(trees[1..], f)
  }

  lemma {:induction false} InsertKeepsOccurrences(tree: Tree, sorted: seq<Tree>, f: Folder)
    ensures Occurrences(Insert(tree, sorted), f) == Occurrences([tree] + sorted, f)
  {
    assert ([tree] + sorted)[1..] == sorted;
    if !(sorted == [] || AtMost(SortKey(tree), SortKey(sorted[0]))) {
      InsertKeepsOccurrences(tree, sorted[1..], f);
      assert ([tree] + sorted[1..])[1..] == sorted[1..];
      assert ([sorted[0]] + Insert(tree, sorted[1..]))[1..] == Insert(tree, sorted[1..]);
    }
  }

  lemma {:induction false} SortKeepsOccurrences(trees: seq<Tree>, f: Folder)
    ensures Occurrences(Sort(trees), f) == Occurrences(trees, f)
  {
    if trees != [] {
      SortKeepsOccurrences(trees[1..], f);
      InsertKeepsOccurrences(trees[0], Sort(trees[1..]), f);
      assert ([trees[0]] + Sort(trees[1..]))[1..] == Sort(trees[1..]);
    }
  }

  /** `way` goes up through the folders of `up`. */
  predicate Through(way: seq<Folder>, up: seq<Folder>) {
    |way| > |up| && way[|way| - |up|..] == up
  }

  /** The folder of `way` just below `up`. */
  function JustBelow(way: seq<Folder>, up: seq<Folder>): Folder
    requires Through(way, up)
  {
    way[|way| - |up| - 1]
  }

  lemma ThroughOneMore(way: seq<Folder>, up: seq<Folder>, h: Folder)
    ensures Through(way, [h] + up) <==> Through(way, up) && JustBelow(way, up) == h && |way| > |up| + 1
  {
    if Through(way, [h] + up) {
      assert way[|way| - |up|..] == way[|way| - |up| - 1..][1..];
    }
    if Through(way, up) && JustBelow(way, up) == h && |way| > |up| + 1 {
      assert way[|way| - |up| - 1..] == [h] + up;
    }
  }

  /** How often the folder at the head of `way` occurs in one tree below `up`. */
  lemma OnceInItsTree(t: Table, up: seq<Folder>, h: Folder, way: seq<Folder>)
    requires way != [] && Reaches(t, Some(way[0].id), way)
    requires Reaches(t, Some(h.id), [h] + up)
    ensures (if h == way[0] then 1 else 0) + (if Through(way, [h] + up) then 1 else 0)
         == if Through(way, up) && JustBelow(way, up) == h then 1 else 0
  {
    ThroughOneMore(way, up, h);
    if h == way[0] {
      OneChain(t, Some(h.id), way, [h] + up);
      assert way[1..] == up;
    } else if Through(way, up) && JustBelow(way, up) == h && |way| == |up| + 1 {
      assert false;
    }
  }

  lemma {:induction false} OccurrencesOfConcat(a: seq<Tree>, b: seq<Tree>, f: Folder)
    ensures Occurrences(a + b, f) == Occurrences(a, f) + Occurrences(b, f)
  {
    if a == [] {
      assert a + b == b;
    } else {
      OccurrencesOfConcat(a[1..], b, f);
      assert (a + b)[1..] == a[1..] + b;
    }
  }

  /** `f` is the folder just below `up` on the way. */
  predicate Starts(f: Folder, way: seq<Folder>, up: seq<Folder>) {
    Through(way, up) && JustBelow(way, up) == f
  }

  lemma {:induction false} OnceInTheTrees(t: Table, rest: Table, parent: Option<Id>, up: seq<Folder>, way: seq<Folder>)
    requires DistinctIds(t) && DistinctIds(rest) && Rows(t, rest) && Reaches(t, parent, up)
    requires way != [] && Reaches(t, Some(way[0].id), way)
    ensures Occurrences(TreesOf(t, rest, parent, up), way[0])
         == if Through(way, up) && ById(rest, JustBelow(way, up).id).Some? then 1 else 0
    decreases |Ids(t) - Ids(up)|, |rest|, 0
  {
    if rest != [] {
      OnceInTheTrees(t, rest[1..], parent, up, way);
      if rest[0].parent == parent {
        NewOnThePath(t, rest[0], up);
        OnceInTheForest(t, rest[0], up, way);
      }
      OnceInTheHead(t, rest[0], parent, up, way);
      HeadAndRest(t, rest, parent, up, way);
    }
  }

  lemma HeadAndRest(t: Table, rest: Table, parent: Option<Id>, up: seq<Folder>, way: seq<Folder>)
    requires DistinctIds(t) && DistinctIds(rest) && Rows(t, rest) && Reaches(t, parent, up) && rest != []
    requires way != [] && Reaches(t, Some(way[0].id), way)
    requires Occurrences(HeadTree(t, rest[0], parent, up), way[0]) == if Starts(rest[0], way, up) then 1 else 0
    requires Occurrences(TreesOf(t, rest[1..], parent, up), way[0])
          == if Through(way, up) && ById(rest[1..], JustBelow(way, up).id).Some? then 1 else 0
    ensures Occurrences(TreesOf(t, rest, parent, up), way[0])
         == if Through(way, up) && ById(rest, JustBelow(way, up).id).Some? then 1 else 0
  {
    TreesOfHead(t, rest, parent, up);
    OccurrencesOfConcat(HeadTree(t, rest[0], parent, up), TreesOf(t, rest[1..], parent, up), way[0]);
    if Through(way, up) {
      BelowIsAChild(t, parent, up, way);
    }
  }

  predicate OnceIfThrough(trees: seq<Tree>, way: seq<Folder>, up: seq<Folder>)
    requires way != []
  {
    Occurrences(trees, way[0]) == if Through(way, up) then 1 else 0
  }

  lemma OnceInTheHead(t: Table, h: Folder, parent: Option<Id>, up: seq<Folder>, way: seq<Folder>)
    requires DistinctIds(t) && ById(t, h.id) == Some(h) && Reaches(t, parent, up)
    requires way != [] && Reaches(t, Some(way[0].id), way)
    requires h.parent == parent ==> Reaches(t, Some(h.id), [h] + up)
    requires h.parent == parent ==> OnceIfThrough(Forest(t, Some(h.id), [h] + up), way, [h] + up)
    ensures Occurrences(HeadTree(t, h, parent, up), way[0]) == if Starts(h, way, up) then 1 else 0
  {
    if Through(way, up) {
      BelowIsAChild(t, parent, up, way);
    }
    if h.parent == parent {
      OnceInItsTree(t, up, h, way);
    }
  }

  lemma OnceInTheForest(t: Table, h: Folder, up: seq<Folder>, way: seq<Folder>)
    requires DistinctIds(t) && ById(t, h.id) == Some(h) && Reaches(t, h.parent, up)
    requires Reaches(t, Some(h.id), [h] + up)
    requires way != [] && Reaches(t, Some(way[0].id), way)
    ensures OnceIfThrough(Forest(t, Some(h.id), [h] + up), way, [h] + up)
    decreases |Ids(t) - Ids([h] + up)|, |t|, 1
  {
    TableRows(t);
    OnceInTheTrees(t, t, Some(h.id), [h] + up, way);
    SortKeepsOccurrences(TreesOf(t, t, Some(h.id), [h] + up), way[0]);
    if Through(way, [h] + up) {
      BelowIsAChild(t, Some(h.id), [h] + up, way);
    }
  }

  lemma BelowIsAChild(t: Table, parent: Option<Id>, up: seq<Folder>, way: seq<Folder>)
    requires way != [] && Reaches(t, Some(way[0].id), way) && Reaches(t, parent, up) && Through(way, up)
    ensures ById(t, JustBelow(way, up).id) == Some(JustBelow(way, up))
    ensures JustBelow(way, up).parent == parent
  {
    var i := |way| - |up| - 1;
    ChainFrom(t, Some(way[0].id), way, i);
    assert way[i..][1..] == up;
  }

  /** What occurs is under the root. */
  lemma {:induction false} OccurringIsReached(t: Table, rest: Table, parent: Option<Id>, up: seq<Folder>, f: Folder)
      returns (way: seq<Folder>)
    requires DistinctIds(t) && Rows(t, rest) && Reaches(t, parent, up)
    requires Occurrences(TreesOf(t, rest, parent, up), f) > 0
    ensures way != [] && way[0] == f && Reaches(t, Some(f.id), way)
    decreases |Ids(t) - Ids(up)|, |rest|
  {
    var h := rest[0];
    if h.parent == parent {
      NewOnThePath(t, h, up);
      if h == f {
        return [h] + up;
      }
      var kids := Forest(t, Some(h.id), [h] + up);
      var others := TreesOf(t, rest[1..], parent, up);
      assert TreesOf(t, rest, parent, up) == [Node(h, kids)] + others;
      assert ([Node(h, kids)] + others)[1..] == others;
      TableRows(t);
      SortKeepsOccurrences(TreesOf(t, t, Some(h.id), [h] + up), f);
      if Occurrences(kids, f) > 0 {
        way := OccurringIsReached(t, t, Some(h.id), [h] + up, f);
        return;
      }
    }
    way := OccurringIsReached(t, rest[1..], parent, up, f);
  }

  ghost predicate UnderTheRoot(t: Table, f: Folder) {
    exists way :: way != [] && way[0] == f && Reaches(t, Some(f.id), way)
  }

  /** Each folder whose parents lead to the root occurs exactly once, and no other folder does. */
  lemma EveryFolderUnderTheRootOnce(t: Table, f: Folder)
    requires DistinctIds(t)
    ensures Occurrences(Forest(t, None, []), f) == if UnderTheRoot(t, f) then 1 else 0
  {
    TableRows(t);
    SortKeepsOccurrences(TreesOf(t, t, None, []), f);
    if UnderTheRoot(t, f) {
      var way :| way != [] && way[0] == f && Reaches(t, Some(f.id), way);
      assert way[|way|..] == [];
      BelowIsAChild(t, None, [], way);
      OnceInTheTrees(t, t, None, [], way);
    } else if Occurrences(TreesOf(t, t, None, []), f) > 0 {
      var way := OccurringIsReached(t, t, None, [], f);
    }
  }

  // ------------------------------------------------------------ shape and order

  /** Children hang under their parent, and siblings are in the order of their lower-cased names. */
  predicate WellBuilt(trees: seq<Tree>, parent: Option<Id>) {
    trees != [] ==>
      && trees[0].folder.parent == parent
      && WellBuilt(trees[0].children, Some(trees[0].folder.id))
      && InOrder(trees[0].children)
      && WellBuilt(trees[1..], parent)
  }

  predicate InOrder(trees: seq<Tree>) {
    |trees| > 1 ==> AtMost(SortKey(trees[0]), SortKey(trees[1])) && InOrder(trees[1..])
  }

  lemma {:induction false} EitherAtMost(a: string, b: string)
    ensures AtMost(a, b) || AtMost(b, a)
  {
    if a != "" && b != "" {
      EitherAtMost(a[1..], b[1..]);
    }
  }

  lemma {:induction false} InsertKeepsOrder(tree: Tree, sorted: seq<Tree>)
    requires InOrder(sorted)
    ensures InOrder(Insert(tree, sorted))
    ensures sorted != [] && !AtMost(SortKey(tree), SortKey(sorted[0])) ==> Insert(tree, sorted)[0] == sorted[0]
  {
    assert ([tree] + sorted)[1..] == sorted;
    if sorted != [] && !AtMost(SortKey(tree), SortKey(sorted[0])) {
      EitherAtMost(SortKey(tree), SortKey(sorted[0]));
      InsertKeepsOrder(tree, sorted[1..]);
      assert Insert(tree, sorted)[1..] == Insert(tree, sorted[1..]);
    }
  }

  lemma {:induction false} SortPutsInOrder(trees: seq<Tree>)
    ensures InOrder(Sort(trees))
  {
    if trees != [] {
      SortPutsInOrder(trees[1..]);
      InsertKeepsOrder(trees[0], Sort(trees[1..]));
    }
  }

  lemma {:induction false} InsertKeepsBuild(tree: Tree, sorted: seq<Tree>, parent: Option<Id>)
    requires WellBuilt([tree] + sorted, parent)
    ensures WellBuilt(Insert(tree, sorted), parent)
  {
    assert ([tree] + sorted)[1..] == sorted;
    if !(sorted == [] || AtMost(SortKey(tree), SortKey(sorted[0]))) {
      assert ([tree] + sorted[1..])[1..] == sorted[1..];
      InsertKeepsBuild(tree, sorted[1..], parent);
      assert Insert(tree, sorted)[1..] == Insert(tree, sorted[1..]);
    }
  }

  lemma {:induction false} SortKeepsBuild(trees: seq<Tree>, parent: Option<Id>)
    requires WellBuilt(trees, parent)
    ensures WellBuilt(Sort(trees), parent)
  {
    if trees != [] {
      SortKeepsBuild(trees[1..], parent);
      assert ([trees[0]] + Sort(trees[1..]))[1..] == Sort(trees[1..]);
      InsertKeepsBuild(trees[0], Sort(trees[1..]), parent);
    }
  }

  lemma {:induction false} TreesAreWellBuilt(t: Table, rest: Table, parent: Option<Id>, up: seq<Folder>)
    requires DistinctIds(t) && Rows(t, rest) && Reaches(t, parent, up)
    ensures WellBuilt(TreesOf(t, rest, parent, up), parent)
    decreases |Ids(t) - Ids(up)|, |rest|
  {
    if rest != [] {
      TreesAreWellBuilt(t, rest[1..], parent, up);
      if rest[0].parent == parent {
        NewOnThePath(t, rest[0], up);
        TableRows(t);
        var kids := TreesOf(t, t, Some(rest[0].id), [rest[0]] + up);
        TreesAreWellBuilt(t, t, Some(rest[0].id), [rest[0]] + up);
        SortKeepsBuild(kids, Some(rest[0].id));
        SortPutsInOrder(kids);
        assert TreesOf(t, rest, parent, up)[1..] == TreesOf(t, rest[1..], parent, up);
      }
    }
  }

  /** Every level of the forest hangs under the right parent and is in order. */
  lemma ForestIsWellBuilt(t: Table)
    requires DistinctIds(t)
    ensures WellBuilt(Forest(t, None, []), None) && InOrder(Forest(t, None, []))
  {
    TableRows(t);
    TreesAreWellBuilt(t, t, None, []);
    SortKeepsBuild(TreesOf(t, t, None, []), None);
    SortPutsInOrder(TreesOf(t, t, None, []));
  }

  /** The first is the start of the second, or has the lesser character where they first differ. */
  predicate Alphabetical(a: string, b: string) {
    a <= b || exists k | 0 <= k < |a| && k < |b| :: a[..k] == b[..k] && a[k] < b[k]
  }

  predicate InNameOrder(trees: seq<Tree>) {
    forall i, j | 0 <= i < j < |trees| :: Alphabetical(Lower(trees[i].folder.name), Lower(trees[j].folder.name))
  }

  lemma {:induction false} AtMostIff(a: string, b: string)
    ensures AtMost(a, b) <==> Alphabetical(a, b)
  {
    if a != "" && b != "" {
      AtMostIff(a[1..], b[1..]);
      if a[0] < b[0] {
        assert a[..0] == b[..0];
      } else if a[0] == b[0] {
        TailsAlphabetical(a, b);
      }
    }
  }

  lemma TailsAlphabetical(a: string, b: string)
    requires a != "" && b != "" && a[0] == b[0]
    ensures Alphabetical(a, b) <==> Alphabetical(a[1..], b[1..])
  {
    assert a == [a[0]] + a[1..] && b == [b[0]] + b[1..];
    assert a <= b <==> a[1..] <= b[1..];
    forall k | 0 <= k < |a| && k < |b| && a[..k] == b[..k] && a[k] < b[k] ensures Alphabetical(a[1..], b[1..]) {
      assert k > 0 && a[1..][..k - 1] == a[..k][1..] && b[1..][..k - 1] == b[..k][1..];
    }
    forall k | 0 <= k < |a[1..]| && k < |b[1..]| && a[1..][..k] == b[1..][..k] && a[1..][k] < b[1..][k]
      ensures Alphabetical(a, b)
    {
      assert a[..k + 1] == [a[0]] + a[1..][..k] && b[..k + 1] == [b[0]] + b[1..][..k];
    }
  }

  lemma {:induction false} AtMostIsTransitive(a: string, b: string, c: string)
    requires AtMost(a, b) && AtMost(b, c)
    ensures AtMost(a, c)
  {
    if a != "" && a[0] == b[0] == c[0] {
      AtMostIsTransitive(a[1..], b[1..], c[1..]);
    }
  }

  lemma {:induction false} InOrderReaches(trees: seq<Tree>, j: nat)
    requires InOrder(trees) && 0 < j < |trees|
    ensures AtMost(SortKey(trees[0]), SortKey(trees[j]))
  {
    if j > 1 {
      InOrderReaches(trees[1..], j - 1);
      AtMostIsTransitive(SortKey(trees[0]), SortKey(trees[1]), SortKey(trees[j]));
    }
  }

  /** A level is in order exactly if its lower-cased names, from any earlier to any later folder, are. */
  lemma {:induction false} InOrderIff(trees: seq<Tree>)
    ensures InOrder(trees) <==> InNameOrder(trees)
  {
    if |trees| > 1 {
      InOrderIff(trees[1..]);
      AtMostIff(SortKey(trees[0]), SortKey(trees[1]));
      if InOrder(trees) {
        forall i, j | 0 <= i < j < |trees| ensures Alphabetical(Lower(trees[i].folder.name), Lower(trees[j].folder.name)) {
          if i == 0 {
            InOrderReaches(trees, j);
            AtMostIff(SortKey(trees[0]), SortKey(trees[j]));
          } else {
            assert trees[i] == trees[1..][i - 1] && trees[j] == trees[1..][j - 1];
          }
        }
      }
      if InNameOrder(trees) {
        assert Alphabetical(Lower(trees[0].folder.name), Lower(trees[1].folder.name));
        assert forall i | 0 <= i < |trees| - 1 :: trees[1..][i] == trees[i + 1];
      }
    }
  }

  function WithKey(trees: seq<Tree>, key: string): seq<Tree> {
    if trees == [] then []
    else (if SortKey(trees[0]) == key then [trees[0]] else []) + WithKey(trees[1..], key)
  }

  lemma {:induction false} AtMostItself(a: string)
    ensures AtMost(a, a)
  {
    if a != "" {
      AtMostItself(a[1..]);
    }
  }

  lemma {:induction false} InsertIsStable(tree: Tree, sorted: seq<Tree>, key: string)
    ensures WithKey(Insert(tree, sorted), key) == WithKey([tree] + sorted, key)
  {
    assert ([tree] + sorted)[1..] == sorted;
    if !(sorted == [] || AtMost(SortKey(tree), SortKey(sorted[0]))) {
      InsertIsStable(tree, sorted[1..], key);
      assert ([tree] + sorted[1..])[1..] == sorted[1..];
      assert Insert(tree, sorted)[1..] == Insert(tree, sorted[1..]);
      AtMostItself(SortKey(tree));
    }
  }

  /** Folders whose names differ only in letter case keep the order of the table. */
  lemma {:induction false} SortIsStable(trees: seq<Tree>, key: string)
    ensures WithKey(Sort(trees), key) == WithKey(trees, key)
  {
    if trees != [] {
      SortIsStable(trees[1..], key);
      InsertIsStable(trees[0], Sort(trees[1..]), key);
      assert ([trees[0]] + Sort(trees[1..]))[1..] == Sort(trees[1..]);
    }
  }
}
