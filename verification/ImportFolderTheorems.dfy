/** What the importer's own folder resolver, which compares names exactly, does to the tree. */
module ImportFolderTheorems {
  import opened Prelude
  import opened Text
  import opened Paths
  import Folders
  import opened FolderTheorems
  import opened ImportFolders

  lemma {:induction false} FoundExact(t: Table, next: Id, parent: Option<Id>, name: string)
    requires DistinctIds(t) && Unused(t, next) && FindExact(t, parent, name).Some?
    ensures var id := FindExact(t, parent, name).value;
            id < next && Folders.ById(t, id) == Some(Folder(id, name, parent))
  {
    if !(t[0].name == name && t[0].parent == parent) {
      FoundExact(t[1..], next, parent, name);
    }
  }

  lemma {:induction false} FillingKeepsIds(t: Table, next: Id, parent: Option<Id>, parts: seq<string>)
    requires DistinctIds(t) && Unused(t, next) && (parent.Some? ==> parent.value < next)
    ensures var u := Filled(t, next, parent, parts).0;
            DistinctIds(u) && |t| <= |u| && Unused(u, next + |u| - |t|)
    decreases |parts|
  {
    if parts != [] {
      match FindExact(t, parent, parts[0])
      case Some(id) =>
        FoundExact(t, next, parent, parts[0]);
        FillingKeepsIds(t, next, Some(id), parts[1..]);
      case None =>
        AppendKeepsIds(t, Folder(next, parts[0], parent), next);
        FillingKeepsIds(t + [Folder(next, parts[0], parent)], next + 1, Some(next), parts[1..]);
    }
  }

  /** Where the parts lead, the folders on the way have the parts as their names. */
  lemma {:induction false} FollowingSpellsThePath(t: Table, next: Id, parent: Option<Id>, up: seq<Folder>, parts: seq<string>)
      returns (found: seq<Folder>)
    requires DistinctIds(t) && Unused(t, next) && Reaches(t, parent, up) && Follow(t, parent, parts).Some?
    ensures Reaches(t, Follow(t, parent, parts).value, found)
    ensures Reverse(Names(found)) == Reverse(Names(up)) + parts
    decreases |parts|
  {
    if parts == [] {
      found := up;
    } else {
      FoundExact(t, next, parent, parts[0]);
      var f := Folder(FindExact(t, parent, parts[0]).value, parts[0], parent);
      assert ([f] + up)[1..] == up;
      found := FollowingSpellsThePath(t, next, Some(f.id), [f] + up, parts[1..]);
      HeadAndTail(parts);
      ConcatIsAssociative(Reverse(Names(up)), [parts[0]], parts[1..]);
    }
  }

  /** The folder an import puts a path in has exactly that path when it is rebuilt. */
  lemma ImportedFolderHasThePath(t: Table, next: Id, path: string)
    requires DistinctIds(t) && Unused(t, next)
    ensures var (u, id) := Filled(t, next, None, Parts(path)); RebuiltParts(u, id) == Parts(path)
  {
    var (u, id) := Filled(t, next, None, Parts(path));
    FillingKeepsIds(t, next, None, Parts(path));
    FilledIsThere(t, next, None, Parts(path));
    var found := FollowingSpellsThePath(u, next + |u| - |t|, None, [], Parts(path));
    RebuiltIsTheChain(u, id, found, {});
    assert Reverse(Names([])) == [];
    NothingBefore(Parts(path));
  }

  /** No two folders of one parent have the same name. */
  predicate NoNamesakes(t: Table) {
    t != [] ==> FindExact(t[1..], t[0].parent, t[0].name).None? && NoNamesakes(t[1..])
  }

  lemma {:induction false} AppendKeepsNames(t: Table, f: Folder)
    requires NoNamesakes(t) && FindExact(t, f.parent, f.name).None?
    ensures NoNamesakes(t + [f])
  {
    if t == [] {
      assert t + [f] == [f];
    } else {
      assert (t + [f])[1..] == t[1..] + [f];
      AppendKeepsNames(t[1..], f);
      FindExactGrows(t[1..], f, t[0].parent, t[0].name);
    }
  }

  /** An import keeps the names of siblings unique. */
  lemma {:induction false} ImportedSiblingsStayUnique(t: Table, next: Id, parent: Option<Id>, parts: seq<string>)
    requires NoNamesakes(t)
    ensures NoNamesakes(Filled(t, next, parent, parts).0)
    decreases |parts|
  {
    if parts != [] {
      match FindExact(t, parent, parts[0])
      case Some(id) => ImportedSiblingsStayUnique(t, next, Some(id), parts[1..]);
      case None =>
        AppendKeepsNames(t, Folder(next, parts[0], parent));
        ImportedSiblingsStayUnique(t + [Folder(next, parts[0], parent)], next + 1, Some(next), parts[1..]);
    }
  }

  lemma {:induction false} NothingInNew(t: Table, next: Id, name: string)
    requires Unused(t, next)
    ensures FindExact(t, Some(next), name).None?
  {
    if t != [] {
      NothingInNew(t[1..], next, name);
    }
  }

  lemma {:induction false} RestIsAdded(t: Table, next: Id, parent: Option<Id>, parts: seq<string>)
    requires Unused(t, next) && DistinctIds(t) && (parent.Some? ==> parent.value < next)
    requires parts != [] ==> FindExact(t, parent, parts[0]).None?
    ensures Filled(t, next, parent, parts).0 == t + Chain(parent, parts, next)
    decreases |parts|
  {
    if parts == [] {
      assert t + [] == t;
    } else {
      var f := Folder(next, parts[0], parent);
      AppendKeepsIds(t, f, next);
      if parts[1..] != [] {
        NothingInNew(t, next, parts[1]);
        FindExactGrows(t, f, Some(next), parts[1]);
      }
      RestIsAdded(t + [f], next + 1, Some(next), parts[1..]);
      ConcatIsAssociative(t, [f], Chain(Some(next), parts[1..], next + 1));
    }
  }

  /** The first levels that are there. */
  function LevelsThere(t: Table, parent: Option<Id>, parts: seq<string>): (k: nat)
    ensures k <= |parts|
    decreases |parts|
  {
    if parts == [] || FindExact(t, parent, parts[0]).None? then 0
    else 1 + LevelsThere(t, FindExact(t, parent, parts[0]), parts[1..])
  }

  /** An import adds exactly the missing levels, one inside the other, below the levels that are there. */
  lemma {:induction false} ImportAddsOnlyMissingLevels(t: Table, next: Id, parent: Option<Id>, parts: seq<string>)
    requires DistinctIds(t) && Unused(t, next) && (parent.Some? ==> parent.value < next)
    ensures var k := LevelsThere(t, parent, parts);
            && Follow(t, parent, parts[..k]).Some?
            && Filled(t, next, parent, parts).0 == t + Chain(Follow(t, parent, parts[..k]).value, parts[k..], next)
    decreases |parts|
  {
    var k := LevelsThere(t, parent, parts);
    if k == 0 {
      assert parts[..0] == [] && parts[0..] == parts;
      RestIsAdded(t, next, parent, parts);
    } else {
      FoundExact(t, next, parent, parts[0]);
      ImportAddsOnlyMissingLevels(t, next, FindExact(t, parent, parts[0]), parts[1..]);
      assert parts[..k][1..] == parts[1..][..k - 1];
      assert parts[k..] == parts[1..][k - 1..];
    }
  }
}
