/** What resolving a slash path and rebuilding it promise each other. */
module FolderTheorems {
  import opened Prelude
  import opened Text
  import opened Paths
  import opened Folders

  // ------------------------------------------------------------ well-formed tables

  /** Ids are distinct. */
  predicate DistinctIds(t: Table) {
    t != [] ==> ById(t[1..], t[0].id).None? && DistinctIds(t[1..])
  }

  /** No row uses `next` or a later id, as its own or as its parent. */
  predicate Unused(t: Table, next: Id) {
    t != [] ==> t[0].id < next && (t[0].parent.Some? ==> t[0].parent.value < next) && Unused(t[1..], next)
  }

  /** No two folders of one parent have the same name up to letter case. */
  predicate NoTwins(t: Table) {
    t != [] ==> FindChild(t[1..], t[0].parent, t[0].name).None? && NoTwins(t[1..])
  }

  /** The folders from `id` up to a root folder. */
  predicate Reaches(t: Table, id: Option<Id>, up: seq<Folder>)
    decreases |up|
  {
    if up == [] then id == None
    else id == Some(up[0].id) && ById(t, up[0].id) == Some(up[0]) && Reaches(t, up[0].parent, up[1..])
  }

  function Names(up: seq<Folder>): (r: seq<string>)
    ensures |r| == |up|
  {
    if up == [] then [] else [up[0].name] + Names(up[1..])
  }

  // ------------------------------------------------------------ rebuilding a path

  function Ids(t: Table): set<Id> {
    if t == [] then {} else {t[0].id} + Ids(t[1..])
  }

  lemma {:induction false} FoundIsListed(t: Table, id: Id)
    ensures ById(t, id).Some? <==> id in Ids(t)
    ensures ById(t, id).Some? ==> ById(t, id).value.id == id
  {
    if t != [] {
      FoundIsListed(t[1..], id);
    }
  }

  lemma OneFewer(all: set<Id>, seen: set<Id>, id: Id)
    requires id in all && id !in seen
    ensures |all - (seen + {id})| < |all - seen|
  {
    assert all - (seen + {id}) == (all - seen) - {id};
  }

  /** The names from a folder upward, until the parent is missing or has been seen. */
  function RebuiltUp(t: Table, id: Option<Id>, seen: set<Id>): seq<string>
    decreases |Ids(t) - seen|
  {
    if id.None? || id.value in seen then []
    else
      match ById(t, id.value)
      case None => []
      case Some(folder) =>
        FoundIsListed(t, id.value);
        OneFewer(Ids(t), seen, id.value);
        [folder.name] + RebuiltUp(t, folder.parent, seen + {id.value})
  }

  function RebuiltParts(t: Table, id: Option<Id>): seq<string> {
    Reverse(RebuiltUp(t, id, {}))
  }

  /** The loop ends on every table, cyclic parents included. */
  method FolderPath(t: Table, folderId: Option<Id>) returns (path: string)
    ensures path == PathOf(RebuiltParts(t, folderId))
  {
    var parts: seq<string> := [];
    var seen: set<Id> := {};
    var fid := folderId;
    while fid.Some? && fid.value !in seen
      invariant parts + RebuiltUp(t, fid, seen) == RebuiltUp(t, folderId, {})
      decreases |Ids(t) - seen|
    {
      var folder := ById(t, fid.value);
      FoundIsListed(t, fid.value);
      if folder.None? {
        break;
      }
      OneFewer(Ids(t), seen, fid.value);
      seen := seen + {fid.value};
      parts := parts + [folder.value.name];
      fid := folder.value.parent;
    }
    assert parts == RebuiltUp(t, folderId, {});
    path := PathOf(Reverse(parts));
  }

  /** No folder is named twice. */
  lemma {:induction false} RebuildingStops(t: Table, id: Option<Id>, seen: set<Id>)
    ensures |RebuiltUp(t, id, seen)| <= |Ids(t) - seen|
    decreases |Ids(t) - seen|
  {
    if id.Some? && id.value !in seen && ById(t, id.value).Some? {
      FoundIsListed(t, id.value);
      OneFewer(Ids(t), seen, id.value);
      RebuildingStops(t, ById(t, id.value).value.parent, seen + {id.value});
    }
  }

  // ------------------------------------------------ a chain to the root has no cycle

  lemma {:induction false} OneChain(t: Table, id: Option<Id>, up: seq<Folder>, other: seq<Folder>)
    requires Reaches(t, id, up) && Reaches(t, id, other)
    ensures up == other
    decreases |up|
  {
    if up != [] {
      OneChain(t, up[0].parent, up[1..], other[1..]);
      assert up == [up[0]] + up[1..];
      assert other == [other[0]] + other[1..];
    }
  }

  lemma {:induction false} ChainFrom(t: Table, id: Option<Id>, up: seq<Folder>, i: nat)
    requires Reaches(t, id, up) && i < |up|
    ensures Reaches(t, Some(up[i].id), up[i..])
    decreases |up|
  {
    if i == 0 {
      assert up[0..] == up;
    } else {
      ChainFrom(t, up[0].parent, up[1..], i - 1);
      assert up[1..][i - 1..] == up[i..];
    }
  }

  lemma ChainIsDistinct(t: Table, id: Option<Id>, up: seq<Folder>, i: nat)
    requires Reaches(t, id, up) && 0 < i < |up|
    ensures up[i].id != up[0].id
  {
    if up[i].id == up[0].id {
      ChainFrom(t, id, up, i);
      OneChain(t, id, up, up[i..]);
    }
  }

  lemma {:induction false} RebuiltIsTheChain(t: Table, id: Option<Id>, up: seq<Folder>, seen: set<Id>)
    requires Reaches(t, id, up) && forall i | 0 <= i < |up| :: up[i].id !in seen
    ensures RebuiltUp(t, id, seen) == Names(up)
    decreases |up|
  {
    if up != [] {
      forall i | 0 <= i < |up| - 1 ensures up[1..][i].id !in seen + {up[0].id} {
        ChainIsDistinct(t, id, up, i + 1);
      }
      RebuiltIsTheChain(t, up[0].parent, up[1..], seen + {up[0].id});
    }
  }

  // ------------------------------------------------------------ resolving a path

  lemma {:induction false} FoundChild(t: Table, parent: Option<Id>, name: string)
    requires DistinctIds(t) && FindChild(t, parent, name).Some?
    ensures var f := FindChild(t, parent, name).value;
            f.parent == parent && Lower(f.name) == Lower(name) && ById(t, f.id) == Some(f)
  {
    if !(Lower(t[0].name) == Lower(name) && t[0].parent == parent) {
      FoundChild(t[1..], parent, name);
    }
  }

  /** Where the parts lead, the folders on the way are the parts up to letter case. */
  lemma {:induction false} DescentSpellsThePath(t: Table, up: seq<Folder>, parts: seq<string>)
    requires DistinctIds(t) && Reaches(t, Top(up), up) && Descend(t, up, parts).Some?
    ensures var found := Descend(t, up, parts).value;
            && Reaches(t, Top(found), found)
            && LowerAll(Reverse(Names(found))) == LowerAll(Reverse(Names(up))) + LowerAll(parts)
    decreases |parts|
  {
    if parts != [] {
      FoundChild(t, Top(up), parts[0]);
      var f := FindChild(t, Top(up), parts[0]).value;
      assert ([f] + up)[1..] == up;
      DescentSpellsThePath(t, [f] + up, parts[1..]);
      LowerAllOfConcat(Reverse(Names(up)), [f.name]);
      assert LowerAll([f.name]) == [Lower(parts[0])];
    }
  }

  lemma {:induction false} FindGrowsMore(t: Table, more: Table, parent: Option<Id>, name: string)
    requires FindChild(t, parent, name).Some?
    ensures FindChild(t + more, parent, name) == FindChild(t, parent, name)
  {
    assert (t + more)[1..] == t[1..] + more;
    if !(Lower(t[0].name) == Lower(name) && t[0].parent == parent) {
      FindGrowsMore(t[1..], more, parent, name);
    }
  }

  lemma {:induction false} ResolvingAppends(t: Table, next: Id, up: seq<Folder>, parts: seq<string>)
    ensures t <= Resolved(t, next, up, parts).0
    decreases |parts|
  {
    if parts != [] {
      match FindChild(t, Top(up), parts[0])
      case Some(f) => ResolvingAppends(t, next, [f] + up, parts[1..]);
      case None =>
        var f := Folder(next, parts[0], Top(up));
        ResolvingAppends(t + [f], next + 1, [f] + up, parts[1..]);
    }
  }

  /** Afterwards the parts lead to the folder that was returned. */
  lemma {:induction false} ResolvedIsThere(t: Table, next: Id, up: seq<Folder>, parts: seq<string>)
    ensures var (u, place) := Resolved(t, next, up, parts); Descend(u, up, parts) == Some(place)
    decreases |parts|
  {
    if parts != [] {
      var u := Resolved(t, next, up, parts).0;
      FindGrows(t, Folder(next, parts[0], Top(up)), Top(up), parts[0]);
      var (s, n) := if FindChild(t, Top(up), parts[0]).Some? then (t, next)
                    else (t + [Folder(next, parts[0], Top(up))], next + 1);
      var f := FindChild(s, Top(up), parts[0]).value;
      ResolvedIsThere(s, n, [f] + up, parts[1..]);
      ResolvingAppends(s, n, [f] + up, parts[1..]);
      FindGrowsMore(s, u[|s|..], Top(up), parts[0]);
      assert u == s + u[|s|..];
    }
  }

  lemma {:induction false} NewIdIsNew(t: Table, next: Id, id: Id)
    requires Unused(t, next) && next <= id
    ensures ById(t, id).None?
  {
    if t != [] {
      NewIdIsNew(t[1..], next, id);
    }
  }

  lemma {:induction false} AppendKeepsIds(t: Table, f: Folder, next: Id)
    requires DistinctIds(t) && Unused(t, next) && f.id == next && (f.parent.Some? ==> f.parent.value < next)
    ensures DistinctIds(t + [f]) && Unused(t + [f], next + 1)
  {
    if t == [] {
      assert t + [f] == [f];
    } else {
      AppendKeepsIds(t[1..], f, next);
      assert (t + [f])[1..] == t[1..] + [f];
      ByIdGrows(t[1..], f, t[0].id);
    }
  }

  lemma {:induction false} ByIdGrows(t: Table, f: Folder, id: Id)
    ensures ById(t + [f], id) == if ById(t, id).Some? then ById(t, id) else if f.id == id then Some(f) else None
  {
    if t == [] {
      assert t + [f] == [f];
    } else {
      ByIdGrows(t[1..], f, id);
      assert (t + [f])[1..] == t[1..] + [f];
    }
  }

  lemma {:induction false} AppendKeepsSiblings(t: Table, f: Folder)
    requires NoTwins(t) && FindChild(t, f.parent, f.name).None?
    ensures NoTwins(t + [f])
  {
    if t == [] {
      assert t + [f] == [f];
    } else {
      assert (t + [f])[1..] == t[1..] + [f];
      AppendKeepsSiblings(t[1..], f);
      FindGrows(t[1..], f, t[0].parent, t[0].name);
    }
  }

  predicate TopUnused(up: seq<Folder>, next: Id) {
    up != [] ==> up[0].id < next
  }

  lemma {:induction false} FoundIsUsed(t: Table, next: Id, parent: Option<Id>, name: string)
    requires Unused(t, next) && FindChild(t, parent, name).Some?
    ensures FindChild(t, parent, name).value.id < next && (parent.Some? ==> parent.value < next)
  {
    if !(Lower(t[0].name) == Lower(name) && t[0].parent == parent) {
      FoundIsUsed(t[1..], next, parent, name);
    }
  }

  lemma {:induction false} ResolvingKeepsIds(t: Table, next: Id, up: seq<Folder>, parts: seq<string>)
    requires DistinctIds(t) && Unused(t, next) && TopUnused(up, next)
    ensures var u := Resolved(t, next, up, parts).0;
            DistinctIds(u) && |t| <= |u| && Unused(u, next + |u| - |t|)
    decreases |parts|
  {
    if parts != [] {
      match FindChild(t, Top(up), parts[0])
      case Some(f) =>
        FoundIsUsed(t, next, Top(up), parts[0]);
        ResolvingKeepsIds(t, next, [f] + up, parts[1..]);
      case None =>
        var f := Folder(next, parts[0], Top(up));
        AppendKeepsIds(t, f, next);
        ResolvingKeepsIds(t + [f], next + 1, [f] + up, parts[1..]);
    }
  }

  // ------------------------------------------------------------ main results

  /** The folder a path resolves to has that path, up to letter case, when it is rebuilt. */
  lemma ResolvedFolderHasThePath(t: Table, next: Id, path: string)
    requires DistinctIds(t) && Unused(t, next)
    ensures var (u, place) := Resolved(t, next, [], Parts(path));
            LowerAll(RebuiltParts(u, Top(place))) == LowerAll(Parts(path))
  {
    var parts := Parts(path);
    var (u, place) := Resolved(t, next, [], parts);
    ResolvingKeepsIds(t, next, [], parts);
    ResolvedIsThere(t, next, [], parts);
    DescentSpellsThePath(u, [], parts);
    RebuiltIsTheChain(u, Top(place), place, {});
    assert LowerAll(Reverse(Names([]))) == [];
  }

  /** The first levels that are there. */
  function Followed(t: Table, up: seq<Folder>, parts: seq<string>): (k: nat)
    ensures k <= |parts|
    decreases |parts|
  {
    if parts == [] || FindChild(t, Top(up), parts[0]).None? then 0
    else 1 + Followed(t, [FindChild(t, Top(up), parts[0]).value] + up, parts[1..])
  }

  /** One new folder inside the other. */
  function Chain(parent: Option<Id>, names: seq<string>, next: Id): Table
    decreases |names|
  {
    if names == [] then [] else [Folder(next, names[0], parent)] + Chain(Some(next), names[1..], next + 1)
  }

  lemma {:induction false} NoChildOfNew(t: Table, next: Id, name: string)
    requires Unused(t, next)
    ensures FindChild(t, Some(next), name).None?
  {
    if t != [] {
      NoChildOfNew(t[1..], next, name);
    }
  }

  lemma {:induction false} RestIsNew(t: Table, next: Id, up: seq<Folder>, parts: seq<string>)
    requires Unused(t, next) && TopUnused(up, next) && DistinctIds(t)
    requires parts != [] ==> FindChild(t, Top(up), parts[0]).None?
    ensures Resolved(t, next, up, parts).0 == t + Chain(Top(up), parts, next)
    decreases |parts|
  {
    if parts == [] {
      assert t + [] == t;
    } else {
      var f := Folder(next, parts[0], Top(up));
      AppendKeepsIds(t, f, next);
      if parts[1..] != [] {
        NoChildOfNew(t, next, parts[1]);
        FindGrows(t, f, Some(next), parts[1]);
      }
      RestIsNew(t + [f], next + 1, [f] + up, parts[1..]);
      assert t + [f] + Chain(Some(next), parts[1..], next + 1) == t + ([f] + Chain(Some(next), parts[1..], next + 1));
    }
  }

  /** Resolving adds exactly the missing levels, one inside the other, below the levels that are there. */
  lemma {:induction false} OnlyMissingLevelsAreAdded(t: Table, next: Id, up: seq<Folder>, parts: seq<string>)
    requires DistinctIds(t) && Unused(t, next) && TopUnused(up, next)
    ensures var k := Followed(t, up, parts);
            && Descend(t, up, parts[..k]).Some?
            && Resolved(t, next, up, parts).0 == t + Chain(Top(Descend(t, up, parts[..k]).value), parts[k..], next)
    decreases |parts|
  {
    var k := Followed(t, up, parts);
    if k == 0 {
      assert parts[..0] == [] && parts[0..] == parts;
      RestIsNew(t, next, up, parts);
    } else {
      FoundIsUsed(t, next, Top(up), parts[0]);
      OnlyMissingLevelsAreAdded(t, next, [FindChild(t, Top(up), parts[0]).value] + up, parts[1..]);
      assert parts[..k][1..] == parts[1..][..k - 1];
      assert parts[k..] == parts[1..][k - 1..];
    }
  }

  /** Siblings stay unique ignoring case. */
  lemma {:induction false} SiblingsStayUnique(t: Table, next: Id, up: seq<Folder>, parts: seq<string>)
    requires NoTwins(t)
    ensures NoTwins(Resolved(t, next, up, parts).0)
    decreases |parts|
  {
    if parts != [] {
      match FindChild(t, Top(up), parts[0])
      case Some(f) => SiblingsStayUnique(t, next, [f] + up, parts[1..]);
      case None =>
        var f := Folder(next, parts[0], Top(up));
        AppendKeepsSiblings(t, f);
        SiblingsStayUnique(t + [f], next + 1, [f] + up, parts[1..]);
    }
  }

  /** A path that differs only in letter case and in the spacing around its parts resolves to the same
      folder and adds nothing. */
  lemma ResolvingAgainFindsIt(t: Table, next: Id, path: string, again: string, later: Id)
    requires LowerAll(Parts(again)) == LowerAll(Parts(path))
    ensures var (u, place) := Resolved(t, next, [], Parts(path));
            Resolved(u, later, [], Parts(again)) == (u, place)
  {
    var (u, place) := Resolved(t, next, [], Parts(path));
    ResolvedIsThere(t, next, [], Parts(path));
    DescendIgnoresCase(u, [], Parts(path));
    DescendIgnoresCase(u, [], Parts(again));
    DescendIsResolved(u, later, [], Parts(again));
  }

  lemma {:induction false} NoTwinsFindsItself(t: Table, f: Folder)
    requires NoTwins(t) && ById(t, f.id) == Some(f)
    ensures FindChild(t, f.parent, f.name) == Some(f)
  {
    if t[0].id != f.id {
      NoTwinsFindsItself(t[1..], f);
      if Lower(f.name) == Lower(t[0].name) {
        FindByLower(t[1..], f.parent, f.name, t[0].name);
      }
    }
  }

  lemma {:induction false} FindByLower(t: Table, parent: Option<Id>, name: string, other: string)
    requires Lower(name) == Lower(other)
    ensures FindChild(t, parent, name) == FindChild(t, parent, other)
  {
    if t != [] {
      FindByLower(t[1..], parent, name, other);
    }
  }

  lemma {:induction false} ChainIsFollowed(t: Table, id: Option<Id>, up: seq<Folder>)
    requires NoTwins(t) && Reaches(t, id, up)
    ensures Descend(t, [], Reverse(Names(up))) == Some(up)
    decreases |up|
  {
    if up != [] {
      ChainIsFollowed(t, up[0].parent, up[1..]);
      NoTwinsFindsItself(t, up[0]);
      DescendOfConcat(t, [], Reverse(Names(up[1..])), [up[0].name]);
      assert Names(up)[1..] == Names(up[1..]);
      assert up == [up[0]] + up[1..];
      assert Top(up[1..]) == up[0].parent;
    }
  }

  /** The rebuilt path of a folder under the root resolves back to it and adds nothing, when siblings are
      unique ignoring case and the names on the way are trimmed, non-empty and free of slashes. */
  lemma RebuiltPathFindsItsFolder(t: Table, next: Id, id: Option<Id>, up: seq<Folder>)
    requires NoTwins(t) && Reaches(t, id, up) && Canonical(RebuiltParts(t, id))
    ensures Resolved(t, next, [], Parts(PathOf(RebuiltParts(t, id)))) == (t, up) && Top(up) == id
  {
    RebuiltIsTheChain(t, id, up, {});
    ChainIsFollowed(t, id, up);
    PartsOfPath(RebuiltParts(t, id));
    DescendIsResolved(t, next, [], RebuiltParts(t, id));
  }
}
