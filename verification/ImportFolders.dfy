/** The folder resolver of backend/importers/persist.py. Unlike the one of the repository sync it compares
    names exactly, keeps its cache by the path as written, and fails on a path not in canonical form. */
module ImportFolders {
  import opened Prelude
  import opened Text
  import opened Paths

  datatype Resolution = Resolved(id: Id) | KeyError

  function FindExact(t: Table, parent: Option<Id>, name: string): Option<Id> {
    if t == [] then None
    else if t[0].name == name && t[0].parent == parent then Some(t[0].id)
    else FindExact(t[1..], parent, name)
  }

  /** Follow existing folders down; the result is the last one, or nothing if a level is missing. */
  function Follow(t: Table, parent: Option<Id>, parts: seq<string>): Option<Option<Id>>
    decreases |parts|
  {
    if parts == [] then Some(parent)
    else
      match FindExact(t, parent, parts[0])
      case None => None
      case Some(id) => Follow(t, Some(id), parts[1..])
  }

  /** Follow parts down, adding the folder that is missing at each level. */
  function Filled(t: Table, next: Id, parent: Option<Id>, parts: seq<string>): (Table, Option<Id>)
    decreases |parts|
  {
    if parts == [] then (t, parent)
    else
      match FindExact(t, parent, parts[0])
      case Some(id) => Filled(t, next, Some(id), parts[1..])
      case None => Filled(t + [Folder(next, parts[0], parent)], next + 1, Some(next), parts[1..])
  }

  /** The slash-join of its own trimmed non-empty parts. */
  predicate IsCanonical(path: string) {
    path == PathOf(Parts(path))
  }

  predicate Leads(t: Table, key: string, id: Id) {
    IsCanonical(key) && Follow(t, None, Parts(key)) == Some(Some(id))
  }

  ghost predicate CacheOk(t: Table, cache: map<string, Id>) {
    forall key <- cache :: Leads(t, key, cache[key])
  }

  lemma {:induction false} FindExactGrows(t: Table, f: Folder, parent: Option<Id>, name: string)
    ensures FindExact(t, parent, name).Some? ==> FindExact(t + [f], parent, name) == FindExact(t, parent, name)
    ensures FindExact(t, parent, name).None? ==> FindExact(t + [f], parent, name) == FindExact([f], parent, name)
  {
    if t == [] {
      assert t + [f] == [f];
    } else {
      FindExactGrows(t[1..], f, parent, name);
      assert (t + [f])[1..] == t[1..] + [f];
    }
  }

  lemma {:induction false} FollowGrows(t: Table, f: Folder, parent: Option<Id>, parts: seq<string>)
    requires Follow(t, parent, parts).Some?
    ensures Follow(t + [f], parent, parts) == Follow(t, parent, parts)
    decreases |parts|
  {
    if parts != [] {
      FindExactGrows(t, f, parent, parts[0]);
      FollowGrows(t, f, FindExact(t, parent, parts[0]), parts[1..]);
    }
  }

  lemma {:induction false} FollowOneMore(t: Table, parent: Option<Id>, parts: seq<string>, part: string)
    requires Follow(t, parent, parts).Some?
    ensures Follow(t, parent, parts + [part])
         == var id := FindExact(t, Follow(t, parent, parts).value, part); if id.Some? then Some(id) else None
    decreases |parts|
  {
    if parts == [] {
      assert parts + [part] == [part];
      assert [part][1..] == [];
    } else {
      assert (parts + [part])[1..] == parts[1..] + [part];
      FollowOneMore(t, FindExact(t, parent, parts[0]), parts[1..], part);
    }
  }

  lemma CacheGrows(t: Table, f: Folder, cache: map<string, Id>)
    requires CacheOk(t, cache)
    ensures CacheOk(t + [f], cache)
  {
    forall key <- cache ensures Leads(t + [f], key, cache[key]) {
      FollowGrows(t, f, None, Parts(key));
    }
  }

  function Key(parts: seq<string>, i: nat): string
    requires i <= |parts|
  {
    PathOf(parts[..i])
  }

  /** `f"{current_path}/{part}" if current_path else part` */
  function NextKey(current: string, part: string): string {
    if current != "" then current + "/" + part else part
  }

  lemma NextKeyIsPath(parts: seq<string>, i: nat)
    requires Canonical(parts) && i < |parts|
    ensures NextKey(Key(parts, i), parts[i]) == Key(parts, i + 1)
  {
    TakeOneMore(parts, i);
    CanonicalPrefix(parts, i);
    if i > 0 {
      JoinOneMore(parts[..i], parts[i], '/');
      assert parts[..i][0] == parts[0];
    }
  }

  lemma KeyIsCanonical(parts: seq<string>, i: nat)
    requires Canonical(parts) && i <= |parts|
    ensures Parts(Key(parts, i)) == parts[..i] && IsCanonical(Key(parts, i))
  {
    CanonicalPrefix(parts, i);
    PartsOfPath(parts[..i]);
  }

  /** The walk has followed the first `i` parts, and following the rest will end at `goal`. */
  ghost predicate Walking(t: Table, next: Id, cache: map<string, Id>, parts: seq<string>, i: nat,
                          id: Option<Id>, goal: (Table, Option<Id>)) {
    && CacheOk(t, cache) && Canonical(parts)
    && i <= |parts| && Follow(t, None, parts[..i]) == Some(id)
    && Filled(t, next, id, parts[i..]) == goal
    && (i > 0 ==> Key(parts, i) in cache)
  }

  datatype Level = Level(folders: Table, next: Id, cache: map<string, Id>, id: Id)

  /** One level: the folder the cache names, or else the first that matches, or else a new one. */
  function OneLevel(t: Table, next: Id, cache: map<string, Id>, key: string, part: string, parent: Option<Id>): Level {
    if key in cache then Level(t, next, cache, cache[key])
    else
      match FindExact(t, parent, part)
      case Some(id) => Level(t, next, cache[key := id], id)
      case None => Level(t + [Folder(next, part, parent)], next + 1, cache[key := next], next)
  }

  lemma WalkFollows(t: Table, next: Id, cache: map<string, Id>, parts: seq<string>, i: nat,
                    id: Option<Id>, goal: (Table, Option<Id>))
    requires Walking(t, next, cache, parts, i, id, goal) && i < |parts|
    requires Key(parts, i + 1) in cache || FindExact(t, id, parts[i]).Some?
    ensures FindExact(t, id, parts[i]).Some?
    ensures var found := FindExact(t, id, parts[i]).value;
            && (Key(parts, i + 1) in cache ==> cache[Key(parts, i + 1)] == found)
            && Walking(t, next, cache[Key(parts, i + 1) := found], parts, i + 1, Some(found), goal)
  {
    TakeOneMore(parts, i);
    FollowOneMore(t, None, parts[..i], parts[i]);
    KeyIsCanonical(parts, i + 1);
  }

  lemma WalkAdds(t: Table, next: Id, cache: map<string, Id>, parts: seq<string>, i: nat,
                 id: Option<Id>, goal: (Table, Option<Id>))
    requires Walking(t, next, cache, parts, i, id, goal) && i < |parts| && FindExact(t, id, parts[i]).None?
    ensures Walking(t + [Folder(next, parts[i], id)], next + 1, cache[Key(parts, i + 1) := next], parts, i + 1,
                    Some(next), goal)
  {
    var f := Folder(next, parts[i], id);
    TakeOneMore(parts, i);
    FollowGrows(t, f, None, parts[..i]);
    FindExactGrows(t, f, id, parts[i]);
    FollowOneMore(t + [f], None, parts[..i], parts[i]);
    KeyIsCanonical(parts, i + 1);
    CacheGrows(t, f, cache);
  }

  lemma WalkSteps(t: Table, next: Id, cache: map<string, Id>, parts: seq<string>, i: nat,
                  id: Option<Id>, goal: (Table, Option<Id>))
    requires Walking(t, next, cache, parts, i, id, goal) && i < |parts|
    ensures var l := OneLevel(t, next, cache, Key(parts, i + 1), parts[i], id);
            && Walking(l.folders, l.next, l.cache, parts, i + 1, Some(l.id), goal)
            && l.next - next == |l.folders| - |t|
  {
    if Key(parts, i + 1) in cache || FindExact(t, id, parts[i]).Some? {
      WalkFollows(t, next, cache, parts, i, id, goal);
      if Key(parts, i + 1) in cache {
        UpdateWithItself(cache, Key(parts, i + 1));
      }
    } else {
      WalkAdds(t, next, cache, parts, i, id, goal);
    }
  }

  lemma WalkStarts(t: Table, next: Id, cache: map<string, Id>, parts: seq<string>)
    requires CacheOk(t, cache) && Canonical(parts)
    ensures Walking(t, next, cache, parts, 0, None, Filled(t, next, None, parts)) && Key(parts, 0) == ""
  {
    assert parts[0..] == parts;
  }

  /** At the end, the path as written is in the cache exactly if it is canonical. */
  lemma WalkEnds(t: Table, next: Id, cache: map<string, Id>, path: string, id: Option<Id>, goal: (Table, Option<Id>))
    requires Walking(t, next, cache, Parts(path), |Parts(path)|, id, goal) && path != ""
    ensures CacheOk(t, cache) && goal == (t, id)
    ensures path in cache <==> IsCanonical(path)
    ensures path in cache ==> Some(cache[path]) == id
  {
    var parts := Parts(path);
    assert parts[..|parts|] == parts;
  }

  class FolderImport {
    var folders: Table
    var next: Id
    var cache: map<string, Id>

    ghost predicate Valid()
      reads this
    {
      CacheOk(folders, cache)
    }

    constructor (folders: Table, next: Id)
      ensures this.folders == folders && this.next == next && cache == map[] && Valid()
    {
      this.folders, this.next, cache := folders, next, map[];
    }

    /** Fails exactly on a path that is not canonical, whatever the cache holds. */
    method GetOrCreate(path: string) returns (r: Resolution)
      requires Valid() && path != ""
      modifies this
      ensures Valid()
      ensures r.KeyError? <==> !IsCanonical(path)
      ensures r.Resolved? ==> Some(r.id) == Filled(old(folders), old(next), None, Parts(path)).1
      ensures folders == Filled(old(folders), old(next), None, Parts(path)).0
      ensures next == old(next) + |folders| - |old(folders)|
    {
      if path in cache {
        FollowIsFilled(folders, next, None, Parts(path));
        return Resolved(cache[path]);
      }
      var parts := Parts(path);
      PartsAreCanonical(path);
      var id := None;
      var current := "";
      ghost var goal := Filled(folders, next, None, parts);
      WalkStarts(folders, next, cache, parts);
      for i := 0 to |parts|
        invariant Walking(folders, next, cache, parts, i, id, goal)
        invariant current == Key(parts, i)
        invariant next == old(next) + |folders| - |old(folders)|
      {
        NextKeyIsPath(parts, i);
        WalkSteps(folders, next, cache, parts, i, id, goal);
        current := NextKey(current, parts[i]);
        var folder := Descended(current, parts[i], id);
        id := Some(folder);
      }
      WalkEnds(folders, next, cache, path, id, goal);
      r := if path in cache then Resolved(cache[path]) else KeyError;
    }

    method Descended(key: string, part: string, parent: Option<Id>) returns (id: Id)
      modifies this
      ensures Level(folders, next, cache, id) == OneLevel(old(folders), old(next), old(cache), key, part, parent)
    {
      if key in cache {
        return cache[key];
      }
      var existing := FindExact(folders, parent, part);
      if existing.Some? {
        cache := cache[key := existing.value];
        id := existing.value;
      } else {
        id := next;
        folders, next := folders + [Folder(id, part, parent)], next + 1;
        cache := cache[key := id];
      }
    }
  }

  lemma {:induction false} FollowIsFilled(t: Table, next: Id, parent: Option<Id>, parts: seq<string>)
    requires Follow(t, parent, parts).Some?
    ensures Filled(t, next, parent, parts) == (t, Follow(t, parent, parts).value)
    decreases |parts|
  {
    if parts != [] {
      FollowIsFilled(t, next, FindExact(t, parent, parts[0]), parts[1..]);
    }
  }

  lemma {:induction false} FillingAppends(t: Table, next: Id, parent: Option<Id>, parts: seq<string>)
    ensures t <= Filled(t, next, parent, parts).0
    decreases |parts|
  {
    if parts != [] {
      match FindExact(t, parent, parts[0])
      case Some(id) => FillingAppends(t, next, Some(id), parts[1..]);
      case None => FillingAppends(t + [Folder(next, parts[0], parent)], next + 1, Some(next), parts[1..]);
    }
  }

  lemma {:induction false} FindExactGrowsMore(t: Table, more: Table, parent: Option<Id>, name: string)
    requires FindExact(t, parent, name).Some?
    ensures FindExact(t + more, parent, name) == FindExact(t, parent, name)
  {
    assert (t + more)[1..] == t[1..] + more;
    if !(t[0].name == name && t[0].parent == parent) {
      FindExactGrowsMore(t[1..], more, parent, name);
    }
  }

  lemma {:induction false} FollowGrowsMore(t: Table, u: Table, parent: Option<Id>, parts: seq<string>)
    requires t <= u && Follow(t, parent, parts).Some?
    ensures Follow(u, parent, parts) == Follow(t, parent, parts)
    decreases |parts|
  {
    if parts != [] {
      FindExactGrowsMore(t, u[|t|..], parent, parts[0]);
      assert t + u[|t|..] == u;
      FollowGrowsMore(t, u, FindExact(t, parent, parts[0]), parts[1..]);
    }
  }

  /** Afterwards the parts lead to the folder that was returned. */
  lemma {:induction false} FilledIsThere(t: Table, next: Id, parent: Option<Id>, parts: seq<string>)
    ensures var (u, id) := Filled(t, next, parent, parts); Follow(u, parent, parts) == Some(id)
    decreases |parts|
  {
    if parts != [] {
      var u := Filled(t, next, parent, parts).0;
      FindExactGrows(t, Folder(next, parts[0], parent), parent, parts[0]);
      var (s, n) := if FindExact(t, parent, parts[0]).Some? then (t, next)
                    else (t + [Folder(next, parts[0], parent)], next + 1);
      var id := FindExact(s, parent, parts[0]);
      FilledIsThere(s, n, id, parts[1..]);
      FillingAppends(s, n, id, parts[1..]);
      FindExactGrowsMore(s, u[|s|..], parent, parts[0]);
      assert u == s + u[|s|..];
    }
  }
}
