/** Slash paths and the folder tree: the resolver of backend/github_sync.py and the path rebuilt by
    backend/git_push.py. */
module Folders {
  import opened Prelude
  import opened Text
  import opened Paths

  // -------------------------------------------------------------- the table

  /** The first row of that parent whose name is the same up to letter case. */
  function FindChild(t: Table, parent: Option<Id>, name: string): Option<Folder> {
    if t == [] then None
    else if Lower(t[0].name) == Lower(name) && t[0].parent == parent then Some(t[0])
    else FindChild(t[1..], parent, name)
  }

  function ById(t: Table, id: Id): Option<Folder> {
    if t == [] then None else if t[0].id == id then Some(t[0]) else ById(t[1..], id)
  }

  /** A place in the tree: the folders from it up to a root folder. */
  function Top(up: seq<Folder>): Option<Id> {
    if up == [] then None else Some(up[0].id)
  }

  /** Follow existing folders down, one part at a time. */
  function Descend(t: Table, up: seq<Folder>, parts: seq<string>): Option<seq<Folder>>
    decreases |parts|
  {
    if parts == [] then Some(up)
    else
      match FindChild(t, Top(up), parts[0])
      case None => None
      case Some(f) => Descend(t, [f] + up, parts[1..])
  }

  /** Follow parts down, adding the folder that is missing at each level. */
  function Resolved(t: Table, next: Id, up: seq<Folder>, parts: seq<string>): (Table, seq<Folder>)
    decreases |parts|
  {
    if parts == [] then (t, up)
    else
      match FindChild(t, Top(up), parts[0])
      case Some(f) => Resolved(t, next, [f] + up, parts[1..])
      case None =>
        var f := Folder(next, parts[0], Top(up));
        Resolved(t + [f], next + 1, [f] + up, parts[1..])
  }

  /** The cache holds only what the table says. */
  ghost predicate CacheOk(t: Table, cache: map<string, Id>) {
    forall key <- cache :: Leads(t, key, cache[key])
  }

  predicate Leads(t: Table, key: string, id: Id) {
    var found := Descend(t, [], Parts(key));
    found.Some? && Top(found.value) == Some(id)
  }

  lemma {:induction false} FindIgnoresCase(t: Table, parent: Option<Id>, name: string)
    ensures FindChild(t, parent, Lower(name)) == FindChild(t, parent, name)
  {
    LowerTwice(name);
    if t != [] {
      FindIgnoresCase(t[1..], parent, name);
    }
  }

  lemma {:induction false} DescendIgnoresCase(t: Table, up: seq<Folder>, parts: seq<string>)
    ensures Descend(t, up, LowerAll(parts)) == Descend(t, up, parts)
    decreases |parts|
  {
    if parts != [] {
      FindIgnoresCase(t, Top(up), parts[0]);
      assert LowerAll(parts)[1..] == LowerAll(parts[1..]);
      match FindChild(t, Top(up), parts[0])
      case None =>
      case Some(f) => DescendIgnoresCase(t, [f] + up, parts[1..]);
    }
  }

  lemma {:induction false} DescendOfConcat(t: Table, up: seq<Folder>, a: seq<string>, b: seq<string>)
    requires Descend(t, up, a).Some?
    ensures Descend(t, up, a + b) == Descend(t, Descend(t, up, a).value, b)
    decreases |a|
  {
    if a == [] {
      assert a + b == b;
    } else {
      var f := FindChild(t, Top(up), a[0]).value;
      assert (a + b)[1..] == a[1..] + b;
      DescendOfConcat(t, [f] + up, a[1..], b);
    }
  }

  lemma {:induction false} FindGrows(t: Table, f: Folder, parent: Option<Id>, name: string)
    ensures FindChild(t, parent, name).Some? ==> FindChild(t + [f], parent, name) == FindChild(t, parent, name)
    ensures FindChild(t, parent, name).None? ==> FindChild(t + [f], parent, name) == FindChild([f], parent, name)
  {
    if t == [] {
      assert t + [f] == [f];
    } else {
      FindGrows(t[1..], f, parent, name);
      assert (t + [f])[1..] == t[1..] + [f];
    }
  }

  lemma {:induction false} DescendGrows(t: Table, f: Folder, up: seq<Folder>, parts: seq<string>)
    requires Descend(t, up, parts).Some?
    ensures Descend(t + [f], up, parts) == Descend(t, up, parts)
    decreases |parts|
  {
    if parts != [] {
      FindGrows(t, f, Top(up), parts[0]);
      DescendGrows(t, f, [FindChild(t, Top(up), parts[0]).value] + up, parts[1..]);
    }
  }

  lemma {:induction false} DescendIsResolved(t: Table, next: Id, up: seq<Folder>, parts: seq<string>)
    requires Descend(t, up, parts).Some?
    ensures Resolved(t, next, up, parts) == (t, Descend(t, up, parts).value)
    decreases |parts|
  {
    if parts != [] {
      DescendIsResolved(t, next, [FindChild(t, Top(up), parts[0]).value] + up, parts[1..]);
    }
  }

  lemma CacheGrows(t: Table, f: Folder, cache: map<string, Id>)
    requires CacheOk(t, cache)
    ensures CacheOk(t + [f], cache)
  {
    forall key <- cache ensures Leads(t + [f], key, cache[key]) {
      DescendGrows(t, f, [], Parts(key));
    }
  }

  /** The cache key of a prefix of the parts leads where the parts themselves do. */
  lemma KeyLeads(t: Table, parts: seq<string>)
    requires Canonical(parts)
    ensures Descend(t, [], Parts(PathOf(LowerAll(parts)))) == Descend(t, [], parts)
  {
    LowerIsCanonical(parts);
    PartsOfPath(LowerAll(parts));
    DescendIgnoresCase(t, [], parts);
  }

  lemma RawKeyLeads(t: Table, path: string)
    ensures Descend(t, [], Parts(Lower(path))) == Descend(t, [], Parts(path))
  {
    LowerParts(path);
    DescendIgnoresCase(t, [], Parts(path));
  }

  /** `f"{current}/{part}" if current else part` */
  function NextKey(current: string, part: string): string {
    if current != "" then current + "/" + Lower(part) else Lower(part)
  }

  function Key(parts: seq<string>, i: nat): string
    requires i <= |parts|
  {
    PathOf(LowerAll(parts[..i]))
  }

  lemma NextKeyOfPath(before: seq<string>, part: string)
    requires Canonical(before)
    ensures NextKey(PathOf(LowerAll(before)), part) == PathOf(LowerAll(before + [part]))
  {
    LowerAllOfConcat(before, [part]);
    assert LowerAll([part]) == [Lower(part)];
    if before != [] {
      JoinOneMore(LowerAll(before), Lower(part), '/');
      assert LowerAll(before)[0] == Lower(before[0]);
    }
  }

  lemma NextKeyIsPath(parts: seq<string>, i: nat)
    requires Canonical(parts) && i < |parts|
    ensures NextKey(Key(parts, i), parts[i]) == Key(parts, i + 1)
  {
    CanonicalPrefix(parts, i);
    NextKeyOfPath(parts[..i], parts[i]);
    TakeOneMore(parts, i);
  }

  /** The walk has followed the first `i` parts to `up`. */
  ghost predicate At(t: Table, parts: seq<string>, i: nat, up: seq<Folder>, id: Option<Id>) {
    Canonical(parts) && i <= |parts| && Descend(t, [], parts[..i]) == Some(up) && id == Top(up)
  }

  function Remaining(t: Table, next: Id, parts: seq<string>, i: nat, up: seq<Folder>): (Table, seq<Folder>)
    requires i <= |parts|
  {
    Resolved(t, next, up, parts[i..])
  }

  /** A level that is there: the walk goes on from it, and its key leads to it. */
  lemma LevelFound(t: Table, next: Id, parts: seq<string>, i: nat, up: seq<Folder>, id: Option<Id>)
    requires At(t, parts, i, up, id) && i < |parts| && FindChild(t, id, parts[i]).Some?
    ensures var f := FindChild(t, id, parts[i]).value;
            && At(t, parts, i + 1, [f] + up, Some(f.id))
            && Leads(t, Key(parts, i + 1), f.id)
            && Remaining(t, next, parts, i, up) == Remaining(t, next, parts, i + 1, [f] + up)
  {
    DescendOfConcat(t, [], parts[..i], [parts[i]]);
    TakeOneMore(parts, i);
    CanonicalPrefix(parts, i + 1);
    KeyLeads(t, parts[..i + 1]);
  }

  /** A level whose key leads somewhere is there. */
  lemma LevelLed(t: Table, parts: seq<string>, i: nat, up: seq<Folder>, id: Option<Id>, led: Id)
    requires At(t, parts, i, up, id) && i < |parts| && Leads(t, Key(parts, i + 1), led)
    ensures FindChild(t, id, parts[i]).Some? && FindChild(t, id, parts[i]).value.id == led
  {
    DescendOfConcat(t, [], parts[..i], [parts[i]]);
    TakeOneMore(parts, i);
    CanonicalPrefix(parts, i + 1);
    KeyLeads(t, parts[..i + 1]);
  }

  /** A level that is missing: the walk goes on from the folder added for it. */
  lemma LevelMissing(t: Table, next: Id, parts: seq<string>, i: nat, up: seq<Folder>, id: Option<Id>)
    requires At(t, parts, i, up, id) && i < |parts| && FindChild(t, id, parts[i]).None?
    ensures var f := Folder(next, parts[i], id);
            && At(t + [f], parts, i + 1, [f] + up, Some(next))
            && Leads(t + [f], Key(parts, i + 1), next)
            && Remaining(t, next, parts, i, up) == Remaining(t + [f], next + 1, parts, i + 1, [f] + up)
  {
    var f := Folder(next, parts[i], id);
    DescendGrows(t, f, [], parts[..i]);
    FindGrows(t, f, id, parts[i]);
    LevelFound(t + [f], next, parts, i, up, id);
    TakeOneMore(parts, i);
  }

  lemma CacheLearns(t: Table, cache: map<string, Id>, key: string, id: Id)
    requires CacheOk(t, cache) && Leads(t, key, id)
    ensures CacheOk(t, cache[key := id])
  {
  }

  /** The walk has followed the first `i` parts, and following the rest will end at `goal`. */
  ghost predicate Walking(t: Table, next: Id, cache: map<string, Id>, parts: seq<string>, i: nat,
                          id: Option<Id>, goal: (Table, seq<Folder>)) {
    && CacheOk(t, cache)
    && i <= |parts| && Descend(t, [], parts[..i]).Some?
    && At(t, parts, i, Descend(t, [], parts[..i]).value, id)
    && Remaining(t, next, parts, i, Descend(t, [], parts[..i]).value) == goal
  }

  lemma WalkStarts(t: Table, next: Id, cache: map<string, Id>, parts: seq<string>)
    requires CacheOk(t, cache) && Canonical(parts)
    ensures Walking(t, next, cache, parts, 0, None, Resolved(t, next, [], parts)) && Key(parts, 0) == ""
  {
    assert parts[0..] == parts;
  }

  lemma WalkEnds(t: Table, next: Id, cache: map<string, Id>, parts: seq<string>,
                 id: Option<Id>, goal: (Table, seq<Folder>))
    requires Walking(t, next, cache, parts, |parts|, id, goal)
    ensures CacheOk(t, cache) && t == goal.0 && id == Top(goal.1)
  {
  }

  lemma WalkFollows(t: Table, next: Id, cache: map<string, Id>, parts: seq<string>, i: nat,
                    id: Option<Id>, goal: (Table, seq<Folder>))
    requires Walking(t, next, cache, parts, i, id, goal) && i < |parts|
    requires Key(parts, i + 1) in cache || FindChild(t, id, parts[i]).Some?
    ensures FindChild(t, id, parts[i]).Some?
    ensures var f := FindChild(t, id, parts[i]).value;
            && (Key(parts, i + 1) in cache ==> cache[Key(parts, i + 1)] == f.id)
            && Walking(t, next, cache[Key(parts, i + 1) := f.id], parts, i + 1, Some(f.id), goal)
  {
    var up := Descend(t, [], parts[..i]).value;
    if Key(parts, i + 1) in cache {
      LevelLed(t, parts, i, up, id, cache[Key(parts, i + 1)]);
    }
    LevelFound(t, next, parts, i, up, id);
    CacheLearns(t, cache, Key(parts, i + 1), FindChild(t, id, parts[i]).value.id);
  }

  lemma WalkAdds(t: Table, next: Id, cache: map<string, Id>, parts: seq<string>, i: nat,
                 id: Option<Id>, goal: (Table, seq<Folder>))
    requires Walking(t, next, cache, parts, i, id, goal) && i < |parts| && FindChild(t, id, parts[i]).None?
    ensures var f := Folder(next, parts[i], id);
            Walking(t + [f], next + 1, cache[Key(parts, i + 1) := next], parts, i + 1, Some(next), goal)
  {
    var f := Folder(next, parts[i], id);
    LevelMissing(t, next, parts, i, Descend(t, [], parts[..i]).value, id);
    CacheGrows(t, f, cache);
    CacheLearns(t + [f], cache, Key(parts, i + 1), next);
  }

  datatype Level = Level(folders: Table, next: Id, cache: map<string, Id>, id: Id)

  /** One level: the folder the cache names, or else the first that matches, or else a new one. */
  function OneLevel(t: Table, next: Id, cache: map<string, Id>, key: string, part: string, parent: Option<Id>): Level {
    if key in cache then Level(t, next, cache, cache[key])
    else
      match FindChild(t, parent, part)
      case Some(f) => Level(t, next, cache[key := f.id], f.id)
      case None => Level(t + [Folder(next, part, parent)], next + 1, cache[key := next], next)
  }

  lemma WalkSteps(t: Table, next: Id, cache: map<string, Id>, parts: seq<string>, i: nat,
                  id: Option<Id>, goal: (Table, seq<Folder>))
    requires Walking(t, next, cache, parts, i, id, goal) && i < |parts|
    ensures var l := OneLevel(t, next, cache, Key(parts, i + 1), parts[i], id);
            Walking(l.folders, l.next, l.cache, parts, i + 1, Some(l.id), goal)
            && l.next - next == |l.folders| - |t|
  {
    if Key(parts, i + 1) in cache || FindChild(t, id, parts[i]).Some? {
      WalkFollows(t, next, cache, parts, i, id, goal);
      if Key(parts, i + 1) in cache {
        UpdateWithItself(cache, Key(parts, i + 1));
      }
    } else {
      WalkAdds(t, next, cache, parts, i, id, goal);
    }
  }

  class FolderSync {
    var folders: Table
    var next: Id
    var cache: map<string, Id>

    ghost predicate Valid()
      reads this
    {
      CacheOk(folders, cache)
    }

    constructor (folders: Table, next: Id)
      ensures this.folders == folders && this.next == next && cache == map[] && Valid()
    {
      this.folders, this.next, cache := folders, next, map[];
    }

    /** Whatever the cache holds, the outcome is that of resolving the parts against the table. */
    method GetOrCreate(path: string) returns (id: Option<Id>)
      requires Valid()
      modifies this
      ensures Valid()
      ensures folders == Resolved(old(folders), old(next), [], Parts(path)).0
      ensures id == Top(Resolved(old(folders), old(next), [], Parts(path)).1)
      ensures next == old(next) + |folders| - |old(folders)|
    {
      if path == "" {
        return None;
      }
      if Lower(path) in cache {
        RawKeyLeads(folders, path);
        DescendIsResolved(folders, next, [], Parts(path));
        return Some(cache[Lower(path)]);
      }
      var parts := Parts(path);
      PartsAreCanonical(path);
      id := Walk(parts);
    }

    method Walk(parts: seq<string>) returns (id: Option<Id>)
      requires Valid() && Canonical(parts)
      modifies this
      ensures Valid()
      ensures folders == Resolved(old(folders), old(next), [], parts).0
      ensures id == Top(Resolved(old(folders), old(next), [], parts).1)
      ensures next == old(next) + |folders| - |old(folders)|
    {
      id := None;
      var current := "";
      ghost var goal := Resolved(folders, next, [], parts);
      WalkStarts(folders, next, cache, parts);
      for i := 0 to |parts|
        invariant Walking(folders, next, cache, parts, i, id, goal)
        invariant current == Key(parts, i)
        invariant next == old(next) + |folders| - |old(folders)|
      {
        NextKeyIsPath(parts, i);
        WalkSteps(folders, next, cache, parts, i, id, goal);
        current := NextKey(current, parts[i]);
        var folder := Descended(current, parts[i], id);
        id := Some(folder);
      }
      WalkEnds(folders, next, cache, parts, id, goal);
    }

    method Descended(key: string, part: string, parent: Option<Id>) returns (id: Id)
      modifies this
      ensures Level(folders, next, cache, id) == OneLevel(old(folders), old(next), old(cache), key, part, parent)
    {
      if key in cache {
        return cache[key];
      }
      var existing := FindChild(folders, parent, part);
      if existing.Some? {
        cache := cache[key := existing.value.id];
        id := existing.value.id;
      } else {
        id := next;
        folders, next := folders + [Folder(id, part, parent)], next + 1;
        cache := cache[key := id];
      }
    }
  }
}
