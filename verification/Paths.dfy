/** Folders and the slash paths that name them. Ids are numbers; a new folder takes the next unused one. */
module Paths {
  import opened Prelude
  import opened Text

  type Id = nat
  datatype Folder = Folder(id: Id, name: string, parent: Option<Id>)
  type Table = seq<Folder>

  function Kept(segments: seq<string>): seq<string> {
    if segments == [] then []
    else (if Trim(segments[0]) == "" then [] else [Trim(segments[0])]) + Kept(segments[1..])
  }

  /** The trimmed non-empty parts of a slash path. */
  function Parts(path: string): seq<string> {
    Kept(Split(path, '/'))
  }

  predicate IsPart(p: string) {
    p != "" && Trimmed(p) && '/' !in p
  }

  predicate Canonical(parts: seq<string>) {
    parts != [] ==> IsPart(parts[0]) && Canonical(parts[1..])
  }

  function PathOf(parts: seq<string>): string {
    Join(parts, '/')
  }

  lemma {:induction false} TrimHasNoMore(s: string, c: char)
    requires c !in s
    ensures c !in Trim(s)
  {
    TrimRightHasNoMore(s, c);
    TrimLeftHasNoMore(TrimRight(s), c);
  }

  lemma {:induction false} TrimRightHasNoMore(s: string, c: char)
    requires c !in s
    ensures c !in TrimRight(s)
  {
    if s != "" {
      assert s[0] in s && forall x <- s[1..] :: x in s;
      TrimRightHasNoMore(s[1..], c);
    }
  }

  lemma {:induction false} TrimLeftHasNoMore(s: string, c: char)
    requires c !in s
    ensures c !in TrimLeft(s)
  {
    if s != "" && IsSpace(s[0]) {
      assert forall x <- s[1..] :: x in s;
      TrimLeftHasNoMore(s[1..], c);
    }
  }

  lemma {:induction false} KeptIsCanonical(segments: seq<string>)
    requires forall i | 0 <= i < |segments| :: '/' !in segments[i]
    ensures Canonical(Kept(segments))
  {
    if segments != [] {
      KeptIsCanonical(segments[1..]);
      TrimHasNoMore(segments[0], '/');
      TrimTrims(segments[0]);
      if Trim(segments[0]) != "" {
        assert Kept(segments)[1..] == Kept(segments[1..]);
      } else {
        assert Kept(segments) == Kept(segments[1..]);
      }
    }
  }

  lemma PartsAreCanonical(path: string)
    ensures Canonical(Parts(path))
  {
    forall i | 0 <= i < |Split(path, '/')| ensures '/' !in Split(path, '/')[i] {
      SplitHasNoSeparator(path, '/', i);
    }
    KeptIsCanonical(Split(path, '/'));
  }

  lemma {:induction false} CanonicalIsKept(parts: seq<string>)
    requires Canonical(parts)
    ensures Kept(parts) == parts
    ensures forall p <- parts :: '/' !in p
  {
    if parts != [] {
      CanonicalIsKept(parts[1..]);
      TrimTrims(parts[0]);
    }
  }

  /** Canonical parts are recovered from their path. */
  lemma PartsOfPath(parts: seq<string>)
    requires Canonical(parts)
    ensures Parts(PathOf(parts)) == parts
  {
    CanonicalIsKept(parts);
    if parts != [] {
      SplitOfJoin(parts, '/');
    } else {
      assert Split("", '/') == [""];
      assert Kept([""]) == [];
    }
  }

  lemma {:induction false} LowerKept(segments: seq<string>)
    ensures LowerAll(Kept(segments)) == Kept(LowerAll(segments))
  {
    if segments != [] {
      LowerKept(segments[1..]);
      LowerTrim(segments[0]);
      assert LowerAll(segments)[1..] == LowerAll(segments[1..]);
      if Trim(segments[0]) != "" {
        assert Kept(segments)[1..] == Kept(segments[1..]);
      } else {
        assert Kept(segments) == Kept(segments[1..]);
      }
    }
  }

  lemma LowerParts(path: string)
    ensures LowerAll(Parts(path)) == Parts(Lower(path))
  {
    LowerKept(Split(path, '/'));
    LowerSplit(path);
  }

  lemma {:induction false} LowerHasNoSlash(s: string)
    requires '/' !in s
    ensures '/' !in Lower(s)
  {
    forall i | 0 <= i < |s| ensures Lower(s)[i] != '/' {
      LowerAt(s, i);
      assert s[i] in s;
    }
  }

  lemma {:induction false} LowerIsCanonical(parts: seq<string>)
    requires Canonical(parts)
    ensures Canonical(LowerAll(parts))
  {
    if parts != [] {
      LowerIsCanonical(parts[1..]);
      LowerHasNoSlash(parts[0]);
      LowerAt(parts[0], 0);
      LowerAt(parts[0], |parts[0]| - 1);
      assert LowerAll(parts)[1..] == LowerAll(parts[1..]);
    }
  }

  lemma {:induction false} CanonicalPrefix(parts: seq<string>, n: nat)
    requires Canonical(parts) && n <= |parts|
    ensures Canonical(parts[..n]) && (n < |parts| ==> IsPart(parts[n]))
  {
    if n > 0 {
      CanonicalPrefix(parts[1..], n - 1);
      assert parts[..n][1..] == parts[1..][..n - 1];
    }
  }

  function StripSlashesLeft(s: string): string {
    if s != "" && s[0] == '/' then StripSlashesLeft(s[1..]) else s
  }

  function StripSlashesRight(s: string): string
    decreases |s|
  {
    if s != "" && s[|s| - 1] == '/' then StripSlashesRight(s[..|s| - 1]) else s
  }

  /** `s.strip("/")` */
  function StripSlashes(s: string): string {
    StripSlashesRight(StripSlashesLeft(s))
  }

  predicate NoOuterSlash(s: string) {
    s != "" ==> s[0] != '/' && s[|s| - 1] != '/'
  }

  lemma {:induction false} StripsLeft(s: string)
    ensures |StripSlashesLeft(s)| <= |s|
    ensures var r := StripSlashesLeft(s); r != "" ==> r[0] != '/' && r[|r| - 1] == s[|s| - 1]
    ensures |StripSlashesLeft(s)| == |s| ==> StripSlashesLeft(s) == s
  {
    if s != "" && s[0] == '/' {
      StripsLeft(s[1..]);
    }
  }

  lemma {:induction false} StripsRight(s: string)
    ensures |StripSlashesRight(s)| <= |s|
    ensures var r := StripSlashesRight(s); r != "" ==> r[|r| - 1] != '/' && r[0] == s[0]
    ensures |StripSlashesRight(s)| == |s| ==> StripSlashesRight(s) == s
    decreases |s|
  {
    if s != "" && s[|s| - 1] == '/' {
      StripsRight(s[..|s| - 1]);
    }
  }

  lemma StripSlashesStrips(s: string)
    ensures NoOuterSlash(StripSlashes(s))
    ensures NoOuterSlash(s) ==> StripSlashes(s) == s
  {
    StripsLeft(s);
    StripsRight(StripSlashesLeft(s));
  }
}
