/** From class names to folder paths: which names nest, and which make an import fail because a path with an
    empty part inside is not canonical. */
module ClassNames {
  import opened Text
  import opened Paths
  import opened ImportFolders
  import opened CaseId
  import opened Persist

  predicate DoubleSlashAt(path: string, i: nat) {
    i + 1 < |path| && path[i] == '/' && path[i + 1] == '/'
  }

  lemma {:induction false} NoDoubleSlash(parts: seq<string>, i: nat)
    requires Canonical(parts)
    ensures !DoubleSlashAt(PathOf(parts), i)
    ensures parts != [] ==> PathOf(parts) != "" && PathOf(parts)[0] == parts[0][0]
  {
    if parts != [] {
      var first, path := parts[0], PathOf(parts);
      assert forall k | 0 <= k < |first| :: first[k] != '/';
      if |parts| > 1 {
        NoDoubleSlash(parts[1..], if i > |first| then i - |first| - 1 else 0);
        var rest := PathOf(parts[1..]);
        assert path == first + ['/'] + rest;
        assert parts[1][0] in parts[1];
        assert i > |first| && i + 1 < |path| ==> path[i] == rest[i - |first| - 1] && path[i + 1] == rest[i - |first|];
        assert path[|first| + 1] == rest[0];
      }
    }
  }

  /** An import with a double slash in the folder path of any test fails. */
  lemma {:induction false} DoubleSlashFailsTheImport(t: TestData, i: nat, tests: seq<TestData>)
    requires DoubleSlashAt(t.folderPath, i) && t in tests
    ensures !PathsAreCanonical(tests)
  {
    if tests[0] == t {
      PartsAreCanonical(t.folderPath);
      NoDoubleSlash(Parts(t.folderPath), i);
    } else {
      DoubleSlashFailsTheImport(t, i, tests[1..]);
    }
  }

  lemma {:induction false} DotsAreSlashes(s: string, i: nat)
    requires i < |s| && '/' !in s
    ensures |DotsToSlashes(s)| == |s| && (DotsToSlashes(s)[i] == '/' <==> s[i] == '.')
  {
    assert s[0] in s && forall c <- s[1..] :: c in s;
    if |s| > 1 {
      DotsAreSlashes(s[1..], if i > 0 then i - 1 else 0);
    } else {
      assert s[1..] == "";
    }
  }

  lemma {:induction false} StripLeftDropsSome(s: string, a: nat) returns (l: nat)
    requires a < |s| && s[a] != '/'
    ensures l <= a && StripSlashesLeft(s) == s[l..]
  {
    if s[0] == '/' {
      l := StripLeftDropsSome(s[1..], a - 1);
      assert s[1..][l..] == s[l + 1..];
      l := l + 1;
    } else {
      l := 0;
    }
  }

  lemma {:induction false} StripRightKeepsSome(s: string, b: nat) returns (h: nat)
    requires b < |s| && s[b] != '/'
    ensures b < h <= |s| && StripSlashesRight(s) == s[..h]
    decreases |s|
  {
    if s[|s| - 1] == '/' {
      h := StripRightKeepsSome(s[..|s| - 1], b);
      assert s[..|s| - 1][..h] == s[..h];
    } else {
      h := |s|;
    }
  }

  /** Two separators inside a path, with other characters before and after them, survive the stripping. */
  lemma InnerDoubleSlashStays(s: string, a: nat, i: nat, b: nat) returns (k: nat)
    requires a < i && i + 1 < b < |s| && s[a] != '/' && s[b] != '/' && DoubleSlashAt(s, i)
    ensures DoubleSlashAt(StripSlashes(s), k)
  {
    var l := StripLeftDropsSome(s, a);
    var h := StripRightKeepsSome(s[l..], b - l);
    k := i - l;
    assert s[l..][..h][k] == s[i] && s[l..][..h][k + 1] == s[i + 1];
  }

  /** A dotted name has an empty part between two others. */
  predicate EmptyPartInside(path: string, a: nat, i: nat, b: nat) {
    a < i && i + 1 < b < |path| && path[a] != '.' && path[i] == '.' && path[i + 1] == '.' && path[b] != '.'
  }

  lemma EmptyPartIsDoubleSlash(path: string, a: nat, i: nat, b: nat) returns (k: nat)
    requires '/' !in path && EmptyPartInside(path, a, i, b)
    ensures DoubleSlashAt(StripSlashes(DotsToSlashes(path)), k)
  {
    DotsAreSlashes(path, a);
    DotsAreSlashes(path, i);
    DotsAreSlashes(path, i + 1);
    DotsAreSlashes(path, b);
    k := InnerDoubleSlashStays(DotsToSlashes(path), a, i, b);
  }

  /** Every JUnit class name without a slash that has, once `::` is written as a dot, an empty part between two
      others, such as `a..b` or `a::.b`, fails the whole import. */
  lemma EmptyPartFailsTheImport(suite: string, classname: string, a: nat, i: nat, b: nat, tests: seq<TestData>, t: TestData)
    requires '/' !in ColonsToDot(classname) && EmptyPartInside(ColonsToDot(classname), a, i, b)
    requires t.folderPath == FolderFor(suite, classname) && t in tests
    ensures !PathsAreCanonical(tests)
  {
    var k := EmptyPartIsDoubleSlash(ColonsToDot(classname), a, i, b);
    DoubleSlashFailsTheImport(t, k, tests);
  }

  // ---------------------------------------------------------- names that nest

  /** A name in parts, each further one after a `.` or, if its mark says so, after `::`. */
  function Dotted(first: string, more: seq<(bool, string)>): string
    decreases |more|
  {
    if more == [] then first else first + ((if more[0].0 then "::" else ".") + Dotted(more[0].1, more[1..]))
  }

  function NamesOf(first: string, more: seq<(bool, string)>): (r: seq<string>)
    ensures r != [] && r[0] == first
    decreases |more|
  {
    [first] + if more == [] then [] else NamesOf(more[0].1, more[1..])
  }

  predicate PlainName(w: string) {
    IsPart(w) && '.' !in w && ':' !in w
  }

  predicate PlainNames(names: seq<string>) {
    names != [] ==> PlainName(names[0]) && PlainNames(names[1..])
  }

  lemma {:induction false} ColonsAfter(w: string, rest: string)
    requires ':' !in w
    ensures ColonsToDot(w + rest) == w + ColonsToDot(rest)
  {
    if w != "" {
      assert w[0] in w && forall c <- w[1..] :: c in w;
      ColonsAfter(w[1..], rest);
      TailOfConcat(w, rest);
      assert w == [w[0]] + w[1..];
    } else {
      NothingBefore(rest);
      NothingBefore(ColonsToDot(rest));
    }
  }

  lemma {:induction false} ColonsOfDotted(first: string, more: seq<(bool, string)>)
    requires PlainNames(NamesOf(first, more))
    ensures ColonsToDot(Dotted(first, more)) == Join(NamesOf(first, more), '.')
    decreases |more|
  {
    if more == [] {
      ColonsAfter(first, "");
      assert first + "" == first;
    } else {
      var rest := Dotted(more[0].1, more[1..]);
      assert NamesOf(first, more)[1..] == NamesOf(more[0].1, more[1..]);
      ColonsOfDotted(more[0].1, more[1..]);
      ColonsAfter(first, (if more[0].0 then "::" else ".") + rest);
      if more[0].0 {
        assert ("::" + rest)[2..] == rest;
      } else {
        assert ("." + rest)[1..] == rest;
      }
      ConcatIsAssociative(first, ['.'], ColonsToDot(rest));
    }
  }

  lemma {:induction false} SlashesAfter(w: string, rest: string)
    requires '.' !in w
    ensures DotsToSlashes(w + rest) == w + DotsToSlashes(rest)
  {
    if w != "" {
      assert w[0] in w && forall c <- w[1..] :: c in w;
      SlashesAfter(w[1..], rest);
      TailOfConcat(w, rest);
      assert w == [w[0]] + w[1..];
    } else {
      NothingBefore(rest);
      NothingBefore(DotsToSlashes(rest));
    }
  }

  lemma {:induction false} SlashesOfJoin(names: seq<string>)
    requires PlainNames(names)
    ensures DotsToSlashes(Join(names, '.')) == PathOf(names)
    ensures '/' !in Join(names, '.') && Canonical(names)
  {
    if names != [] {
      SlashesOfJoin(names[1..]);
      SlashesAfter(names[0], "");
      assert names[0] + "" == names[0];
      if |names| > 1 {
        var rest := Join(names[1..], '.');
        SlashesAfter(names[0], ['.'] + rest);
        assert Join(names, '.') == names[0] + (['.'] + rest);
        assert (['.'] + rest)[1..] == rest;
        ConcatIsAssociative(names[0], ['/'], DotsToSlashes(rest));
      }
    }
  }

  lemma {:induction false} PathEndsInAPart(parts: seq<string>)
    requires Canonical(parts)
    ensures NoOuterSlash(PathOf(parts)) && (parts != [] ==> PathOf(parts) != "")
  {
    if parts != [] {
      PathEndsInAPart(parts[1..]);
      assert parts[0][0] in parts[0] && parts[0][|parts[0]| - 1] in parts[0];
    }
  }

  /** A class name of dotted parts, pytest's `::` included, puts its test into the nested folder of its parts,
      and its import does not fail for that. */
  lemma ClassNameIsTheFolder(suite: string, first: string, more: seq<(bool, string)>)
    requires PlainNames(NamesOf(first, more))
    ensures var path := FolderFor(suite, Dotted(first, more));
            path == PathOf(NamesOf(first, more)) && Parts(path) == NamesOf(first, more) && IsCanonical(path)
  {
    var names := NamesOf(first, more);
    ColonsOfDotted(first, more);
    SlashesOfJoin(names);
    PathEndsInAPart(names);
    StripSlashesStrips(PathOf(names));
    PartsOfPath(names);
  }

  predicate Slashes(s: string) {
    forall i | 0 <= i < |s| :: s[i] == '/'
  }

  lemma {:induction false} SlashesGoLeft(left: string, s: string)
    requires Slashes(left)
    ensures StripSlashesLeft(left + s) == StripSlashesLeft(s)
  {
    if left == "" {
      NothingBefore(s);
    } else {
      TailOfConcat(left, s);
      SlashesGoLeft(left[1..], s);
    }
  }

  lemma {:induction false} SlashesGoRight(s: string, right: string)
    requires Slashes(right)
    ensures StripSlashesRight(s + right) == StripSlashesRight(s)
    decreases |right|
  {
    if right == "" {
      assert s + right == s;
    } else {
      SlashesGoRight(s, right[..|right| - 1]);
      assert (s + right)[..|s + right| - 1] == s + right[..|right| - 1];
    }
  }

  lemma StrippedOfSlashes(left: string, path: string, right: string)
    requires Slashes(left) && Slashes(right) && NoOuterSlash(path)
    ensures StripSlashes(left + path + right) == path
  {
    if path == "" {
      assert left + path + right == left + right + "";
      SlashesGoLeft(left + right, "");
    }
    ConcatIsAssociative(left, path, right);
    SlashesGoLeft(left, path + right);
    assert path != "" ==> StripSlashesLeft(path + right) == path + right;
    SlashesGoRight(path, right);
  }

  /** A slash path without colons is the folder, without the slashes around it, and so is the suite's name
      without a class name. */
  lemma SlashPathIsTheFolder(suite: string, left: string, path: string, right: string)
    requires Slashes(left) && Slashes(right) && NoOuterSlash(path)
    ensures FolderFor(left + path + right, "") == path
    ensures ':' !in path && '/' in left + path + right ==> FolderFor(suite, left + path + right) == path
  {
    var name := left + path + right;
    StrippedOfSlashes(left, path, right);
    if ':' !in path {
      ColonsAfter(name, "");
      assert name + "" == name;
    }
  }
}
