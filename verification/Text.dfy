/** The few string operations that folder paths, test files and the list syntax are built from:
    trimming, lower-casing, splitting and joining. Letters outside ASCII are not lowered and white
    space outside ASCII is not trimmed. */
module Text {
  predicate IsSpace(c: char) {
    c == ' ' || '\t' <= c <= '\r' || '\U{1C}' <= c <= '\U{1F}'
  }

  function TrimLeft(s: string): string {
    if s != "" && IsSpace(s[0]) then TrimLeft(s[1..]) else s
  }

  function TrimRight(s: string): string {
    if s == "" then ""
    else
      var rest := TrimRight(s[1..]);
      if rest == "" && IsSpace(s[0]) then "" else [s[0]] + rest
  }

  function Trim(s: string): string {
    TrimLeft(TrimRight(s))
  }

  predicate Trimmed(s: string) {
    s != "" ==> !IsSpace(s[0]) && !IsSpace(s[|s| - 1])
  }

  function LowerChar(c: char): char {
    if 'A' <= c <= 'Z' then (c as int + 32) as char else c
  }

  function Lower(s: string): (r: string)
    ensures |r| == |s|
  {
    if s == "" then "" else [LowerChar(s[0])] + Lower(s[1..])
  }

  function LowerAll(parts: seq<string>): (r: seq<string>)
    ensures |r| == |parts|
  {
    if parts == [] then [] else [Lower(parts[0])] + LowerAll(parts[1..])
  }

  function Split(s: string, sep: char): (r: seq<string>)
    ensures r != []
  {
    if s == "" then [""]
    else if s[0] == sep then [""] + Split(s[1..], sep)
    else
      var rest := Split(s[1..], sep);
      [[s[0]] + rest[0]] + rest[1..]
  }

  function Join(parts: seq<string>, sep: char): string {
    if parts == [] then ""
    else if |parts| == 1 then parts[0]
    else parts[0] + [sep] + Join(parts[1..], sep)
  }

  function Reverse<T>(s: seq<T>): (r: seq<T>)
    ensures |r| == |s|
  {
    if s == [] then [] else Reverse(s[1..]) + [s[0]]
  }

  lemma TakeOneMore<T>(s: seq<T>, i: nat)
    requires i < |s|
    ensures s[..i + 1] == s[..i] + [s[i]]
    ensures s[i..][0] == s[i] && s[i..][1..] == s[i + 1..]
  {
  }

  lemma ConcatIsAssociative<T>(a: seq<T>, b: seq<T>, c: seq<T>)
    ensures a + b + c == a + (b + c)
  {
  }

  lemma PrefixOneMore<T>(x: T, a: seq<T>, b: seq<T>)
    requires a <= b
    ensures [x] + a <= [x] + b
  {
  }

  lemma HeadAndTail<T>(s: seq<T>)
    requires s != []
    ensures [s[0]] + s[1..] == s
  {
  }

  lemma TailOfConcat<T>(a: seq<T>, b: seq<T>)
    requires a != []
    ensures (a + b)[0] == a[0] && (a + b)[1..] == a[1..] + b
  {
  }

  lemma NothingBefore<T>(b: seq<T>)
    ensures [] + b == b
  {
  }

  lemma Regroup<T>(a: seq<T>, b: seq<T>, c: seq<T>, d: seq<T>)
    ensures a + b + c + d == a + (b + (c + d))
    ensures (a + (b + (c + d)))[|a|..] == b + (c + d)
  {
  }

  lemma TakeAcross<T>(s: seq<T>, w: nat, n: nat)
    requires w < |s| && n <= |s| - w - 1
    ensures s[..w + 1 + n] == s[..w] + [s[w]] + s[w + 1..][..n]
  {
  }

  // ------------------------------------------------------------------ trimming

  lemma {:induction false} TrimRightTrims(s: string)
    ensures var r := TrimRight(s); r != "" ==> !IsSpace(r[|r| - 1]) && r[0] == s[0]
    ensures s != "" && !IsSpace(s[|s| - 1]) ==> TrimRight(s) == s
  {
    if s != "" {
      TrimRightTrims(s[1..]);
    }
  }

  lemma {:induction false} TrimLeftTrims(s: string)
    ensures var r := TrimLeft(s); r != "" ==> !IsSpace(r[0]) && r[|r| - 1] == s[|s| - 1]
    ensures s != "" && !IsSpace(s[0]) ==> TrimLeft(s) == s
  {
    if s != "" && IsSpace(s[0]) {
      TrimLeftTrims(s[1..]);
    }
  }

  /** White space, as the source's `strip` takes it within ASCII. */
  const SPACES := [9, 10, 11, 12, 13, 28, 29, 30, 31, 32]

  predicate AllSpace(s: string) {
    forall i | 0 <= i < |s| :: s[i] as int in SPACES
  }

  predicate NoOuterSpace(s: string) {
    s != "" ==> s[0] as int !in SPACES && s[|s| - 1] as int !in SPACES
  }

  lemma SpaceIff(c: char)
    ensures IsSpace(c) <==> c as int in SPACES
  {
    assert '\t' <= c <= '\r' ==> SPACES[c as int - 9] == c as int;
    assert '\U{1C}' <= c <= '\U{1F}' ==> SPACES[c as int - 23] == c as int;
    assert SPACES[9] == 32;
  }

  lemma {:induction false} SpacesGo(s: string)
    requires AllSpace(s)
    ensures TrimRight(s) == ""
  {
    if s != "" {
      SpaceIff(s[0]);
      SpacesGo(s[1..]);
    }
  }

  lemma {:induction false} RightGoes(s: string, right: string)
    requires AllSpace(right)
    ensures TrimRight(s + right) == TrimRight(s)
  {
    if s == "" {
      NothingBefore(right);
      SpacesGo(right);
    } else {
      TailOfConcat(s, right);
      RightGoes(s[1..], right);
    }
  }

  lemma {:induction false} LeftGoes(left: string, s: string)
    requires AllSpace(left)
    ensures TrimLeft(left + s) == TrimLeft(s)
  {
    if left == "" {
      NothingBefore(s);
    } else {
      SpaceIff(left[0]);
      TailOfConcat(left, s);
      LeftGoes(left[1..], s);
    }
  }

  /** Trimming leaves the text between the white space around it. */
  lemma TrimLeavesTheMiddle(left: string, s: string, right: string)
    requires AllSpace(left) && AllSpace(right) && NoOuterSpace(s)
    ensures Trim(left + s + right) == s
  {
    RightGoes(left + s, right);
    if s == "" {
      assert left + s == left;
      SpacesGo(left);
    } else {
      SpaceIff(s[0]);
      SpaceIff(s[|s| - 1]);
      assert (left + s)[|left + s| - 1] == s[|s| - 1];
      TrimRightTrims(left + s);
      LeftGoes(left, s);
    }
  }

  /** Trimming leaves exactly the trimmed strings alone. */
  lemma TrimTrims(s: string)
    ensures Trimmed(Trim(s))
    ensures Trim(s) == s <==> Trimmed(s)
  {
    TrimRightTrims(s);
    TrimLeftTrims(TrimRight(s));
    if s != "" && Trimmed(s) {
      TrimLeftTrims(s);
    }
  }

  // ------------------------------------------------------------------ lowering

  lemma {:induction false} LowerAt(s: string, i: nat)
    requires i < |s|
    ensures Lower(s)[i] == LowerChar(s[i])
  {
    if i > 0 {
      LowerAt(s[1..], i - 1);
    }
  }

  lemma {:induction false} LowerTwice(s: string)
    ensures Lower(Lower(s)) == Lower(s)
  {
    if s != "" {
      LowerTwice(s[1..]);
      assert Lower(s)[1..] == Lower(s[1..]);
    }
  }

  lemma {:induction false} LowerTrimLeft(s: string)
    ensures Lower(TrimLeft(s)) == TrimLeft(Lower(s))
  {
    if s != "" {
      LowerTrimLeft(s[1..]);
      assert Lower(s)[1..] == Lower(s[1..]);
    }
  }

  lemma {:induction false} LowerTrimRight(s: string)
    ensures Lower(TrimRight(s)) == TrimRight(Lower(s))
  {
    if s != "" {
      LowerTrimRight(s[1..]);
      assert Lower(s)[1..] == Lower(s[1..]);
      var rest := TrimRight(s[1..]);
      if !(rest == "" && IsSpace(s[0])) {
        assert ([s[0]] + rest)[1..] == rest;
      }
    }
  }

  lemma LowerTrim(s: string)
    ensures Lower(Trim(s)) == Trim(Lower(s))
  {
    LowerTrimRight(s);
    LowerTrimLeft(TrimRight(s));
  }

  lemma {:induction false} LowerAllAt(parts: seq<string>, i: nat)
    requires i < |parts|
    ensures LowerAll(parts)[i] == Lower(parts[i])
  {
    if i > 0 {
      LowerAllAt(parts[1..], i - 1);
    }
  }

  lemma {:induction false} LowerAllOfConcat(a: seq<string>, b: seq<string>)
    ensures LowerAll(a + b) == LowerAll(a) + LowerAll(b)
  {
    if a == [] {
      NothingBefore(b);
      NothingBefore(LowerAll(b));
    } else {
      TailOfConcat(a, b);
      LowerAllOfConcat(a[1..], b);
      ConcatIsAssociative([Lower(a[0])], LowerAll(a[1..]), LowerAll(b));
    }
  }

  lemma {:induction false} LowerAllTwice(parts: seq<string>)
    ensures LowerAll(LowerAll(parts)) == LowerAll(parts)
  {
    if parts != [] {
      LowerTwice(parts[0]);
      LowerAllTwice(parts[1..]);
      assert LowerAll(parts)[1..] == LowerAll(parts[1..]);
    }
  }

  // ------------------------------------------------------- splitting and joining

  lemma {:induction false} SplitOfOne(s: string, sep: char)
    requires sep !in s
    ensures Split(s, sep) == [s]
  {
    if s != "" {
      assert s[0] in s && forall c <- s[1..] :: c in s;
      SplitOfOne(s[1..], sep);
      assert [s[0]] + s[1..] == s;
    }
  }

  lemma {:induction false} SplitAtFirst(s: string, sep: char, rest: string)
    requires sep !in s
    ensures Split(s + [sep] + rest, sep) == [s] + Split(rest, sep)
  {
    if s == "" {
      assert (s + [sep] + rest)[1..] == rest;
    } else {
      assert s[0] in s && forall c <- s[1..] :: c in s;
      SplitAtFirst(s[1..], sep, rest);
      assert [s[0]] + s[1..] == s;
      assert (s + [sep] + rest)[1..] == s[1..] + [sep] + rest;
    }
  }

  /** Splitting undoes joining, when no part holds the separator. */
  lemma {:induction false} SplitOfJoin(parts: seq<string>, sep: char)
    requires parts != [] && forall p <- parts :: sep !in p
    ensures Split(Join(parts, sep), sep) == parts
  {
    if |parts| == 1 {
      SplitOfOne(parts[0], sep);
    } else {
      SplitOfJoin(parts[1..], sep);
      SplitAtFirst(parts[0], sep, Join(parts[1..], sep));
    }
  }

  lemma {:induction false} SplitHasNoSeparator(s: string, sep: char, i: nat)
    requires i < |Split(s, sep)|
    ensures sep !in Split(s, sep)[i]
  {
    if s != "" {
      if s[0] == sep {
        if i > 0 {
          SplitHasNoSeparator(s[1..], sep, i - 1);
        }
      } else {
        SplitHasNoSeparator(s[1..], sep, i);
      }
    }
  }

  lemma {:induction false} LowerSplit(s: string)
    ensures LowerAll(Split(s, '/')) == Split(Lower(s), '/')
  {
    if s != "" {
      LowerSplit(s[1..]);
      assert Lower(s)[1..] == Lower(s[1..]);
      var rest := Split(s[1..], '/');
      if s[0] == '/' {
        assert Split(s, '/')[1..] == rest;
      } else {
        assert Split(s, '/')[1..] == rest[1..];
        assert ([s[0]] + rest[0])[1..] == rest[0];
      }
    }
  }

  lemma {:induction false} JoinOneMore(parts: seq<string>, last: string, sep: char)
    requires parts != []
    ensures Join(parts + [last], sep) == Join(parts, sep) + [sep] + last
  {
    if |parts| == 1 {
      assert (parts + [last])[1..] == [last];
    } else {
      JoinOneMore(parts[1..], last, sep);
      assert (parts + [last])[1..] == parts[1..] + [last];
    }
  }

  // ------------------------------------------------------------------ reversing

  lemma {:induction false} ReverseOfConcat<T>(a: seq<T>, b: seq<T>)
    ensures Reverse(a + b) == Reverse(b) + Reverse(a)
  {
    if a == [] {
      NothingBefore(b);
    } else {
      TailOfConcat(a, b);
      ReverseOfConcat(a[1..], b);
      ConcatIsAssociative(Reverse(b), Reverse(a[1..]), [a[0]]);
    }
  }

  lemma {:induction false} ReverseTwice<T>(s: seq<T>)
    ensures Reverse(Reverse(s)) == s
  {
    if s != [] {
      ReverseTwice(s[1..]);
      ReverseOfConcat(Reverse(s[1..]), [s[0]]);
      assert Reverse([s[0]]) == [s[0]];
    }
  }

  lemma {:induction false} LowerAllReverse(parts: seq<string>)
    ensures LowerAll(Reverse(parts)) == Reverse(LowerAll(parts))
  {
    if parts != [] {
      LowerAllReverse(parts[1..]);
      LowerAllOfConcat(Reverse(parts[1..]), [parts[0]]);
      assert LowerAll([parts[0]]) == [Lower(parts[0])];
      assert LowerAll(parts)[1..] == LowerAll(parts[1..]);
    }
  }
}
