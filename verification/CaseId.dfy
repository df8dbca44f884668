/** The case id inside a test name, by which a CI result finds its test: backend/importers/junit_xml.py. */
module CaseId {
  import opened Prelude
  import opened Text
  import opened Paths

  predicate IsAlnum(c: char) {
    'A' <= c <= 'Z' || 'a' <= c <= 'z' || '0' <= c <= '9'
  }

  predicate IsDash(c: char) {
    c == '-' || c == '_'
  }

  function UpperChar(c: char): char {
    if 'a' <= c <= 'z' then (c as int - 32) as char else c
  }

  /** `[A-Za-z0-9]*` at the start of a string */
  function WordLength(s: string): (n: nat)
    ensures n <= |s|
  {
    if s != "" && IsAlnum(s[0]) then 1 + WordLength(s[1..]) else 0
  }

  /** `([A-Za-z0-9]+(?:[-_][A-Za-z0-9]+)*)?` at the start of a string, as long as it goes */
  function TailLength(s: string): (n: nat)
    ensures n <= |s|
    decreases |s|
  {
    var w := WordLength(s);
    if w == 0 then 0
    else if w < |s| && IsDash(s[w]) && WordLength(s[w + 1..]) > 0 then w + 1 + TailLength(s[w + 1..])
    else w
  }

  /** The tail of a token `TC[-_ ]tail` at the start of a string. */
  function TokenAt(s: string): Option<string> {
    if |s| > 3 && s[0] == 'T' && s[1] == 'C' && (IsDash(s[2]) || s[2] == ' ') && IsAlnum(s[3])
    then Some(s[3..][..TailLength(s[3..])]) else None
  }

  /** The first token that is not the continuation of a word. */
  function Search(s: string, inWord: bool): Option<string> {
    if s == "" then None
    else if !inWord && TokenAt(s).Some? then TokenAt(s)
    else Search(s[1..], IsAlnum(s[0]))
  }

  /** `tail.replace("_", "-").upper()` */
  function Normal(tail: string): (r: string)
    ensures |r| == |tail|
  {
    if tail == "" then ""
    else [if tail[0] == '_' then '-' else UpperChar(tail[0])] + Normal(tail[1..])
  }

  function ExtractCaseId(parts: seq<string>): string {
    if parts == [] then ""
    else
      match Search(parts[0], false)
      case Some(tail) => "TC-" + Normal(tail)
      case None => ExtractCaseId(parts[1..])
  }

  /** `s.replace("::", ".")` */
  function ColonsToDot(s: string): string {
    if s == "" then ""
    else if |s| > 1 && s[0] == ':' && s[1] == ':' then "." + ColonsToDot(s[2..])
    else [s[0]] + ColonsToDot(s[1..])
  }

  function DotsToSlashes(s: string): string {
    if s == "" then "" else [if s[0] == '.' then '/' else s[0]] + DotsToSlashes(s[1..])
  }

  /** The folder of a test, from its class name or else its suite. */
  function FolderFor(suiteName: string, classname: string): string {
    if classname == "" then StripSlashes(suiteName)
    else
      var path := ColonsToDot(classname);
      StripSlashes(if '/' in path then path else DotsToSlashes(path))
  }

  // ------------------------------------------------------------ words and tails

  predicate IsWord(w: string) {
    w != "" && forall i | 0 <= i < |w| :: IsAlnum(w[i])
  }

  /** Nothing that follows can lengthen a word or a tail. */
  predicate EndsTail(rest: string) {
    rest == "" || (!IsAlnum(rest[0]) && (IsDash(rest[0]) ==> |rest| == 1 || !IsAlnum(rest[1])))
  }

  lemma {:induction false} WordEnds(w: string, rest: string)
    requires forall i | 0 <= i < |w| :: IsAlnum(w[i])
    requires rest != "" ==> !IsAlnum(rest[0])
    ensures WordLength(w + rest) == |w|
  {
    if w == "" {
      assert w + rest == rest;
    } else {
      assert (w + rest)[1..] == w[1..] + rest;
      WordEnds(w[1..], rest);
    }
  }

  /** A tail is a word followed by more words, each after its dash or underscore. */
  function Spelled(first: string, more: seq<(char, string)>): string
    decreases |more|
  {
    if more == [] then first else first + [more[0].0] + Spelled(more[0].1, more[1..])
  }

  predicate WellFormed(first: string, more: seq<(char, string)>)
    decreases |more|
  {
    IsWord(first) && (more != [] ==> IsDash(more[0].0) && WellFormed(more[0].1, more[1..]))
  }

  lemma {:induction false} SpelledStartsWithWord(first: string, more: seq<(char, string)>)
    requires WellFormed(first, more)
    ensures Spelled(first, more) != "" && IsAlnum(Spelled(first, more)[0])
  {
  }

  lemma TailGoesOn(s: string, w: nat, t: string)
    requires WordLength(s) == w > 0 && w < |s| && IsDash(s[w])
    requires s[w + 1..] == t && t != "" && IsAlnum(t[0])
    ensures TailLength(s) == w + 1 + TailLength(t)
  {
  }

  lemma TailStops(first: string, rest: string)
    requires IsWord(first) && EndsTail(rest)
    ensures TailLength(first + rest) == |first|
  {
    WordEnds(first, rest);
    if rest != "" && IsDash(rest[0]) {
      assert (first + rest)[|first| + 1..] == rest[1..];
    }
  }

  lemma {:induction false} TailIsTheWords(first: string, more: seq<(char, string)>, rest: string)
    requires WellFormed(first, more) && EndsTail(rest)
    ensures TailLength(Spelled(first, more) + rest) == |Spelled(first, more)|
    decreases |more|
  {
    if more == [] {
      TailStops(first, rest);
    } else {
      var next := Spelled(more[0].1, more[1..]);
      SpelledStartsWithWord(more[0].1, more[1..]);
      TailIsTheWords(more[0].1, more[1..], rest);
      var after := [more[0].0] + (next + rest);
      Regroup(first, [more[0].0], next, rest);
      WordEnds(first, after);
      assert (first + after)[|first| + 1..] == next + rest;
      TailGoesOn(first + after, |first|, next + rest);
    }
  }

  // ------------------------------------------------------------ finding the token

  lemma TokenIsFound(separator: char, first: string, more: seq<(char, string)>, rest: string)
    requires IsDash(separator) || separator == ' '
    requires WellFormed(first, more) && EndsTail(rest)
    ensures TokenAt("TC" + [separator] + Spelled(first, more) + rest) == Some(Spelled(first, more))
  {
    var s := "TC" + [separator] + Spelled(first, more) + rest;
    SpelledStartsWithWord(first, more);
    TailIsTheWords(first, more, rest);
    assert s[3..] == Spelled(first, more) + rest;
    assert s[3] == Spelled(first, more)[0];
    assert (Spelled(first, more) + rest)[..|Spelled(first, more)|] == Spelled(first, more);
  }

  /** No token starts inside `before`, whatever follows it. */
  predicate NoTokenIn(before: string, token: string, inWord: bool) {
    before != "" ==>
      (inWord || TokenAt(before + token).None?) && NoTokenIn(before[1..], token, IsAlnum(before[0]))
  }

  predicate EndsWord(before: string) {
    before == "" || !IsAlnum(before[|before| - 1])
  }

  lemma {:induction false} SearchSkips(before: string, token: string, inWord: bool)
    requires NoTokenIn(before, token, inWord) && TokenAt(token).Some?
    requires if before == "" then !inWord else EndsWord(before)
    ensures Search(before + token, inWord) == TokenAt(token)
  {
    if before == "" {
      assert before + token == token;
    } else {
      assert (before + token)[1..] == before[1..] + token;
      SearchSkips(before[1..], token, IsAlnum(before[0]));
    }
  }

  function Upper(s: string): (r: string)
    ensures |r| == |s|
  {
    if s == "" then "" else [UpperChar(s[0])] + Upper(s[1..])
  }

  function UpperWords(first: string, more: seq<(char, string)>): seq<string>
    decreases |more|
  {
    [Upper(first)] + if more == [] then [] else UpperWords(more[0].1, more[1..])
  }

  lemma {:induction false} NormalOfConcat(a: string, b: string)
    ensures Normal(a + b) == Normal(a) + Normal(b)
  {
    if a == "" {
      assert a + b == b;
    } else {
      assert (a + b)[1..] == a[1..] + b;
      NormalOfConcat(a[1..], b);
    }
  }

  lemma {:induction false} NormalOfWord(w: string)
    requires forall i | 0 <= i < |w| :: IsAlnum(w[i])
    ensures Normal(w) == Upper(w)
  {
    if w != "" {
      NormalOfWord(w[1..]);
    }
  }

  lemma {:induction false} NormalOfSpelled(first: string, more: seq<(char, string)>)
    requires WellFormed(first, more)
    ensures Normal(Spelled(first, more)) == Join(UpperWords(first, more), '-')
    decreases |more|
  {
    NormalOfWord(first);
    if more != [] {
      var next := Spelled(more[0].1, more[1..]);
      NormalOfSpelled(more[0].1, more[1..]);
      NormalOfConcat(first + [more[0].0], next);
      NormalOfConcat(first, [more[0].0]);
      assert Normal([more[0].0]) == "-";
      assert UpperWords(first, more)[1..] == UpperWords(more[0].1, more[1..]);
    }
  }

  // ------------------------------------------------------------ main results

  /** A name that carries a token has the id made of the token's words: neither their case, nor the
      separators between them, nor the text around the token or in later parts matters. */
  lemma TokenGivesTheId(before: string, separator: char, first: string, more: seq<(char, string)>, rest: string,
                        others: seq<string>)
    requires IsDash(separator) || separator == ' '
    requires WellFormed(first, more) && EndsTail(rest) && EndsWord(before)
    requires NoTokenIn(before, "TC" + [separator] + Spelled(first, more) + rest, false)
    ensures ExtractCaseId([before + ("TC" + [separator] + Spelled(first, more) + rest)] + others)
         == "TC-" + Join(UpperWords(first, more), '-')
  {
    var token := "TC" + [separator] + Spelled(first, more) + rest;
    TokenIsFound(separator, first, more, rest);
    SearchSkips(before, token, false);
    NormalOfSpelled(first, more);
    assert ([before + token] + others)[0] == before + token;
  }

  lemma {:induction false} WordIsAlnum(s: string)
    ensures forall i | 0 <= i < WordLength(s) :: IsAlnum(s[i])
  {
    if s != "" && IsAlnum(s[0]) {
      WordIsAlnum(s[1..]);
      forall i | 0 <= i < WordLength(s) ensures IsAlnum(s[i]) {
        if i > 0 {
          assert IsAlnum(s[1..][i - 1]);
        }
      }
    }
  }

  /** Every tail the pattern matches is made of words. */
  lemma {:induction false} TailHasWords(s: string) returns (first: string, more: seq<(char, string)>)
    requires WordLength(s) > 0
    ensures WellFormed(first, more) && s[..TailLength(s)] == Spelled(first, more)
    decreases |s|
  {
    var w := WordLength(s);
    WordIsAlnum(s);
    first, more := s[..w], [];
    if w < |s| && IsDash(s[w]) && WordLength(s[w + 1..]) > 0 {
      var next, others := TailHasWords(s[w + 1..]);
      more := [(s[w], next)] + others;
      assert more[1..] == others;
      TakeAcross(s, w, TailLength(s[w + 1..]));
    }
  }

  lemma {:induction false} FoundTailHasWords(s: string, inWord: bool) returns (first: string, more: seq<(char, string)>)
    requires Search(s, inWord).Some?
    ensures WellFormed(first, more) && Search(s, inWord) == Some(Spelled(first, more))
  {
    if !inWord && TokenAt(s).Some? {
      first, more := TailHasWords(s[3..]);
    } else {
      first, more := FoundTailHasWords(s[1..], IsAlnum(s[0]));
    }
  }

  function Raised(more: seq<(char, string)>): seq<(char, string)> {
    if more == [] then [] else [('-', Upper(more[0].1))] + Raised(more[1..])
  }

  lemma {:induction false} UpperOfWord(w: string)
    requires forall i | 0 <= i < |w| :: IsAlnum(w[i])
    ensures forall i | 0 <= i < |w| :: IsAlnum(Upper(w)[i])
    ensures Upper(Upper(w)) == Upper(w)
  {
    if w != "" {
      UpperOfWord(w[1..]);
      assert Upper(w)[1..] == Upper(w[1..]);
    }
  }

  lemma {:induction false} RaisedIsWellFormed(first: string, more: seq<(char, string)>)
    requires WellFormed(first, more)
    ensures WellFormed(Upper(first), Raised(more))
    ensures Spelled(Upper(first), Raised(more)) == Join(UpperWords(first, more), '-')
    ensures UpperWords(Upper(first), Raised(more)) == UpperWords(first, more)
    decreases |more|
  {
    UpperOfWord(first);
    if more != [] {
      RaisedIsWellFormed(more[0].1, more[1..]);
      assert Raised(more)[1..] == Raised(more[1..]);
      assert UpperWords(first, more)[1..] == UpperWords(more[0].1, more[1..]);
    }
  }

  lemma TokenAlone(first: string, more: seq<(char, string)>)
    requires WellFormed(first, more)
    ensures ExtractCaseId(["TC" + ['-'] + Spelled(first, more)]) == "TC-" + Join(UpperWords(first, more), '-')
  {
    var token := "TC" + ['-'] + Spelled(first, more);
    TokenGivesTheId("", '-', first, more, "", []);
    assert token + "" == token && "" + token == token;
    assert [token] + [] == [token];
  }

  /** An id that was extracted is its own case id. */
  lemma {:induction false} ExtractingAgain(parts: seq<string>)
    requires ExtractCaseId(parts) != ""
    ensures ExtractCaseId([ExtractCaseId(parts)]) == ExtractCaseId(parts)
  {
    if Search(parts[0], false).Some? {
      var first, more := FoundTailHasWords(parts[0], false);
      NormalOfSpelled(first, more);
      RaisedIsWellFormed(first, more);
      TokenAlone(Upper(first), Raised(more));
      assert "TC" + ['-'] == "TC-";
    } else {
      ExtractingAgain(parts[1..]);
    }
  }

  /** The key a synced test is linked by: `extract_case_id(id) or id` */
  function ExternalKey(id: string): string {
    if ExtractCaseId([id]) != "" then ExtractCaseId([id]) else id
  }

  /** A CI result finds a synced test exactly when both carry a token and the tokens give the same id. In
      particular an id without a token, such as one in lower case, is found by no result. */
  lemma FoundIffSameToken(parts: seq<string>, id: string)
    ensures ExtractCaseId(parts) != "" && ExtractCaseId(parts) == ExternalKey(id)
       <==> ExtractCaseId([id]) != "" && ExtractCaseId(parts) == ExtractCaseId([id])
  {
    if ExtractCaseId(parts) != "" {
      ExtractingAgain(parts);
    }
  }

  /** What an id is made of. */
  predicate IsIdChar(c: char) {
    'A' <= c <= 'Z' || '0' <= c <= '9' || c == '-'
  }

  predicate IsIdText(s: string) {
    forall i | 0 <= i < |s| :: IsIdChar(s[i])
  }

  lemma {:induction false} NormalIsIdText(tail: string)
    requires forall i | 0 <= i < |tail| :: IsAlnum(tail[i]) || IsDash(tail[i])
    ensures IsIdText(Normal(tail))
  {
    if tail != "" {
      NormalIsIdText(tail[1..]);
    }
  }

  lemma {:induction false} SpelledText(first: string, more: seq<(char, string)>)
    requires WellFormed(first, more)
    ensures forall i | 0 <= i < |Spelled(first, more)| :: IsAlnum(Spelled(first, more)[i]) || IsDash(Spelled(first, more)[i])
    decreases |more|
  {
    if more != [] {
      SpelledText(more[0].1, more[1..]);
    }
  }

  /** An extracted id has upper-case letters, digits and dashes only. */
  lemma {:induction false} ExtractedIdIsUpper(parts: seq<string>)
    ensures IsIdText(ExtractCaseId(parts))
  {
    if parts != [] {
      if Search(parts[0], false).Some? {
        var first, more := FoundTailHasWords(parts[0], false);
        SpelledText(first, more);
        NormalIsIdText(Spelled(first, more));
      } else {
        ExtractedIdIsUpper(parts[1..]);
      }
    }
  }
}
