/** Lines that say nothing: blank lines, comments and end markers only move the lines after them, and a start
    marker before a document changes nothing. */
module YamlNoise {
  import opened Prelude
  import opened Text
  import opened YamlSubset
  import opened PlainScalars
  import opened YamlRoundTrip
  import opened YamlErrors

  /** A line of spaces, a comment after spaces, or an end marker after spaces, with a comment after it or not. */
  datatype Noise = Blanks(pad: nat) | Comment(pad: nat, text: string) | End(pad: nat) | EndWith(pad: nat, text: string)

  function Spaces(n: nat): string {
    if n == 0 then "" else " " + Spaces(n - 1)
  }

  function NoiseText(n: Noise): string {
    match n
    case Blanks(pad) => Spaces(pad)
    case Comment(pad, text) => Spaces(pad) + ("#" + text)
    case End(pad) => Spaces(pad) + "..."
    case EndWith(pad, text) => Spaces(pad) + "..." + (" #" + text)
  }

  lemma SpaceIsStripped(s: string)
    ensures Strip(" " + s) == Strip(s)
  {
    assert (" " + s)[1..] == s && (" " + s)[0] == ' ';
    var t := TrimEnd(s);
    if t != "" {
      assert TrimEnd(" " + s) == [' '] + t;
      assert ([' '] + t)[1..] == t;
    }
  }

  lemma {:induction false} SpacesStay(n: nat, rest: string)
    ensures Cut(Spaces(n) + rest, true, false, false) == Spaces(n) + Cut(rest, true, false, false)
    ensures Strip(Spaces(n) + rest) == Strip(rest)
    ensures n > 0 ==> Spaces(n) != "" && Spaces(n)[0] == ' '
  {
    if n == 0 {
      NothingBefore(rest);
      NothingBefore(Cut(rest, true, false, false));
    } else {
      SpacesStay(n - 1, rest);
      ConcatIsAssociative(" ", Spaces(n - 1), rest);
      ConcatIsAssociative(" ", Spaces(n - 1), Cut(rest, true, false, false));
      assert (" " + (Spaces(n - 1) + rest))[1..] == Spaces(n - 1) + rest;
      SpaceIsStripped(Spaces(n - 1) + rest);
    }
  }

  lemma {:induction false} SpacesArePlain(n: nat)
    ensures Plain(Spaces(n)) && NoBreak(Spaces(n))
  {
    if n > 0 {
      SpacesArePlain(n - 1);
    }
  }

  lemma EndMarkerIsSkipped(s: State, pad: nat)
    ensures ReadLine(s, Spaces(pad) + "...") == Ok(s) && Uncut(Spaces(pad) + "...")
  {
    SpacesStay(pad, "...");
    SpacesArePlain(pad);
    PlainIsUncut("...", true);
    PlainIsUncut(Spaces(pad) + "...", true);
    StripStays("...");
  }

  lemma NoiseIsSkipped(s: State, n: Noise)
    ensures ReadLine(s, NoiseText(n)) == Ok(s)
  {
    match n
    case Blanks(pad) =>
      SpacesStay(pad, "");
      assert Spaces(pad) + "" == Spaces(pad);
      assert Strip("") == "" && Cut("", true, false, false) == "";
    case Comment(pad, text) =>
      SpacesStay(pad, "#" + text);
      SpacesStay(pad, "");
      assert Spaces(pad) + "" == Spaces(pad);
      assert Strip("") == "" && Cut("#" + text, true, false, false) == "";
    case End(pad) => EndMarkerIsSkipped(s, pad);
    case EndWith(pad, text) =>
      EndMarkerIsSkipped(s, pad);
      TrailingCommentIsIgnored(s, Spaces(pad) + "...", text);
  }

  // ------------------------------------------------------------ moved lines

  /** The same outcome, with the lines after line `k` one further down. */
  function Moved(o: Outcome, k: nat): Outcome {
    match o
    case Parsed(_) => o
    case ParseError(problem, line) =>
      ParseError(problem, if line.Some? && line.value > k then Some(line.value + 1) else line)
  }

  lemma {:induction false} NumberedLater(s: State, lines: seq<string>, n: nat, k: nat)
    requires k < n
    ensures ReadLines(s, lines, n + 1) == Moved(ReadLines(s, lines, n), k)
    decreases |lines|
  {
    if lines != [] && ReadLine(s, lines[0]).Ok? {
      NumberedLater(ReadLine(s, lines[0]).value, lines[1..], n + 1, k);
    }
  }

  lemma {:induction false} NoiseMovesLines(s: State, before: seq<string>, noise: Noise, after: seq<string>, n: nat)
    requires n > 0
    ensures ReadLines(s, before + ([NoiseText(noise)] + after), n) == Moved(ReadLines(s, before + after, n), n + |before| - 1)
    decreases |before|
  {
    if before == [] {
      NothingBefore([NoiseText(noise)] + after);
      NothingBefore(after);
      NoiseIsSkipped(s, noise);
      assert ([NoiseText(noise)] + after)[1..] == after;
      NumberedLater(s, after, n, n - 1);
    } else {
      TailOfConcat(before, [NoiseText(noise)] + after);
      TailOfConcat(before, after);
      if ReadLine(s, before[0]).Ok? {
        NoiseMovesLines(ReadLine(s, before[0]).value, before[1..], noise, after, n + 1);
      }
    }
  }

  lemma LinesWithOneMore(before: seq<string>, line: string, after: string)
    requires NoBreaks(before) && NoBreak(line)
    ensures Lines(Unlines(before) + (line + ['\n'] + after)) == before + ([line] + Lines(after))
  {
    LinesBefore(before, line + ['\n'] + after);
    LineIsSplitOff(line, after);
  }

  lemma TextMovesLines(text: string, longer: string, before: seq<string>, noise: Noise, after: seq<string>)
    requires Lines(text) == before + after && Lines(longer) == before + ([NoiseText(noise)] + after)
    ensures ParseText(longer) == Moved(ParseText(text), |before|)
  {
    NoiseMovesLines(START, before, noise, after, 1);
  }

  /** A blank line, a comment or an end marker anywhere in a text, good or bad, leaves what is read, or which
      problem is reported, and only moves the lines after it. */
  lemma NoiseDoesNotMatter(before: seq<string>, noise: Noise, after: string)
    requires NoBreaks(before) && NoBreak(NoiseText(noise))
    ensures ParseText(Unlines(before) + (NoiseText(noise) + ['\n'] + after)) == Moved(ParseText(Unlines(before) + after), |before|)
  {
    LinesBefore(before, after);
    LinesWithOneMore(before, NoiseText(noise), after);
    TextMovesLines(Unlines(before) + after, Unlines(before) + (NoiseText(noise) + ['\n'] + after), before, noise, Lines(after));
  }

  lemma StartedReads(text: string, lines: seq<string>, next: State)
    requires Lines(text) == ["---"] + lines && Reaches(START.(sawDocStart := true), lines, next)
    ensures ParseText(text) == Finish(next)
  {
    var started := START.(sawDocStart := true);
    PlainIsUncut("---", true);
    StripStays("---");
    assert ReadLine(START, "---") == Ok(started);
    ReachedIsRead(started, lines, next, 2);
    assert (["---"] + lines)[1..] == lines;
  }

  /** A document may begin with a start marker. */
  lemma StartMarkerDoesNotMatter(doc: seq<Field>)
    requires doc != [] && AllPrintable(doc) && DistinctKeys(doc)
    ensures ParseText("---" + ['\n'] + Print(doc)) == Parsed(Meanings(doc))
  {
    var started := START.(sawDocStart := true);
    DocDoesNotBreak(doc);
    LinesOfUnlines(DocLines(doc));
    LineIsSplitOff("---", Print(doc));
    NothingIsDefined(doc);
    var next := DocReaches(started, doc);
    EmptyLineReaches(next);
    ReachesByConcat(started, DocLines(doc), next, [""], next);
    StartedReads("---" + ['\n'] + Print(doc), DocLines(doc) + [""], next);
    NothingBefore(Meanings(doc));
  }

  /** But not with two. */
  lemma TwoMarkersAreRefused(after: string)
    ensures ParseText("---" + ['\n'] + ("---" + ['\n'] + after)) == ParseError(MultipleDocuments, Some(2))
  {
    var lines := ["---"] + Lines(after);
    LineIsSplitOff("---", "---" + ['\n'] + after);
    LineIsSplitOff("---", after);
    assert Lines("---" + ['\n'] + ("---" + ['\n'] + after)) == ["---"] + lines;
    PlainIsUncut("---", true);
    StripStays("---");
    assert ReadLine(START, "---") == Ok(START.(sawDocStart := true));
    assert ReadLine(START.(sawDocStart := true), "---") == Err(MultipleDocuments);
    assert (["---"] + lines)[1..] == lines;
    assert ReadLines(START.(sawDocStart := true), lines, 2) == ParseError(MultipleDocuments, Some(2));
  }

  // ------------------------------------------------------------ blanks around a text

  /** The white space of JavaScript. */
  const BLANKS := [9, 10, 11, 12, 13, 32, 160, 5760, 8192, 8193, 8194, 8195, 8196, 8197, 8198, 8199, 8200, 8201,
                   8202, 8232, 8233, 8239, 8287, 12288, 65279]

  lemma BlankIff(c: char)
    ensures Blank(c) <==> c as int in BLANKS
  {
    assert '\t' <= c <= '\r' ==> BLANKS[c as int - 9] == c as int;
    assert '\U{2000}' <= c <= '\U{200A}' ==> BLANKS[c as int - 8184] == c as int;
    assert BLANKS[5] == 32 && BLANKS[6] == 160 && BLANKS[7] == 5760;
    assert BLANKS[19] == 8232 && BLANKS[20] == 8233 && BLANKS[21] == 8239;
    assert BLANKS[22] == 8287 && BLANKS[23] == 12288 && BLANKS[24] == 65279;
  }

  predicate AllBlank(s: string) {
    forall i | 0 <= i < |s| :: s[i] as int in BLANKS
  }

  predicate NoOuterBlank(s: string) {
    s != "" ==> s[0] as int !in BLANKS && s[|s| - 1] as int !in BLANKS
  }

  lemma {:induction false} BlanksGo(s: string)
    requires AllBlank(s)
    ensures TrimEnd(s) == ""
  {
    if s != "" {
      BlankIff(s[0]);
      BlanksGo(s[1..]);
    }
  }

  lemma {:induction false} EndGoes(s: string, right: string)
    requires AllBlank(right)
    ensures TrimEnd(s + right) == TrimEnd(s)
  {
    if s == "" {
      NothingBefore(right);
      BlanksGo(right);
    } else {
      TailOfConcat(s, right);
      EndGoes(s[1..], right);
    }
  }

  lemma {:induction false} BlankStartGoes(left: string, s: string)
    requires AllBlank(left)
    ensures TrimStart(left + s) == TrimStart(s)
  {
    if left == "" {
      NothingBefore(s);
    } else {
      BlankIff(left[0]);
      TailOfConcat(left, s);
      BlankStartGoes(left[1..], s);
    }
  }

  lemma {:induction false} NothingLeft(left: string, right: string)
    requires AllBlank(left) && AllBlank(right)
    ensures Strip(left + "" + right) == ""
  {
    assert left + "" + right == left + right;
    assert AllBlank(left + right);
    BlanksGo(left + right);
  }

  /** Stripping leaves the text between the white space around it. */
  lemma StripLeavesTheMiddle(left: string, s: string, right: string)
    requires AllBlank(left) && AllBlank(right) && NoOuterBlank(s)
    ensures Strip(left + s + right) == s
  {
    if s == "" {
      NothingLeft(left, right);
    } else {
      BlankIff(s[0]);
      BlankIff(s[|s| - 1]);
      TrimEndStays(s);
      TrimEndKeeps(left, s);
      EndGoes(left + s, right);
      BlankStartGoes(left, s);
    }
  }
}
