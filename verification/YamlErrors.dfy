/** Which problem the CLI parser reports, and on which line: that of the first bad line, after any lines that
    can be read and whatever follows. */
module YamlErrors {
  import opened Prelude
  import opened Text
  import opened YamlSubset
  import opened PlainScalars
  import opened YamlRoundTrip

  /** What the documentation says the parser refuses. */
  datatype Mistake =
    | RepeatedKey(key: string, a: Atom)
    | TabIndented(text: string)
    | ListAtTop(text: string)
    | Nested(key: string, a: Atom)
    | SecondDocument
    | ItemWithoutList(a: Atom)
    | MappingAsItem(key: string, a: Atom)
    | OpenList(key: string, text: string)
    | OpenString(key: string, quote: char, text: string)
    | Indicator(key: string, c: char, text: string)
    | BadEscape(key: string, before: string, c: char, after: string)
    | OpenEscape(key: string, before: string)
    | ListInList(key: string, before: string, c: char, after: string)
    | OpenQuote(key: string, before: string, quote: char, after: string)
    | NotAKey(text: string)

  function Written(m: Mistake): string {
    match m
    case RepeatedKey(key, a) => key + (": " + Show(a))
    case TabIndented(text) => "\t" + text
    case ListAtTop(text) => "- " + text
    case Nested(key, a) => "  " + (key + (": " + Show(a)))
    case SecondDocument => "---"
    case ItemWithoutList(a) => "  - " + Show(a)
    case MappingAsItem(key, a) => "  - " + (key + (": " + Show(a)))
    case OpenList(key, text) => key + (": " + ("[" + text))
    case OpenString(key, quote, text) => key + (": " + ([quote] + text))
    case Indicator(key, c, text) => key + (": " + ([c] + text))
    case BadEscape(key, before, c, after) => key + (": " + InQuotes(EscapedText(before) + (['\\', c] + after)))
    case OpenEscape(key, before) => key + (": " + InQuotes(EscapedText(before) + "\\"))
    case ListInList(key, before, c, after) => key + (": " + InBrackets(before + ([c] + after)))
    case OpenQuote(key, before, quote, after) => key + (": " + InBrackets(before + ([quote] + after)))
    case NotAKey(text) => text
  }

  function InQuotes(text: string): string {
    "\"" + (text + "\"")
  }

  function InBrackets(text: string): string {
    "[" + (text + "]")
  }

  function Refusal(m: Mistake): Problem {
    match m
    case RepeatedKey(_, _) => DuplicateKey
    case TabIndented(_) => TabIndent
    case ListAtTop(_) => TopLevelList
    case Nested(_, _) => NestedMapping
    case SecondDocument => MultipleDocuments
    case ItemWithoutList(_) => ItemWithoutKey
    case MappingAsItem(_, _) => MappingInList
    case OpenList(_, _) => UnterminatedList
    case OpenString(_, quote, _) => if quote == '"' then UnterminatedDouble else UnterminatedSingle
    case Indicator(_, c, _) => if c == '|' || c == '>' then BlockScalar else if c == '{' then InlineMapping else Anchor
    case BadEscape(_, _, _, _) => UnsupportedEscape
    case OpenEscape(_, _) => DanglingBackslash
    case ListInList(_, _, _, _) => NestedCollection
    case OpenQuote(_, _, _, _) => UnterminatedQuote
    case NotAKey(_) => ExpectedKey
  }

  /** The text after an opening character: whole, and not closed by `close`. */
  predicate LeftOpen(c: char, close: char, text: string) {
    var t := [c] + text;
    Solid(t) && AllInLine(t) && Cut(t, true, false, false) == t && (|t| < 2 || t[|t| - 1] != close)
  }

  /** Text that stands whole in a line. */
  predicate Whole(t: string) {
    Solid(t) && AllInLine(t) && Cut(t, true, false, false) == t
  }

  /** Neither a quote nor an opening bracket. */
  predicate OnlyItems(s: string) {
    forall i | 0 <= i < |s| :: s[i] != '\'' && s[i] != '"' && s[i] != '[' && s[i] != '{'
  }

  /** The line is that mistake, after a printed document. */
  ghost predicate IsMistake(m: Mistake, doc: seq<Field>)
    requires doc != []
  {
    match m
    case RepeatedKey(key, a) => IsKey(key) && PrintableValue(a) && Defines(Meanings(doc), key)
    case TabIndented(text) => Sound(text)
    case ListAtTop(text) => Sound(text)
    case Nested(key, a) => IsKey(key) && PrintableValue(a)
    case SecondDocument => true
    case ItemWithoutList(a) => PrintableItem(a) && OpenKey(doc).None?
    case MappingAsItem(key, a) => IsKey(key) && PrintableValue(a) && OpenKey(doc).Some?
    case OpenList(key, text) => IsKey(key) && !Defines(Meanings(doc), key) && LeftOpen('[', ']', text)
    case OpenString(key, quote, text) =>
      IsKey(key) && !Defines(Meanings(doc), key) && (quote == '"' || quote == '\'') && LeftOpen(quote, quote, text)
    case Indicator(key, c, text) =>
      && IsKey(key) && !Defines(Meanings(doc), key) && LeftOpen(c, '#', text)
      && (c == '|' || c == '>' || c == '&' || c == '*' || c == '{')
    case BadEscape(key, before, c, after) =>
      && IsKey(key) && !Defines(Meanings(doc), key) && c !in "ntr\"\\0"
      && Whole(InQuotes(EscapedText(before) + (['\\', c] + after)))
    case OpenEscape(key, before) =>
      IsKey(key) && !Defines(Meanings(doc), key) && Whole(InQuotes(EscapedText(before) + "\\"))
    case ListInList(key, before, c, after) =>
      && IsKey(key) && !Defines(Meanings(doc), key) && OnlyItems(before) && (c == '[' || c == '{')
      && Solid(before + ([c] + after)) && Whole(InBrackets(before + ([c] + after)))
    case OpenQuote(key, before, quote, after) =>
      && IsKey(key) && !Defines(Meanings(doc), key) && OnlyItems(before) && (quote == '"' || quote == '\'') && quote !in after
      && Solid(before + ([quote] + after)) && Whole(InBrackets(before + ([quote] + after)))
    case NotAKey(text) => Sound(text) && !HasKey(text) && !Dashed(text) && text != "---" && text != "..."
  }

  // ------------------------------------------------------------ reading one line

  lemma KeyAndRest(s: State, key: string, rest: string)
    requires IsKey(key) && AllInLine(rest) && Cut(":" + rest, true, false, false) == ":" + rest
    requires rest != "" && !Blank(rest[|rest| - 1])
    ensures var line := key + (":" + rest);
            ReadLine(s, line) == ReadKey(s, line) && HasKey(line) && KeyOf(line) == key && RestOf(line) == rest
  {
    var line := key + (":" + rest);
    assert line[|line| - 1] == rest[|rest| - 1];
    KeyLine(s, key, rest);
    KeyParts(key, rest);
  }

  lemma EntryLine(s: State, key: string, text: string)
    requires IsKey(key) && Solid(text) && AllInLine(text) && Cut(text, true, false, false) == text
    ensures var line := key + (": " + text);
            ReadLine(s, line) == ReadKey(s, line) && HasKey(line) && KeyOf(line) == key && Strip(RestOf(line)) == text
  {
    var rest := " " + text;
    SpacedValue(text);
    assert rest[|rest| - 1] == text[|text| - 1];
    KeyAndRest(s, key, rest);
  }

  lemma RefusedKey(s: State, line: string)
    requires HasKey(line) && Strip(RestOf(line)) != ""
    ensures Defines(s.doc, KeyOf(line)) ==> ReadKey(s, line) == Err(DuplicateKey)
    ensures var v := ReadValue(Strip(RestOf(line)));
            !Defines(s.doc, KeyOf(line)) && v.Err? ==> ReadKey(s, line) == Err(v.problem)
  {
  }

  lemma ValueIsRefused(s: State, key: string, text: string, problem: Problem)
    requires IsKey(key) && Solid(text) && AllInLine(text) && Cut(text, true, false, false) == text
    requires ReadValue(text) == Err(problem) && !Defines(s.doc, key)
    ensures ReadLine(s, key + (": " + text)) == Err(problem)
  {
    EntryLine(s, key, text);
    RefusedKey(s, key + (": " + text));
  }

  lemma RepeatedIsRefused(s: State, key: string, a: Atom)
    requires IsKey(key) && PrintableValue(a) && Defines(s.doc, key)
    ensures ReadLine(s, key + (": " + Show(a))) == Err(DuplicateKey)
  {
    ValueIsRead(a);
    EntryLine(s, key, Show(a));
    RefusedKey(s, key + (": " + Show(a)));
  }

  /** A line that is kept whole, and what it is without the blanks around it. */
  predicate KeptAs(line: string, trimmed: string) {
    Cut(line, true, false, false) == line && Strip(line) == trimmed && trimmed != "" && line != ""
  }

  lemma Indented(before: string, t: string)
    requires before == "\t" || before == "  "
    requires Solid(t) && Cut(t, true, false, false) == t
    ensures KeptAs(before + t, t) && Blank((before + t)[0]) && (before + t)[0] == before[0]
  {
    var line := before + t;
    PlainIsUncut(before, true);
    CutLast(before, t);
    if before == "  " {
      StripTwoBlanksBefore(t);
    } else {
      assert line[1..] == t && line[|line| - 1] == t[|t| - 1];
      TrimEndStays(line);
      assert TrimStart(line) == TrimStart(t);
    }
  }

  lemma TabIsRefused(s: State, text: string)
    requires Sound(text)
    ensures ReadLine(s, "\t" + text) == Err(TabIndent)
  {
    Indented("\t", text);
  }

  lemma DashedIsUncut(text: string)
    requires Sound(text)
    ensures Cut("- " + text, true, false, false) == "- " + text
  {
    PlainIsUncut("- ", true);
    CutLast("- ", text);
  }

  lemma DashedText(text: string)
    requires Sound(text)
    ensures var line := "- " + text;
            Strip(line) == line && !Blank(line[0]) && line[0] == '-' && line[1] == ' ' && |line| > 2
  {
    var line := "- " + text;
    assert line[|line| - 1] == text[|text| - 1] && line[0] == '-' && line[1] == ' ';
    StripStays(line);
  }

  lemma TopItemIsRefused(s: State, text: string)
    requires Sound(text)
    ensures ReadLine(s, "- " + text) == Err(TopLevelList)
  {
    DashedIsUncut(text);
    DashedText(text);
    assert "---"[1] == '-' && "..."[1] == '.';
  }

  lemma EntryIsSolid(key: string, text: string)
    requires IsKey(key) && Solid(text) && AllInLine(text)
    ensures Solid(key + (": " + text)) && AllInLine(key + (": " + text))
  {
    var t := key + (": " + text);
    assert t[0] == key[0] && IsKeyChar(key[0]) && t[|t| - 1] == text[|text| - 1];
  }

  lemma EntryIsUncut(key: string, text: string)
    requires IsKey(key) && Solid(text) && Cut(text, true, false, false) == text
    ensures Cut(key + (": " + text), true, false, false) == key + (": " + text)
  {
    SpacedIsUncut(text);
    PlainIsUncut(key, true);
    CutLast(key, ": " + text);
  }

  lemma EntryHasKey(key: string, text: string)
    requires IsKey(key) && AllInLine(text)
    ensures var t := key + (": " + text); HasKey(t) && t != "---" && t != "..." && !Dashed(t)
  {
    BlankAfterColon(text);
    InLineConcat(" ", text);
    KeyIsNoMarker(key, " " + text);
    KeyParts(key, " " + text);
  }

  /** The text of an entry, as one piece. */
  lemma EntryText(key: string, text: string)
    requires IsKey(key) && Solid(text) && AllInLine(text) && Cut(text, true, false, false) == text
    ensures var t := key + (": " + text);
            && Solid(t) && AllInLine(t) && Cut(t, true, false, false) == t && HasKey(t)
            && t != "---" && t != "..." && !Dashed(t)
  {
    EntryIsSolid(key, text);
    EntryIsUncut(key, text);
    EntryHasKey(key, text);
  }

  lemma NestedIsRefused(s: State, key: string, a: Atom)
    requires IsKey(key) && PrintableValue(a)
    ensures ReadLine(s, "  " + (key + (": " + Show(a)))) == Err(NestedMapping)
  {
    ValueIsRead(a);
    EntryText(key, Show(a));
    Indented("  ", key + (": " + Show(a)));
  }

  lemma SecondIsRefused(s: State)
    requires s.sawAnyKey
    ensures ReadLine(s, "---") == Err(MultipleDocuments)
  {
    PlainIsUncut("---", true);
    StripStays("---");
  }

  lemma StrayItemIsRefused(s: State, a: Atom)
    requires PrintableItem(a) && s.pending.None?
    ensures ReadLine(s, "  - " + Show(a)) == Err(ItemWithoutKey)
  {
    ItemIsSound(a);
    ItemLineIsItem(s, Show(a));
  }

  lemma {:induction false} ColonIsFound(before: string, after: string)
    ensures ColonBlank(before + (": " + after))
  {
    var t := before + (": " + after);
    if before == "" {
      NothingBefore(": " + after);
    } else {
      TailOfConcat(before, ": " + after);
      ColonIsFound(before[1..], after);
    }
  }

  lemma EntryIsMapping(key: string, text: string)
    requires IsKey(key) && Solid(text) && AllInLine(text)
    ensures var t := key + (": " + text); HasKey(Strip(t)) && ColonBlank(t + " ")
  {
    EntryIsSolid(key, text);
    EntryHasKey(key, text);
    StripStays(key + (": " + text));
    ColonIsFound(key, text + " ");
    ConcatIsAssociative(key, ": " + text, " ");
    ConcatIsAssociative(": ", text, " ");
  }

  lemma WholeItem(t: string)
    requires Solid(t) && Cut(t, true, false, false) == t
    ensures KeptAs("  - " + t, "- " + t)
  {
    PlainIsUncut("  - ", true);
    CutLast("  - ", t);
    ItemIsSplit(t);
    ItemIsStripped(t);
  }

  lemma WholeItemLine(s: State, t: string)
    requires Solid(t) && Cut(t, true, false, false) == t
    ensures ReadLine(s, "  - " + t) == ReadItem(s, "- " + t)
  {
    WholeItem(t);
    var trimmed := "- " + t;
    assert |trimmed| > 2 && trimmed[0] == '-' && trimmed[1] == ' ';
  }

  lemma ItemIsNoMapping(s: State, t: string)
    requires s.pending.Some? && t != "" && HasKey(Strip(t)) && ColonBlank(t + " ")
    ensures ReadItem(s, "- " + t) == Err(MappingInList)
  {
    var trimmed := "- " + t;
    assert |trimmed| > 2 && trimmed[2..] == t;
  }

  lemma MappingItemIsRefused(s: State, key: string, a: Atom)
    requires IsKey(key) && PrintableValue(a) && s.pending.Some?
    ensures ReadLine(s, "  - " + (key + (": " + Show(a)))) == Err(MappingInList)
  {
    ValueIsRead(a);
    EntryText(key, Show(a));
    EntryIsMapping(key, Show(a));
    WholeItemLine(s, key + (": " + Show(a)));
    ItemIsNoMapping(s, key + (": " + Show(a)));
  }

  lemma OpenListIsRefused(text: string)
    requires LeftOpen('[', ']', text)
    ensures ReadValue("[" + text) == Err(UnterminatedList)
  {
    assert ['['] + text == "[" + text;
  }

  lemma OpenStringIsRefused(quote: char, text: string)
    requires (quote == '"' || quote == '\'') && LeftOpen(quote, quote, text)
    ensures ReadValue([quote] + text) == Err(if quote == '"' then UnterminatedDouble else UnterminatedSingle)
  {
    StripStays([quote] + text);
  }

  lemma IndicatorIsRefused(c: char, text: string)
    requires (c == '|' || c == '>' || c == '&' || c == '*' || c == '{') && LeftOpen(c, '#', text)
    ensures ReadValue([c] + text) == Err(if c == '|' || c == '>' then BlockScalar else if c == '{' then InlineMapping else Anchor)
  {
    StripStays([c] + text);
  }

  lemma {:induction false} UnescapedAfter(before: string, rest: string)
    ensures Unescaped(EscapedText(before) + rest) == Prepend(before, Unescaped(rest))
  {
    if before == "" {
      NothingBefore(rest);
      PrependOneMore("", ' ', Unescaped(rest));
    } else {
      var more := EscapedText(before[1..]) + rest;
      UnescapedAfter(before[1..], rest);
      ConcatIsAssociative(EscapedChar(before[0]), EscapedText(before[1..]), rest);
      UnescapedStep(before[0], more);
      if Unescaped(rest).Ok? {
        ConcatIsAssociative([before[0]], before[1..], Unescaped(rest).value);
        HeadAndTail(before);
      }
    }
  }

  lemma QuotedProblem(text: string)
    requires Unescaped(text).Err?
    ensures ReadValue(InQuotes(text)) == Err(Unescaped(text).problem)
  {
    var v := InQuotes(text);
    assert v[1..|v| - 1] == text;
    QuotedText(v);
  }

  lemma BadEscapeIsRefused(before: string, c: char, after: string)
    requires c !in "ntr\"\\0"
    ensures ReadValue(InQuotes(EscapedText(before) + (['\\', c] + after))) == Err(UnsupportedEscape)
  {
    var rest := ['\\', c] + after;
    assert "ntr\"\\0"[0] == 'n' && "ntr\"\\0"[1] == 't' && "ntr\"\\0"[2] == 'r';
    assert "ntr\"\\0"[3] == '"' && "ntr\"\\0"[4] == '\\' && "ntr\"\\0"[5] == '0';
    assert rest[0] == '\\' && rest[1] == c;
    UnescapedAfter(before, rest);
    QuotedProblem(EscapedText(before) + rest);
  }

  lemma OpenEscapeIsRefused(before: string)
    ensures ReadValue(InQuotes(EscapedText(before) + "\\")) == Err(DanglingBackslash)
  {
    UnescapedAfter(before, "\\");
    QuotedProblem(EscapedText(before) + "\\");
  }

  lemma {:induction false} ListIsFound(before: string, c: char, after: string, cur: string)
    requires OnlyItems(before) && (c == '[' || c == '{')
    ensures SplitItems(before + ([c] + after), cur, false, false) == Err(NestedCollection)
  {
    if before == "" {
      NothingBefore([c] + after);
    } else {
      TailOfConcat(before, [c] + after);
      ListIsFound(before[1..], c, after, if before[0] == ',' then "" else cur + [before[0]]);
    }
  }

  lemma {:induction false} NothingCloses(text: string, quote: char, cur: string)
    requires (quote == '"' || quote == '\'') && quote !in text
    ensures SplitItems(text, cur, quote == '\'', quote == '"') == Err(UnterminatedQuote)
  {
    if text != "" {
      assert text[0] in text && forall c <- text[1..] :: c in text;
      NothingCloses(text[1..], quote, cur + [text[0]]);
    }
  }

  lemma {:induction false} QuoteIsOpened(before: string, quote: char, after: string, cur: string)
    requires OnlyItems(before) && (quote == '"' || quote == '\'') && quote !in after
    ensures SplitItems(before + ([quote] + after), cur, false, false) == Err(UnterminatedQuote)
  {
    if before == "" {
      NothingBefore([quote] + after);
      assert ([quote] + after)[1..] == after;
      NothingCloses(after, quote, cur + [quote]);
    } else {
      TailOfConcat(before, [quote] + after);
      QuoteIsOpened(before[1..], quote, after, if before[0] == ',' then "" else cur + [before[0]]);
    }
  }

  lemma ListProblem(text: string)
    requires Solid(text) && SplitItems(text, "", false, false).Err?
    ensures ReadValue(InBrackets(text)) == Err(SplitItems(text, "", false, false).problem)
  {
    BracketsInside(text);
  }

  lemma NoKeyIsRefused(s: State, text: string)
    requires Sound(text) && !HasKey(text) && !Dashed(text) && text != "---" && text != "..."
    ensures ReadLine(s, text) == Err(ExpectedKey)
  {
    StripStays(text);
  }

  lemma MistakeIsRefused(s: State, m: Mistake, doc: seq<Field>)
    requires doc != [] && IsMistake(m, doc) && Ready(s, Meanings(doc)) && s.pending == OpenKey(doc)
    ensures ReadLine(s, Written(m)) == Err(Refusal(m))
  {
    match m
    case RepeatedKey(key, a) =>
      ClosedDefines(s, key);
      RepeatedIsRefused(s, key, a);
    case TabIndented(text) => TabIsRefused(s, text);
    case ListAtTop(text) => TopItemIsRefused(s, text);
    case Nested(key, a) => NestedIsRefused(s, key, a);
    case SecondDocument => SecondIsRefused(s);
    case ItemWithoutList(a) => StrayItemIsRefused(s, a);
    case MappingAsItem(key, a) => MappingItemIsRefused(s, key, a);
    case OpenList(key, text) =>
      ClosedDefines(s, key);
      OpenListIsRefused(text);
      assert ['['] + text == "[" + text;
      ValueIsRefused(s, key, "[" + text, UnterminatedList);
    case OpenString(key, quote, text) =>
      ClosedDefines(s, key);
      OpenStringIsRefused(quote, text);
      ValueIsRefused(s, key, [quote] + text, Refusal(m));
    case Indicator(key, c, text) =>
      ClosedDefines(s, key);
      IndicatorIsRefused(c, text);
      ValueIsRefused(s, key, [c] + text, Refusal(m));
    case BadEscape(key, before, c, after) =>
      ClosedDefines(s, key);
      BadEscapeIsRefused(before, c, after);
      ValueIsRefused(s, key, InQuotes(EscapedText(before) + (['\\', c] + after)), UnsupportedEscape);
    case OpenEscape(key, before) =>
      ClosedDefines(s, key);
      OpenEscapeIsRefused(before);
      ValueIsRefused(s, key, InQuotes(EscapedText(before) + "\\"), DanglingBackslash);
    case ListInList(key, before, c, after) =>
      ClosedDefines(s, key);
      ListIsFound(before, c, after, "");
      ListProblem(before + ([c] + after));
      ValueIsRefused(s, key, InBrackets(before + ([c] + after)), NestedCollection);
    case OpenQuote(key, before, quote, after) =>
      ClosedDefines(s, key);
      QuoteIsOpened(before, quote, after, "");
      ListProblem(before + ([quote] + after));
      ValueIsRefused(s, key, InBrackets(before + ([quote] + after)), UnterminatedQuote);
    case NotAKey(text) => NoKeyIsRefused(s, text);
  }

  // ------------------------------------------------------------ what starts an entry

  const UPPER_CASE := "ABCDEFGHIJKLMNOPQRSTUVWXYZ"
  const LOWER_CASE := "abcdefghijklmnopqrstuvwxyz"
  const DIGITS := "0123456789"

  predicate InKey(c: char) {
    c in UPPER_CASE || c in LOWER_CASE || c in DIGITS || c in "_.-"
  }

  lemma UpperCase(c: char)
    ensures 'A' <= c <= 'Z' <==> c in UPPER_CASE
  {
    assert 'A' <= c <= 'Z' ==> UPPER_CASE[c as int - 65] == c;
  }

  lemma LowerCase(c: char)
    ensures 'a' <= c <= 'z' <==> c in LOWER_CASE
  {
    assert 'a' <= c <= 'z' ==> LOWER_CASE[c as int - 97] == c;
  }

  lemma KeyCharIff(c: char)
    ensures IsKeyChar(c) <==> InKey(c)
  {
    UpperCase(c);
    LowerCase(c);
    assert IsDigit(c) ==> DIGITS[c as int - 48] == c;
    assert "_.-"[0] == '_' && "_.-"[1] == '.' && "_.-"[2] == '-';
  }

  /** A line starts an entry exactly if it is letters, digits, underscores, dots and dashes, then a colon. */
  lemma EntryIff(line: string)
    ensures HasKey(line) <==>
            exists key: string, rest: string :: line == key + (":" + rest) && key != "" && AllInLine(rest) && forall c <- key :: InKey(c)
  {
    if HasKey(line) {
      var key, rest := KeyOf(line), RestOf(line);
      KeyCharsOnly(line);
      forall c | c in key ensures InKey(c) {
        KeyCharIff(c);
      }
      assert line == key + (":" + rest);
    }
    forall key: string, rest: string
      | line == key + (":" + rest) && key != "" && AllInLine(rest) && forall c <- key :: InKey(c)
      ensures HasKey(line)
    {
      forall i | 0 <= i < |key| ensures IsKeyChar(key[i]) {
        KeyCharIff(key[i]);
      }
      KeyParts(key, rest);
    }
  }

  // ------------------------------------------------------------ the first bad line

  lemma {:induction false} BadLineIsReported(st: State, before: seq<string>, mid: State, bad: string, rest: seq<string>, n: nat)
    requires Reaches(st, before, mid) && ReadLine(mid, bad).Err?
    ensures ReadLines(st, before + ([bad] + rest), n) == ParseError(ReadLine(mid, bad).problem, Some(n + |before|))
    decreases |before|
  {
    if before == [] {
      NothingBefore([bad] + rest);
      assert ([bad] + rest)[0] == bad;
    } else {
      TailOfConcat(before, [bad] + rest);
      BadLineIsReported(ReadLine(st, before[0]).value, before[1..], mid, bad, rest, n + 1);
    }
  }

  lemma {:induction false} LinesBefore(lines: seq<string>, rest: string)
    requires NoBreaks(lines)
    ensures Lines(Unlines(lines) + rest) == lines + Lines(rest)
  {
    if lines == [] {
      NothingBefore(rest);
      NothingBefore(Lines(rest));
    } else {
      LinesBefore(lines[1..], rest);
      LineIsSplitOff(lines[0], Unlines(lines[1..]) + rest);
      ConcatIsAssociative(lines[0] + ['\n'], Unlines(lines[1..]), rest);
      HeadAndTail(lines);
      ConcatIsAssociative([lines[0]], lines[1..], Lines(rest));
    }
  }

  lemma PrintedReaches(doc: seq<Field>) returns (mid: State)
    requires doc != [] && AllPrintable(doc) && DistinctKeys(doc)
    ensures Reaches(START, DocLines(doc), mid) && Ready(mid, Meanings(doc)) && mid.pending == OpenKey(doc)
  {
    NothingIsDefined(doc);
    assert Closed(START) == [];
    mid := DocReaches(START, doc);
    NothingBefore(Meanings(doc));
  }

  lemma BadLineOfText(lines: seq<string>, mid: State, bad: string, problem: Problem, after: string)
    requires NoBreaks(lines) && NoBreak(bad) && Reaches(START, lines, mid) && ReadLine(mid, bad) == Err(problem)
    ensures ParseText(Unlines(lines) + (bad + ['\n'] + after)) == ParseError(problem, Some(|lines| + 1))
  {
    LinesBefore(lines, bad + ['\n'] + after);
    LineIsSplitOff(bad, after);
    BadLineIsReported(START, lines, mid, bad, Lines(after), 1);
  }

  lemma MistakeAfter(doc: seq<Field>, m: Mistake) returns (mid: State)
    requires doc != [] && AllPrintable(doc) && DistinctKeys(doc) && IsMistake(m, doc)
    ensures Reaches(START, DocLines(doc), mid) && ReadLine(mid, Written(m)) == Err(Refusal(m))
  {
    mid := PrintedReaches(doc);
    MistakeIsRefused(mid, m, doc);
  }

  lemma ReportedAfter(doc: seq<Field>, mid: State, bad: string, problem: Problem, after: string)
    requires AllPrintable(doc) && NoBreak(bad) && Reaches(START, DocLines(doc), mid) && ReadLine(mid, bad) == Err(problem)
    ensures ParseText(Print(doc) + (bad + ['\n'] + after)) == ParseError(problem, Some(|DocLines(doc)| + 1))
  {
    DocDoesNotBreak(doc);
    BadLineOfText(DocLines(doc), mid, bad, problem, after);
  }

  /** After a printed document, a line that is one of the mistakes is reported as that problem with its own
      number, counted from 1, whatever comes after it. */
  lemma MistakeIsReported(doc: seq<Field>, m: Mistake, after: string)
    requires doc != [] && AllPrintable(doc) && DistinctKeys(doc) && IsMistake(m, doc) && NoBreak(Written(m))
    ensures ParseText(Print(doc) + (Written(m) + ['\n'] + after)) == ParseError(Refusal(m), Some(|DocLines(doc)| + 1))
  {
    var mid := MistakeAfter(doc, m);
    ReportedAfter(doc, mid, Written(m), Refusal(m), after);
  }

  /** A text without any key is an empty document, on no line. */
  lemma EmptyTextIsRefused()
    ensures ParseText("") == ParseError(EmptyDocument, None)
  {
    assert Lines("") == [""];
    EmptyLineReaches(START);
    ReachedIsRead(START, [""], START, 1);
  }
}
