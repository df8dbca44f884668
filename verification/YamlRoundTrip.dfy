/** Printing a flat document with single-quoted and plain scalars (YAML 1.2.2, sections 7.3.2 and 7.3.3) and
    parsing it. */
module YamlRoundTrip {
  import opened Prelude
  import opened Text
  import opened YamlSubset
  import opened PlainScalars

  // -------------------------------------------------------------- printing

  /** A scalar in single quotes, or plain. */
  datatype Atom = Quoted(s: string) | Bare(text: string)

  /** A value: nothing, one scalar, or a list inside brackets or line by line. */
  datatype Shape = Empty | Scalar(a: Atom) | Inline(items: seq<Atom>) | Block(items: seq<Atom>)
  datatype Field = Field(key: string, shape: Shape)

  function Doubled(s: string): string {
    if s == "" then "" else (if s[0] == '\'' then "''" else [s[0]]) + Doubled(s[1..])
  }

  function Quote(s: string): string {
    "'" + Doubled(s) + "'"
  }

  function Show(a: Atom): string {
    match a
    case Quoted(s) => Quote(s)
    case Bare(text) => text
  }

  function ShownList(items: seq<Atom>): string {
    if items == [] then ""
    else if |items| == 1 then Show(items[0])
    else Show(items[0]) + ", " + ShownList(items[1..])
  }

  function ItemLines(items: seq<Atom>): (r: seq<string>)
    ensures |r| == |items|
  {
    if items == [] then [] else ["  - " + Show(items[0])] + ItemLines(items[1..])
  }

  function FieldLines(f: Field): seq<string> {
    match f.shape
    case Empty => [f.key + ":"]
    case Scalar(a) => [f.key + (": " + Show(a))]
    case Inline(items) => [f.key + (": [" + (ShownList(items) + "]"))]
    case Block(items) => [f.key + ":"] + ItemLines(items)
  }

  function DocLines(doc: seq<Field>): seq<string> {
    if doc == [] then [] else FieldLines(doc[0]) + DocLines(doc[1..])
  }

  function Unlines(lines: seq<string>): string {
    if lines == [] then "" else lines[0] + ['\n'] + Unlines(lines[1..])
  }

  function Print(doc: seq<Field>): string {
    Unlines(DocLines(doc))
  }

  /** What a document of scalars says. A quoted scalar is the string; a plain one is what YAML's core schema
      reads in it, as far as the parser follows it. */
  ghost function Mean(a: Atom): Value {
    match a
    case Quoted(s) => Str(s)
    case Bare(text) => Typed(text)
  }

  ghost function Means(items: seq<Atom>): seq<Value> {
    if items == [] then [] else [Mean(items[0])] + Means(items[1..])
  }

  ghost function Meaning(f: Field): Entry {
    Entry(f.key, match f.shape
                 case Empty => Null
                 case Scalar(a) => Mean(a)
                 case Inline(items) => List(Means(items))
                 case Block(items) => List(Means(items)))
  }

  ghost function Meanings(doc: seq<Field>): Doc {
    if doc == [] then [] else [Meaning(doc[0])] + Meanings(doc[1..])
  }

  // ------------------------------------------------------------ what can be printed

  predicate IsKey(key: string) {
    key != "" && forall i | 0 <= i < |key| :: IsKeyChar(key[i])
  }

  /** Text in one line, trimmed, that does not start like something else. */
  predicate BareText(t: string) {
    && t != "" && AllInLine(t) && !Blank(t[0]) && !Blank(t[|t| - 1])
    && t[0] != '\'' && t[0] != '"' && t[0] != '|' && t[0] != '>' && t[0] != '&' && t[0] != '*' && t[0] != '{'
  }

  /** As a value: not like a list, and without a comment. */
  predicate PrintableValue(a: Atom) {
    match a
    case Quoted(s) => AllInLine(s)
    case Bare(t) => BareText(t) && t[0] != '[' && Cut(t, true, false, false) == t
  }

  /** In a list: without quotes, hashes, commas and opening brackets, and not like a mapping. */
  predicate PrintableItem(a: Atom) {
    match a
    case Quoted(s) => AllInLine(s)
    case Bare(t) => BareText(t) && Plain(t) && NoSeparator(t) && !(HasKey(t) && ColonBlank(t + " "))
  }

  predicate NoSeparator(s: string) {
    forall i | 0 <= i < |s| :: s[i] != ',' && s[i] != '[' && s[i] != '{'
  }

  predicate AllPrintableItems(items: seq<Atom>) {
    items != [] ==> PrintableItem(items[0]) && AllPrintableItems(items[1..])
  }

  /** An identifier key, scalars that can be printed, and no block list without items. */
  predicate Printable(f: Field) {
    IsKey(f.key) &&
    match f.shape
    case Empty => true
    case Scalar(a) => PrintableValue(a)
    case Inline(items) => AllPrintableItems(items)
    case Block(items) => items != [] && AllPrintableItems(items)
  }

  predicate AllPrintable(doc: seq<Field>) {
    doc != [] ==> Printable(doc[0]) && AllPrintable(doc[1..])
  }

  ghost predicate DistinctKeys(doc: seq<Field>) {
    doc != [] ==> !Defines(Meanings(doc[1..]), doc[0].key) && DistinctKeys(doc[1..])
  }

  // ------------------------------------------------------------ quotes and comments

  /** The quote state after reading `s`. */
  function Quotes(s: string, inS: bool, inD: bool): (bool, bool) {
    if s == "" then (inS, inD)
    else Quotes(s[1..], if s[0] == '\'' && !inD then !inS else inS, if s[0] == '"' && !inS then !inD else inD)
  }

  predicate EndsBlank(s: string, afterBlank: bool) {
    if s == "" then afterBlank else s[|s| - 1] == ' ' || s[|s| - 1] == '\t'
  }

  /** Text that is not cut passes its quote state on. */
  lemma {:induction false} CutOfConcat(s: string, rest: string, afterBlank: bool, inS: bool, inD: bool)
    requires Cut(s, afterBlank, inS, inD) == s
    ensures var q := Quotes(s, inS, inD);
            Cut(s + rest, afterBlank, inS, inD) == s + Cut(rest, EndsBlank(s, afterBlank), q.0, q.1)
  {
    if s == "" {
      assert s + rest == rest;
    } else {
      assert (s + rest)[1..] == s[1..] + rest;
      var a := s[0] == ' ' || s[0] == '\t';
      var b := if s[0] == '\'' && !inD then !inS else inS;
      var c := if s[0] == '"' && !inS then !inD else inD;
      assert Cut(s[1..], a, b, c) == s[1..] by {
        assert Cut(s, afterBlank, inS, inD)[1..] == s[1..];
      }
      CutOfConcat(s[1..], rest, a, b, c);
      var q := Quotes(s, inS, inD);
      ConcatIsAssociative([s[0]], s[1..], Cut(rest, EndsBlank(s, afterBlank), q.0, q.1));
    }
  }

  /** Whole text that is not cut: nothing in it starts a comment, and its quotes are closed. */
  predicate Uncut(s: string) {
    Cut(s, true, false, false) == s && Quotes(s, false, false) == (false, false)
  }

  lemma {:induction false} InsideQuotes(s: string, afterBlank: bool)
    ensures Cut(Doubled(s) + "'", afterBlank, true, false) == Doubled(s) + "'"
    ensures Quotes(Doubled(s) + "'", true, false) == (false, false)
  {
    var d := Doubled(s) + "'";
    if s == "" {
      assert d == "'";
      assert d[1..] == "";
    } else {
      var rest := Doubled(s[1..]) + "'";
      if s[0] == '\'' {
        assert d == "''" + rest;
        assert d[1..] == "'" + rest && d[1..][1..] == rest;
        InsideQuotes(s[1..], false);
      } else {
        assert d == [s[0]] + rest;
        assert d[1..] == rest;
        InsideQuotes(s[1..], s[0] == ' ' || s[0] == '\t');
      }
    }
  }

  lemma QuoteIsUncut(s: string)
    ensures Uncut(Quote(s)) && Quote(s) != "" && Quote(s)[0] == '\'' && Ends(Quote(s), '\'')
  {
    var d := Doubled(s) + "'";
    assert Quote(s) == ['\''] + d;
    assert Quote(s)[1..] == d;
    InsideQuotes(s, false);
  }

  /** No quote and no hash. */
  predicate Plain(s: string) {
    forall i | 0 <= i < |s| :: s[i] != '\'' && s[i] != '"' && s[i] != '#'
  }

  lemma {:induction false} PlainIsUncut(s: string, afterBlank: bool)
    requires Plain(s)
    ensures Cut(s, afterBlank, false, false) == s && Quotes(s, false, false) == (false, false)
  {
    if s != "" {
      PlainIsUncut(s[1..], s[0] == ' ' || s[0] == '\t');
      assert [s[0]] + s[1..] == s;
    }
  }

  lemma {:induction false} QuotesOfConcat(a: string, b: string, inS: bool, inD: bool)
    ensures var q := Quotes(a, inS, inD); Quotes(a + b, inS, inD) == Quotes(b, q.0, q.1)
  {
    if a == "" {
      assert a + b == b;
    } else {
      assert (a + b)[1..] == a[1..] + b;
      QuotesOfConcat(a[1..], b, if a[0] == '\'' && !inD then !inS else inS, if a[0] == '"' && !inS then !inD else inD);
    }
  }

  lemma AfterBlankDoesNotMatter(s: string)
    requires s != "" ==> s[0] != '#'
    ensures Cut(s, false, false, false) == Cut(s, true, false, false)
  {
  }

  lemma UncutConcat(a: string, b: string)
    requires Uncut(a) && Uncut(b) && (b != "" ==> b[0] != '#')
    ensures Uncut(a + b)
  {
    CutOfConcat(a, b, true, false, false);
    QuotesOfConcat(a, b, false, false);
    AfterBlankDoesNotMatter(b);
  }

  lemma CutLast(a: string, b: string)
    requires Uncut(a) && (b != "" ==> b[0] != '#')
    ensures Cut(a + b, true, false, false) == a + Cut(b, true, false, false)
  {
    CutOfConcat(a, b, true, false, false);
    AfterBlankDoesNotMatter(b);
  }

  /** A trailing comment never changes how a line is read, whatever the comment says. */
  lemma TrailingCommentIsIgnored(s: State, line: string, comment: string)
    requires Uncut(line) && line != ""
    ensures ReadLine(s, line + (" #" + comment)) == ReadLine(s, line)
  {
    CutOfConcat(line, " #" + comment, true, false, false);
    var tail := " #" + comment;
    assert tail[1..] == "#" + comment;
    assert Cut(tail[1..], true, false, false) == "";
    assert Cut(tail, EndsBlank(line, true), false, false) == " ";
    StripBlankAfter(line);
  }

  // ------------------------------------------------------------ stripping

  lemma StripBlankBefore(s: string)
    requires s != "" && !Blank(s[0]) && !Blank(s[|s| - 1])
    ensures Strip(" " + s) == s
  {
    var t := " " + s;
    assert t[1..] == s && t[|t| - 1] == s[|s| - 1];
    TrimEndStays(t);
    assert TrimStart(t) == TrimStart(s);
  }

  lemma {:induction false} TrimEndBlankAfter(s: string)
    ensures TrimEnd(s + " ") == TrimEnd(s)
  {
    if s == "" {
      assert (s + " ")[1..] == "";
    } else {
      assert (s + " ")[1..] == s[1..] + " ";
      TrimEndBlankAfter(s[1..]);
    }
  }

  lemma StripBlankAfter(s: string)
    ensures Strip(s + " ") == Strip(s)
  {
    TrimEndBlankAfter(s);
  }

  // ------------------------------------------------------------ scalars

  lemma {:induction false} UndoubledDoubled(s: string)
    ensures Undoubled(Doubled(s)) == s
  {
    if s != "" {
      UndoubledDoubled(s[1..]);
      var d := Doubled(s);
      if s[0] == '\'' {
        assert d[2..] == Doubled(s[1..]);
      } else {
        assert d[1..] == Doubled(s[1..]);
      }
      assert [s[0]] + s[1..] == s;
    }
  }

  /** A quoted string is read back, with or without a blank before it. */
  lemma QuotedScalar(s: string)
    ensures ParseScalar(Quote(s)) == Ok(Str(s)) && ParseScalar(" " + Quote(s)) == Ok(Str(s))
    ensures ReadValue(Quote(s)) == Ok(Str(s))
  {
    var q := Quote(s);
    QuoteIsUncut(s);
    StripStays(q);
    StripBlankBefore(q);
    assert q[1..|q| - 1] == Doubled(s);
    UndoubledDoubled(s);
  }

  lemma BareIsPlain(raw: string, t: string)
    requires Strip(raw) == t && BareText(t)
    ensures ParseScalar(raw) == Ok(TypePlainScalar(t))
  {
  }

  lemma BareIsTyped(raw: string, t: string)
    requires Strip(raw) == t && Strip(t) == t && BareText(t)
    ensures ParseScalar(raw) == Ok(Typed(t))
  {
    BareIsPlain(raw, t);
    PlainScalarIsTyped(t);
  }

  lemma BareScalar(t: string)
    requires BareText(t)
    ensures ParseScalar(t) == Ok(Typed(t)) && ParseScalar(" " + t) == Ok(Typed(t))
    ensures t[0] != '[' ==> ReadValue(t) == Ok(Typed(t))
  {
    StripStays(t);
    StripBlankBefore(t);
    BareIsTyped(t, t);
    BareIsTyped(" " + t, t);
  }

  /** No blank at either end, and no hash in front. */
  predicate Solid(t: string) {
    t != "" && !Blank(t[0]) && t[0] != '#' && !Blank(t[|t| - 1])
  }

  /** The text of a value, and what is read in it. */
  predicate ValueText(t: string, v: Value) {
    Solid(t) && AllInLine(t) && Cut(t, true, false, false) == t && ReadValue(t) == Ok(v)
  }

  /** The text of an item, and what is read in it with or without a blank before it. */
  predicate ItemText(t: string, v: Value) {
    && Solid(t) && AllInLine(t) && Uncut(t) && ParseScalar(t) == Ok(v) && ParseScalar(" " + t) == Ok(v)
    && !(HasKey(t) && ColonBlank(t + " "))
  }

  lemma QuoteIsSolid(s: string)
    requires AllInLine(s)
    ensures Solid(Quote(s)) && AllInLine(Quote(s)) && Uncut(Quote(s)) && !HasKey(Quote(s))
  {
    QuoteIsUncut(s);
    QuoteInLine(s);
    assert KeyLength(Quote(s)) == 0;
  }

  lemma ValueIsRead(a: Atom)
    requires PrintableValue(a)
    ensures ValueText(Show(a), Mean(a))
  {
    match a
    case Quoted(s) =>
      QuoteIsSolid(s);
      QuotedScalar(s);
    case Bare(t) => BareScalar(t);
  }

  lemma ItemIsText(a: Atom)
    requires PrintableItem(a)
    ensures ItemText(Show(a), Mean(a))
  {
    match a
    case Quoted(s) =>
      QuoteIsSolid(s);
      QuotedScalar(s);
    case Bare(t) =>
      BareScalar(t);
      PlainIsUncut(t, true);
  }

  // ------------------------------------------------------------ inline lists

  lemma {:induction false} SplitInside(s: string, rest: string, cur: string)
    ensures SplitItems(Doubled(s) + "'" + rest, cur, true, false)
         == SplitItems(rest, cur + (Doubled(s) + "'"), false, false)
  {
    var all := Doubled(s) + "'" + rest;
    if s == "" {
      assert all[1..] == rest;
      assert cur + ['\''] == cur + (Doubled(s) + "'");
    } else {
      var after := Doubled(s[1..]) + "'" + rest;
      var closing := Doubled(s[1..]) + "'";
      if s[0] == '\'' {
        assert all[1..] == "'" + after && all[1..][1..] == after;
        SplitInside(s[1..], rest, cur + ['\''] + ['\'']);
        assert cur + ['\''] + ['\''] + closing == cur + (Doubled(s) + "'");
      } else {
        assert all[1..] == after;
        SplitInside(s[1..], rest, cur + [s[0]]);
        assert cur + [s[0]] + closing == cur + (Doubled(s) + "'");
      }
    }
  }

  lemma SplitQuote(s: string, rest: string, cur: string)
    ensures SplitItems(Quote(s) + rest, cur, false, false) == SplitItems(rest, cur + Quote(s), false, false)
  {
    var all := Quote(s) + rest;
    assert all[1..] == Doubled(s) + "'" + rest;
    SplitInside(s, rest, cur + ['\'']);
    assert cur + ['\''] + (Doubled(s) + "'") == cur + Quote(s);
  }

  lemma {:induction false} SplitBare(t: string, rest: string, cur: string)
    requires Plain(t) && NoSeparator(t)
    ensures SplitItems(t + rest, cur, false, false) == SplitItems(rest, cur + t, false, false)
  {
    if t == "" {
      NothingBefore(rest);
      assert cur + t == cur;
    } else {
      TailOfConcat(t, rest);
      SplitBare(t[1..], rest, cur + [t[0]]);
      HeadAndTail(t);
      ConcatIsAssociative(cur, [t[0]], t[1..]);
    }
  }

  lemma SplitItem(a: Atom, rest: string, cur: string)
    requires PrintableItem(a)
    ensures SplitItems(Show(a) + rest, cur, false, false) == SplitItems(rest, cur + Show(a), false, false)
  {
    match a
    case Quoted(s) => SplitQuote(s, rest, cur);
    case Bare(t) => SplitBare(t, rest, cur);
  }

  /** The items as the comma split leaves them: all but the first with a blank before them. */
  function Pieces(items: seq<Atom>, cur: string): seq<string>
    decreases |items|
  {
    if items == [] then [] else [cur + Show(items[0])] + Pieces(items[1..], " ")
  }

  lemma SplitComma(more: string, cur: string)
    ensures SplitItems(", " + more, cur, false, false)
         == var rest := SplitItems(more, " ", false, false); if rest.Ok? then Ok([cur] + rest.value) else rest
  {
    var all := ", " + more;
    assert all[1..] == " " + more && all[1..][1..] == more;
    assert "" + [' '] == " ";
  }

  lemma {:induction false} SplitShown(items: seq<Atom>, cur: string)
    requires items != [] && AllPrintableItems(items)
    ensures SplitItems(ShownList(items), cur, false, false) == Ok(Pieces(items, cur))
    decreases |items|
  {
    if |items| == 1 {
      SplitItem(items[0], "", cur);
      assert Show(items[0]) + "" == ShownList(items);
      assert Pieces(items, cur) == [cur + Show(items[0])];
    } else {
      var more := ShownList(items[1..]);
      ConcatIsAssociative(Show(items[0]), ", ", more);
      SplitItem(items[0], ", " + more, cur);
      SplitComma(more, cur + Show(items[0]));
      SplitShown(items[1..], " ");
    }
  }

  lemma {:induction false} PiecesAreRead(items: seq<Atom>, cur: string)
    requires (cur == "" || cur == " ") && AllPrintableItems(items)
    ensures ParseAll(Pieces(items, cur)) == Ok(Means(items))
    decreases |items|
  {
    if items != [] {
      ItemIsText(items[0]);
      assert cur == "" ==> cur + Show(items[0]) == Show(items[0]);
      PiecesAreRead(items[1..], " ");
      assert Pieces(items, cur)[1..] == Pieces(items[1..], " ");
    }
  }

  /** Fit to stand in a line. */
  predicate Sound(t: string) {
    Solid(t) && Uncut(t) && AllInLine(t)
  }

  lemma SolidConcat(a: string, middle: string, b: string)
    requires Solid(a) && Solid(b)
    ensures Solid(a + middle + b)
  {
    var t := a + middle + b;
    assert t[0] == a[0] && t[|t| - 1] == b[|b| - 1];
  }

  lemma InLineConcat(a: string, b: string)
    requires AllInLine(a) && AllInLine(b)
    ensures AllInLine(a + b)
  {
  }

  lemma UncutComma(a: string, b: string)
    requires Uncut(a) && Uncut(b) && Solid(b)
    ensures Uncut(a + ", " + b)
  {
    PlainIsUncut(", ", true);
    UncutConcat(a, ", ");
    UncutConcat(a + ", ", b);
  }

  lemma InLineComma(a: string, b: string)
    requires AllInLine(a) && AllInLine(b)
    ensures AllInLine(a + ", " + b)
  {
    InLineConcat(a, ", ");
    InLineConcat(a + ", ", b);
  }

  lemma SoundComma(a: string, b: string)
    requires Sound(a) && Sound(b)
    ensures Sound(a + ", " + b)
  {
    UncutComma(a, b);
    InLineComma(a, b);
    SolidConcat(a, ", ", b);
  }

  lemma ItemIsSound(a: Atom)
    requires PrintableItem(a)
    ensures Sound(Show(a))
  {
    ItemIsText(a);
  }

  lemma {:induction false} ListEnds(items: seq<Atom>)
    requires items != [] && AllPrintableItems(items)
    ensures Sound(ShownList(items))
  {
    ItemIsSound(items[0]);
    if |items| > 1 {
      ListEnds(items[1..]);
      SoundComma(Show(items[0]), ShownList(items[1..]));
    }
  }

  lemma BracketAfterColon(q: string)
    ensures ": " + ("[" + q) == ": [" + q
  {
    ConcatIsAssociative(": ", "[", q);
    assert ": " + "[" == ": [";
  }

  lemma BlankAfterColon(t: string)
    ensures ":" + (" " + t) == ": " + t
  {
    ConcatIsAssociative(":", " ", t);
    assert ":" + " " == ": ";
  }

  lemma BracketsInside(q: string)
    requires q != "" ==> Solid(q)
    ensures var v := "[" + (q + "]");
            Strip(v) == v && v[0] == '[' && Ends(v, ']') && InsideBrackets(v) == q
  {
    var v := "[" + (q + "]");
    StripStays(v);
    assert v[1..|v| - 1] == q;
    if q == "" {
      assert Strip("") == "";
    } else {
      StripStays(q);
    }
  }

  lemma BracketsUncut(q: string)
    requires Uncut(q) && AllInLine(q) && (q != "" ==> Solid(q))
    ensures Uncut("[" + (q + "]")) && AllInLine("[" + (q + "]"))
  {
    InLineConcat(q, "]");
    InLineConcat("[", q + "]");
    PlainIsUncut("[", true);
    PlainIsUncut("]", true);
    UncutConcat(q, "]");
    UncutConcat("[", q + "]");
  }

  lemma ListIsRead(items: seq<Atom>)
    requires AllPrintableItems(items)
    ensures ParseItems(ShownList(items)) == Ok(List(Means(items)))
  {
    if items != [] {
      ListEnds(items);
      SplitShown(items, "");
      PiecesAreRead(items, "");
    }
  }

  lemma BracketedList(items: seq<Atom>)
    requires AllPrintableItems(items)
    ensures ValueText("[" + (ShownList(items) + "]"), List(Means(items)))
  {
    var q := ShownList(items);
    if items == [] {
      PlainIsUncut("", true);
    } else {
      ListEnds(items);
    }
    ListIsRead(items);
    BracketsInside(q);
    BracketsUncut(q);
  }

  // ------------------------------------------------------------ lines

  lemma {:induction false} KeyIsFound(key: string, rest: string)
    requires forall i | 0 <= i < |key| :: IsKeyChar(key[i])
    ensures KeyLength(key + (":" + rest)) == |key|
  {
    var s := key + (":" + rest);
    if key != "" {
      assert s[1..] == key[1..] + (":" + rest);
      KeyIsFound(key[1..], rest);
    }
  }

  /** A line that starts with a key is no marker and no item. */
  lemma KeyIsNoMarker(key: string, rest: string)
    requires IsKey(key)
    ensures var line := key + (":" + rest);
            line != "---" && line != "..." && !Dashed(line) && line[0] == key[0] && !Blank(key[0])
  {
    var line := key + (":" + rest);
    assert line[|key|] == ':' && line[0] == key[0];
    if |line| == 3 {
      assert "---"[|key|] == '-' && "..."[|key|] == '.';
    }
    if |key| > 1 {
      assert line[1] == key[1];
    }
  }

  lemma KeyParts(key: string, rest: string)
    requires IsKey(key) && AllInLine(rest)
    ensures var line := key + (":" + rest); HasKey(line) && KeyOf(line) == key && RestOf(line) == rest
  {
    var line := key + (":" + rest);
    KeyIsFound(key, rest);
    assert line[|key| + 1..] == rest;
    assert line[..|key|] == key;
  }

  /** A line that starts with a key, whose text after the colon ends in a non-blank and is not cut, is read
      as the value of the key. */
  lemma KeyLine(s: State, key: string, rest: string)
    requires IsKey(key) && Cut(":" + rest, true, false, false) == ":" + rest
    requires var line := key + (":" + rest); !Blank(line[|line| - 1])
    ensures var line := key + (":" + rest); ReadLine(s, line) == ReadKey(s, line)
  {
    var line := key + (":" + rest);
    PlainIsUncut(key, true);
    CutLast(key, ":" + rest);
    KeyIsNoMarker(key, rest);
    StripStays(line);
  }

  lemma SpacedIsUncut(text: string)
    requires Solid(text) && Cut(text, true, false, false) == text
    ensures Cut(": " + text, true, false, false) == ": " + text
  {
    PlainIsUncut(": ", true);
    CutLast(": ", text);
  }

  lemma SpacedValue(text: string)
    requires Solid(text) && AllInLine(text) && Cut(text, true, false, false) == text
    ensures var rest := " " + text;
            && ": " + text == ":" + rest && Cut(":" + rest, true, false, false) == ":" + rest
            && AllInLine(rest) && Strip(rest) == text
  {
    BlankAfterColon(text);
    SpacedIsUncut(text);
    StripBlankBefore(text);
    InLineConcat(" ", text);
  }

  lemma ValueLine(s: State, key: string, text: string, v: Value)
    requires IsKey(key) && ValueText(text, v) && !Defines(s.doc, key)
    ensures ReadLine(s, key + (": " + text)) == Ok(State(Closed(s) + [Entry(key, v)], s.sawDocStart, true, None))
  {
    var rest := " " + text;
    SpacedValue(text);
    var line := key + (":" + rest);
    assert line[|line| - 1] == text[|text| - 1];
    KeyLine(s, key, rest);
    KeyParts(key, rest);
  }

  lemma {:induction false} DoubledInLine(s: string)
    requires AllInLine(s)
    ensures AllInLine(Doubled(s))
  {
    if s != "" {
      DoubledInLine(s[1..]);
    }
  }

  lemma QuoteInLine(s: string)
    requires AllInLine(s)
    ensures AllInLine(Quote(s))
  {
    DoubledInLine(s);
  }

  lemma ScalarLine(st: State, key: string, a: Atom)
    requires IsKey(key) && PrintableValue(a) && !Defines(st.doc, key)
    ensures ReadLine(st, key + (": " + Show(a))) == Ok(State(Closed(st) + [Entry(key, Mean(a))], st.sawDocStart, true, None))
  {
    ValueIsRead(a);
    ValueLine(st, key, Show(a), Mean(a));
  }

  lemma InlineLine(st: State, key: string, items: seq<Atom>)
    requires IsKey(key) && AllPrintableItems(items) && !Defines(st.doc, key)
    ensures ReadLine(st, key + (": [" + (ShownList(items) + "]")))
         == Ok(State(Closed(st) + [Entry(key, List(Means(items)))], st.sawDocStart, true, None))
  {
    var text := "[" + (ShownList(items) + "]");
    BracketedList(items);
    ValueLine(st, key, text, List(Means(items)));
    BracketAfterColon(ShownList(items) + "]");
  }

  lemma HeaderLine(st: State, key: string)
    requires IsKey(key) && !Defines(st.doc, key)
    ensures ReadLine(st, key + ":") == Ok(State(Closed(st) + [Entry(key, List([]))], st.sawDocStart, true, Some(key)))
  {
    assert ":" + "" == ":";
    PlainIsUncut(":", true);
    KeyLine(st, key, "");
    KeyParts(key, "");
    assert Strip("") == "";
  }

  lemma {:induction false} PushLast(doc: Doc, key: string, items: seq<Value>, v: Value)
    requires !Defines(doc, key)
    ensures Push(doc + [Entry(key, List(items))], key, v) == doc + [Entry(key, List(items + [v]))]
  {
    var all := doc + [Entry(key, List(items))];
    if doc == [] {
      assert all == [Entry(key, List(items))];
      assert all[1..] == [];
    } else {
      assert all[1..] == doc[1..] + [Entry(key, List(items))];
      PushLast(doc[1..], key, items, v);
    }
  }

  lemma ItemIsRead(st: State, doc: Doc, key: string, items: seq<Value>, t: string, v: Value)
    requires st.pending == Some(key) && st.doc == doc + [Entry(key, List(items))] && !Defines(doc, key) && ItemText(t, v)
    ensures ReadItem(st, "- " + t) == Ok(st.(doc := doc + [Entry(key, List(items + [v]))]))
  {
    var trimmed := "- " + t;
    assert |trimmed| > 2 && trimmed[2..] == t;
    StripStays(t);
    PushLast(doc, key, items, v);
  }

  lemma ItemIsSplit(t: string)
    ensures "  - " + t == "  " + ("- " + t)
  {
    ConcatIsAssociative("  ", "- ", t);
    assert "  " + "- " == "  - ";
  }

  lemma ItemIsStripped(t: string)
    requires Solid(t)
    ensures Strip("  " + ("- " + t)) == "- " + t
  {
    var trimmed := "- " + t;
    assert trimmed[|trimmed| - 1] == t[|t| - 1];
    StripTwoBlanksBefore(trimmed);
  }

  lemma ItemLineIsKept(t: string)
    requires Uncut(t) && Solid(t)
    ensures Cut("  - " + t, true, false, false) == "  - " + t && Strip("  - " + t) == "- " + t
  {
    PlainIsUncut("  - ", true);
    CutLast("  - ", t);
    ItemIsSplit(t);
    ItemIsStripped(t);
  }

  lemma ItemLineIsItem(st: State, t: string)
    requires Uncut(t) && Solid(t)
    ensures ReadLine(st, "  - " + t) == ReadItem(st, "- " + t)
  {
    ItemLineIsKept(t);
    var trimmed := "- " + t;
    assert |trimmed| > 2 && trimmed[0] == '-' && trimmed[1] == ' ';
  }

  lemma ItemLine(st: State, doc: Doc, key: string, items: seq<Value>, a: Atom)
    requires st.pending == Some(key) && st.doc == doc + [Entry(key, List(items))] && !Defines(doc, key) && PrintableItem(a)
    ensures ReadLine(st, "  - " + Show(a)) == Ok(st.(doc := doc + [Entry(key, List(items + [Mean(a)]))]))
  {
    ItemIsText(a);
    ItemLineIsItem(st, Show(a));
    ItemIsRead(st, doc, key, items, Show(a), Mean(a));
  }

  /** A dash alone is a null among the items. */
  lemma DashAloneIsNull(st: State, doc: Doc, key: string, items: seq<Value>)
    requires st.pending == Some(key) && st.doc == doc + [Entry(key, List(items))] && !Defines(doc, key)
    ensures ReadLine(st, "  -") == Ok(st.(doc := doc + [Entry(key, List(items + [Null]))]))
  {
    PlainIsUncut("  -", true);
    assert "  -" == "  " + "-";
    StripTwoBlanksBefore("-");
    assert Strip("") == "" && ParseScalar("") == Ok(Null);
    PushLast(doc, key, items, Null);
  }

  lemma StripTwoBlanksBefore(s: string)
    requires s != "" && !Blank(s[0]) && !Blank(s[|s| - 1])
    ensures Strip("  " + s) == s
  {
    var t := "  " + s;
    assert t[1..] == " " + s && t[1..][1..] == s && t[|t| - 1] == s[|s| - 1];
    TrimEndStays(t);
    assert TrimStart(t) == TrimStart(" " + s) == TrimStart(s);
  }

  // ------------------------------------------------------------ whole documents

  /** The state after the lines, or the first problem. */
  function ReadAll(st: State, lines: seq<string>): Result<State>
    decreases |lines|
  {
    if lines == [] then Ok(st)
    else
      match ReadLine(st, lines[0])
      case Err(problem) => Err(problem)
      case Ok(next) => ReadAll(next, lines[1..])
  }

  /** Reading the lines one by one leads from one state to the other. */
  predicate Reaches(st: State, lines: seq<string>, next: State) {
    ReadAll(st, lines) == Ok(next)
  }

  lemma ReachesByOne(st: State, line: string, next: State)
    requires ReadLine(st, line) == Ok(next)
    ensures Reaches(st, [line], next)
  {
    assert [line][1..] == [];
  }

  lemma {:induction false} ReachesByConcat(st: State, a: seq<string>, mid: State, b: seq<string>, next: State)
    requires Reaches(st, a, mid) && Reaches(mid, b, next)
    ensures Reaches(st, a + b, next)
    decreases |a|
  {
    if a == [] {
      NothingBefore(b);
    } else {
      TailOfConcat(a, b);
      ReachesByConcat(ReadLine(st, a[0]).value, a[1..], mid, b, next);
    }
  }

  lemma {:induction false} ReachedIsRead(st: State, lines: seq<string>, next: State, n: nat)
    requires Reaches(st, lines, next)
    ensures ReadLines(st, lines, n) == Finish(next)
    decreases |lines|
  {
    if lines != [] {
      ReachedIsRead(ReadLine(st, lines[0]).value, lines[1..], next, n + 1);
    }
  }

  lemma ItemReaches(st: State, doc: Doc, key: string, items: seq<Value>, a: Atom)
    requires st.pending == Some(key) && st.doc == doc + [Entry(key, List(items))] && !Defines(doc, key) && PrintableItem(a)
    ensures Reaches(st, ["  - " + Show(a)], st.(doc := doc + [Entry(key, List(items + [Mean(a)]))]))
  {
    ItemLine(st, doc, key, items, a);
    ReachesByOne(st, "  - " + Show(a), st.(doc := doc + [Entry(key, List(items + [Mean(a)]))]));
  }

  lemma {:induction false} ItemsReach(st: State, doc: Doc, key: string, done: seq<Value>, items: seq<Atom>)
    requires st.pending == Some(key) && st.doc == doc + [Entry(key, List(done))] && !Defines(doc, key) && AllPrintableItems(items)
    ensures Reaches(st, ItemLines(items), st.(doc := doc + [Entry(key, List(done + Means(items)))]))
    decreases |items|
  {
    if items == [] {
      assert done + Means(items) == done;
    } else {
      var one := [Mean(items[0])];
      var next := st.(doc := doc + [Entry(key, List(done + one))]);
      ItemReaches(st, doc, key, done, items[0]);
      ItemsReach(next, doc, key, done + one, items[1..]);
      ConcatIsAssociative(done, one, Means(items[1..]));
      ReachesByConcat(st, ["  - " + Show(items[0])], next, ItemLines(items[1..]),
                      st.(doc := doc + [Entry(key, List(done + Means(items)))]));
    }
  }

  lemma {:induction false} SettledLast(doc: Doc, key: string, value: Value)
    requires !Defines(doc, key)
    ensures Settled(doc + [Entry(key, value)], key) == doc + [Entry(key, if value == List([]) then Null else value)]
  {
    var all := doc + [Entry(key, value)];
    if doc == [] {
      assert all == [Entry(key, value)];
      assert all[1..] == [];
    } else {
      assert all[1..] == doc[1..] + [Entry(key, value)];
      SettledLast(doc[1..], key, value);
    }
  }

  lemma {:induction false} SettledDefines(doc: Doc, key: string, k: string)
    ensures Defines(Settled(doc, key), k) <==> Defines(doc, k)
  {
    if doc != [] {
      SettledDefines(doc[1..], key, k);
    }
  }

  /** The document read so far, an open list included. */
  predicate Ready(st: State, doc: Doc) {
    Closed(st) == doc && (doc != [] ==> st.sawAnyKey)
  }

  lemma ClosedDefines(st: State, k: string)
    ensures Defines(Closed(st), k) <==> Defines(st.doc, k)
  {
    if st.pending.Some? {
      SettledDefines(st.doc, st.pending.value, k);
    }
  }

  /** The state after one entry has been read: one without a value waits for items. */
  ghost function AfterField(st: State, f: Field): State {
    var open := f.shape.Empty? || f.shape.Block?;
    State(Closed(st) + [if f.shape.Empty? then Entry(f.key, List([])) else Meaning(f)], st.sawDocStart, true,
          if open then Some(f.key) else None)
  }

  lemma HeaderReaches(st: State, key: string)
    requires IsKey(key) && !Defines(st.doc, key)
    ensures Reaches(st, [key + ":"], State(Closed(st) + [Entry(key, List([]))], st.sawDocStart, true, Some(key)))
  {
    HeaderLine(st, key);
    ReachesByOne(st, key + ":", State(Closed(st) + [Entry(key, List([]))], st.sawDocStart, true, Some(key)));
  }

  lemma BlockReaches(st: State, key: string, items: seq<Atom>)
    requires IsKey(key) && !Defines(st.doc, key) && AllPrintableItems(items)
    ensures Reaches(st, [key + ":"] + ItemLines(items),
                    State(Closed(st) + [Entry(key, List(Means(items)))], st.sawDocStart, true, Some(key)))
  {
    var open := State(Closed(st) + [Entry(key, List([]))], st.sawDocStart, true, Some(key));
    HeaderReaches(st, key);
    ClosedDefines(st, key);
    ItemsReach(open, Closed(st), key, [], items);
    assert [] + Means(items) == Means(items);
    ReachesByConcat(st, [key + ":"], open, ItemLines(items),
                    State(Closed(st) + [Entry(key, List(Means(items)))], st.sawDocStart, true, Some(key)));
  }

  lemma FieldReaches(st: State, f: Field)
    requires Printable(f) && !Defines(st.doc, f.key)
    ensures Reaches(st, FieldLines(f), AfterField(st, f))
  {
    match f.shape
    case Empty => HeaderReaches(st, f.key);
    case Scalar(a) =>
      ScalarLine(st, f.key, a);
      ReachesByOne(st, f.key + (": " + Show(a)), AfterField(st, f));
    case Inline(items) =>
      InlineLine(st, f.key, items);
      ReachesByOne(st, f.key + (": [" + (ShownList(items) + "]")), AfterField(st, f));
    case Block(items) => BlockReaches(st, f.key, items);
  }

  lemma FieldIsReady(st: State, f: Field)
    requires Printable(f) && !Defines(Closed(st), f.key)
    ensures Ready(AfterField(st, f), Closed(st) + [Meaning(f)])
  {
    if f.shape.Empty? {
      SettledLast(Closed(st), f.key, List([]));
    } else if f.shape.Block? {
      assert Means(f.shape.items) != [];
      SettledLast(Closed(st), f.key, List(Means(f.shape.items)));
    }
  }

  /** None of the entries is in the document yet. */
  predicate Absent(done: Doc, doc: seq<Field>) {
    doc != [] ==> !Defines(done, doc[0].key) && Absent(done, doc[1..])
  }

  lemma {:induction false} DefinesAppend(doc: Doc, e: Entry, key: string)
    ensures Defines(doc + [e], key) <==> Defines(doc, key) || e.key == key
  {
    if doc == [] {
      assert doc + [e] == [e];
    } else {
      assert (doc + [e])[1..] == doc[1..] + [e];
      DefinesAppend(doc[1..], e, key);
    }
  }

  lemma {:induction false} StillAbsent(done: Doc, e: Entry, doc: seq<Field>)
    requires Absent(done, doc) && !Defines(Meanings(doc), e.key)
    ensures Absent(done + [e], doc)
  {
    if doc != [] {
      DefinesAppend(done, e, doc[0].key);
      assert Meanings(doc)[1..] == Meanings(doc[1..]);
      StillAbsent(done, e, doc[1..]);
    }
  }

  lemma EmptyLineReaches(st: State)
    ensures Reaches(st, [""], st)
  {
    assert Cut("", true, false, false) == "" && Strip("") == "";
    ReachesByOne(st, "", st);
  }

  /** The key that is open after the entries: that of the last one if it is a block list or has no value. */
  function OpenKey(doc: seq<Field>): Option<string>
    requires doc != []
  {
    var last := doc[|doc| - 1];
    if last.shape.Empty? || last.shape.Block? then Some(last.key) else None
  }

  lemma FieldStep(st: State, f: Field, rest: seq<Field>) returns (mid: State)
    requires Ready(st, Closed(st)) && Printable(f) && !Defines(Meanings(rest), f.key) && Absent(Closed(st), [f] + rest)
    ensures Reaches(st, FieldLines(f), mid) && Ready(mid, Closed(mid)) && Closed(mid) == Closed(st) + [Meaning(f)]
    ensures Absent(Closed(mid), rest) && mid.pending == OpenKey([f])
  {
    assert ([f] + rest)[1..] == rest;
    mid := AfterField(st, f);
    ClosedDefines(st, f.key);
    FieldReaches(st, f);
    FieldIsReady(st, f);
    StillAbsent(Closed(st), Meaning(f), rest);
  }

  lemma {:induction false} DocReaches(st: State, doc: seq<Field>) returns (next: State)
    requires Ready(st, Closed(st)) && AllPrintable(doc) && DistinctKeys(doc) && Absent(Closed(st), doc)
    ensures Reaches(st, DocLines(doc), next) && Ready(next, Closed(st) + Meanings(doc))
    ensures if doc == [] then next == st else next.pending == OpenKey(doc)
    decreases |doc|
  {
    if doc == [] {
      assert Closed(st) + [] == Closed(st);
      next := st;
    } else {
      HeadAndTail(doc);
      var mid := FieldStep(st, doc[0], doc[1..]);
      next := DocReaches(mid, doc[1..]);
      ReachesByConcat(st, FieldLines(doc[0]), mid, DocLines(doc[1..]), next);
      ConcatIsAssociative(Closed(st), [Meaning(doc[0])], Meanings(doc[1..]));
    }
  }

  predicate NoBreak(s: string) {
    forall i | 0 <= i < |s| :: s[i] != '\n' && s[i] != '\r'
  }

  lemma {:induction false} LineIsSplitOff(line: string, rest: string)
    requires NoBreak(line)
    ensures Lines(line + ['\n'] + rest) == [line] + Lines(rest)
  {
    var all := line + ['\n'] + rest;
    if line == "" {
      assert all[1..] == rest;
    } else {
      assert all[1..] == line[1..] + ['\n'] + rest;
      LineIsSplitOff(line[1..], rest);
      assert [line[0]] + line[1..] == line;
    }
  }

  predicate NoBreaks(lines: seq<string>) {
    lines != [] ==> NoBreak(lines[0]) && NoBreaks(lines[1..])
  }

  lemma {:induction false} LinesOfUnlines(lines: seq<string>)
    requires NoBreaks(lines)
    ensures Lines(Unlines(lines)) == lines + [""]
  {
    if lines != [] {
      LinesOfUnlines(lines[1..]);
      LineIsSplitOff(lines[0], Unlines(lines[1..]));
    }
  }

  lemma {:induction false} NoBreaksConcat(a: seq<string>, b: seq<string>)
    requires NoBreaks(a) && NoBreaks(b)
    ensures NoBreaks(a + b)
  {
    if a == [] {
      assert a + b == b;
    } else {
      assert (a + b)[1..] == a[1..] + b;
      NoBreaksConcat(a[1..], b);
    }
  }

  lemma InLineDoesNotBreak(before: string, t: string)
    requires AllInLine(t) && NoBreak(before)
    ensures NoBreak(before + t)
  {
  }

  lemma {:induction false} ItemsDoNotBreak(items: seq<Atom>)
    requires AllPrintableItems(items)
    ensures NoBreaks(ItemLines(items))
  {
    if items != [] {
      ItemIsText(items[0]);
      InLineDoesNotBreak("  - ", Show(items[0]));
      ItemsDoNotBreak(items[1..]);
      assert ItemLines(items)[1..] == ItemLines(items[1..]);
    }
  }

  lemma KeyDoesNotBreak(key: string, t: string)
    requires IsKey(key) && AllInLine(t)
    ensures NoBreaks([key + (":" + t)])
  {
    InLineDoesNotBreak(key, ":" + t);
    assert [key + (":" + t)][1..] == [];
  }

  lemma FieldDoesNotBreak(f: Field)
    requires Printable(f)
    ensures NoBreaks(FieldLines(f))
  {
    match f.shape
    case Empty =>
      KeyDoesNotBreak(f.key, "");
      assert ":" + "" == ":";
    case Scalar(a) =>
      ValueIsRead(a);
      KeyDoesNotBreak(f.key, " " + Show(a));
      BlankAfterColon(Show(a));
    case Inline(items) =>
      var text := "[" + (ShownList(items) + "]");
      BracketedList(items);
      KeyDoesNotBreak(f.key, " " + text);
      BlankAfterColon(text);
      BracketAfterColon(ShownList(items) + "]");
    case Block(items) =>
      KeyDoesNotBreak(f.key, "");
      assert ":" + "" == ":";
      ItemsDoNotBreak(items);
      assert FieldLines(f)[1..] == ItemLines(items);
  }

  lemma {:induction false} DocDoesNotBreak(doc: seq<Field>)
    requires AllPrintable(doc)
    ensures NoBreaks(DocLines(doc))
  {
    if doc != [] {
      FieldDoesNotBreak(doc[0]);
      DocDoesNotBreak(doc[1..]);
      NoBreaksConcat(FieldLines(doc[0]), DocLines(doc[1..]));
    }
  }

  lemma {:induction false} NothingIsDefined(doc: seq<Field>)
    ensures Absent([], doc)
  {
    if doc != [] {
      NothingIsDefined(doc[1..]);
    }
  }

  /** A non-empty document of distinct identifier keys comes back from its printed text: quoted strings as they
      are, whatever quotes, commas, brackets and ` #` they hold, plain scalars as the strings, numbers, truth
      values and nulls that they spell, and an entry without a value as null; however each list is written. */
  lemma PrintedDocumentIsParsed(doc: seq<Field>)
    requires doc != [] && AllPrintable(doc) && DistinctKeys(doc)
    ensures ParseText(Print(doc)) == Parsed(Meanings(doc))
  {
    DocDoesNotBreak(doc);
    LinesOfUnlines(DocLines(doc));
    NothingIsDefined(doc);
    assert Closed(START) == [];
    var next := DocReaches(START, doc);
    EmptyLineReaches(next);
    ReachesByConcat(START, DocLines(doc), next, [""], next);
    ReachedIsRead(START, DocLines(doc) + [""], next, 1);
    assert [] + Meanings(doc) == Meanings(doc);
  }

  function UnlinesWith(lines: seq<string>, end: string): string {
    if lines == [] then "" else lines[0] + (end + UnlinesWith(lines[1..], end))
  }

  predicate IsLineEnd(end: string) {
    end == "\n" || end == "\r" || end == "\r\n"
  }

  lemma EndIsSplitOff(end: string, rest: string)
    requires IsLineEnd(end) && (end == "\r" && rest != "" ==> rest[0] != '\n')
    ensures Lines(end + rest) == [""] + Lines(rest)
  {
    var all := end + rest;
    if end == "\r\n" {
      assert all[2..] == rest;
    } else {
      assert all[1..] == rest;
    }
  }

  lemma {:induction false} LineBeforeEnd(line: string, end: string, rest: string)
    requires NoBreak(line) && IsLineEnd(end) && (end == "\r" && rest != "" ==> rest[0] != '\n')
    ensures Lines(line + (end + rest)) == [line] + Lines(rest)
  {
    var all := line + (end + rest);
    if line == "" {
      NothingBefore(end + rest);
      EndIsSplitOff(end, rest);
    } else {
      TailOfConcat(line, end + rest);
      LineBeforeEnd(line[1..], end, rest);
      HeadAndTail(line);
    }
  }

  lemma {:induction false} LinesOfAnyEnd(lines: seq<string>, end: string)
    requires NoBreaks(lines) && IsLineEnd(end)
    ensures Lines(UnlinesWith(lines, end)) == lines + [""]
    ensures var text := UnlinesWith(lines, end); end == "\r" && text != "" ==> text[0] != '\n'
  {
    if lines != [] {
      LinesOfAnyEnd(lines[1..], end);
      LineBeforeEnd(lines[0], end, UnlinesWith(lines[1..], end));
    }
  }

  /** The same with any of the three line ends. */
  lemma LineEndsDoNotMatter(doc: seq<Field>, end: string)
    requires doc != [] && AllPrintable(doc) && DistinctKeys(doc) && IsLineEnd(end)
    ensures ParseText(UnlinesWith(DocLines(doc), end)) == Parsed(Meanings(doc))
  {
    DocDoesNotBreak(doc);
    LinesOfAnyEnd(DocLines(doc), end);
    LinesOfUnlines(DocLines(doc));
    PrintedDocumentIsParsed(doc);
  }

  /** In particular, writing a list inside brackets or line by line makes no difference. */
  lemma ListStylesAgree(before: seq<Field>, key: string, items: seq<Atom>, after: seq<Field>)
    requires items != []
    requires AllPrintable(before + [Field(key, Block(items))] + after) && DistinctKeys(before + [Field(key, Block(items))] + after)
    ensures ParseText(Print(before + [Field(key, Inline(items))] + after))
         == ParseText(Print(before + [Field(key, Block(items))] + after))
  {
    StyleDoesNotMatter(before, key, items, after);
    PrintedDocumentIsParsed(before + [Field(key, Inline(items))] + after);
    PrintedDocumentIsParsed(before + [Field(key, Block(items))] + after);
  }

  lemma {:induction false} StyleDoesNotMatter(before: seq<Field>, key: string, items: seq<Atom>, after: seq<Field>)
    requires items != []
    requires AllPrintable(before + [Field(key, Block(items))] + after) && DistinctKeys(before + [Field(key, Block(items))] + after)
    ensures AllPrintable(before + [Field(key, Inline(items))] + after) && DistinctKeys(before + [Field(key, Inline(items))] + after)
    ensures Meanings(before + [Field(key, Inline(items))] + after) == Meanings(before + [Field(key, Block(items))] + after)
  {
    var a, b := before + [Field(key, Inline(items))] + after, before + [Field(key, Block(items))] + after;
    if before == [] {
      assert a[1..] == after && b[1..] == after;
    } else {
      assert a[1..] == before[1..] + [Field(key, Inline(items))] + after;
      assert b[1..] == before[1..] + [Field(key, Block(items))] + after;
      StyleDoesNotMatter(before[1..], key, items, after);
    }
  }

  // ------------------------------------------------------ double quotes

  function EscapedChar(c: char): string {
    match c
    case '"' => "\\\""
    case '\\' => "\\\\"
    case '\n' => "\\n"
    case '\t' => "\\t"
    case '\r' => "\\r"
    case '\0' => "\\0"
    case _ => [c]
  }

  function EscapedText(s: string): string {
    if s == "" then "" else EscapedChar(s[0]) + EscapedText(s[1..])
  }

  function DoubleQuoted(s: string): string {
    "\"" + (EscapedText(s) + "\"")
  }

  lemma UnescapedPlain(c: char, rest: string)
    requires c != '\\'
    ensures Unescaped([c] + rest) == Prepend([c], Unescaped(rest))
  {
    assert ([c] + rest)[1..] == rest;
  }

  lemma UnescapedPair(c: char, d: char, rest: string)
    requires Escaped(d) == Some(c)
    ensures Unescaped(['\\', d] + rest) == Prepend([c], Unescaped(rest))
  {
    assert (['\\', d] + rest)[2..] == rest;
  }

  lemma UnescapedStep(c: char, rest: string)
    ensures Unescaped(EscapedChar(c) + rest) == Prepend([c], Unescaped(rest))
  {
    if |EscapedChar(c)| == 1 {
      UnescapedPlain(c, rest);
    } else {
      var d := EscapedChar(c)[1];
      assert EscapedChar(c) == ['\\', d] && Escaped(d) == Some(c);
      UnescapedPair(c, d, rest);
    }
  }

  lemma {:induction false} UnescapedEscaped(s: string)
    ensures Unescaped(EscapedText(s)) == Ok(s)
  {
    if s != "" {
      UnescapedEscaped(s[1..]);
      UnescapedStep(s[0], EscapedText(s[1..]));
      assert [s[0]] + s[1..] == s;
    }
  }

  /** Escaped text that is cut short does not give the string. */
  lemma {:induction false} CutShortIsOther(s: string, p: string)
    requires p <= EscapedText(s) && |p| < |EscapedText(s)|
    ensures Unescaped(p).Err? || |Unescaped(p).value| < |s|
  {
    var e := EscapedChar(s[0]);
    if |p| >= |e| {
      assert e <= p;
      assert p == e + p[|e|..];
      assert p[|e|..] <= EscapedText(s[1..]);
      CutShortIsOther(s[1..], p[|e|..]);
      UnescapedStep(s[0], p[|e|..]);
    } else if p != "" {
      assert p[0] == e[0] == '\\' && |p| == 1;
    }
  }

  lemma {:induction false} CutIsPrefix(s: string, afterBlank: bool, inS: bool, inD: bool)
    ensures Cut(s, afterBlank, inS, inD) <= s
  {
    if s != "" && !(s[0] == '#' && !inS && !inD && afterBlank) {
      var a := s[0] == ' ' || s[0] == '\t';
      var b := if s[0] == '\'' && !inD then !inS else inS;
      var c := if s[0] == '"' && !inS then !inD else inD;
      CutIsPrefix(s[1..], a, b, c);
      PrefixOneMore(s[0], Cut(s[1..], a, b, c), s[1..]);
      HeadAndTail(s);
    }
  }

  lemma {:induction false} TrimEndIsPrefix(s: string)
    ensures TrimEnd(s) <= s
    ensures TrimEnd(s) != "" ==> !Blank(TrimEnd(s)[|TrimEnd(s)| - 1])
  {
    if s != "" {
      TrimEndIsPrefix(s[1..]);
    }
  }

  lemma {:induction false} TrimEndKeeps(a: string, b: string)
    requires b != "" && !Blank(b[0])
    ensures TrimEnd(b) != "" && TrimEnd(a + b) == a + TrimEnd(b)
  {
    if a == "" {
      assert a + b == b;
    } else {
      assert (a + b)[1..] == a[1..] + b;
      TrimEndKeeps(a[1..], b);
      ConcatIsAssociative([a[0]], a[1..], TrimEnd(b));
      assert [a[0]] + a[1..] == a;
    }
  }

  lemma {:induction false} EscapedInLine(s: string)
    requires forall i | 0 <= i < |s| :: s[i] != '\U{2028}' && s[i] != '\U{2029}'
    ensures AllInLine(EscapedText(s))
  {
    if s != "" {
      EscapedInLine(s[1..]);
    }
  }

  lemma WholeIsRead(s: string)
    ensures var q := DoubleQuoted(s);
            ReadValue(q) == Ok(Str(s)) && |q| >= 2 && q[0] == '"' && Ends(q, '"')
  {
    var q := DoubleQuoted(s);
    StripStays(q);
    assert q[1..|q| - 1] == EscapedText(s);
    UnescapedEscaped(s);
  }

  lemma QuotedText(v: string)
    requires Starts(v, '"') && Ends(v, '"') && |v| >= 2
    ensures ReadValue(v) == var r := Unescaped(v[1..|v| - 1]); if r.Ok? then Ok(Str(r.value)) else Err(r.problem)
  {
    StripStays(v);
  }

  lemma UnendedText(v: string)
    requires Starts(v, '"') && !(|v| >= 2 && Ends(v, '"')) && !Blank(v[|v| - 1])
    ensures ReadValue(v) == Err(UnterminatedDouble)
  {
    StripStays(v);
  }

  lemma InnerPrefix(s: string, v: string)
    requires v <= DoubleQuoted(s) && 2 <= |v| < |DoubleQuoted(s)|
    ensures v[1..|v| - 1] <= EscapedText(s) && |v[1..|v| - 1]| < |EscapedText(s)|
  {
    assert DoubleQuoted(s)[1..|EscapedText(s)| + 1] == EscapedText(s);
  }

  /** What is left of a quoted text once its end is cut off does not give the string. */
  lemma CutQuotedIsOther(s: string, v: string)
    requires v <= DoubleQuoted(s) && 0 < |v| < |DoubleQuoted(s)| && !Blank(v[|v| - 1])
    ensures ReadValue(v) != Ok(Str(s))
  {
    assert v[0] == '"';
    if |v| >= 2 && Ends(v, '"') {
      QuotedText(v);
      InnerPrefix(s, v);
      CutShortIsOther(s, v[1..|v| - 1]);
    } else {
      UnendedText(v);
    }
  }

  lemma OtherLastEntry(doc: Doc, a: Entry, b: Entry)
    requires a != b
    ensures doc + [a] != doc + [b]
  {
    assert (doc + [a])[|doc|] == a && (doc + [b])[|doc|] == b;
  }

  lemma CutLineIsOther(st: State, key: string, s: string)
    requires IsKey(key) && AllInLine(DoubleQuoted(s)) && !Defines(st.doc, key)
    requires Cut(DoubleQuoted(s), true, false, false) != DoubleQuoted(s)
    ensures ReadLine(st, key + (": " + DoubleQuoted(s))) != Ok(State(Closed(st) + [Entry(key, Str(s))], st.sawDocStart, true, None))
  {
    var q := DoubleQuoted(s);
    var t := Cut(q, true, false, false);
    CutIsPrefix(q, true, false, false);
    assert t != "" && t[0] == '"';
    var v := TrimEnd(t);
    TrimEndIsPrefix(t);
    CutKeyLine(st, key, q, t, v);
    CutQuotedIsOther(s, v);
    var x := ReadValue(v);
    if x.Ok? {
      OtherLastEntry(Closed(st), Entry(key, x.value), Entry(key, Str(s)));
    }
  }

  lemma CutAfterTwo(a: string, b: string, c: string)
    requires Uncut(a) && Uncut(b) && b != "" && b[0] != '#' && (c != "" ==> c[0] != '#')
    ensures Cut(a + (b + c), true, false, false) == a + (b + Cut(c, true, false, false))
  {
    CutLast(b, c);
    CutLast(a, b + c);
  }

  lemma StripAfter(a: string, t: string)
    requires a != "" && !Blank(a[0]) && t != "" && !Blank(t[0])
    ensures Strip(a + t) == a + TrimEnd(t)
  {
    TrimEndKeeps(a, t);
  }

  lemma StripKeyText(key: string, t: string, v: string)
    requires IsKey(key) && t != "" && t[0] == '"' && v == TrimEnd(t)
    ensures v != "" && v[0] == '"' && Strip(key + (": " + t)) == key + (":" + (" " + v))
  {
    TrimEndKeeps("", t);
    TrimEndIsPrefix(t);
    ConcatIsAssociative(key, ": ", t);
    assert key + ": " != "" && (key + ": ")[0] == key[0];
    StripAfter(key + ": ", t);
    Regroup(key, ":", " ", v);
    ConcatIsAssociative(key, ":", " ");
    assert ":" + " " == ": ";
  }

  lemma KeyTextIsRead(st: State, key: string, v: string)
    requires IsKey(key) && AllInLine(v) && !Defines(st.doc, key) && v != "" && !Blank(v[0]) && !Blank(v[|v| - 1])
    ensures ReadKey(st, key + (":" + (" " + v))) ==
              var x := ReadValue(v);
              if x.Ok? then Ok(State(Closed(st) + [Entry(key, x.value)], st.sawDocStart, true, None)) else Err(x.problem)
  {
    var trimmed := key + (":" + (" " + v));
    KeyIsFound(key, " " + v);
    assert trimmed[|key| + 1..] == " " + v && trimmed[..|key|] == key;
    StripBlankBefore(v);
  }

  lemma LineIsKey(st: State, line: string, noComment: string, key: string, v: string)
    requires IsKey(key) && v != "" && v[0] == '"' && line != "" && line[0] == key[0]
    requires Cut(line, true, false, false) == noComment && noComment != "" && noComment[0] == key[0]
    requires Strip(noComment) == key + (":" + (" " + v))
    ensures ReadLine(st, line) == ReadKey(st, key + (":" + (" " + v)))
  {
    var trimmed := key + (":" + (" " + v));
    assert trimmed[1] != ' ' by {
      if |key| > 1 {
        assert trimmed[1] == key[1];
      } else {
        assert trimmed[1] == ':';
      }
    }
    assert trimmed[|key|] == ':' && trimmed[|key| + 2] == '"';
    if |trimmed| == 3 {
      assert false;
    }
  }

  /** A line that, cut and stripped, is a key and a text is read as that text. */
  lemma LineOfKeyText(st: State, line: string, noComment: string, key: string, v: string)
    requires IsKey(key) && AllInLine(v) && !Defines(st.doc, key) && v != "" && v[0] == '"' && !Blank(v[|v| - 1])
    requires line != "" && line[0] == key[0] && Cut(line, true, false, false) == noComment
    requires noComment != "" && noComment[0] == key[0] && Strip(noComment) == key + (":" + (" " + v))
    ensures ReadLine(st, line) ==
              var x := ReadValue(v);
              if x.Ok? then Ok(State(Closed(st) + [Entry(key, x.value)], st.sawDocStart, true, None)) else Err(x.problem)
  {
    KeyTextIsRead(st, key, v);
    LineIsKey(st, line, noComment, key, v);
  }

  lemma CutAndStripped(key: string, q: string, t: string, v: string)
    requires IsKey(key) && q != "" && q[0] == '"'
    requires t == Cut(q, true, false, false) && t != "" && t[0] == '"' && v == TrimEnd(t)
    ensures Cut(key + (": " + q), true, false, false) == key + (": " + t)
    ensures v != "" && v[0] == '"' && Strip(key + (": " + t)) == key + (":" + (" " + v))
  {
    PlainIsUncut(key, true);
    PlainIsUncut(": ", true);
    CutAfterTwo(key, ": ", q);
    StripKeyText(key, t, v);
  }

  lemma CutKeyLine(st: State, key: string, q: string, t: string, v: string)
    requires IsKey(key) && AllInLine(q) && !Defines(st.doc, key) && q != "" && q[0] == '"'
    requires t == Cut(q, true, false, false) && t != "" && t <= q && t[0] == '"' && v == TrimEnd(t) && v <= t
    requires v != "" ==> !Blank(v[|v| - 1])
    ensures v != ""
    ensures ReadLine(st, key + (": " + q)) ==
              var x := ReadValue(v);
              if x.Ok? then Ok(State(Closed(st) + [Entry(key, x.value)], st.sawDocStart, true, None)) else Err(x.problem)
  {
    CutAndStripped(key, q, t, v);
    LineOfKeyText(st, key + (": " + q), key + (": " + t), key, v);
  }

  /** In the text of a double-quoted string, as the comment stripper sees it: a hash after a space outside all
      quotes, where a quote of the text, although it is escaped, ends or begins double quotes, and outside
      these an apostrophe begins or ends single ones. */
  predicate HashOutside(s: string, afterBlank: bool, inS: bool, inD: bool) {
    s != "" &&
      if s[0] == '\'' && !inD then HashOutside(s[1..], false, !inS, inD)
      else if s[0] == '"' && !inS then HashOutside(s[1..], false, inS, !inD)
      else (s[0] == '#' && !inS && !inD && afterBlank) || HashOutside(s[1..], s[0] == ' ', inS, inD)
  }

  lemma CutOfCons(c: char, rest: string, afterBlank: bool, inS: bool, inD: bool)
    ensures Cut([c] + rest, afterBlank, inS, inD) == [c] + rest <==>
              if c == '\'' && !inD then Cut(rest, false, !inS, inD) == rest
              else if c == '"' && !inS then Cut(rest, false, inS, !inD) == rest
              else !(c == '#' && !inS && !inD && afterBlank) && Cut(rest, c == ' ' || c == '\t', inS, inD) == rest
  {
    var cut := Cut([c] + rest, afterBlank, inS, inD);
    assert ([c] + rest)[1..] == rest;
    assert cut != "" ==> cut == [c] + cut[1..];
  }

  lemma CutOfPair(d: char, rest: string, afterBlank: bool, inS: bool, inD: bool)
    requires d != '#' && d != '\'' && d != ' ' && d != '\t'
    ensures Cut(['\\', d] + rest, afterBlank, inS, inD) == ['\\', d] + rest <==>
              Cut(rest, false, inS, if d == '"' && !inS then !inD else inD) == rest
  {
    CutOfCons('\\', [d] + rest, afterBlank, inS, inD);
    CutOfCons(d, rest, false, inS, inD);
    assert ['\\', d] + rest == ['\\'] + ([d] + rest);
  }

  lemma CutOfEscaped(c: char, rest: string, afterBlank: bool, inS: bool, inD: bool, inS': bool, inD': bool)
    requires inS' == if c == '\'' && !inD then !inS else inS
    requires inD' == if c == '"' && !inS then !inD else inD
    ensures Cut(EscapedChar(c) + rest, afterBlank, inS, inD) == EscapedChar(c) + rest <==>
              !(c == '#' && !inS && !inD && afterBlank) && Cut(rest, c == ' ', inS', inD') == rest
  {
    if |EscapedChar(c)| == 1 {
      CutOfCons(c, rest, afterBlank, inS, inD);
    } else {
      var d := EscapedChar(c)[1];
      assert EscapedChar(c) == ['\\', d] && c != ' ' && (d == '"' <==> c == '"');
      CutOfPair(d, rest, afterBlank, inS, inD);
    }
  }

  lemma {:induction false} EscapedIsUncutIff(s: string, afterBlank: bool, inS: bool, inD: bool)
    ensures var t := EscapedText(s) + "\"";
            Cut(t, afterBlank, inS, inD) == t <==> !HashOutside(s, afterBlank, inS, inD)
  {
    if s == "" {
      CutOfCons('"', "", afterBlank, inS, inD);
      NothingBefore("\"");
      assert ['"'] + "" == "\"";
    } else {
      var c := s[0];
      ConcatIsAssociative(EscapedChar(c), EscapedText(s[1..]), "\"");
      var inS', inD' := if c == '\'' && !inD then !inS else inS, if c == '"' && !inS then !inD else inD;
      CutOfEscaped(c, EscapedText(s[1..]) + "\"", afterBlank, inS, inD, inS', inD');
      EscapedIsUncutIff(s[1..], c == ' ', inS', inD');
    }
  }

  lemma UncutIffNoHashOutside(s: string)
    ensures Cut(DoubleQuoted(s), true, false, false) == DoubleQuoted(s) <==> !HashOutside(s, false, false, true)
  {
    CutOfCons('"', EscapedText(s) + "\"", true, false, false);
    EscapedIsUncutIff(s, false, false, true);
  }

  /** A double-quoted value is read back exactly when its text has no hash after a space outside quotes, where
      an escaped quote counts for the end of the string. */
  lemma DoubleQuotedIffUncut(st: State, key: string, s: string)
    requires IsKey(key) && !Defines(st.doc, key)
    requires forall i | 0 <= i < |s| :: s[i] != '\U{2028}' && s[i] != '\U{2029}'
    ensures ReadLine(st, key + (": " + DoubleQuoted(s))) == Ok(State(Closed(st) + [Entry(key, Str(s))], st.sawDocStart, true, None))
       <==> !HashOutside(s, false, false, true)
  {
    var q := DoubleQuoted(s);
    EscapedInLine(s);
    UncutIffNoHashOutside(s);
    if Cut(q, true, false, false) == q {
      WholeIsRead(s);
      ValueLine(st, key, q, Str(s));
    } else {
      CutLineIsOther(st, key, s);
    }
  }

  lemma {:induction false} NothingOutsideAQuote(a: string, rest: string, afterBlank: bool) returns (blank: bool)
    requires '"' !in a
    ensures HashOutside(a + rest, afterBlank, false, true) == HashOutside(rest, blank, false, true)
    ensures a == "" ==> blank == afterBlank
  {
    blank := afterBlank;
    if a == "" {
      NothingBefore(rest);
    } else {
      TailOfConcat(a, rest);
      assert a[0] in a && forall c <- a[1..] :: c in a;
      blank := NothingOutsideAQuote(a[1..], rest, a[0] == ' ');
    }
  }

  /** So every string without a double quote is read back. */
  lemma DoubleQuotedWithoutQuotesComesBack(st: State, key: string, s: string)
    requires IsKey(key) && !Defines(st.doc, key) && '"' !in s
    requires forall i | 0 <= i < |s| :: s[i] != '\U{2028}' && s[i] != '\U{2029}'
    ensures ReadLine(st, key + (": " + DoubleQuoted(s))) == Ok(State(Closed(st) + [Entry(key, Str(s))], st.sawDocStart, true, None))
  {
    var blank := NothingOutsideAQuote(s, "", false);
    assert s + "" == s;
    DoubleQuotedIffUncut(st, key, s);
  }

  lemma {:induction false} HashAfterPlain(b: string, c: string, afterBlank: bool)
    requires '"' !in b && '\'' !in b
    ensures HashOutside(b + (" #" + c), afterBlank, false, false)
  {
    if b == "" {
      NothingBefore(" #" + c);
      var t := " #" + c;
      assert t[0] == ' ' && t[1..][0] == '#';
    } else {
      TailOfConcat(b, " #" + c);
      assert b[0] in b && forall d <- b[1..] :: d in b;
      HashAfterPlain(b[1..], c, b[0] == ' ');
    }
  }

  /** And a string with one quote, no other quote or apostrophe before the next hash, and a space before that
      hash, is not. */
  lemma QuoteThenHashIsCut(a: string, b: string, c: string)
    requires '"' !in a && '"' !in b && '\'' !in b
    ensures var s := a + ("\"" + (b + (" #" + c)));
            Cut(DoubleQuoted(s), true, false, false) != DoubleQuoted(s)
  {
    var rest := b + (" #" + c);
    var t := "\"" + rest;
    UncutIffNoHashOutside(a + t);
    var blank := NothingOutsideAQuote(a, t, false);
    assert t[1..] == rest;
    HashAfterPlain(b, c, false);
  }

  // ------------------------------------------------------ what is accepted

  predicate AllScalars(items: seq<Value>) {
    items != [] ==> !items[0].List? && AllScalars(items[1..])
  }

  /** Distinct identifier keys, each with a scalar or a list of scalars. */
  predicate Flat(doc: Doc) {
    doc != [] ==>
      && IsKey(doc[0].key) && !Defines(doc[1..], doc[0].key)
      && (doc[0].value.List? ==> AllScalars(doc[0].value.items))
      && Flat(doc[1..])
  }

  lemma {:induction false} ParsedItemsAreScalars(items: seq<string>)
    ensures var r := ParseAll(items); r.Ok? ==> AllScalars(r.value)
  {
    if items != [] {
      ParsedItemsAreScalars(items[1..]);
    }
  }

  lemma {:induction false} ScalarsOneMore(items: seq<Value>, v: Value)
    requires AllScalars(items) && !v.List?
    ensures AllScalars(items + [v])
  {
    if items == [] {
      assert items + [v] == [v];
      assert [v][1..] == [];
    } else {
      TailOfConcat(items, [v]);
      ScalarsOneMore(items[1..], v);
    }
  }

  lemma {:induction false} PushKeepsFlat(doc: Doc, key: string, v: Value, other: string)
    requires Flat(doc) && !v.List?
    ensures Flat(Push(doc, key, v)) && (Defines(Push(doc, key, v), other) <==> Defines(doc, other))
  {
    if doc != [] {
      if doc[0].key == key {
        if doc[0].value.List? {
          ScalarsOneMore(doc[0].value.items, v);
        }
      } else {
        PushKeepsFlat(doc[1..], key, v, other);
        PushKeepsFlat(doc[1..], key, v, doc[0].key);
      }
    }
  }

  lemma {:induction false} SettledKeepsFlat(doc: Doc, key: string, other: string)
    requires Flat(doc)
    ensures Flat(Settled(doc, key)) && (Defines(Settled(doc, key), other) <==> Defines(doc, other))
    ensures |Settled(doc, key)| == |doc|
  {
    if doc != [] && doc[0].key != key {
      SettledKeepsFlat(doc[1..], key, other);
      SettledKeepsFlat(doc[1..], key, doc[0].key);
    }
  }

  lemma {:induction false} AppendKeepsFlat(doc: Doc, e: Entry)
    requires Flat(doc) && Flat([e]) && !Defines(doc, e.key)
    ensures Flat(doc + [e])
  {
    if doc == [] {
      assert doc + [e] == [e];
    } else {
      TailOfConcat(doc, [e]);
      AppendKeepsFlat(doc[1..], e);
      DefinesAppend(doc[1..], e, doc[0].key);
    }
  }

  lemma {:induction false} KeyCharsOnly(s: string)
    ensures forall i | 0 <= i < KeyLength(s) :: IsKeyChar(s[i])
  {
    if s != "" && IsKeyChar(s[0]) {
      KeyCharsOnly(s[1..]);
      forall i | 0 <= i < KeyLength(s) ensures IsKeyChar(s[i]) {
        if i > 0 {
          assert s[i] == s[1..][i - 1];
        }
      }
    }
  }

  predicate SoFarFlat(s: State) {
    Flat(s.doc) && (s.sawAnyKey <==> s.doc != [])
  }

  lemma ScalarIsNoList(text: string)
    ensures ParseScalar(text).Ok? ==> !ParseScalar(text).value.List?
  {
  }

  lemma PushedIsFlat(s: State, key: string, v: Value)
    requires SoFarFlat(s) && !v.List?
    ensures SoFarFlat(s.(doc := Push(s.doc, key, v)))
  {
    PushKeepsFlat(s.doc, key, v, "");
  }

  lemma ItemKeepsFlat(s: State, trimmed: string)
    requires SoFarFlat(s) && ReadItem(s, trimmed).Ok?
    ensures SoFarFlat(ReadItem(s, trimmed).value)
  {
    var item := if trimmed == "-" || |trimmed| < 2 then "" else trimmed[2..];
    ScalarIsNoList(item);
    PushedIsFlat(s, s.pending.value, ParseScalar(item).value);
  }

  lemma KeyKeepsFlat(s: State, trimmed: string)
    requires SoFarFlat(s) && ReadKey(s, trimmed).Ok?
    ensures SoFarFlat(ReadKey(s, trimmed).value)
  {
    var key := KeyOf(trimmed);
    KeyCharsOnly(trimmed);
    if s.pending.Some? {
      SettledKeepsFlat(s.doc, s.pending.value, key);
    }
    var value := Strip(RestOf(trimmed));
    var v := if value == "" then List([]) else ReadValue(value).value;
    ReadValueIsFlat(value);
    var e := Entry(key, v);
    assert [e][1..] == [];
    AppendKeepsFlat(Closed(s), e);
  }

  lemma ReadValueIsFlat(value: string)
    ensures var r := ReadValue(value); r.Ok? && r.value.List? ==> AllScalars(r.value.items)
  {
    var items := SplitItems(InsideBrackets(value), "", false, false);
    if items.Ok? {
      ParsedItemsAreScalars(items.value);
    }
  }

  lemma LineKeepsFlat(s: State, line: string)
    requires SoFarFlat(s) && ReadLine(s, line).Ok?
    ensures SoFarFlat(ReadLine(s, line).value)
  {
    var noComment := Cut(line, true, false, false);
    var trimmed := Strip(noComment);
    if trimmed != "" && trimmed != "---" && trimmed != "..." {
      if Blank(noComment[0]) {
        ItemKeepsFlat(s, trimmed);
      } else {
        KeyKeepsFlat(s, trimmed);
      }
    }
  }

  lemma {:induction false} LinesKeepFlat(s: State, lines: seq<string>, n: nat)
    requires SoFarFlat(s) && ReadLines(s, lines, n).Parsed?
    ensures Flat(ReadLines(s, lines, n).doc) && ReadLines(s, lines, n).doc != []
    decreases |lines|
  {
    if lines == [] {
      if s.pending.Some? {
        SettledKeepsFlat(s.doc, s.pending.value, "");
      }
    } else {
      LineKeepsFlat(s, lines[0]);
      LinesKeepFlat(ReadLine(s, lines[0]).value, lines[1..], n + 1);
    }
  }

  /** Whatever text is accepted, the document is not empty, its keys are distinct identifiers, and each value
      is a scalar or a list of scalars. */
  lemma AcceptedDocumentIsFlat(text: string)
    requires ParseText(text).Parsed?
    ensures ParseText(text).doc != [] && Flat(ParseText(text).doc)
  {
    LinesKeepFlat(START, Lines(text), 1);
  }
}
