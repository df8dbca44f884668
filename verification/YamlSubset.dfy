/** The YAML subset that cli/lib/yaml.js parses: a flat mapping of scalars and lists, read line by line. */
module YamlSubset {
  import opened Prelude
  import opened Text

  /** A number keeps its numeral. */
  datatype Value = Null | Bool(b: bool) | Number(numeral: string) | Str(s: string) | List(items: seq<Value>)

  datatype Entry = Entry(key: string, value: Value)
  type Doc = seq<Entry>

  datatype Problem =
    | DanglingBackslash | UnsupportedEscape | UnterminatedDouble | UnterminatedSingle | BlockScalar | Anchor
    | InlineMapping | NestedCollection | UnterminatedQuote | TabIndent | MultipleDocuments | ItemWithoutKey
    | MappingInList | NestedMapping | TopLevelList | ExpectedKey | DuplicateKey | UnterminatedList | EmptyDocument

  datatype Result<+T> = Ok(value: T) | Err(problem: Problem)

  // -------------------------------------------------------------- characters

  /** White space to `trim` and `\s`. */
  predicate Blank(c: char) {
    || '\t' <= c <= '\r' || c == ' ' || c == '\U{A0}' || c == '\U{1680}' || '\U{2000}' <= c <= '\U{200A}'
    || c == '\U{2028}' || c == '\U{2029}' || c == '\U{202F}' || c == '\U{205F}' || c == '\U{3000}' || c == '\U{FEFF}'
  }

  function TrimStart(s: string): string {
    if s != "" && Blank(s[0]) then TrimStart(s[1..]) else s
  }

  function TrimEnd(s: string): string {
    if s == "" then ""
    else
      var rest := TrimEnd(s[1..]);
      if rest == "" && Blank(s[0]) then "" else [s[0]] + rest
  }

  function Strip(s: string): string {
    TrimStart(TrimEnd(s))
  }

  predicate Starts(s: string, c: char) {
    s != "" && s[0] == c
  }

  predicate Ends(s: string, c: char) {
    s != "" && s[|s| - 1] == c
  }

  predicate IsDigit(c: char) {
    '0' <= c <= '9'
  }

  /** `[A-Za-z0-9_.-]` */
  predicate IsKeyChar(c: char) {
    'A' <= c <= 'Z' || 'a' <= c <= 'z' || IsDigit(c) || c == '_' || c == '.' || c == '-'
  }

  /** What a line can hold and `.` matches. */
  predicate InLine(c: char) {
    c != '\n' && c != '\r' && c != '\U{2028}' && c != '\U{2029}'
  }

  predicate AllInLine(s: string) {
    forall i | 0 <= i < |s| :: InLine(s[i])
  }

  // -------------------------------------------------------------- comments

  /** Up to a `#` outside quotes that starts the line or follows a blank or a tab. */
  function Cut(s: string, afterBlank: bool, inS: bool, inD: bool): string {
    if s == "" then ""
    else if s[0] == '\'' && !inD then [s[0]] + Cut(s[1..], false, !inS, inD)
    else if s[0] == '"' && !inS then [s[0]] + Cut(s[1..], false, inS, !inD)
    else if s[0] == '#' && !inS && !inD && afterBlank then ""
    else [s[0]] + Cut(s[1..], s[0] == ' ' || s[0] == '\t', inS, inD)
  }

  predicate AfterBlank(s: string, i: nat)
    requires i <= |s|
  {
    i == 0 || s[i - 1] == ' ' || s[i - 1] == '\t'
  }

  function CutAt(s: string, i: nat, inS: bool, inD: bool): string
    requires i <= |s|
  {
    Cut(s[i..], AfterBlank(s, i), inS, inD)
  }

  lemma CutNext(s: string, i: nat, inS: bool, inD: bool)
    requires i < |s|
    ensures var c := s[i];
            CutAt(s, i, inS, inD) ==
              if c == '#' && !inS && !inD && AfterBlank(s, i) then ""
              else [c] + CutAt(s, i + 1, if c == '\'' && !inD then !inS else inS, if c == '"' && !inS then !inD else inD)
  {
    TakeOneMore(s, i);
  }

  method StripTrailingComment(s: string) returns (r: string)
    ensures r == Cut(s, true, false, false)
  {
    var inS, inD := false, false;
    assert s[0..] == s;
    for i := 0 to |s|
      invariant CutAt(s, 0, false, false) == s[..i] + CutAt(s, i, inS, inD)
    {
      var c := s[i];
      CutNext(s, i, inS, inD);
      if c == '\'' && !inD {
        inS := !inS;
      } else if c == '"' && !inS {
        inD := !inD;
      } else if c == '#' && !inS && !inD && (i == 0 || s[i - 1] == ' ' || s[i - 1] == '\t') {
        return s[..i];
      }
      TakeOneMore(s, i);
      ConcatIsAssociative(s[..i], [c], CutAt(s, i + 1, inS, inD));
    }
    assert s[..|s|] == s;
    r := s;
  }

  // -------------------------------------------------------------- scalars

  function Digits(s: string): (n: nat)
    ensures n <= |s|
  {
    if s != "" && IsDigit(s[0]) then 1 + Digits(s[1..]) else 0
  }

  function Unsigned(s: string): string {
    if Starts(s, '+') || Starts(s, '-') then s[1..] else s
  }

  /** `[+-]?\d+` */
  predicate IsInteger(s: string) {
    var u := Unsigned(s); u != "" && Digits(u) == |u|
  }

  /** `([eE][+-]?\d+)?` */
  predicate IsExponent(s: string) {
    s == "" || ((s[0] == 'e' || s[0] == 'E') && IsInteger(s[1..]))
  }

  /** What follows the point, after `whole` digits. */
  predicate IsFraction(after: string, whole: nat) {
    var m := Digits(after); (whole > 0 || m > 0) && IsExponent(after[m..])
  }

  /** `[+-]?(\d+\.\d*|\.\d+)([eE][+-]?\d+)?` */
  predicate IsDecimal(s: string) {
    var u := Unsigned(s);
    var n := Digits(u);
    n < |u| && u[n] == '.' && IsFraction(u[n + 1..], n)
  }

  function TypeOf(s: string): Value {
    if s == "" then Null
    else if s == "true" || s == "True" || s == "TRUE" then Bool(true)
    else if s == "false" || s == "False" || s == "FALSE" then Bool(false)
    else if s == "null" || s == "Null" || s == "NULL" || s == "~" then Null
    else if IsInteger(s) || IsDecimal(s) then Number(s)
    else Str(s)
  }

  function TypePlainScalar(raw: string): Value {
    TypeOf(Strip(raw))
  }

  function Escaped(n: char): Option<char> {
    match n
    case 'n' => Some('\n')
    case 't' => Some('\t')
    case 'r' => Some('\r')
    case '"' => Some('"')
    case '\\' => Some('\\')
    case '0' => Some('\0')
    case _ => None
  }

  function Unescaped(s: string): Result<string> {
    if s == "" then Ok("")
    else if s[0] != '\\' then
      var rest := Unescaped(s[1..]);
      if rest.Ok? then Ok([s[0]] + rest.value) else rest
    else if |s| == 1 then Err(DanglingBackslash)
    else if Escaped(s[1]).None? then Err(UnsupportedEscape)
    else
      var rest := Unescaped(s[2..]);
      if rest.Ok? then Ok([Escaped(s[1]).value] + rest.value) else rest
  }

  function Prepend(s: string, r: Result<string>): Result<string> {
    if r.Ok? then Ok(s + r.value) else r
  }

  lemma PrependOneMore(out: string, c: char, r: Result<string>)
    ensures Prepend(out, if r.Ok? then Ok([c] + r.value) else r) == Prepend(out + [c], r)
    ensures Prepend("", r) == r
  {
    if r.Ok? {
      ConcatIsAssociative(out, [c], r.value);
      assert "" + r.value == r.value;
    }
  }

  lemma UnescapedNext(s: string, i: nat, out: string)
    requires i < |s|
    ensures s[i] != '\\' ==> Prepend(out, Unescaped(s[i..])) == Prepend(out + [s[i]], Unescaped(s[i + 1..]))
    ensures s[i] == '\\' && i + 1 == |s| ==> Unescaped(s[i..]) == Err(DanglingBackslash)
    ensures s[i] == '\\' && i + 1 < |s| && Escaped(s[i + 1]).None? ==> Unescaped(s[i..]) == Err(UnsupportedEscape)
    ensures s[i] == '\\' && i + 1 < |s| && Escaped(s[i + 1]).Some? ==>
              Prepend(out, Unescaped(s[i..])) == Prepend(out + [Escaped(s[i + 1]).value], Unescaped(s[i + 2..]))
  {
    TakeOneMore(s, i);
    PrependOneMore(out, s[i], Unescaped(s[i + 1..]));
    if i + 1 < |s| {
      assert s[i..][2..] == s[i + 2..];
      assert s[i..][1] == s[i + 1];
      if Escaped(s[i + 1]).Some? {
        PrependOneMore(out, Escaped(s[i + 1]).value, Unescaped(s[i + 2..]));
      }
    }
  }

  method UnescapeDouble(s: string) returns (r: Result<string>)
    ensures r == Unescaped(s)
  {
    var out := "";
    var i := 0;
    assert s[0..] == s;
    PrependOneMore(out, ' ', Unescaped(s));
    while i < |s|
      invariant 0 <= i <= |s|
      invariant Unescaped(s) == Prepend(out, Unescaped(s[i..]))
    {
      var c := s[i];
      UnescapedNext(s, i, out);
      i := i + 1;
      if c != '\\' {
        out := out + [c];
        continue;
      }
      if i == |s| {
        return Err(DanglingBackslash);
      }
      var n := Escaped(s[i]);
      if n.None? {
        return Err(UnsupportedEscape);
      }
      out := out + [n.value];
      i := i + 1;
    }
    assert s[i..] == "";
    assert out + "" == out;
    r := Ok(out);
  }

  /** `s.replace(/''/g, "'")` */
  function Undoubled(s: string): string {
    if s == "" then ""
    else if |s| > 1 && s[0] == '\'' && s[1] == '\'' then "'" + Undoubled(s[2..])
    else [s[0]] + Undoubled(s[1..])
  }

  function ParseScalar(raw: string): Result<Value> {
    var s := Strip(raw);
    if Starts(s, '"') then
      if |s| < 2 || !Ends(s, '"') then Err(UnterminatedDouble)
      else
        var r := Unescaped(s[1..|s| - 1]);
        if r.Ok? then Ok(Str(r.value)) else Err(r.problem)
    else if Starts(s, '\'') then
      if |s| < 2 || !Ends(s, '\'') then Err(UnterminatedSingle) else Ok(Str(Undoubled(s[1..|s| - 1])))
    else if Starts(s, '|') || Starts(s, '>') then Err(BlockScalar)
    else if Starts(s, '&') || Starts(s, '*') then Err(Anchor)
    else if Starts(s, '{') then Err(InlineMapping)
    else Ok(TypePlainScalar(s))
  }

  // -------------------------------------------------------------- inline lists

  /** The parts between top-level commas; `cur` is the part being read. */
  function SplitItems(s: string, cur: string, inS: bool, inD: bool): Result<seq<string>> {
    if s == "" then if inS || inD then Err(UnterminatedQuote) else Ok([cur])
    else if s[0] == '\'' && !inD then SplitItems(s[1..], cur + [s[0]], !inS, inD)
    else if s[0] == '"' && !inS then SplitItems(s[1..], cur + [s[0]], inS, !inD)
    else if s[0] == ',' && !inS && !inD then
      var rest := SplitItems(s[1..], "", inS, inD);
      if rest.Ok? then Ok([cur] + rest.value) else rest
    else if (s[0] == '[' || s[0] == '{') && !inS && !inD then Err(NestedCollection)
    else SplitItems(s[1..], cur + [s[0]], inS, inD)
  }

  function ParseAll(items: seq<string>): Result<seq<Value>> {
    if items == [] then Ok([])
    else
      var first := ParseScalar(items[0]);
      if first.Err? then Err(first.problem)
      else
        var rest := ParseAll(items[1..]);
        if rest.Ok? then Ok([first.value] + rest.value) else rest
  }

  function ParseItems(inner: string): Result<Value> {
    if inner == "" then Ok(List([]))
    else
      var items := SplitItems(inner, "", false, false);
      if items.Err? then Err(items.problem)
      else
        var values := ParseAll(items.value);
        if values.Ok? then Ok(List(values.value)) else Err(values.problem)
  }

  function InsideBrackets(raw: string): string {
    var s := Strip(raw);
    if |s| < 2 then "" else Strip(s[1..|s| - 1])
  }

  function Prefixed(items: seq<string>, r: Result<seq<string>>): Result<seq<string>> {
    if r.Ok? then Ok(items + r.value) else r
  }

  lemma SplitNext(s: string, i: nat, items: seq<string>, cur: string, inS: bool, inD: bool)
    requires i < |s|
    ensures var c := s[i];
            var all := Prefixed(items, SplitItems(s[i..], cur, inS, inD));
            if c == ',' && !inS && !inD then all == Prefixed(items + [cur], SplitItems(s[i + 1..], "", inS, inD))
            else if (c == '[' || c == '{') && !inS && !inD then all == Err(NestedCollection)
            else all == Prefixed(items, SplitItems(s[i + 1..], cur + [c], if c == '\'' && !inD then !inS else inS,
                                                   if c == '"' && !inS then !inD else inD))
  {
    TakeOneMore(s, i);
    var rest := SplitItems(s[i + 1..], "", inS, inD);
    if rest.Ok? {
      ConcatIsAssociative(items, [cur], rest.value);
    }
  }

  method ParseInlineList(raw: string) returns (r: Result<Value>)
    ensures r == ParseItems(InsideBrackets(raw))
  {
    var inner := InsideBrackets(raw);
    if inner == "" {
      return Ok(List([]));
    }
    var items := SplitTopLevel(inner);
    if items.Err? {
      return Err(items.problem);
    }
    var values := ParseAll(items.value);
    r := if values.Ok? then Ok(List(values.value)) else Err(values.problem);
  }

  lemma PrefixedNothing(r: Result<seq<string>>)
    ensures Prefixed([], r) == r
  {
    if r.Ok? {
      assert [] + r.value == r.value;
    }
  }

  method SplitTopLevel(inner: string) returns (r: Result<seq<string>>)
    ensures r == SplitItems(inner, "", false, false)
  {
    var items: seq<string> := [];
    var cur, inS, inD := "", false, false;
    assert inner[0..] == inner;
    PrefixedNothing(SplitItems(inner, "", false, false));
    for i := 0 to |inner|
      invariant SplitItems(inner, "", false, false) == Prefixed(items, SplitItems(inner[i..], cur, inS, inD))
    {
      var c := inner[i];
      SplitNext(inner, i, items, cur, inS, inD);
      if c == '\'' && !inD {
        inS, cur := !inS, cur + [c];
      } else if c == '"' && !inS {
        inD, cur := !inD, cur + [c];
      } else if c == ',' && !inS && !inD {
        items, cur := items + [cur], "";
      } else if (c == '[' || c == '{') && !inS && !inD {
        return Err(NestedCollection);
      } else {
        cur := cur + [c];
      }
    }
    assert inner[|inner|..] == "";
    r := if inS || inD then Err(UnterminatedQuote) else Ok(items + [cur]);
  }

  // -------------------------------------------------------------- lines

  function KeyLength(s: string): (n: nat)
    ensures n <= |s|
  {
    if s != "" && IsKeyChar(s[0]) then 1 + KeyLength(s[1..]) else 0
  }

  /** `^([A-Za-z0-9_.-]+):(.*)$` */
  predicate HasKey(s: string) {
    var n := KeyLength(s); 0 < n < |s| && s[n] == ':' && AllInLine(s[n + 1..])
  }

  function KeyOf(s: string): string
    requires HasKey(s)
  {
    s[..KeyLength(s)]
  }

  function RestOf(s: string): string
    requires HasKey(s)
  {
    s[KeyLength(s) + 1..]
  }

  /** `/:\s/` finds a match. */
  predicate ColonBlank(s: string) {
    |s| > 1 && ((s[0] == ':' && Blank(s[1])) || ColonBlank(s[1..]))
  }

  predicate Defines(doc: Doc, key: string) {
    doc != [] && (doc[0].key == key || Defines(doc[1..], key))
  }

  /** `doc[key].push(v)` */
  function Push(doc: Doc, key: string, v: Value): Doc {
    if doc == [] then []
    else if doc[0].key == key then
      [Entry(key, if doc[0].value.List? then List(doc[0].value.items + [v]) else doc[0].value)] + doc[1..]
    else [doc[0]] + Push(doc[1..], key, v)
  }

  /** A pending list that got no items is an empty value. */
  function Settled(doc: Doc, key: string): Doc {
    if doc == [] then []
    else if doc[0].key == key then [Entry(key, if doc[0].value == List([]) then Null else doc[0].value)] + doc[1..]
    else [doc[0]] + Settled(doc[1..], key)
  }

  datatype State = State(doc: Doc, sawDocStart: bool, sawAnyKey: bool, pending: Option<string>)

  const START := State([], false, false, None)

  function Closed(s: State): Doc {
    if s.pending.Some? then Settled(s.doc, s.pending.value) else s.doc
  }

  function ReadItem(s: State, trimmed: string): Result<State> {
    if s.pending.None? then Err(ItemWithoutKey)
    else
      var item := if trimmed == "-" || |trimmed| < 2 then "" else trimmed[2..];
      if HasKey(Strip(item)) && ColonBlank(item + " ") then Err(MappingInList)
      else
        var v := ParseScalar(item);
        if v.Ok? then Ok(s.(doc := Push(s.doc, s.pending.value, v.value))) else Err(v.problem)
  }

  function ReadValue(value: string): Result<Value> {
    if Starts(value, '[') then
      if !Ends(value, ']') then Err(UnterminatedList) else ParseItems(InsideBrackets(value))
    else ParseScalar(value)
  }

  function ReadKey(s: State, trimmed: string): Result<State> {
    if !HasKey(trimmed) then Err(ExpectedKey)
    else
      var key := KeyOf(trimmed);
      if Defines(s.doc, key) then Err(DuplicateKey)
      else
        var doc := Closed(s);
        var value := Strip(RestOf(trimmed));
        if value == "" then Ok(State(doc + [Entry(key, List([]))], s.sawDocStart, true, Some(key)))
        else
          var v := ReadValue(value);
          if v.Ok? then Ok(State(doc + [Entry(key, v.value)], s.sawDocStart, true, None)) else Err(v.problem)
  }

  predicate Dashed(trimmed: string) {
    |trimmed| > 1 && trimmed[0] == '-' && trimmed[1] == ' '
  }

  function ReadLine(s: State, rawLine: string): Result<State> {
    var noComment := Cut(rawLine, true, false, false);
    var trimmed := Strip(noComment);
    if trimmed == "" then Ok(s)
    else if Starts(rawLine, '\t') then Err(TabIndent)
    else if trimmed == "---" then
      if s.sawDocStart || s.sawAnyKey then Err(MultipleDocuments) else Ok(s.(sawDocStart := true))
    else if trimmed == "..." then Ok(s)
    else if Blank(noComment[0]) then
      if Dashed(trimmed) || trimmed == "-" then ReadItem(s, trimmed) else Err(NestedMapping)
    else if Dashed(trimmed) then Err(TopLevelList)
    else ReadKey(s, trimmed)
  }

  /** `text.split(/\r\n|\r|\n/)` */
  function Lines(text: string): (r: seq<string>)
    ensures r != []
  {
    if text == "" then [""]
    else if text[0] == '\r' && |text| > 1 && text[1] == '\n' then [""] + Lines(text[2..])
    else if text[0] == '\r' || text[0] == '\n' then [""] + Lines(text[1..])
    else
      var rest := Lines(text[1..]);
      [[text[0]] + rest[0]] + rest[1..]
  }

  /** A problem, and the 1-based line it was found on, if it was on one. */
  datatype Outcome = Parsed(doc: Doc) | ParseError(problem: Problem, line: Option<nat>)

  function Finish(s: State): Outcome {
    if !s.sawAnyKey then ParseError(EmptyDocument, None) else Parsed(Closed(s))
  }

  function ReadLines(s: State, lines: seq<string>, lineNo: nat): Outcome
    decreases |lines|
  {
    if lines == [] then Finish(s)
    else
      match ReadLine(s, lines[0])
      case Err(problem) => ParseError(problem, Some(lineNo))
      case Ok(next) => ReadLines(next, lines[1..], lineNo + 1)
  }

  function ParseText(text: string): Outcome {
    ReadLines(START, Lines(text), 1)
  }

  /** The loop over the lines. */
  method Parse(text: string) returns (r: Outcome)
    ensures r == ParseText(text)
  {
    var lines := Lines(text);
    var s := START;
    assert lines[0..] == lines;
    for idx := 0 to |lines|
      invariant ReadLines(START, lines, 1) == ReadLines(s, lines[idx..], idx + 1)
    {
      TakeOneMore(lines, idx);
      var next := Line(s, lines[idx]);
      if next.Err? {
        return ParseError(next.problem, Some(idx + 1));
      }
      s := next.value;
    }
    r := Finish(s);
  }

  method Line(s: State, rawLine: string) returns (r: Result<State>)
    ensures r == ReadLine(s, rawLine)
  {
    var noComment := StripTrailingComment(rawLine);
    var trimmed := Strip(noComment);
    if trimmed == "" {
      return Ok(s);
    }
    if Starts(rawLine, '\t') {
      return Err(TabIndent);
    }
    if trimmed == "---" {
      return if s.sawDocStart || s.sawAnyKey then Err(MultipleDocuments) else Ok(s.(sawDocStart := true));
    }
    if trimmed == "..." {
      return Ok(s);
    }
    var indented := Blank(noComment[0]);
    if (indented && Dashed(trimmed)) || (indented && trimmed == "-") {
      r := ReadItem(s, trimmed);
    } else if indented {
      r := Err(NestedMapping);
    } else if Dashed(trimmed) {
      r := Err(TopLevelList);
    } else {
      r := Key(s, trimmed);
    }
  }

  method Key(s: State, trimmed: string) returns (r: Result<State>)
    ensures r == ReadKey(s, trimmed)
  {
    if !HasKey(trimmed) {
      return Err(ExpectedKey);
    }
    var key := KeyOf(trimmed);
    if Defines(s.doc, key) {
      return Err(DuplicateKey);
    }
    var doc := Closed(s);
    var value := Strip(RestOf(trimmed));
    if value == "" {
      return Ok(State(doc + [Entry(key, List([]))], s.sawDocStart, true, Some(key)));
    }
    var v;
    if Starts(value, '[') {
      if !Ends(value, ']') {
        return Err(UnterminatedList);
      }
      v := ParseInlineList(value);
    } else {
      v := Scalar(value);
    }
    r := if v.Ok? then Ok(State(doc + [Entry(key, v.value)], s.sawDocStart, true, None)) else Err(v.problem);
  }

  method Scalar(raw: string) returns (r: Result<Value>)
    ensures r == ParseScalar(raw)
  {
    var s := Strip(raw);
    if Starts(s, '"') {
      if |s| < 2 || !Ends(s, '"') {
        return Err(UnterminatedDouble);
      }
      var text := UnescapeDouble(s[1..|s| - 1]);
      return if text.Ok? then Ok(Str(text.value)) else Err(text.problem);
    }
    if Starts(s, '\'') {
      return if |s| < 2 || !Ends(s, '\'') then Err(UnterminatedSingle) else Ok(Str(Undoubled(s[1..|s| - 1])));
    }
    if Starts(s, '|') || Starts(s, '>') {
      return Err(BlockScalar);
    }
    if Starts(s, '&') || Starts(s, '*') {
      return Err(Anchor);
    }
    if Starts(s, '{') {
      return Err(InlineMapping);
    }
    r := Ok(TypePlainScalar(s));
  }
}
