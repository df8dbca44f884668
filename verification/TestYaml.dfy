/** A test as a YAML file and as a row: the mapping level of backend/importers/yaml_importer.py. The YAML
    library itself is a pair of functions. */
module TestYaml {
  import opened Prelude
  import opened Text
  import opened Paths

  /** The documented keys; every other key is ignored. */
  datatype Key = IdKey | TitleKey | TypeKey | RunnerKey | StatusKey | PriorityKey | OwnerKey | TagsKey | FolderKey

  /** `Other` is a number, a truth value, a date or a nested mapping. */
  datatype Value = Null | Str(s: string) | List(items: seq<Value>) | Other(code: nat, truthy: bool)

  datatype Loaded = NotYaml | NotMapping | Mapping(m: map<Key, Value>)

  type Pairs = seq<(Key, Value)>

  /** `safe_load`, `safe_dump` and `str` of whatever is not a string. */
  datatype Yaml = Yaml(load: string -> Loaded, dump: Pairs -> string, show: Value -> string)

  datatype Test = Test(id: Option<string>, title: string, kind: string, runner: Option<string>, status: string,
                       priority: string, owner: string, tags: seq<string>, folderPath: string)

  datatype Outcome = Ok(test: Test) | ValueError

  // -------------------------------------------------------------- parsing

  predicate Truthy(v: Value) {
    match v
    case Null => false
    case Str(s) => s != ""
    case List(items) => items != []
    case Other(_, truthy) => truthy
  }

  function Get(m: map<Key, Value>, key: Key): Value {
    if key in m then m[key] else Null
  }

  /** `str(v)` */
  function Shown(y: Yaml, v: Value): string {
    if v.Str? then v.s else y.show(v)
  }

  /** `str(data.get(key) or default).strip()` */
  function TextOf(y: Yaml, m: map<Key, Value>, key: Key, default: string): string {
    Trim(if Truthy(Get(m, key)) then Shown(y, Get(m, key)) else default)
  }

  /** `str(data[key]).strip() if data.get(key) else None` */
  function OptionalText(y: Yaml, m: map<Key, Value>, key: Key): Option<string> {
    if Truthy(Get(m, key)) then Some(Trim(Shown(y, Get(m, key)))) else None
  }

  function KindOf(raw: string): string {
    if raw == "automated" || raw == "auto" || raw == "e2e" || raw == "integration" || raw == "unit"
    then "automated" else "manual"
  }

  function PriorityOf(raw: string): string {
    if raw == "low" || raw == "p3" then "low"
    else if raw == "high" || raw == "p1" then "high"
    else if raw == "critical" || raw == "crit" || raw == "p0" || raw == "blocker" then "critical"
    else "med"
  }

  function StatusOf(raw: string): string {
    if raw == "pass" || raw == "passed" || raw == "ok" || raw == "green" then "pass"
    else if raw == "fail" || raw == "failed" || raw == "red" then "fail"
    else if raw == "blocked" then "blocked"
    else "pending"
  }

  predicate IsKind(s: string) {
    s == "automated" || s == "manual"
  }

  predicate IsPriority(s: string) {
    s == "low" || s == "med" || s == "high" || s == "critical"
  }

  function ShownAll(y: Yaml, items: seq<Value>): seq<string> {
    if items == [] then [] else [Shown(y, items[0])] + ShownAll(y, items[1..])
  }

  function TagsOf(y: Yaml, v: Value): seq<string> {
    match v
    case Str(s) => if s == "" then [] else Kept(Split(s, ','))
    case List(items) => Kept(ShownAll(y, items))
    case _ => []
  }

  function ParseMapping(y: Yaml, m: map<Key, Value>): Outcome {
    var title := TextOf(y, m, TitleKey, "");
    if title == "" then ValueError
    else
      var owner := OptionalText(y, m, OwnerKey);
      Ok(Test(
        OptionalText(y, m, IdKey),
        title,
        KindOf(Lower(TextOf(y, m, TypeKey, "manual"))),
        OptionalText(y, m, RunnerKey),
        StatusOf(Lower(TextOf(y, m, StatusKey, "pending"))),
        PriorityOf(Lower(TextOf(y, m, PriorityKey, "med"))),
        if owner.Some? then owner.value else "",
        TagsOf(y, Get(m, TagsKey)),
        StripSlashes(TextOf(y, m, FolderKey, ""))))
  }

  function Parse(y: Yaml, content: string): Outcome {
    match y.load(content)
    case Mapping(m) => ParseMapping(y, m)
    case _ => ValueError
  }

  // ------------------------------------------------------------ serializing

  /** The fields a row is written back with. */
  datatype Fields = Fields(id: string, title: string, kind: string, runner: Option<string>,
                           priority: string, owner: string, tags: seq<string>, folder: string)

  const DUMP_ORDER: seq<Key> := [IdKey, TitleKey, TypeKey, RunnerKey, PriorityKey, OwnerKey, TagsKey, FolderKey]

  function StrValues(items: seq<string>): seq<Value> {
    if items == [] then [] else [Str(items[0])] + StrValues(items[1..])
  }

  function NonEmpty(s: string): Option<Value> {
    if s == "" then None else Some(Str(s))
  }

  /** The value a key is written with, if it is written. */
  function ValueFor(f: Fields, key: Key): Option<Value> {
    match key
    case IdKey => NonEmpty(f.id)
    case TitleKey => NonEmpty(f.title)
    case TypeKey => NonEmpty(f.kind)
    case RunnerKey => if f.runner.Some? then NonEmpty(f.runner.value) else None
    case PriorityKey => NonEmpty(f.priority)
    case OwnerKey => NonEmpty(f.owner)
    case TagsKey => if f.tags == [] then None else Some(List(StrValues(f.tags)))
    case FolderKey => NonEmpty(f.folder)
    case StatusKey => None
  }

  function Pair(f: Fields, key: Key): Pairs {
    var v := ValueFor(f, key);
    if v.Some? then [(key, v.value)] else []
  }

  function Written(f: Fields, keys: seq<Key>): Pairs {
    if keys == [] then [] else Pair(f, keys[0]) + Written(f, keys[1..])
  }

  function Document(f: Fields): Pairs {
    Written(f, DUMP_ORDER) + if f.title == "" then [(TitleKey, Str(Trim(f.title)))] else []
  }

  predicate Has(pairs: Pairs, key: Key) {
    pairs != [] && (pairs[0].0 == key || Has(pairs[1..], key))
  }

  /** The document, collected key by key. */
  method Serialize(y: Yaml, f: Fields) returns (content: string)
    ensures content == y.dump(Document(f))
  {
    var keys := DUMP_ORDER;
    var out: Pairs := [];
    assert keys[0..] == keys;
    for i := 0 to |keys|
      invariant out + Written(f, keys[i..]) == Written(f, keys)
    {
      ghost var before := out;
      TakeOneMore(keys, i);
      var val := ValueFor(f, keys[i]);
      if val.Some? {
        out := out + [(keys[i], val.value)];
      }
      assert out == before + Pair(f, keys[i]);
      ConcatIsAssociative(before, Pair(f, keys[i]), Written(f, keys[i + 1..]));
    }
    assert out == Written(f, keys);
    WrittenHas(f, keys, TitleKey);
    AllKeysAreDumped(TitleKey);
    if !Has(out, TitleKey) {
      out := out + [(TitleKey, Str(Trim(f.title)))];
    }
    assert out == Document(f);
    content := y.dump(out);
  }

  lemma {:induction false} WrittenHas(f: Fields, keys: seq<Key>, key: Key)
    ensures Has(Written(f, keys), key) <==> key in keys && ValueFor(f, key).Some?
  {
    if keys != [] {
      WrittenHas(f, keys[1..], key);
      var v := ValueFor(f, keys[0]);
      if v.Some? {
        assert Written(f, keys)[1..] == Written(f, keys[1..]);
      } else {
        assert Written(f, keys) == Written(f, keys[1..]);
      }
    }
  }

  /** The documented order of the keys. */
  function Rank(key: Key): nat {
    match key
    case IdKey => 0
    case TitleKey => 1
    case TypeKey => 2
    case RunnerKey => 3
    case StatusKey => 4
    case PriorityKey => 5
    case OwnerKey => 6
    case TagsKey => 7
    case FolderKey => 8
  }

  predicate InOrder(pairs: Pairs) {
    |pairs| > 1 ==> Rank(pairs[0].0) < Rank(pairs[1].0) && InOrder(pairs[1..])
  }

  predicate Rising(keys: seq<Key>) {
    |keys| > 1 ==> Rank(keys[0]) < Rank(keys[1]) && Rising(keys[1..])
  }

  lemma {:induction false} WrittenInOrder(f: Fields, keys: seq<Key>)
    requires Rising(keys)
    ensures InOrder(Written(f, keys))
    ensures Written(f, keys) != [] ==> Rank(keys[0]) <= Rank(Written(f, keys)[0].0)
  {
    if keys != [] {
      WrittenInOrder(f, keys[1..]);
      var rest := Written(f, keys[1..]);
      if ValueFor(f, keys[0]).Some? {
        assert Written(f, keys)[1..] == rest;
      } else {
        NothingBefore(rest);
      }
    }
  }

  /** The keys of a row with a title are written in the documented order. */
  lemma DocumentIsInOrder(f: Fields)
    requires f.title != ""
    ensures InOrder(Document(f))
  {
    assert Rising(DUMP_ORDER) by {
      assert Rising([OwnerKey, TagsKey, FolderKey]) && Rising([RunnerKey, PriorityKey, OwnerKey, TagsKey, FolderKey]);
      assert DUMP_ORDER[1..][1..][1..] == [RunnerKey, PriorityKey, OwnerKey, TagsKey, FolderKey];
    }
    WrittenInOrder(f, DUMP_ORDER);
    assert Document(f) == Written(f, DUMP_ORDER);
  }

  // -------------------------------------------------------------- round trip

  function AsMap(pairs: Pairs): map<Key, Value> {
    if pairs == [] then map[] else AsMap(pairs[1..])[pairs[0].0 := pairs[0].1]
  }

  /** Loading undoes dumping. */
  ghost predicate Undumps(y: Yaml, f: Fields) {
    y.load(y.dump(Document(f))) == Mapping(AsMap(Document(f)))
  }

  predicate DistinctKeys(keys: seq<Key>) {
    forall i, j | 0 <= i < j < |keys| :: keys[i] != keys[j]
  }

  lemma {:induction false} WrittenIsFound(f: Fields, keys: seq<Key>, more: Pairs, key: Key)
    requires DistinctKeys(keys)
    ensures Get(AsMap(Written(f, keys) + more), key)
         == if key in keys && ValueFor(f, key).Some? then ValueFor(f, key).value else Get(AsMap(more), key)
  {
    if keys == [] {
      assert Written(f, keys) + more == more;
    } else {
      WrittenIsFound(f, keys[1..], more, key);
      var v := ValueFor(f, keys[0]);
      if v.Some? {
        assert Written(f, keys) + more == [(keys[0], v.value)] + (Written(f, keys[1..]) + more);
      } else {
        assert Written(f, keys) + more == Written(f, keys[1..]) + more;
      }
    }
  }

  function Place(key: Key): nat {
    match key
    case IdKey => 0
    case TitleKey => 1
    case TypeKey => 2
    case RunnerKey => 3
    case PriorityKey => 4
    case OwnerKey => 5
    case TagsKey => 6
    case FolderKey => 7
    case StatusKey => 8
  }

  lemma AllKeysAreDumped(key: Key)
    ensures key in DUMP_ORDER <==> key != StatusKey
  {
    if key != StatusKey {
      assert DUMP_ORDER[Place(key)] == key;
    }
  }

  lemma DumpedOnce()
    ensures DistinctKeys(DUMP_ORDER)
  {
    assert forall i | 0 <= i < |DUMP_ORDER| :: Place(DUMP_ORDER[i]) == i;
  }

  lemma DocumentHolds(f: Fields, key: Key)
    requires f.title != ""
    ensures Get(AsMap(Document(f)), key) == if ValueFor(f, key).Some? then ValueFor(f, key).value else Null
  {
    AllKeysAreDumped(key);
    DumpedOnce();
    WrittenIsFound(f, DUMP_ORDER, [], key);
    assert Written(f, DUMP_ORDER) + [] == Document(f);
  }

  lemma {:induction false} ShownStrings(y: Yaml, items: seq<string>)
    ensures ShownAll(y, StrValues(items)) == items
  {
    if items != [] {
      ShownStrings(y, items[1..]);
      assert StrValues(items)[1..] == StrValues(items[1..]);
    }
  }

  /** What a field reads back as. */
  function ReadBack(s: string, default: string): string {
    Trim(if s == "" then default else s)
  }

  function OptionalReadBack(s: Option<string>): Option<string> {
    if s == None || s == Some("") then None else Some(Trim(s.value))
  }

  function ReadAgain(f: Fields): Test {
    Test(if f.id == "" then None else Some(Trim(f.id)),
         Trim(f.title),
         KindOf(Lower(ReadBack(f.kind, "manual"))),
         OptionalReadBack(f.runner),
         StatusOf(Lower(Trim("pending"))),
         PriorityOf(Lower(ReadBack(f.priority, "med"))),
         Trim(f.owner),
         Kept(f.tags),
         StripSlashes(Trim(f.folder)))
  }

  predicate HoldsText(m: map<Key, Value>, key: Key, s: string) {
    Get(m, key) == if s == "" then Null else Str(s)
  }

  lemma TextReadsBack(y: Yaml, m: map<Key, Value>, key: Key, s: string, default: string)
    requires HoldsText(m, key, s)
    ensures TextOf(y, m, key, default) == ReadBack(s, default)
    ensures OptionalText(y, m, key) == if s == "" then None else Some(Trim(s))
  {
  }

  lemma TagsReadBack(y: Yaml, m: map<Key, Value>, tags: seq<string>)
    requires Get(m, TagsKey) == if tags == [] then Null else List(StrValues(tags))
    ensures TagsOf(y, Get(m, TagsKey)) == Kept(tags)
  {
    ShownStrings(y, tags);
  }

  /** The runner as a plain string. */
  function RunnerText(f: Fields): string {
    if f.runner.Some? then f.runner.value else ""
  }

  lemma MappingIsReadAgain(y: Yaml, m: map<Key, Value>, f: Fields)
    requires HoldsText(m, IdKey, f.id) && HoldsText(m, TitleKey, f.title) && HoldsText(m, TypeKey, f.kind)
    requires HoldsText(m, RunnerKey, RunnerText(f)) && HoldsText(m, StatusKey, "")
    requires HoldsText(m, PriorityKey, f.priority) && HoldsText(m, OwnerKey, f.owner)
    requires Get(m, TagsKey) == if f.tags == [] then Null else List(StrValues(f.tags))
    requires HoldsText(m, FolderKey, f.folder) && Trim(f.title) != ""
    ensures ParseMapping(y, m) == Ok(ReadAgain(f))
  {
    TextReadsBack(y, m, IdKey, f.id, "");
    TextReadsBack(y, m, TitleKey, f.title, "");
    TextReadsBack(y, m, TypeKey, f.kind, "manual");
    TextReadsBack(y, m, RunnerKey, RunnerText(f), "");
    TextReadsBack(y, m, StatusKey, "", "pending");
    TextReadsBack(y, m, PriorityKey, f.priority, "med");
    TextReadsBack(y, m, OwnerKey, f.owner, "");
    TextReadsBack(y, m, FolderKey, f.folder, "");
    TagsReadBack(y, m, f.tags);
  }

  /** Any row with a title comes back, with each field trimmed and mapped. */
  lemma WrittenIsReadAgain(y: Yaml, f: Fields)
    requires Undumps(y, f) && Trim(f.title) != ""
    ensures Parse(y, y.dump(Document(f))) == Ok(ReadAgain(f))
  {
    DocumentHolds(f, IdKey);
    DocumentHolds(f, TitleKey);
    DocumentHolds(f, TypeKey);
    DocumentHolds(f, RunnerKey);
    DocumentHolds(f, StatusKey);
    DocumentHolds(f, PriorityKey);
    DocumentHolds(f, OwnerKey);
    DocumentHolds(f, TagsKey);
    DocumentHolds(f, FolderKey);
    MappingIsReadAgain(y, AsMap(Document(f)), f);
  }

  /** A row without a title is written as a file that cannot be read. */
  lemma NoTitleIsNotRead(y: Yaml, f: Fields)
    requires Undumps(y, f) && Trim(f.title) == ""
    ensures Parse(y, y.dump(Document(f))) == ValueError
  {
    AllKeysAreDumped(TitleKey);
    DumpedOnce();
    if f.title == "" {
      WrittenIsFound(f, DUMP_ORDER, [(TitleKey, Str(Trim(f.title)))], TitleKey);
    } else {
      DocumentHolds(f, TitleKey);
    }
  }

  /** The test says the same as the fields. */
  predicate Same(t: Test, f: Fields) {
    && t.id == (if f.id == "" then None else Some(f.id))
    && t.title == f.title && t.kind == f.kind && t.runner == f.runner && t.priority == f.priority
    && t.owner == f.owner && t.tags == f.tags && t.folderPath == f.folder
  }

  predicate AllTags(tags: seq<string>) {
    tags != [] ==> tags[0] != "" && Trimmed(tags[0]) && AllTags(tags[1..])
  }

  /** Trimmed text, a known type and priority, and a folder path without outer slashes. */
  predicate NormalForm(f: Fields) {
    && f.title != "" && Trimmed(f.title) && Trimmed(f.id) && Trimmed(f.owner) && AllTags(f.tags)
    && IsKind(f.kind) && IsPriority(f.priority)
    && (f.runner.Some? ==> f.runner.value != "" && Trimmed(f.runner.value))
    && Trimmed(f.folder) && NoOuterSlash(f.folder)
  }

  lemma {:induction false} KeptAreTags(tags: seq<string>)
    ensures AllTags(Kept(tags))
    ensures AllTags(tags) ==> Kept(tags) == tags
  {
    if tags != [] {
      KeptAreTags(tags[1..]);
      TrimTrims(tags[0]);
      if Trim(tags[0]) == "" {
        assert Kept(tags) == Kept(tags[1..]);
      } else {
        assert Kept(tags)[1..] == Kept(tags[1..]);
      }
    }
  }

  lemma {:induction false} LowerStays(s: string)
    requires forall c <- s :: !('A' <= c <= 'Z')
    ensures Lower(s) == s
  {
    if s != "" {
      assert s[0] in s && forall c <- s[1..] :: c in s;
      LowerStays(s[1..]);
    }
  }

  /** A lower-case word reads back as itself. */
  lemma WordStays(s: string, default: string)
    requires s != "" && forall i | 0 <= i < |s| :: 'a' <= s[i] <= 'z'
    ensures Lower(ReadBack(s, default)) == s
  {
    TrimTrims(s);
    LowerStays(s);
  }

  lemma KindsMap(raw: string, s: string)
    requires IsKind(s) ==> raw == s
    ensures KindOf(raw) == s <==> IsKind(s)
  {
  }

  /** A type comes back exactly when it is one of the two the importer maps to. */
  lemma KindComesBack(s: string)
    ensures KindOf(Lower(ReadBack(s, "manual"))) == s <==> IsKind(s)
  {
    if IsKind(s) {
      WordStays(s, "manual");
    }
    KindsMap(Lower(ReadBack(s, "manual")), s);
  }

  lemma PrioritiesMap(raw: string, s: string)
    requires IsPriority(s) ==> raw == s
    ensures PriorityOf(raw) == s <==> IsPriority(s)
  {
  }

  lemma PriorityComesBack(s: string)
    ensures PriorityOf(Lower(ReadBack(s, "med"))) == s <==> IsPriority(s)
  {
    if IsPriority(s) {
      WordStays(s, "med");
    }
    PrioritiesMap(Lower(ReadBack(s, "med")), s);
  }

  lemma {:induction false} ShorterTrim(s: string)
    ensures |Trim(s)| <= |s| && |TrimRight(s)| <= |s| && |TrimLeft(s)| <= |s|
  {
    RightIsShorter(s);
    LeftIsShorter(s);
    LeftIsShorter(TrimRight(s));
  }

  lemma {:induction false} RightIsShorter(s: string)
    ensures |TrimRight(s)| <= |s|
  {
    if s != "" {
      RightIsShorter(s[1..]);
    }
  }

  lemma {:induction false} LeftIsShorter(s: string)
    ensures |TrimLeft(s)| <= |s|
  {
    if s != "" && IsSpace(s[0]) {
      LeftIsShorter(s[1..]);
    }
  }

  /** A path that stripping leaves alone was trimmed and had no outer slash. */
  lemma FolderComesBack(s: string)
    ensures StripSlashes(Trim(s)) == s <==> Trimmed(s) && NoOuterSlash(s)
  {
    TrimTrims(s);
    StripSlashesStrips(Trim(s));
    ShorterTrim(s);
    StripsLeft(Trim(s));
    StripsRight(StripSlashesLeft(Trim(s)));
  }

  /** Writing a row and reading the file gives the same fields exactly for rows in normal form. */
  lemma RoundTripIffNormalForm(y: Yaml, f: Fields)
    requires Undumps(y, f)
    ensures var again := Parse(y, y.dump(Document(f)));
            again.Ok? && Same(again.test, f) <==> NormalForm(f)
  {
    TrimTrims(f.title);
    if Trim(f.title) == "" {
      NoTitleIsNotRead(y, f);
    } else {
      WrittenIsReadAgain(y, f);
      ReadAgainIsSame(f);
    }
  }

  lemma ReadAgainIsSame(f: Fields)
    requires Trim(f.title) != ""
    ensures Same(ReadAgain(f), f) <==> NormalForm(f)
  {
    TrimTrims(f.title);
    TrimTrims(f.id);
    TrimTrims(f.owner);
    TrimTrims(RunnerText(f));
    KindComesBack(f.kind);
    PriorityComesBack(f.priority);
    KeptAreTags(f.tags);
    FolderComesBack(f.folder);
  }

  /** Tags written as one comma-separated string are the tags written as a list. */
  lemma CommaStringGivesTheTags(y: Yaml, tags: seq<string>)
    requires tags != [] && AllTags(tags) && forall t <- tags :: ',' !in t
    ensures TagsOf(y, Str(Join(tags, ','))) == tags == TagsOf(y, List(StrValues(tags)))
  {
    SplitOfJoin(tags, ',');
    KeptAreTags(tags);
    ShownStrings(y, tags);
    assert tags[0] != "" && Join(tags, ',') != "";
  }

  // -------------------------------------------------------------- values that are no text

  predicate Falsy(v: Value) {
    v == Null || v == Str("") || v == List([]) || (v.Other? && !v.truthy)
  }

  /** Both are missing, or have the same text. */
  predicate Alike(y: Yaml, v: Value, w: Value) {
    (Truthy(v) <==> Truthy(w)) && (Truthy(v) ==> Shown(y, v) == Shown(y, w))
  }

  lemma SameText(y: Yaml, m: map<Key, Value>, n: map<Key, Value>, key: Key, default: string)
    requires Alike(y, Get(m, key), Get(n, key))
    ensures TextOf(y, m, key, default) == TextOf(y, n, key, default) && OptionalText(y, m, key) == OptionalText(y, n, key)
  {
  }

  lemma SameReading(y: Yaml, m: map<Key, Value>, n: map<Key, Value>)
    requires forall k :: k != TagsKey ==> Alike(y, Get(m, k), Get(n, k))
    requires TagsOf(y, Get(m, TagsKey)) == TagsOf(y, Get(n, TagsKey))
    ensures ParseMapping(y, m) == ParseMapping(y, n)
  {
    SameText(y, m, n, TitleKey, "");
    SameText(y, m, n, IdKey, "");
    SameText(y, m, n, TypeKey, "manual");
    SameText(y, m, n, RunnerKey, "");
    SameText(y, m, n, StatusKey, "pending");
    SameText(y, m, n, PriorityKey, "med");
    SameText(y, m, n, OwnerKey, "");
    SameText(y, m, n, FolderKey, "");
  }

  /** A field with nothing in it, be it null, an empty text or list, zero or false, is read like a missing one. */
  lemma NothingIsMissing(y: Yaml, m: map<Key, Value>, key: Key)
    requires key in m && Falsy(m[key])
    ensures ParseMapping(y, m) == ParseMapping(y, m - {key})
  {
    var without := m - {key};
    assert Get(without, key) == Null && TagsOf(y, Null) == [];
    assert Kept(ShownAll(y, [])) == [];
    forall k ensures Alike(y, Get(m, k), Get(without, k)) {
      assert k != key ==> Get(without, k) == Get(m, k);
    }
    SameReading(y, m, without);
  }

  /** A number, a truth value, a date or a mapping that is not empty is read like its text; as tags it is none. */
  lemma OtherIsItsText(y: Yaml, m: map<Key, Value>, key: Key)
    requires key in m && m[key].Other? && m[key].truthy && y.show(m[key]) != ""
    ensures ParseMapping(y, m) == ParseMapping(y, if key == TagsKey then m - {key} else m[key := Str(y.show(m[key]))])
  {
    var other := if key == TagsKey then m - {key} else m[key := Str(y.show(m[key]))];
    forall k | k != TagsKey ensures Alike(y, Get(m, k), Get(other, k)) {
      assert k != key ==> Get(other, k) == Get(m, k);
    }
    SameReading(y, m, other);
  }
}
