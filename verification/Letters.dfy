/** Comparing texts without regard to letter case, and the aliases of a test file's fields. */
module Letters {
  import opened Text
  import opened TestYaml
  import CaseId

  predicate IsUpper(c: char) {
    'A' <= c <= 'Z'
  }

  /** The same letter, in upper or lower case, or the same other character. */
  predicate SameLetter(c: char, d: char) {
    c == d || (IsUpper(c) && d as int == c as int + 32) || (IsUpper(d) && c as int == d as int + 32)
  }

  predicate SameLetters(a: string, b: string) {
    |a| == |b| && forall i | 0 <= i < |a| :: SameLetter(a[i], b[i])
  }

  lemma LowerCharTells(c: char, d: char)
    ensures LowerChar(c) == LowerChar(d) <==> SameLetter(c, d)
    ensures !IsUpper(LowerChar(c))
  {
  }

  /** Lower-casing makes two texts equal exactly if they differ in nothing but the case of letters, and leaves
      no upper-case letter. */
  lemma {:induction false} LowerTells(a: string, b: string)
    ensures Lower(a) == Lower(b) <==> SameLetters(a, b)
    ensures forall i | 0 <= i < |a| :: !IsUpper(Lower(a)[i])
  {
    if a != [] {
      LowerTells(a[1..], if b == [] then [] else b[1..]);
      forall i | 0 <= i < |a| ensures !IsUpper(Lower(a)[i]) {
        LowerCharTells(a[0], a[0]);
        assert i > 0 ==> Lower(a)[i] == Lower(a[1..])[i - 1];
      }
    }
    if a != [] && b != [] {
      LowerCharTells(a[0], b[0]);
      assert Lower(a)[1..] == Lower(a[1..]) && Lower(b)[1..] == Lower(b[1..]);
      assert Lower(a)[0] == LowerChar(a[0]) && Lower(b)[0] == LowerChar(b[0]);
      HeadsAndTails(a, b);
    }
  }

  lemma HeadsAndTails(a: string, b: string)
    requires a != "" && b != ""
    ensures SameLetters(a, b) <==> SameLetter(a[0], b[0]) && SameLetters(a[1..], b[1..])
  {
    if SameLetter(a[0], b[0]) && SameLetters(a[1..], b[1..]) {
      forall i | 0 <= i < |a| ensures SameLetter(a[i], b[i]) {
        assert i > 0 ==> a[i] == a[1..][i - 1] && b[i] == b[1..][i - 1];
      }
    }
  }

  // -------------------------------------------------------------- aliases

  /** The text is one of the words, whatever the case of its letters. */
  predicate Spells(raw: string, words: seq<string>) {
    words != [] && (SameLetters(words[0], raw) || Spells(raw, words[1..]))
  }

  predicate NoUpper(s: string) {
    forall i | 0 <= i < |s| :: !IsUpper(s[i])
  }

  lemma {:induction false} LowerOfLower(s: string)
    requires NoUpper(s)
    ensures Lower(s) == s
  {
    if s != "" {
      LowerOfLower(s[1..]);
    }
  }

  lemma {:induction false} SpelledIsIn(raw: string, words: seq<string>)
    requires forall w <- words :: NoUpper(w)
    ensures Spells(raw, words) <==> Lower(raw) in words
  {
    if words != [] {
      assert words[0] in words && forall w <- words[1..] :: w in words;
      LowerOfLower(words[0]);
      LowerTells(words[0], raw);
      SpelledIsIn(raw, words[1..]);
      assert words == [words[0]] + words[1..];
    }
  }

  /** Exactly these types mean an automated test; every other is read as a manual one. */
  lemma TypeIsRead(raw: string)
    ensures KindOf(Lower(raw)) == if Spells(raw, ["automated", "auto", "e2e", "integration", "unit"]) then "automated" else "manual"
  {
    SpelledIsIn(raw, ["automated", "auto", "e2e", "integration", "unit"]);
  }

  /** Exactly these priorities are low, high and critical; every other is read as medium. */
  lemma PriorityIsRead(raw: string)
    ensures var p := PriorityOf(Lower(raw));
            && (p == "low" <==> Spells(raw, ["low", "p3"]))
            && (p == "high" <==> Spells(raw, ["high", "p1"]))
            && (p == "critical" <==> Spells(raw, ["critical", "crit", "p0", "blocker"]))
            && (p == "low" || p == "med" || p == "high" || p == "critical")
  {
    SpelledIsIn(raw, ["low", "p3"]);
    SpelledIsIn(raw, ["high", "p1"]);
    SpelledIsIn(raw, ["critical", "crit", "p0", "blocker"]);
  }

  /** Exactly these statuses are pass, fail and blocked; every other is read as pending. */
  lemma StatusIsRead(raw: string)
    ensures var st := StatusOf(Lower(raw));
            && (st == "pass" <==> Spells(raw, ["pass", "passed", "ok", "green"]))
            && (st == "fail" <==> Spells(raw, ["fail", "failed", "red"]))
            && (st == "blocked" <==> Spells(raw, ["blocked"]))
            && (st == "pass" || st == "fail" || st == "blocked" || st == "pending")
  {
    SpelledIsIn(raw, ["pass", "passed", "ok", "green"]);
    SpelledIsIn(raw, ["fail", "failed", "red"]);
    SpelledIsIn(raw, ["blocked"]);
  }

  /** Whatever file is read, its type, its status and its priority are those that its words spell. */
  lemma ParsedWordsAreRead(y: Yaml, m: map<Key, Value>)
    requires ParseMapping(y, m).Ok?
    ensures var t := ParseMapping(y, m).test;
            && (t.kind == "automated" <==> Spells(TextOf(y, m, TypeKey, "manual"), ["automated", "auto", "e2e", "integration", "unit"]))
            && (t.status == "pass" <==> Spells(TextOf(y, m, StatusKey, "pending"), ["pass", "passed", "ok", "green"]))
            && (t.status == "fail" <==> Spells(TextOf(y, m, StatusKey, "pending"), ["fail", "failed", "red"]))
            && (t.status == "blocked" <==> Spells(TextOf(y, m, StatusKey, "pending"), ["blocked"]))
            && (t.priority == "low" <==> Spells(TextOf(y, m, PriorityKey, "med"), ["low", "p3"]))
            && (t.priority == "high" <==> Spells(TextOf(y, m, PriorityKey, "med"), ["high", "p1"]))
            && (t.priority == "critical" <==> Spells(TextOf(y, m, PriorityKey, "med"), ["critical", "crit", "p0", "blocker"]))
  {
    TypeIsRead(TextOf(y, m, TypeKey, "manual"));
    StatusIsRead(TextOf(y, m, StatusKey, "pending"));
    PriorityIsRead(TextOf(y, m, PriorityKey, "med"));
  }

  /** A case id keeps the letters and digits of its token, whatever their case, with a dash for each separator. */
  lemma {:induction false} IdKeepsLetters(tail: string, i: nat)
    requires i < |tail|
    ensures if CaseId.IsDash(tail[i]) then CaseId.Normal(tail)[i] == '-' else SameLetter(tail[i], CaseId.Normal(tail)[i])
  {
    if i > 0 {
      IdKeepsLetters(tail[1..], i - 1);
    }
  }
}
