/** The two readings of a SQL text in `internal/sqlrun/classify.go`: the prefix classifier and
    the read-only check over the lexer's words, and how far they agree. */
module Classifier {
  import opened Collections
  import opened Text
  import opened Lexer
  import opened LexerLaws

  // ---- The read-only check ----

  const WRITE_KEYWORDS: set<string> := {
    "INSERT", "UPDATE", "DELETE", "DROP", "ALTER", "TRUNCATE", "CREATE", "REPLACE", "MERGE",
    "EXEC", "EXECUTE", "CALL", "GRANT", "REVOKE", "LOAD", "IMPORT", "COPY"
  }

  predicate NoWriteWord(words: seq<string>) {
    forall i :: 0 <= i < |words| ==> ToUpper(words[i]) !in WRITE_KEYWORDS
  }

  /** A text with no write keyword among its words. */
  predicate ReadOnly(sql: string) {
    NoWriteWord(Words(sql))
  }

  /** `IsReadOnlySQL`: nothing, or the first write keyword found. */
  method IsReadOnlySQL(sql: string) returns (found: Option<string>)
    ensures found.None? <==> ReadOnly(sql)
    ensures found.Some? ==> exists i ::
      && 0 <= i < |Words(sql)| && NoWriteWord(Words(sql)[..i])
      && found.value == ToUpper(Words(sql)[i]) && found.value in WRITE_KEYWORDS
  {
    var words := Tokenize(sql);
    for i := 0 to |words|
      invariant NoWriteWord(words[..i])
    {
      var upper := ToUpper(words[i]);
      if upper in WRITE_KEYWORDS {
        return Some(upper);
      }
      assert words[..i + 1] == words[..i] + [words[i]];
    }
    assert words[..|words|] == words;
    return None;
  }

  lemma NoWriteWordConcat(a: seq<string>, b: seq<string>)
    ensures NoWriteWord(a + b) <==> NoWriteWord(a) && NoWriteWord(b)
  {
    if NoWriteWord(a + b) {
      assert forall i :: 0 <= i < |a| ==> a[i] == (a + b)[i];
      assert forall i :: 0 <= i < |b| ==> b[i] == (a + b)[i + |a|];
    }
  }

  lemma WrapperIsHarmless()
    ensures NoWriteWord(["SELECT", "FROM"]) && NoWriteWord(["AS", "_q", "LIMIT"]) && NoWriteWord([])
  {
    assert ToUpper("SELECT")[0] == 'S' && ToUpper("FROM")[0] == 'F';
    assert ToUpper("AS")[1] == 'S' && ToUpper("_q")[0] == '_' && |ToUpper("LIMIT")| == 5 && ToUpper("LIMIT")[1] == 'I';
  }

  lemma HarmlessAround(head: seq<string>, words: seq<string>, tail: seq<string>)
    requires NoWriteWord(head) && NoWriteWord(tail)
    ensures NoWriteWord(head + words + tail) <==> NoWriteWord(words)
  {
    NoWriteWordConcat(head, words);
    NoWriteWordConcat(head + words, tail);
  }

  /** The wrapper of `QueryRows` never changes the verdict, not even for a text that swallows
      part of it. */
  lemma WrapKeepsVerdict(s: string, n: int)
    ensures ReadOnly(Wrapped(s, n)) <==> ReadOnly(s)
  {
    WrapWords(s, n);
    WrapperIsHarmless();
    HarmlessAround(["SELECT", "FROM"], Words(s), if ModeAfter(Top, s).Opaque() then [] else ["AS", "_q", "LIMIT"]);
  }

  // ---- The prefix classifier ----

  datatype SqlType =
    Select | Insert | Update | Delete | CreateTable | CreateDatabase | Drop | Alter | Truncate | Unknown

  /** `hasPrefixWord`. */
  predicate HasPrefixWord(s: string, word: string) {
    HasPrefix(s, word) && (|s| == |word| || s[|word|] == ' ' || s[|word|] == '\t' || s[|word|] == '\n')
  }

  function StripParens(s: string): string
    decreases |s|
  {
    if HasPrefix(s, "(") then
      TrimShrinks(s[1..]);
      StripParens(TrimSpace(s[1..]))
    else s
  }

  lemma TrimShrinks(s: string)
    ensures |TrimSpace(s)| <= |s|
  {
    TrimLeftSplits(s);
    TrimRightSplits(TrimLeft(s));
  }

  /** `stripParens`. */
  method StripLeadingParens(text: string) returns (s: string)
    ensures s == StripParens(text)
  {
    s := text;
    while HasPrefix(s, "(")
      invariant StripParens(s) == StripParens(text)
      decreases |s|
    {
      TrimShrinks(s[1..]);
      s := TrimSpace(s[1..]);
    }
  }

  /** The text the prefixes are compared with, before capitalisation. */
  function Stem(sql: string): string {
    StripParens(TrimSpace(sql))
  }

  function ClassifyUpper(u: string): SqlType {
    if HasPrefixWord(u, "SELECT") then Select
    else if HasPrefixWord(u, "WITH") then Select
    else if HasPrefixWord(u, "INSERT") then Insert
    else if HasPrefixWord(u, "UPDATE") then Update
    else if HasPrefixWord(u, "DELETE") then Delete
    else if HasPrefixWord(u, "TRUNCATE") then Truncate
    else if HasPrefixWord(u, "CREATE TABLE") then CreateTable
    else if HasPrefixWord(u, "CREATE DATABASE") then CreateDatabase
    else if HasPrefixWord(u, "CREATE") then CreateTable
    else if HasPrefixWord(u, "DROP") then Drop
    else if HasPrefixWord(u, "ALTER") then Alter
    else Unknown
  }

  /** `ClassifySQL`. */
  function ClassifySQL(sql: string): SqlType {
    ClassifyUpper(StripParens(ToUpper(TrimSpace(sql))))
  }

  // ---- Capitalising and stripping commute ----

  lemma UpperSlice(s: string, i: nat, j: nat)
    requires i <= j <= |s|
    ensures ToUpper(s[i..j]) == ToUpper(s)[i..j]
  {
  }

  lemma {:induction false} UpperTrims(s: string)
    ensures TrimSpace(ToUpper(s)) == ToUpper(TrimSpace(s))
  {
    UpperTrimLeft(s);
    UpperTrimRight(TrimLeft(s));
  }

  lemma {:induction false} UpperTrimLeft(s: string)
    ensures TrimLeft(ToUpper(s)) == ToUpper(TrimLeft(s))
  {
    if s != "" && IsSpace(s[0]) {
      UpperTrimLeft(s[1..]);
      assert ToUpper(s)[1..] == ToUpper(s[1..]);
    }
  }

  lemma {:induction false} UpperTrimRight(s: string)
    ensures TrimRight(ToUpper(s)) == ToUpper(TrimRight(s))
  {
    if s != "" && IsSpace(s[|s| - 1]) {
      UpperTrimRight(s[..|s| - 1]);
      UpperSlice(s, 0, |s| - 1);
    }
  }

  lemma {:induction false} UpperStrips(s: string)
    ensures StripParens(ToUpper(s)) == ToUpper(StripParens(s))
    decreases |s|
  {
    if HasPrefix(s, "(") {
      TrimShrinks(s[1..]);
      assert ToUpper(s)[1..] == ToUpper(s[1..]);
      UpperTrims(s[1..]);
      UpperStrips(TrimSpace(s[1..]));
      assert ToUpper(s)[0] == '(';
    } else if s != "" {
      assert ToUpper(s)[0] == UpperChar(s[0]) != '(';
    }
  }

  /** Classification compares the stem, capitalised. */
  lemma ClassifiesStem(sql: string)
    ensures ClassifySQL(sql) == ClassifyUpper(ToUpper(Stem(sql)))
  {
    UpperStrips(TrimSpace(sql));
  }

  lemma {:induction false} StripKeepsWords(s: string)
    ensures Words(StripParens(s)) == Words(s)
    decreases |s|
  {
    if HasPrefix(s, "(") {
      TrimShrinks(s[1..]);
      StripKeepsWords(TrimSpace(s[1..]));
      TrimKeepsWords(s[1..]);
      SignThen('(', s[1..]);
      assert s == "(" + s[1..];
    }
  }

  lemma StemKeepsWords(sql: string)
    ensures Words(Stem(sql)) == Words(sql)
  {
    StripKeepsWords(TrimSpace(sql));
    TrimKeepsWords(sql);
  }

  // ---- Agreement ----

  /** INSERT spelled with a dotless i or a long s: capitalised, it reads INSERT; letter by
      letter, it is not one identifier. */
  predicate FoldedInsert(stem: string) {
    |stem| >= 6 && (stem[0] == '\U{131}' || stem[2] == '\U{17F}')
  }

  /** A stem that starts with the letters of a verb, none of them folded into ASCII. */
  predicate StartsPlain(stem: string, verb: string) {
    && |verb| <= |stem|
    && ToUpper(stem)[..|verb|] == verb
    && (forall i :: 0 <= i < |verb| ==> IsAlpha(stem[i]))
    && (|stem| > |verb| ==> !WordChar(stem[|verb|]))
  }

  lemma PlainVerbIsFirstWord(stem: string, verb: string)
    requires verb != "" && StartsPlain(stem, verb)
    ensures |Words(stem)| > 0 && ToUpper(Words(stem)[0]) == verb
  {
    var w, rest := stem[..|verb|], stem[|verb|..];
    WordThen(w, rest);
    assert stem == w + rest;
    UpperSlice(stem, 0, |verb|);
  }

  lemma UpperLetter(c: char)
    requires UpperChar(c) != 'I' && UpperChar(c) != 'S' && 'A' <= UpperChar(c) <= 'Z'
    ensures IsAlpha(c)
  {
  }

  /** A verb without I and S can only be written in plain letters. */
  lemma PlainVerb(stem: string, verb: string)
    requires HasPrefixWord(ToUpper(stem), verb)
    requires forall i :: 0 <= i < |verb| ==> 'A' <= verb[i] <= 'Z' && verb[i] != 'I' && verb[i] != 'S'
    ensures StartsPlain(stem, verb)
  {
    forall i | 0 <= i < |verb| ensures IsAlpha(stem[i]) {
      assert ToUpper(stem)[i] == verb[i] == UpperChar(stem[i]);
      UpperLetter(stem[i]);
    }
    if |stem| > |verb| {
      assert UpperChar(stem[|verb|]) == ToUpper(stem)[|verb|];
    }
  }

  /** A short word, or one starting with N, is no write keyword. */
  lemma NoKeyword(w: string)
    requires |w| < 4 || (w != "" && UpperChar(w[0]) == 'N')
    ensures ToUpper(w) !in WRITE_KEYWORDS
  {
    if w != "" {
      assert ToUpper(w)[0] == UpperChar(w[0]);
    }
  }

  /** The letters of a capitalised INSERT, seen from the original text. */
  lemma InsertLetters(stem: string)
    requires HasPrefixWord(ToUpper(stem), "INSERT")
    ensures |stem| >= 6 && (|stem| > 6 ==> !WordChar(stem[6]))
    ensures (IsAlpha(stem[0]) || stem[0] == '\U{131}') && (IsAlpha(stem[2]) || stem[2] == '\U{17F}')
    ensures IsAlpha(stem[1]) && IsAlpha(stem[3]) && IsAlpha(stem[4]) && IsAlpha(stem[5])
    ensures UpperChar(stem[1]) == 'N'
  {
    var u := ToUpper(stem);
    assert forall i :: 0 <= i < 6 ==> "INSERT"[i] == u[i] == UpperChar(stem[i]);
    assert u[0] == 'I' && u[1] == 'N' && u[2] == 'S' && u[3] == 'E' && u[4] == 'R' && u[5] == 'T';
    if |stem| > 6 {
      assert UpperChar(stem[6]) == u[6];
    }
  }

  /** From the third letter of a folded INSERT on. */
  lemma FoldedTail(stem: string)
    requires HasPrefixWord(ToUpper(stem), "INSERT") && stem[2] == '\U{17F}'
    ensures NoWriteWord(Words(stem[2..])) <==> ReadOnly(stem[6..])
  {
    InsertLetters(stem);
    var ert, rest := stem[3..6], stem[6..];
    WordThen(ert, rest);
    SignThen(stem[2], ert + rest);
    assert stem[2..] == [stem[2]] + (ert + rest);
    NoKeyword(ert);
    NoWriteWordConcat([ert], Words(rest));
  }

  /** What the lexer makes of a folded INSERT depends on the rest of the text alone. */
  lemma FoldedInsertVerdict(stem: string)
    requires HasPrefixWord(ToUpper(stem), "INSERT") && FoldedInsert(stem)
    ensures ReadOnly(stem) <==> ReadOnly(stem[6..])
  {
    InsertLetters(stem);
    var from := if stem[0] == '\U{131}' then 1 else 0;
    if stem[0] == '\U{131}' {
      SignThen(stem[0], stem[1..]);
      assert stem == [stem[0]] + stem[1..];
    }
    assert Words(stem) == Words(stem[from..]);
    if stem[2] == '\U{17F}' {
      FoldedTail(stem);
      WordThen(stem[from..2], stem[2..]);
      assert stem[from..] == stem[from..2] + stem[2..];
      NoKeyword(stem[from..2]);
      NoWriteWordConcat([stem[from..2]], Words(stem[2..]));
    } else {
      WordThen(stem[1..6], stem[6..]);
      assert stem[1..] == stem[1..6] + stem[6..];
      NoKeyword(stem[1..6]);
      NoWriteWordConcat([stem[1..6]], Words(stem[6..]));
    }
  }

  /** The verb behind a write type. */
  lemma TypeVerb(u: string) returns (verb: string)
    requires ClassifyUpper(u) !in {Select, Unknown}
    ensures HasPrefixWord(u, verb)
    ensures if ClassifyUpper(u).Insert? then verb == "INSERT"
            else verb in {"UPDATE", "DELETE", "TRUNCATE", "DROP", "ALTER", "CREATE"}
  {
    match ClassifyUpper(u) {
      case Insert => verb := "INSERT";
      case Update => verb := "UPDATE";
      case Delete => verb := "DELETE";
      case Truncate => verb := "TRUNCATE";
      case Drop => verb := "DROP";
      case Alter => verb := "ALTER";
      case _ => verb := "CREATE"; CreatePrefix(u);
    }
  }

  lemma UnfoldableVerb(verb: string)
    requires verb in {"UPDATE", "DELETE", "TRUNCATE", "DROP", "ALTER", "CREATE"}
    ensures verb != "" && verb in WRITE_KEYWORDS
    ensures forall i :: 0 <= i < |verb| ==> 'A' <= verb[i] <= 'Z' && verb[i] != 'I' && verb[i] != 'S'
  {
  }

  /** Every classified write starts with the same verb for the lexer, except a folded INSERT. */
  lemma WriteVerb(stem: string) returns (verb: string)
    requires ClassifyUpper(ToUpper(stem)) !in {Select, Unknown}
    requires ClassifyUpper(ToUpper(stem)).Insert? ==> !FoldedInsert(stem)
    ensures verb in WRITE_KEYWORDS && verb != "" && StartsPlain(stem, verb)
  {
    verb := TypeVerb(ToUpper(stem));
    if ClassifyUpper(ToUpper(stem)).Insert? {
      InsertIsPlain(stem);
    } else {
      UnfoldableVerb(verb);
      PlainVerb(stem, verb);
    }
  }

  lemma InsertIsPlain(stem: string)
    requires HasPrefixWord(ToUpper(stem), "INSERT") && !FoldedInsert(stem)
    ensures StartsPlain(stem, "INSERT")
  {
    InsertLetters(stem);
    assert ToUpper(stem)[..6] == "INSERT";
  }

  lemma CreatePrefix(u: string)
    requires ClassifyUpper(u) in {CreateTable, CreateDatabase}
    ensures HasPrefixWord(u, "CREATE")
  {
    if HasPrefixWord(u, "CREATE TABLE") {
      assert "CREATE TABLE"[..6] == "CREATE" && "CREATE TABLE"[6] == ' ';
    } else if HasPrefixWord(u, "CREATE DATABASE") {
      assert "CREATE DATABASE"[..6] == "CREATE" && "CREATE DATABASE"[6] == ' ';
    }
  }

  /** Exact agreement: a text classified as a write is rejected by the read-only check, unless
      its verb is a folded INSERT and what follows the verb holds no write keyword. */
  lemma ClassifiedWriteVerdict(sql: string)
    requires ClassifySQL(sql) !in {Select, Unknown}
    ensures ReadOnly(sql) <==>
            ClassifySQL(sql).Insert? && FoldedInsert(Stem(sql)) && ReadOnly(Stem(sql)[6..])
  {
    ClassifiesStem(sql);
    StemKeepsWords(sql);
    StemVerdict(Stem(sql), ClassifySQL(sql));
  }

  lemma StemVerdict(stem: string, t: SqlType)
    requires t == ClassifyUpper(ToUpper(stem)) && t !in {Select, Unknown}
    ensures ReadOnly(stem) <==> t.Insert? && FoldedInsert(stem) && ReadOnly(stem[6..])
  {
    if t.Insert? && FoldedInsert(stem) {
      FoldedInsertVerdict(stem);
    } else {
      var verb := WriteVerb(stem);
      PlainVerbIsFirstWord(stem, verb);
      FirstWordDecides(Words(stem), verb);
    }
  }

  lemma FirstWordDecides(words: seq<string>, verb: string)
    requires words != [] && ToUpper(words[0]) == verb && verb in WRITE_KEYWORDS
    ensures !NoWriteWord(words)
  {
  }

  lemma InsertClassified(u: string)
    requires u == "INSERT T"
    ensures HasPrefixWord(u, "INSERT") && ClassifyUpper(u).Insert?
  {
    assert u[..6] == "INSERT" && u[6] == ' ';
    assert u[0] == 'I';
  }

  lemma ShortRest(rest: string)
    requires rest == " t"
    ensures ReadOnly(rest)
  {
    SignThen(' ', "t");
    WordThen("t", "");
    assert "t" + "" == "t" && rest == " " + "t";
    NoKeyword("t");
  }

  lemma FoldedStem(sql: string)
    requires sql == "IN\U{17F}ERT t"
    ensures Stem(sql) == sql && ToUpper(sql) == "INSERT T" && FoldedInsert(sql) && sql[6..] == " t"
  {
    assert sql[0] == 'I' && sql[|sql| - 1] == 't' && sql[2] == '\U{17F}';
    TrimmedIsFixed(sql);
  }

  /** The exception is real. */
  lemma FoldedInsertExample(sql: string)
    requires sql == "IN\U{17F}ERT t"
    ensures ClassifySQL(sql).Insert? && ReadOnly(sql)
  {
    FoldedStem(sql);
    InsertClassified(ToUpper(sql));
    ClassifiesStem(sql);
    ShortRest(sql[6..]);
    ClassifiedWriteVerdict(sql);
  }
}
