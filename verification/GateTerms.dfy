/** The execution gate and the file filter in plain terms: which verbs each role may send, told by
    the text and its words, without the tables of `internal/sqlrun/permissions.go`. */
module GateTerms {
  import opened Collections
  import opened Text
  import opened Lexer
  import opened LexerLaws
  import opened Classifier
  import opened Executor
  import opened SqlFile

  // ---- Trimming ----

  lemma {:induction false} TrimLeftOver(l: string, t: string)
    requires AllSpace(l)
    ensures TrimLeft(l + t) == TrimLeft(t)
  {
    if l == "" {
      assert l + t == t;
    } else {
      assert IsSpace(l[0]) && (l + t)[1..] == l[1..] + t;
      TrimLeftOver(l[1..], t);
    }
  }

  lemma {:induction false} TrimRightOver(t: string, r: string)
    requires AllSpace(r)
    ensures TrimRight(t + r) == TrimRight(t)
  {
    if r == "" {
      assert t + r == t;
    } else {
      var n := |r| - 1;
      assert IsSpace(r[n]) && (t + r)[..|t + r| - 1] == t + r[..n];
      TrimRightOver(t, r[..n]);
    }
  }

  /** Spaces around a trimmed text are exactly what trimming takes away. */
  lemma TrimPadded(l: string, s: string, r: string)
    requires AllSpace(l) && AllSpace(r) && Trimmed(s)
    ensures TrimSpace(l + s + r) == s
  {
    assert l + s + r == l + (s + r);
    TrimLeftOver(l, s + r);
    if s == "" {
      TrimLeftOver(r, "");
      assert s + r == r + "";
    } else {
      assert TrimLeft(s + r) == s + r;
      TrimRightOver(s, r);
    }
  }

  /** What is sent for a padded text is the text. */
  lemma StatementTextPadded(l: string, s: string, r: string)
    requires AllSpace(l) && AllSpace(r) && Trimmed(s) && (s == "" || s[|s| - 1] != ';')
    ensures StatementText(l + s + r) == s
  {
    TrimPadded(l, s, r);
    assert s != "" ==> s[|s| - 1..] == [s[|s| - 1]];
    TrimmedIsFixed(s);
  }

  /** Of semicolons after a text exactly one is dropped. */
  lemma OneSemicolonDropped(l: string, s: string, m: string, r: string)
    requires AllSpace(l) && AllSpace(m) && AllSpace(r) && Trimmed(s)
    ensures StatementText(l + s + m + ";" + r) == s
  {
    if s == "" {
      TrimPadded(l + m, ";", r);
      assert l + s + m + ";" + r == (l + m) + ";" + r;
      TrimmedIsFixed("");
    } else {
      var t := s + m + ";";
      TrimPadded(l, t, r);
      assert l + s + m + ";" + r == l + t + r;
      assert t[|t| - 1..] == ";" && t[..|t| - 1] == "" + s + m;
      TrimPadded("", s, m);
    }
  }

  lemma TrimTwice(s: string)
    ensures TrimSpace(TrimSpace(s)) == TrimSpace(s)
  {
    var left, right := TrimSpaceSplits(s);
    TrimmedIsFixed(TrimSpace(s));
  }

  // ---- What the classifier looks at ----

  /** Apart from spaces and opening parentheses before it, and taken in capitals, the text starts with
      the verb, and the verb ends there or a blank follows. */
  predicate Opens(text: string, verb: string) {
    var u := ToUpper(Stem(text));
    |verb| <= |u| && u[..|verb|] == verb &&
    (|u| == |verb| || u[|verb|] == ' ' || u[|verb|] == '\t' || u[|verb|] == '\n')
  }

  /** Spaces around a text and parentheses before it change nothing. */
  lemma StemOfPadded(l: string, s: string, r: string)
    requires AllSpace(l) && AllSpace(r)
    ensures Stem(l + s + r) == Stem(s) && Stem("(" + s) == Stem(s)
  {
    var left, right := TrimSpaceSplits(s);
    var t := TrimSpace(s);
    TrimPadded(l + left, t, right + r);
    assert l + s + r == (l + left) + t + (right + r);
    TrimTwice(s);
    ParenthesisFirst(s);
  }

  lemma ParenthesisFirst(s: string)
    ensures Stem("(" + s) == Stem(s)
  {
    var left, right := TrimSpaceSplits(s);
    var t := TrimSpace(s);
    if t == "" {
      BareParenthesis(left + right);
      assert s == left + right;
    } else {
      ParenthesisBefore(left, t, right);
      assert s == left + t + right;
    }
  }

  lemma ParenthesisOpens(front: string, t: string)
    requires front != "" && front[0] == '(' && TrimSpace(front[1..]) == t
    ensures StripParens(front) == StripParens(t)
  {
    assert front[..1] == "(";
  }

  lemma BareParenthesis(space: string)
    requires AllSpace(space)
    ensures Stem("(" + space) == StripParens("")
  {
    TrimPadded("", "(", space);
    assert "" + "(" + space == "(" + space;
    TrimmedIsFixed("");
    ParenthesisOpens("(", "");
  }

  /** A text that starts with a parenthesis and ends without a space. */
  lemma ParenthesisBefore(left: string, t: string, right: string)
    requires AllSpace(left) && AllSpace(right) && Trimmed(t) && t != ""
    ensures Stem("(" + (left + t + right)) == StripParens(t)
  {
    var inner := left + t;
    InnerTrims(left, t);
    InnerEnds(left, t);
    var front := "(" + inner;
    ParenthesisFront(front, inner, right);
    assert "(" + (left + t + right) == front + right;
    ParenthesisOpens(front, t);
  }

  lemma InnerTrims(left: string, t: string)
    requires AllSpace(left) && Trimmed(t)
    ensures TrimSpace(left + t) == t
  {
    TrimPadded(left, t, "");
    assert left + t + "" == left + t;
  }

  lemma InnerEnds(left: string, t: string)
    requires Trimmed(t) && t != ""
    ensures left + t != "" && !IsSpace((left + t)[|left + t| - 1])
  {
    assert (left + t)[|left + t| - 1] == t[|t| - 1];
  }

  lemma ParenthesisFront(front: string, inner: string, right: string)
    requires front == "(" + inner && inner != "" && !IsSpace(inner[|inner| - 1]) && AllSpace(right)
    ensures TrimSpace(front + right) == front && front[1..] == inner
  {
    assert front[|front| - 1] == inner[|inner| - 1];
    TrimPadded("", front, right);
    assert "" + front + right == front + right;
  }

  lemma OpensIsPrefixWord(text: string, verb: string)
    ensures Opens(text, verb) <==> HasPrefixWord(ToUpper(Stem(text)), verb)
  {
  }

  predicate IsBlank(c: char) { c == ' ' || c == '\t' || c == '\n' }

  /** The text up to its first blank. */
  function Head(u: string): (h: string)
    ensures h <= u && (forall i :: 0 <= i < |h| ==> !IsBlank(h[i])) && (|h| < |u| ==> IsBlank(u[|h|]))
  {
    if u == "" || IsBlank(u[0]) then "" else [u[0]] + Head(u[1..])
  }

  lemma {:induction false} HeadOf(v: string, rest: string)
    requires (forall i :: 0 <= i < |v| ==> !IsBlank(v[i])) && (rest == "" || IsBlank(rest[0]))
    ensures Head(v + rest) == v
  {
    if v == "" {
      assert v + rest == rest;
    } else {
      HeadOf(v[1..], rest);
      assert (v + rest)[1..] == v[1..] + rest;
    }
  }

  /** A verb without blanks opens the text if and only if it is the text's head. */
  lemma VerbIsHead(u: string, v: string)
    requires forall i :: 0 <= i < |v| ==> !IsBlank(v[i])
    ensures HasPrefixWord(u, v) <==> v == Head(u)
  {
    if HasPrefixWord(u, v) {
      HeadOf(v, u[|v|..]);
      assert u == v + u[|v|..];
    }
  }

  lemma CreateForms(u: string)
    ensures HasPrefixWord(u, "CREATE TABLE") || HasPrefixWord(u, "CREATE DATABASE") ==> HasPrefixWord(u, "CREATE")
    ensures !(HasPrefixWord(u, "CREATE TABLE") && HasPrefixWord(u, "CREATE DATABASE"))
  {
    if HasPrefixWord(u, "CREATE TABLE") {
      assert u[7] == "CREATE TABLE"[7] && "CREATE TABLE"[..6] == "CREATE" && u[6] == "CREATE TABLE"[6];
    }
    if HasPrefixWord(u, "CREATE DATABASE") {
      assert u[7] == "CREATE DATABASE"[7] && "CREATE DATABASE"[..6] == "CREATE" && u[6] == "CREATE DATABASE"[6];
    }
  }

  /** The classifier's answer, from the head of the capitalised text. */
  function ByHead(h: string, database: bool): SqlType {
    if h == "SELECT" || h == "WITH" then Select
    else if h == "INSERT" then Insert
    else if h == "UPDATE" then Update
    else if h == "DELETE" then Delete
    else if h == "TRUNCATE" then Truncate
    else if h == "CREATE" then if database then CreateDatabase else CreateTable
    else if h == "DROP" then Drop
    else if h == "ALTER" then Alter
    else Unknown
  }

  lemma FirstVerbs(u: string)
    ensures (HasPrefixWord(u, "SELECT") <==> Head(u) == "SELECT") && (HasPrefixWord(u, "WITH") <==> Head(u) == "WITH")
    ensures (HasPrefixWord(u, "INSERT") <==> Head(u) == "INSERT") && (HasPrefixWord(u, "UPDATE") <==> Head(u) == "UPDATE")
    ensures HasPrefixWord(u, "DELETE") <==> Head(u) == "DELETE"
  {
    VerbIsHead(u, "SELECT");
    VerbIsHead(u, "WITH");
    VerbIsHead(u, "INSERT");
    VerbIsHead(u, "UPDATE");
    VerbIsHead(u, "DELETE");
  }

  lemma OtherVerbs(u: string)
    ensures HasPrefixWord(u, "TRUNCATE") <==> Head(u) == "TRUNCATE"
    ensures HasPrefixWord(u, "CREATE") <==> Head(u) == "CREATE"
    ensures (HasPrefixWord(u, "DROP") <==> Head(u) == "DROP") && (HasPrefixWord(u, "ALTER") <==> Head(u) == "ALTER")
  {
    VerbIsHead(u, "TRUNCATE");
    VerbIsHead(u, "CREATE");
    VerbIsHead(u, "DROP");
    VerbIsHead(u, "ALTER");
  }

  lemma ClassifiedByHead(u: string)
    ensures ClassifyUpper(u) == ByHead(Head(u), HasPrefixWord(u, "CREATE DATABASE"))
  {
    FirstVerbs(u);
    OtherVerbs(u);
    CreateForms(u);
  }

  lemma OpenedHead(text: string)
    ensures var h := Head(ToUpper(Stem(text)));
            && (Opens(text, "SELECT") <==> h == "SELECT") && (Opens(text, "WITH") <==> h == "WITH")
            && (Opens(text, "INSERT") <==> h == "INSERT") && (Opens(text, "UPDATE") <==> h == "UPDATE")
            && (Opens(text, "DELETE") <==> h == "DELETE") && (Opens(text, "TRUNCATE") <==> h == "TRUNCATE")
            && (Opens(text, "CREATE") <==> h == "CREATE") && (Opens(text, "DROP") <==> h == "DROP")
            && (Opens(text, "ALTER") <==> h == "ALTER")
  {
    var u := ToUpper(Stem(text));
    FirstVerbs(u);
    OtherVerbs(u);
    OpensIsPrefixWord(text, "SELECT");
    OpensIsPrefixWord(text, "WITH");
    OpensIsPrefixWord(text, "INSERT");
    OpensIsPrefixWord(text, "UPDATE");
    OpensIsPrefixWord(text, "DELETE");
    OpensIsPrefixWord(text, "TRUNCATE");
    OpensIsPrefixWord(text, "CREATE");
    OpensIsPrefixWord(text, "DROP");
    OpensIsPrefixWord(text, "ALTER");
  }

  /** The type that goes with a head. */
  predicate TypeOfHead(t: SqlType, h: string, database: bool) {
    && (t.Select? <==> h == "SELECT" || h == "WITH") && (t.Insert? <==> h == "INSERT")
    && (t.Update? <==> h == "UPDATE") && (t.Delete? <==> h == "DELETE") && (t.Truncate? <==> h == "TRUNCATE")
    && (t.Drop? <==> h == "DROP") && (t.Alter? <==> h == "ALTER")
    && (t.CreateDatabase? <==> database) && (t.CreateTable? <==> h == "CREATE" && !database)
  }

  lemma HeadType(u: string)
    ensures TypeOfHead(ClassifyUpper(u), Head(u), HasPrefixWord(u, "CREATE DATABASE"))
  {
    ClassifiedByHead(u);
    OtherVerbs(u);
    CreateForms(u);
    HeadDecides(Head(u), HasPrefixWord(u, "CREATE DATABASE"));
  }

  lemma HeadDecides(h: string, database: bool)
    requires database ==> h == "CREATE"
    ensures TypeOfHead(ByHead(h, database), h, database)
  {
  }

  lemma OpenedType(text: string, t: SqlType)
    requires var u := ToUpper(Stem(text)); TypeOfHead(t, Head(u), HasPrefixWord(u, "CREATE DATABASE"))
    ensures (t.Select? <==> Opens(text, "SELECT") || Opens(text, "WITH")) && (t.Insert? <==> Opens(text, "INSERT"))
    ensures (t.Update? <==> Opens(text, "UPDATE")) && (t.Delete? <==> Opens(text, "DELETE"))
    ensures (t.Truncate? <==> Opens(text, "TRUNCATE")) && (t.Drop? <==> Opens(text, "DROP"))
    ensures (t.Alter? <==> Opens(text, "ALTER")) && (t.CreateDatabase? <==> Opens(text, "CREATE DATABASE"))
    ensures t.CreateTable? <==> Opens(text, "CREATE") && !Opens(text, "CREATE DATABASE")
  {
    OpenedHead(text);
    OpensIsPrefixWord(text, "CREATE DATABASE");
  }

  /** The classifier's answer, verb by verb. */
  lemma TypeByVerb(text: string)
    ensures var t := ClassifySQL(text);
            && (t.Select? <==> Opens(text, "SELECT") || Opens(text, "WITH"))
            && (t.Insert? <==> Opens(text, "INSERT"))
            && (t.Update? <==> Opens(text, "UPDATE"))
            && (t.Delete? <==> Opens(text, "DELETE"))
            && (t.Truncate? <==> Opens(text, "TRUNCATE"))
            && (t.Drop? <==> Opens(text, "DROP"))
            && (t.Alter? <==> Opens(text, "ALTER"))
            && (t.CreateDatabase? <==> Opens(text, "CREATE DATABASE"))
            && (t.CreateTable? <==> Opens(text, "CREATE") && !Opens(text, "CREATE DATABASE"))
  {
    ClassifiesStem(text);
    HeadType(ToUpper(Stem(text)));
    OpenedType(text, ClassifySQL(text));
  }

  /** Capitals and small letters read alike, and capitals are what verbs and words are compared in. */
  lemma CaseIsIgnored(s: string, t: string)
    requires |s| == |t|
    requires forall i :: 0 <= i < |s| ==> t[i] == s[i] || ('a' <= s[i] <= 'z' && t[i] == s[i] - 'a' + 'A')
    ensures ToUpper(s) == ToUpper(t)
    ensures (forall i :: 0 <= i < |t| ==> 'A' <= t[i] <= 'Z' || t[i] == ' ') ==> ToUpper(t) == t
  {
  }

  // ---- Who may send what ----

  /** None of the words, in capitals, is one of the seventeen. */
  predicate NoneForbidden(words: seq<string>) {
    forall i :: 0 <= i < |words| ==>
      var w := ToUpper(words[i]);
      && w != "INSERT" && w != "UPDATE" && w != "DELETE" && w != "DROP" && w != "ALTER" && w != "TRUNCATE"
      && w != "CREATE" && w != "REPLACE" && w != "MERGE" && w != "EXEC" && w != "EXECUTE" && w != "CALL"
      && w != "GRANT" && w != "REVOKE" && w != "LOAD" && w != "IMPORT" && w != "COPY"
  }

  /** One of the fifteen tables of the platform is found. */
  predicate TouchesPlatform(sql: string) {
    || NamesTable(sql, "users") || NamesTable(sql, "workspaces") || NamesTable(sql, "sessions")
    || NamesTable(sql, "messages") || NamesTable(sql, "runs") || NamesTable(sql, "audit_events")
    || NamesTable(sql, "async_tasks") || NamesTable(sql, "knowledge_docs") || NamesTable(sql, "data_sources")
    || NamesTable(sql, "agent_run_steps") || NamesTable(sql, "datasets") || NamesTable(sql, "dataset_permissions")
    || NamesTable(sql, "dataset_tables") || NamesTable(sql, "table_fields") || NamesTable(sql, "permission_requests")
  }

  /** The verbs a role may send for writing. */
  predicate MaySend(role: string, text: string) {
    || role == "super_admin"
    || (role == "data_admin" &&
        (Opens(text, "INSERT") || Opens(text, "UPDATE") || Opens(text, "DELETE") || Opens(text, "TRUNCATE") ||
         Opens(text, "ALTER") || (Opens(text, "CREATE") && !Opens(text, "CREATE DATABASE"))))
    || (role == "normal_user" && (Opens(text, "INSERT") || Opens(text, "UPDATE")))
  }

  lemma AllowedIsMaySend(text: string, role: string)
    requires !ClassifySQL(text).Select?
    ensures Allowed(ClassifySQL(text), role) <==> MaySend(role, text)
  {
    TypeByVerb(text);
    AllowedMayWrite(role, ClassifySQL(text));
  }

  lemma ForbiddenIsWrite(words: seq<string>)
    ensures NoWriteWord(words) <==> NoneForbidden(words)
  {
  }

  lemma PlatformIsSystem(sql: string)
    ensures NamesSystemTable(sql) <==> TouchesPlatform(sql)
  {
  }

  lemma TrimmedReads(text: string)
    ensures StatementText(TrimSpace(text)) == StatementText(text) && Stem(TrimSpace(text)) == Stem(text)
    ensures ClassifySQL(TrimSpace(text)) == ClassifySQL(text)
  {
    TrimTwice(text);
  }

  /** Exactly what `Execute` sends, for every text and every role: the wrapped query if and only if the
      text opens with SELECT or WITH and has none of the seventeen words, whatever the role; the text
      itself if and only if it does not, the role may send its verb, and no table of the platform is
      found; else nothing. */
  lemma SentExactly(text: string, role: string, maxRows: int)
    ensures var query := Opens(text, "SELECT") || Opens(text, "WITH");
            Effects(Sql(text), role, maxRows) ==
            if query && NoneForbidden(Words(text)) then
              [Query("SELECT * FROM (" + StatementText(text) + ") AS _q LIMIT " + Decimal(maxRows))]
            else if !query && MaySend(role, text) && !TouchesPlatform(TrimSpace(text)) then
              [Exec(StatementText(text))]
            else []
  {
    TrimmedReads(text);
    TypeByVerb(text);
    StatementTextKeepsWords(text);
    ForbiddenIsWrite(Words(text));
    PlatformIsSystem(TrimSpace(text));
    if !ClassifySQL(text).Select? {
      AllowedIsMaySend(text, role);
    }
    WrappedText(StatementText(text), maxRows);
  }

  lemma WrappedText(s: string, n: int)
    ensures Wrapped(s, n) == "SELECT * FROM (" + s + ") AS _q LIMIT " + Decimal(n)
  {
    ConcatAssoc(WRAP_HEAD + s, ") AS _q LIMIT ", Decimal(n));
  }

  // ---- The same in words ----

  /** The first word, in capitals, is one of these. */
  predicate FirstIn(words: seq<string>, verbs: set<string>) {
    words != [] && ToUpper(words[0]) in verbs
  }

  /** INSERT with a letter from outside ASCII, which is no word to the lexer. */
  predicate Folded(text: string) {
    Opens(text, "INSERT") && FoldedInsert(Stem(text))
  }

  lemma OpenedWord(text: string, verb: string)
    requires Opens(text, verb) && verb in {"INSERT", "UPDATE", "DELETE", "TRUNCATE", "CREATE", "DROP", "ALTER"}
    requires verb == "INSERT" ==> !Folded(text)
    ensures FirstIn(Words(text), {verb})
  {
    OpensIsPrefixWord(text, verb);
    StemKeepsWords(text);
    var stem := Stem(text);
    if verb == "INSERT" {
      InsertIsPlain(stem);
    } else {
      UnfoldableVerb(verb);
      PlainVerb(stem, verb);
    }
    PlainVerbIsFirstWord(stem, verb);
  }

  lemma SentWrite(text: string, role: string, maxRows: int, e: string)
    requires Effects(Sql(text), role, maxRows) == [Exec(e)]
    ensures MaySend(role, text) && e == StatementText(text)
  {
    SentExactly(text, role, maxRows);
  }

  /** The verb of a write that needs no super_admin. */
  lemma SentVerb(text: string, role: string) returns (verb: string)
    requires MaySend(role, text) && role != "super_admin"
    ensures Opens(text, verb) && verb in {"INSERT", "UPDATE", "DELETE", "TRUNCATE", "CREATE", "ALTER"}
    ensures role == "normal_user" ==> verb in {"INSERT", "UPDATE"}
  {
    verb := if Opens(text, "INSERT") then "INSERT" else if Opens(text, "UPDATE") then "UPDATE"
      else if Opens(text, "DELETE") then "DELETE" else if Opens(text, "TRUNCATE") then "TRUNCATE"
      else if Opens(text, "CREATE") then "CREATE" else "ALTER";
  }

  /** What a normal_user sends for writing starts with the word INSERT or UPDATE, or with a folded
      INSERT; what a data_admin sends starts with one of six words, DROP not among them, and does not
      open with DROP or CREATE DATABASE; only a super_admin sends anything else, and any other role nothing. */
  lemma WritersFirstWord(text: string, role: string, maxRows: int, e: string)
    requires Effects(Sql(text), role, maxRows) == [Exec(e)]
    ensures Words(e) == Words(text)
    ensures role == "normal_user" || role == "data_admin" || role == "super_admin"
    ensures role == "normal_user" ==> FirstIn(Words(e), {"INSERT", "UPDATE"}) || Folded(text)
    ensures role == "data_admin" ==>
      && (FirstIn(Words(e), {"INSERT", "UPDATE", "DELETE", "TRUNCATE", "CREATE", "ALTER"}) || Folded(text))
      && !Opens(text, "DROP") && !Opens(text, "CREATE DATABASE")
  {
    SentWrite(text, role, maxRows, e);
    StatementTextKeepsWords(text);
    if role != "super_admin" && !Folded(text) {
      var verb := SentVerb(text, role);
      OpenedWord(text, verb);
    }
    if Opens(text, "DROP") {
      DropStandsAlone(text);
    }
    TypeByVerb(text);
  }

  lemma DropStandsAlone(text: string)
    requires Opens(text, "DROP")
    ensures !MaySend("data_admin", text)
  {
    TypeByVerb(text);
  }

  // ---- CREATE DATABASE with more than one blank ----

  lemma CreateGap(u: string, gap: string, tail: string)
    requires u == "CREATE" + gap + "DATABASE" + tail && gap != ""
    requires forall i :: 0 <= i < |gap| ==> gap[i] == ' ' || gap[i] == '\t' || gap[i] == '\n'
    requires tail == "" || tail[0] == ' ' || tail[0] == '\t' || tail[0] == '\n'
    ensures HasPrefixWord(u, "CREATE")
    ensures HasPrefixWord(u, "CREATE DATABASE") <==> gap == " "
  {
    assert u[..6] == "CREATE" && u[6] == gap[0];
    assert forall i :: 0 <= i < |gap| ==> u[6 + i] == gap[i];
    assert "CREATE DATABASE" == "CREATE" + " " + "DATABASE";
    if gap == " " {
      assert u == "CREATE DATABASE" + tail;
    }
    if HasPrefixWord(u, "CREATE DATABASE") {
      assert u[..15][6] == ' ' && u[..15][7] == 'D';
    }
  }

  /** A data_admin, who may not create a database, is refused if and only if a single space stands
      between the two words. */
  lemma CreateDatabaseRefusedIff(text: string, gap: string, tail: string, maxRows: int)
    requires ToUpper(Stem(text)) == "CREATE" + gap + "DATABASE" + tail && gap != ""
    requires forall i :: 0 <= i < |gap| ==> gap[i] == ' ' || gap[i] == '\t' || gap[i] == '\n'
    requires tail == "" || tail[0] == ' ' || tail[0] == '\t' || tail[0] == '\n'
    requires !TouchesPlatform(TrimSpace(text))
    ensures Effects(Sql(text), "data_admin", maxRows) == (if gap == " " then [] else [Exec(StatementText(text))])
  {
    CreateGap(ToUpper(Stem(text)), gap, tail);
    OpensIsPrefixWord(text, "CREATE");
    OpensIsPrefixWord(text, "CREATE DATABASE");
    TypeByVerb(text);
    SentExactly(text, "data_admin", maxRows);
  }

  // ---- Uploaded files ----

  /** A statement of a file may be executed if and only if it opens with INSERT or UPDATE. */
  lemma PermittedExactly(stmt: string)
    ensures Permitted(stmt) <==> Opens(stmt, "INSERT") || Opens(stmt, "UPDATE")
  {
    TypeByVerb(stmt);
  }

  /** Whatever a file sends is one of its statements as it stands, and starts with the word INSERT or
      UPDATE, or with a folded INSERT; and every statement that opens with one of the two is sent. */
  lemma FileSendsOnly(content: string)
    ensures forall x :: x in Attempts(Statements(content), Permitted) ==>
      && x.Exec? && x.text in Statements(content) && (Opens(x.text, "INSERT") || Opens(x.text, "UPDATE"))
      && (FirstIn(Words(x.text), {"INSERT", "UPDATE"}) || Folded(x.text))
    ensures forall s :: s in Statements(content) && (Opens(s, "INSERT") || Opens(s, "UPDATE")) ==>
      Exec(s) in Attempts(Statements(content), Permitted)
  {
    var stmts := Statements(content);
    var sent := Attempts(stmts, Permitted);
    var at := AttemptsAreTheValid(stmts, Permitted);
    forall x | x in sent
      ensures x.Exec? && x.text in stmts && (Opens(x.text, "INSERT") || Opens(x.text, "UPDATE")) &&
        (FirstIn(Words(x.text), {"INSERT", "UPDATE"}) || Folded(x.text))
    {
      var i :| 0 <= i < |sent| && sent[i] == x;
      PermittedExactly(stmts[at[i]]);
      if !Folded(x.text) {
        OpenedWord(x.text, if Opens(x.text, "INSERT") then "INSERT" else "UPDATE");
      }
    }
    forall s | s in stmts && (Opens(s, "INSERT") || Opens(s, "UPDATE")) ensures Exec(s) in sent {
      PermittedExactly(s);
      var k :| 0 <= k < |stmts| && stmts[k] == s;
      var i :| 0 <= i < |at| && at[i] == k;
      assert sent[i] == Exec(s);
    }
  }
}
