/** Uploaded SQL files (`internal/handlers/data.go`): comment removal, splitting into
    statements, validation and execution with counters. */
module SqlFile {
  import opened Text
  import opened Classifier
  import opened LexerLaws
  import opened Executor

  // ---- Two characters side by side ----

  /** a is never directly followed by b. */
  predicate NoPair(s: string, a: char, b: char) {
    forall i :: 0 <= i < |s| - 1 ==> !(s[i] == a && s[i + 1] == b)
  }

  lemma PairOccurs(s: string, a: char, b: char, i: nat)
    ensures OccursAt(s, [a, b], i) <==> i + 1 < |s| && s[i] == a && s[i + 1] == b
  {
    if i + 1 < |s| {
      assert s[i..i + 2] == [s[i], s[i + 1]];
    }
  }

  lemma PairIndex(s: string, a: char, b: char)
    ensures Index(s, [a, b]) == -1 <==> NoPair(s, a, b)
  {
    var k := Index(s, [a, b]);
    if k >= 0 {
      PairOccurs(s, a, b, k);
    } else {
      forall i | 0 <= i < |s| - 1 ensures !(s[i] == a && s[i + 1] == b) {
        PairOccurs(s, a, b, i);
        if OccursAt(s, [a, b], i) { IndexLeast(s, [a, b], i); }
      }
    }
  }

  lemma BeforeFirstPair(s: string, a: char, b: char)
    requires Index(s, [a, b]) >= 0
    ensures NoPair(s[..Index(s, [a, b])], a, b)
  {
    var k := Index(s, [a, b]);
    forall i | 0 <= i < k - 1 ensures !(s[i] == a && s[i + 1] == b) {
      PairOccurs(s, a, b, i);
      if OccursAt(s, [a, b], i) { IndexLeast(s, [a, b], i); }
    }
  }

  // ---- Block comments ----

  /** The text is clean, or something was cut out between two parts of it. */
  datatype Pass = Final(text: string) | Again(front: string, back: string)

  /** Takes out the first comment, an unclosed one to the end. */
  function OnePass(s: string): (p: Pass)
    ensures p.Again? ==> |p.front| + |p.back| < |s|
  {
    var start := Index(s, "/*");
    if start == -1 then Final(s) else
    var end := Index(s[start + 2..], "*/");
    if end == -1 then Final(s[..start]) else
    Again(s[..start], s[start + end + 4..])
  }

  /** Pass after pass, as long as they shrink the text. */
  function Settle(s: string, pass: string -> Pass): string
    decreases |s|
  {
    match pass(s)
    case Final(text) => text
    case Again(front, back) => if |front| + |back| < |s| then Settle(front + back, pass) else s
  }

  function RemoveComments(s: string): string {
    Settle(s, OnePass)
  }

  /** The body of the loop: whether it breaks off, and with what text. */
  method TakeOut(s: string) returns (pass: Pass)
    ensures pass == OnePass(s)
  {
    var start := Index(s, "/*");
    if start == -1 {
      return Final(s);
    }
    var end := Index(s[start + 2..], "*/");
    if end == -1 {
      return Final(s[..start]);
    }
    return Again(s[..start], s[start + end + 4..]);
  }

  /** `removeBlockComments`. */
  method RemoveBlockComments(text: string) returns (s: string)
    ensures s == RemoveComments(text)
    ensures NoPair(s, '/', '*')
  {
    s := text;
    while true
      invariant RemoveComments(s) == RemoveComments(text)
      decreases |s|
    {
      var pass := TakeOut(s);
      if pass.Final? {
        s := pass.text;
        break;
      }
      s := pass.front + pass.back;
    }
    CommentsGone(text);
  }

  lemma LastPassIsClean(s: string)
    requires OnePass(s).Final?
    ensures NoPair(OnePass(s).text, '/', '*')
  {
    PairIndex(s, '/', '*');
    if Index(s, "/*") >= 0 {
      BeforeFirstPair(s, '/', '*');
    }
  }

  lemma {:induction false} CommentsGone(s: string)
    ensures NoPair(RemoveComments(s), '/', '*')
    decreases |s|
  {
    var p := OnePass(s);
    if p.Final? {
      LastPassIsClean(s);
    } else {
      CommentsGone(p.front + p.back);
    }
  }

  lemma {:induction false} RemovalShrinks(s: string)
    ensures |RemoveComments(s)| <= |s|
    ensures OnePass(s).Again? ==> |RemoveComments(s)| < |s|
    decreases |s|
  {
    var p := OnePass(s);
    if p.Final? {
    } else {
      RemovalShrinks(p.front + p.back);
    }
  }

  lemma CleanIsFinal(s: string)
    ensures NoPair(s, '/', '*') <==> OnePass(s) == Final(s)
  {
    PairIndex(s, '/', '*');
  }

  /** Removal leaves a text alone exactly when it opens no comment; so doing it twice is doing it
      once. */
  lemma RemovalIsIdempotent(s: string)
    ensures RemoveComments(s) == s <==> NoPair(s, '/', '*')
    ensures RemoveComments(RemoveComments(s)) == RemoveComments(s)
  {
    RemovalShrinks(s);
    CleanIsFinal(s);
    CommentsGone(s);
    CleanIsFinal(RemoveComments(s));
  }

  // ---- Splitting and joining ----

  /** `strings.Split` at a one-character separator. */
  function Split(s: string, sep: char): (r: seq<string>)
    ensures r != []
  {
    if s == "" then [""]
    else
      var more := Split(s[1..], sep);
      if s[0] == sep then [""] + more else [[s[0]] + more[0]] + more[1..]
  }

  /** `strings.Join` with a one-character separator. */
  function Join(parts: seq<string>, sep: char): string {
    if parts == [] then ""
    else if |parts| == 1 then parts[0]
    else parts[0] + [sep] + Join(parts[1..], sep)
  }

  /** p is a contiguous part of s. */
  predicate PartOf(p: string, s: string) {
    exists i, j :: 0 <= i <= j <= |s| && p == s[i..j]
  }

  lemma PartKeeps(p: string, s: string, a: char, b: char)
    requires PartOf(p, s)
    ensures NoPair(s, a, b) ==> NoPair(p, a, b)
    ensures a !in s ==> a !in p
  {
  }

  lemma PartOfTail(p: string, s: string)
    requires s != "" && PartOf(p, s[1..])
    ensures PartOf(p, s)
  {
    var i, j :| 0 <= i <= j <= |s[1..]| && p == s[1..][i..j];
    assert p == s[i + 1..j + 1];
  }

  lemma {:induction false} SplitFirst(s: string, sep: char)
    ensures Split(s, sep)[0] <= s
  {
    if s == "" {
    } else {
      SplitFirst(s[1..], sep);
    }
  }

  lemma {:induction false} SplitParts(s: string, sep: char, k: nat)
    requires k < |Split(s, sep)|
    ensures PartOf(Split(s, sep)[k], s) && sep !in Split(s, sep)[k]
  {
    var p := Split(s, sep)[k];
    if k == 0 {
      SplitFirst(s, sep);
      assert p == s[0..|p|];
    }
    if s != "" && (s[0] != sep || k > 0) {
      var j := if s[0] == sep then k - 1 else k;
      SplitParts(s[1..], sep, j);
      if k > 0 {
        PartOfTail(p, s);
      }
    }
  }

  lemma {:induction false} SplitWhole(s: string, sep: char)
    requires sep !in s
    ensures Split(s, sep) == [s]
  {
    if s == "" {
    } else {
      SplitWhole(s[1..], sep);
      assert [s[0]] + s[1..] == s;
    }
  }

  lemma {:induction false} SplitAt(a: string, b: string, sep: char)
    requires sep !in a
    ensures Split(a + [sep] + b, sep) == [a] + Split(b, sep)
  {
    var t := a + [sep] + b;
    if a == "" {
      assert t[1..] == b;
    } else {
      SplitAt(a[1..], b, sep);
      assert t[1..] == a[1..] + [sep] + b;
      assert [a[0]] + a[1..] == a;
    }
  }

  /** Splitting undoes joining for parts without the separator. */
  lemma {:induction false} SplitJoin(parts: seq<string>, sep: char)
    requires parts != [] && forall i :: 0 <= i < |parts| ==> sep !in parts[i]
    ensures Split(Join(parts, sep), sep) == parts
  {
    if |parts| == 1 {
      SplitWhole(parts[0], sep);
    } else {
      SplitJoin(parts[1..], sep);
      SplitAt(parts[0], Join(parts[1..], sep), sep);
    }
  }

  lemma PairOfConcat(x: string, sep: char, y: string, a: char, b: char)
    requires sep != a && sep != b && NoPair(x, a, b) && NoPair(y, a, b)
    ensures NoPair(x + [sep] + y, a, b)
  {
    var t := x + [sep] + y;
    forall i | 0 <= i < |t| - 1 ensures !(t[i] == a && t[i + 1] == b) {
      if i > |x| {
        assert t[i] == y[i - |x| - 1] && t[i + 1] == y[i - |x|];
      }
    }
  }

  lemma {:induction false} JoinKeeps(parts: seq<string>, sep: char, a: char, b: char)
    requires sep != a && sep != b
    requires forall i :: 0 <= i < |parts| ==> NoPair(parts[i], a, b)
    ensures NoPair(Join(parts, sep), a, b)
  {
    if |parts| <= 1 {
    } else {
      JoinKeeps(parts[1..], sep, a, b);
      PairOfConcat(parts[0], sep, Join(parts[1..], sep), a, b);
    }
  }

  lemma {:induction false} JoinAvoids(parts: seq<string>, sep: char, c: char)
    requires sep != c && forall i :: 0 <= i < |parts| ==> c !in parts[i]
    ensures c !in Join(parts, sep)
  {
    if |parts| <= 1 {
    } else {
      JoinAvoids(parts[1..], sep, c);
    }
  }

  // ---- Parsing ----

  /** A line up to its first `--`. */
  function CutLine(line: string): string {
    var idx := Index(line, "--");
    if idx >= 0 then line[..idx] else line
  }

  /** The pieces, trimmed, without the empty ones. */
  function Kept(pieces: seq<string>): seq<string> {
    if pieces == [] then []
    else
      var t := TrimSpace(pieces[|pieces| - 1]);
      Kept(pieces[..|pieces| - 1]) + (if t != "" then [t] else [])
  }

  function CutLines(lines: seq<string>): seq<string> {
    seq(|lines|, i requires 0 <= i < |lines| => CutLine(lines[i]))
  }

  /** The one line of SQL text the file comes down to. */
  function OneLine(content: string): string {
    Join(Kept(CutLines(Split(RemoveComments(content), '\n'))), ' ')
  }

  /** The statements of a file. */
  function Statements(content: string): seq<string> {
    Kept(Split(OneLine(content), ';'))
  }

  method CutAndTrim(rows: seq<string>) returns (lines: seq<string>)
    ensures lines == Kept(CutLines(rows))
  {
    lines := [];
    for i := 0 to |rows|
      invariant lines == Kept(CutLines(rows)[..i])
    {
      var line := rows[i];
      var idx := Index(line, "--");
      if idx >= 0 {
        line := line[..idx];
      }
      var trimmed := TrimSpace(line);
      KeptStep(CutLines(rows), i);
      if trimmed != "" {
        lines := lines + [trimmed];
      }
    }
    assert CutLines(rows)[..|rows|] == CutLines(rows);
  }

  lemma KeptStep(pieces: seq<string>, i: nat)
    requires i < |pieces|
    ensures Kept(pieces[..i + 1]) ==
      Kept(pieces[..i]) + (if TrimSpace(pieces[i]) != "" then [TrimSpace(pieces[i])] else [])
  {
    assert pieces[..i + 1][..i] == pieces[..i];
  }

  lemma KeptMore(pieces: seq<string>, p: string)
    ensures Kept(pieces + [p]) == Kept(pieces) + (if TrimSpace(p) != "" then [TrimSpace(p)] else [])
  {
    assert (pieces + [p])[..|pieces|] == pieces;
  }

  /** `parseSQL`. */
  method ParseSQL(content: string) returns (statements: seq<string>)
    ensures statements == Statements(content)
  {
    var cleaned := RemoveBlockComments(content);
    var lines := CutAndTrim(Split(cleaned, '\n'));
    statements := TrimAll(Split(Join(lines, ' '), ';'));
  }

  method TrimAll(pieces: seq<string>) returns (statements: seq<string>)
    ensures statements == Kept(pieces)
  {
    statements := [];
    for i := 0 to |pieces|
      invariant statements == Kept(pieces[..i])
    {
      var stmt := TrimSpace(pieces[i]);
      KeptStep(pieces, i);
      if stmt != "" {
        statements := statements + [stmt];
      }
    }
    assert pieces[..|pieces|] == pieces;
  }

  /** What every statement looks like. */
  predicate Tidy(s: string) {
    s != "" && Trimmed(s) && CleanLine(s) && ';' !in s
  }

  lemma TrimIsPart(s: string)
    ensures PartOf(TrimSpace(s), s) && Trimmed(TrimSpace(s))
  {
    var left, right := TrimSpaceSplits(s);
    assert TrimSpace(s) == s[|left|..|left| + |TrimSpace(s)|];
  }

  lemma {:induction false} KeptParts(pieces: seq<string>)
    ensures forall k :: 0 <= k < |Kept(pieces)| ==> KeptFrom(Kept(pieces)[k], pieces)
  {
    if pieces == [] {
    } else {
      var n := |pieces| - 1;
      KeptParts(pieces[..n]);
      TrimIsPart(pieces[n]);
      var before := Kept(pieces[..n]);
      forall k | 0 <= k < |before| ensures KeptFrom(before[k], pieces) {
        var i :| 0 <= i < n && PartOf(before[k], pieces[..n][i]);
        assert PartOf(before[k], pieces[i]);
      }
    }
  }

  /** A trimmed, non-empty part of one of the pieces. */
  predicate KeptFrom(k: string, pieces: seq<string>) {
    k != "" && Trimmed(k) && exists i :: 0 <= i < |pieces| && PartOf(k, pieces[i])
  }

  /** No comment opener and no line end. */
  predicate CleanLine(s: string) {
    NoPair(s, '/', '*') && NoPair(s, '-', '-') && '\n' !in s
  }

  lemma CleanPart(p: string, s: string)
    requires PartOf(p, s) && CleanLine(s)
    ensures CleanLine(p)
  {
    PartKeeps(p, s, '/', '*');
    PartKeeps(p, s, '-', '-');
    PartKeeps(p, s, '\n', '\n');
  }

  lemma RowIsClean(cleaned: string, row: string)
    requires NoPair(cleaned, '/', '*') && PartOf(row, cleaned) && '\n' !in row
    ensures CleanLine(CutLine(row))
  {
    CutIsClean(row);
    PartKeeps(row, cleaned, '/', '*');
    PartKeeps(CutLine(row), row, '/', '*');
    PartKeeps(CutLine(row), row, '\n', '\n');
  }

  lemma OneLineIsClean(content: string)
    ensures CleanLine(OneLine(content))
  {
    var cleaned := RemoveComments(content);
    CommentsGone(content);
    var rows := Split(cleaned, '\n');
    var lines := Kept(CutLines(rows));
    KeptParts(CutLines(rows));
    forall k | 0 <= k < |lines| ensures CleanLine(lines[k]) {
      assert KeptFrom(lines[k], CutLines(rows));
      var i :| 0 <= i < |CutLines(rows)| && PartOf(lines[k], CutLines(rows)[i]);
      SplitParts(cleaned, '\n', i);
      RowIsClean(cleaned, rows[i]);
      CleanPart(lines[k], CutLine(rows[i]));
    }
    JoinKeeps(lines, ' ', '/', '*');
    JoinKeeps(lines, ' ', '-', '-');
    JoinAvoids(lines, ' ', '\n');
  }

  lemma CutIsClean(line: string)
    ensures NoPair(CutLine(line), '-', '-') && PartOf(CutLine(line), line)
  {
    PairIndex(line, '-', '-');
    assert CutLine(line) == line[0..|CutLine(line)|];
    if Index(line, "--") >= 0 {
      BeforeFirstPair(line, '-', '-');
    }
  }

  /** Every statement is trimmed, not empty, and free of comment openers, semicolons and line
      ends. */
  lemma StatementsAreTidy(content: string)
    ensures forall k :: 0 <= k < |Statements(content)| ==> Tidy(Statements(content)[k])
  {
    var line := OneLine(content);
    OneLineIsClean(content);
    var pieces := Split(line, ';');
    KeptParts(pieces);
    forall k | 0 <= k < |Statements(content)| ensures Tidy(Statements(content)[k]) {
      var s := Statements(content)[k];
      assert KeptFrom(s, pieces);
      var i :| 0 <= i < |pieces| && PartOf(s, pieces[i]);
      SplitParts(line, ';', i);
      CleanPart(pieces[i], line);
      CleanPart(s, pieces[i]);
      PartKeeps(s, pieces[i], ';', ';');
    }
  }

  lemma {:induction false} KeptTidy(parts: seq<string>)
    requires forall i :: 0 <= i < |parts| ==> parts[i] != "" && Trimmed(parts[i])
    ensures Kept(parts) == parts
  {
    if parts == [] {
    } else {
      var n := |parts| - 1;
      KeptTidy(parts[..n]);
      TrimmedIsFixed(parts[n]);
      KeptMore(parts[..n], parts[n]);
      assert parts == parts[..n] + [parts[n]];
    }
  }

  lemma {:induction false} JoinTrimmed(parts: seq<string>, sep: char)
    requires parts != [] && forall i :: 0 <= i < |parts| ==> parts[i] != "" && Trimmed(parts[i])
    ensures Join(parts, sep) != "" && Trimmed(Join(parts, sep))
  {
    if |parts| <= 1 {
    } else {
      JoinTrimmed(parts[1..], sep);
    }
  }

  /** A clean line is already the one line it comes down to. */
  lemma CleanLineIsFixed(text: string)
    requires CleanLine(text) && Trimmed(text)
    ensures OneLine(text) == text
  {
    CleanIsFinal(text);
    PairIndex(text, '-', '-');
    SplitWhole(text, '\n');
    assert CutLines([text]) == [text];
    TrimmedIsFixed(text);
    KeptMore([], text);
    assert [] + [text] == [text];
  }

  /** Printing tidy statements with semicolons between them and parsing gives them back. */
  lemma ParseUndoesJoin(parts: seq<string>)
    requires forall i :: 0 <= i < |parts| ==> Tidy(parts[i])
    ensures Statements(Join(parts, ';')) == parts
  {
    JoinKeeps(parts, ';', '/', '*');
    JoinKeeps(parts, ';', '-', '-');
    JoinAvoids(parts, ';', '\n');
    if parts == [] {
      CleanLineIsFixed("");
      TrimmedIsFixed("");
      KeptMore([], "");
    } else {
      JoinTrimmed(parts, ';');
      CleanLineIsFixed(Join(parts, ';'));
      SplitJoin(parts, ';');
      KeptTidy(parts);
    }
  }

  /** Parsing is stable: the statements of a file, joined again, are the statements. */
  lemma ReparseIsStable(content: string)
    ensures Statements(Join(Statements(content), ';')) == Statements(content)
  {
    StatementsAreTidy(content);
    ParseUndoesJoin(Statements(content));
  }

  // ---- Execution ----

  /** `validateSQLStatement`. */
  predicate Permitted(stmt: string) {
    ClassifySQL(stmt).Insert? || ClassifySQL(stmt).Update?
  }

  datatype FileResult = FileResult(ok: bool, rowsAffected: int, total: nat, succeeded: nat, failed: nat,
    errors: seq<nat>)

  /** The statements that pass validation and so reach the database. */
  function Attempts(stmts: seq<string>, valid: string -> bool): seq<Sent> {
    if stmts == [] then []
    else
      var n := |stmts| - 1;
      Attempts(stmts[..n], valid) + (if valid(stmts[n]) then [Exec(stmts[n])] else [])
  }

  /** Statement k of a file fails: it is not valid, or the database refuses it. */
  predicate Fails(stmt: string, valid: string -> bool, reply: Reply) {
    !valid(stmt) || reply.DbError?
  }

  /** The 1-based numbers of the failing statements, in order. */
  function Failures(stmts: seq<string>, valid: string -> bool, db: nat -> Reply): seq<nat> {
    if stmts == [] then []
    else
      var n := |stmts| - 1;
      Failures(stmts[..n], valid, db) + (if Fails(stmts[n], valid, db(n)) then [n + 1] else [])
  }

  function AffectedRows(stmts: seq<string>, valid: string -> bool, db: nat -> Reply): int {
    if stmts == [] then 0
    else
      var n := |stmts| - 1;
      AffectedRows(stmts[..n], valid, db) + (if Fails(stmts[n], valid, db(n)) then 0 else db(n).affected)
  }

  lemma TidyIsSentAsIs(stmt: string)
    requires Tidy(stmt)
    ensures StatementText(stmt) == stmt
  {
    TrimmedIsFixed(stmt);
    assert stmt[|stmt| - 1..] == [stmt[|stmt| - 1]];
  }

  lemma OneMoreStatement(stmts: seq<string>, i: nat, valid: string -> bool, db: nat -> Reply)
    requires i < |stmts|
    ensures Attempts(stmts[..i + 1], valid) ==
      Attempts(stmts[..i], valid) + (if valid(stmts[i]) then [Exec(stmts[i])] else [])
    ensures Failures(stmts[..i + 1], valid, db) ==
            Failures(stmts[..i], valid, db) + (if Fails(stmts[i], valid, db(i)) then [i + 1] else [])
    ensures AffectedRows(stmts[..i + 1], valid, db) ==
            AffectedRows(stmts[..i], valid, db) + (if Fails(stmts[i], valid, db(i)) then 0 else db(i).affected)
  {
    assert stmts[..i + 1][..i] == stmts[..i];
  }

  /** The loop of `executeSQLFile`, against a database that answers statement k with db(k). */
  method ExecuteStatements(stmts: seq<string>, valid: string -> bool, db: nat -> Reply, pool: Pool)
    returns (result: FileResult)
    requires forall k :: 0 <= k < |stmts| ==> Tidy(stmts[k])
    modifies pool
    ensures pool.sent == old(pool.sent) + Attempts(stmts, valid)
    ensures result.total == |stmts| == result.succeeded + result.failed
    ensures result.errors == Failures(stmts, valid, db)
    ensures result.failed == |result.errors| && (result.ok <==> result.failed == 0)
    ensures result.rowsAffected == AffectedRows(stmts, valid, db)
  {
    var succeeded, failed, errors, total := 0, 0, [], 0;
    for i := 0 to |stmts|
      invariant pool.sent == old(pool.sent) + Attempts(stmts[..i], valid)
      invariant succeeded + failed == i && failed == |errors|
      invariant errors == Failures(stmts[..i], valid, db) && total == AffectedRows(stmts[..i], valid, db)
    {
      var stmt := stmts[i];
      OneMoreStatement(stmts, i, valid, db);
      if !valid(stmt) {
        failed, errors := failed + 1, errors + [i + 1];
        continue;
      }
      TidyIsSentAsIs(stmt);
      var reply := ExecuteWrite(pool, stmt, db(i));
      if reply.DbError? {
        failed, errors := failed + 1, errors + [i + 1];
        continue;
      }
      total := total + reply.affected;
      succeeded := succeeded + 1;
    }
    assert stmts[..|stmts|] == stmts;
    result := FileResult(failed == 0, total, |stmts|, succeeded, failed, errors);
  }

  /** `executeSQLFile`. */
  method ExecuteFile(content: string, db: nat -> Reply, pool: Pool) returns (result: FileResult)
    modifies pool
    ensures pool.sent == old(pool.sent) + Attempts(Statements(content), Permitted)
    ensures result.total == |Statements(content)| == result.succeeded + result.failed
    ensures result.errors == Failures(Statements(content), Permitted, db)
    ensures result.failed == |result.errors| && (result.ok <==> result.failed == 0)
    ensures result.rowsAffected == AffectedRows(Statements(content), Permitted, db)
  {
    var stmts := ParseSQL(content);
    StatementsAreTidy(content);
    result := ExecuteStatements(stmts, Permitted, db, pool);
  }

  /** Positions in the file of the statements that reached the database. */
  predicate Stand(sent: seq<Sent>, stmts: seq<string>, at: seq<nat>) {
    && |at| == |sent|
    && (forall i, j :: 0 <= i < j < |at| ==> at[i] < at[j])
    && (forall i :: 0 <= i < |at| ==> at[i] < |stmts| && sent[i] == Exec(stmts[at[i]]))
  }

  lemma StandMore(sent: seq<Sent>, stmts: seq<string>, at: seq<nat>, n: nat)
    requires n < |stmts| && Stand(sent, stmts[..n], at)
    ensures Stand(sent, stmts, at) && Stand(sent + [Exec(stmts[n])], stmts, at + [n])
  {
  }

  /** The positions are exactly those of valid statements. */
  predicate Marks(at: seq<nat>, stmts: seq<string>, valid: string -> bool) {
    && (forall i :: 0 <= i < |at| ==> at[i] < |stmts| && valid(stmts[at[i]]))
    && (forall k :: 0 <= k < |stmts| && valid(stmts[k]) ==> k in at)
  }

  lemma MarksMore(at: seq<nat>, stmts: seq<string>, valid: string -> bool, n: nat)
    requires n + 1 == |stmts| && Marks(at, stmts[..n], valid)
    ensures Marks(if valid(stmts[n]) then at + [n] else at, stmts, valid)
  {
    var more := if valid(stmts[n]) then at + [n] else at;
    forall k | 0 <= k < |stmts| && valid(stmts[k]) ensures k in more {
      if k < n {
        assert stmts[..n][k] == stmts[k];
      }
    }
    forall i | 0 <= i < |at| ensures at[i] < n && valid(stmts[at[i]]) {
      assert stmts[..n][at[i]] == stmts[at[i]];
    }
  }

  lemma OneMoreStands(before: seq<Sent>, stmts: seq<string>, at: seq<nat>, valid: string -> bool, n: nat)
    requires n + 1 == |stmts| && Stand(before, stmts[..n], at) && Marks(at, stmts[..n], valid)
    ensures var more := before + (if valid(stmts[n]) then [Exec(stmts[n])] else []);
            Stand(more, stmts, if valid(stmts[n]) then at + [n] else at)
    ensures Marks(if valid(stmts[n]) then at + [n] else at, stmts, valid)
  {
    StandMore(before, stmts, at, n);
    MarksMore(at, stmts, valid, n);
    assert before + [] == before;
  }

  /** What reaches the database are exactly the valid statements, in file order, each once for
      every occurrence. */
  lemma {:induction false} AttemptsAreTheValid(stmts: seq<string>, valid: string -> bool) returns (at: seq<nat>)
    ensures Stand(Attempts(stmts, valid), stmts, at) && Marks(at, stmts, valid)
  {
    at := [];
    if stmts == [] {
    } else {
      var n := |stmts| - 1;
      var before := AttemptsAreTheValid(stmts[..n], valid);
      var sent := Attempts(stmts[..n], valid);
      assert Attempts(stmts, valid) == sent + (if valid(stmts[n]) then [Exec(stmts[n])] else []);
      OneMoreStands(sent, stmts, before, valid, n);
      at := if valid(stmts[n]) then before + [n] else before;
    }
  }

  predicate Increasing(s: seq<nat>) {
    forall i, j :: 0 <= i < j < |s| ==> s[i] < s[j]
  }

  lemma {:induction false} FailuresInOrder(stmts: seq<string>, valid: string -> bool, db: nat -> Reply)
    ensures Increasing(Failures(stmts, valid, db))
    ensures forall i :: 0 <= i < |Failures(stmts, valid, db)| ==> Failures(stmts, valid, db)[i] <= |stmts|
  {
    if stmts == [] {
    } else {
      FailuresInOrder(stmts[..|stmts| - 1], valid, db);
    }
  }

  /** Statement number e is reported exactly when it fails. */
  lemma {:induction false} FailuresAreExact(stmts: seq<string>, valid: string -> bool, db: nat -> Reply, e: nat)
    ensures e in Failures(stmts, valid, db) <==>
      1 <= e <= |stmts| && (!valid(stmts[e - 1]) || db(e - 1).DbError?)
  {
    if stmts == [] {
    } else {
      var n := |stmts| - 1;
      FailuresAreExact(stmts[..n], valid, db, e);
      assert 1 <= e <= n ==> stmts[..n][e - 1] == stmts[e - 1];
    }
  }

  /** The rows of a file are those of its parts together, and one statement brings the rows the database
      answers, or none if it fails. */
  lemma {:induction false} RowsAddUp(a: seq<string>, b: seq<string>, valid: string -> bool, db: nat -> Reply)
    ensures AffectedRows(a + b, valid, db) ==
      AffectedRows(a, valid, db) + AffectedRows(b, valid, (k: nat) => db(|a| + k))
    ensures |a| == 1 ==>
      AffectedRows(a, valid, db) == if !valid(a[0]) || db(0).DbError? then 0 else db(0).affected
  {
    assert |a| == 1 ==> a[..0] == [];
    if b == [] {
      assert a + b == a;
    } else {
      var n := |b| - 1;
      RowsAddUp(a, b[..n], valid, db);
      assert (a + b)[..|a| + n] == a + b[..n];
    }
  }

  // ---- What removal takes out ----

  /** The first comment goes, from its opener to the first closing mark after it, and what stood on its
      two sides meets; then the rest is looked at again. */
  lemma FirstCommentGoes(a: string, c: string, b: string)
    requires Index(a + "/*", "/*") == |a| && Index(c + "*/", "*/") == |c|
    ensures RemoveComments(a + "/*" + c + "*/" + b) == RemoveComments(a + b)
  {
    var s := a + "/*" + c + "*/" + b;
    OpensAt(s, a, c + "*/" + b);
    assert s[|a| + 2..] == c + "*/" + b;
    IndexBefore(c, "*/", b);
    assert s[..|a|] == a && s[|a| + |c| + 4..] == b;
    assert OnePass(s) == Again(a, b);
  }

  /** An unclosed one takes everything after it. */
  lemma UnclosedCommentGoes(a: string, c: string)
    requires Index(a + "/*", "/*") == |a| && Index(c, "*/") == -1
    ensures RemoveComments(a + "/*" + c) == a
  {
    var s := a + "/*" + c;
    OpensAt(s, a, c);
    assert s[|a| + 2..] == c && s[..|a|] == a;
    assert OnePass(s) == Final(a);
  }

  lemma OpensAt(s: string, a: string, rest: string)
    requires s == a + "/*" + rest && Index(a + "/*", "/*") == |a|
    ensures Index(s, "/*") == |a|
  {
    IndexBefore(a, "/*", rest);
  }

  /** More text behind the first occurrence does not move it. */
  lemma IndexBefore(a: string, pat: string, rest: string)
    requires Index(a + pat, pat) == |a|
    ensures Index(a + pat + rest, pat) == |a|
  {
    var s, t := a + pat, a + pat + rest;
    assert t[|a|..|a| + |pat|] == pat;
    IndexLeast(t, pat, |a|);
    var i := Index(t, pat);
    assert i + |pat| <= |s| && s[i..i + |pat|] == t[i..i + |pat|];
    IndexLeast(s, pat, i);
  }

  // ---- What lines come to ----

  /** A line of a file: a text, perhaps with a comment after it. */
  datatype FileLine = FileLine(text: string, comment: string, commented: bool)

  /** The text is clean and does not run into the dashes; the comment stays on its line. */
  predicate GoodLineText(l: FileLine) {
    && l.text != "" && Trimmed(l.text) && CleanLine(l.text) && l.text[|l.text| - 1] != '-' && '\n' !in l.comment
  }

  function Written(l: FileLine): string {
    if l.commented then l.text + "--" + l.comment else l.text
  }

  lemma LineIsCut(l: FileLine)
    requires GoodLineText(l)
    ensures CutLine(Written(l)) == l.text && '\n' !in Written(l)
  {
    var s := l.text + "--";
    PairIndex(l.text, '-', '-');
    if l.commented {
      PairOccurs(s, '-', '-', |l.text|);
      IndexLeast(s, "--", |l.text|);
      PairOccurs(s, '-', '-', Index(s, "--"));
      IndexBefore(l.text, "--", l.comment);
    }
  }

  function Texts(lines: seq<FileLine>): seq<string> {
    seq(|lines|, i requires 0 <= i < |lines| => lines[i].text)
  }

  function AllWritten(lines: seq<FileLine>): seq<string> {
    seq(|lines|, i requires 0 <= i < |lines| => Written(lines[i]))
  }

  /** The lines of a file without block comments come down to their texts with one space between them,
      their comments gone. */
  lemma LinesMeet(lines: seq<FileLine>)
    requires lines != [] && forall i :: 0 <= i < |lines| ==> GoodLineText(lines[i])
    requires NoPair(Join(AllWritten(lines), '\n'), '/', '*')
    ensures OneLine(Join(AllWritten(lines), '\n')) == Join(Texts(lines), ' ')
  {
    var rows, content := AllWritten(lines), Join(AllWritten(lines), '\n');
    forall i | 0 <= i < |lines| ensures CutLine(rows[i]) == Texts(lines)[i] && '\n' !in rows[i] {
      LineIsCut(lines[i]);
    }
    CleanIsFinal(content);
    SplitJoin(rows, '\n');
    assert CutLines(rows) == Texts(lines);
    KeptTidy(Texts(lines));
  }
}
