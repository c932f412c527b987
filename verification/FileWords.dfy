/** The splitter of uploaded SQL files against the lexer: when cutting a file into statements keeps
    its words. */
module FileWords {
  import opened Collections
  import opened Text
  import opened Lexer
  import opened LexerLaws
  import opened SqlFile

  /** What f makes of the parts, one after the other. */
  function Gather(parts: seq<string>, f: string -> seq<string>): seq<string> {
    if parts == [] then [] else f(parts[0]) + Gather(parts[1..], f)
  }

  function AllWords(parts: seq<string>): seq<string> {
    Gather(parts, Words)
  }

  lemma {:induction false} GatherConcat(a: seq<string>, b: seq<string>, f: string -> seq<string>)
    ensures Gather(a + b, f) == Gather(a, f) + Gather(b, f)
  {
    if a == [] {
      assert a + b == b;
    } else {
      GatherConcat(a[1..], b, f);
      TailOfConcat(a, b);
    }
  }

  lemma AllWordsConcat(a: seq<string>, b: seq<string>)
    ensures AllWords(a + b) == AllWords(a) + AllWords(b)
  {
    GatherConcat(a, b, Words);
  }

  lemma AllWordsOfOne(p: string)
    ensures AllWords([p]) == Words(p)
  {
    GatherOne(p, Words);
  }

  lemma GatherOne(p: string, f: string -> seq<string>)
    ensures Gather([p], f) == f(p)
  {
    assert [p][1..] == [];
    assert Gather([p][1..], f) == [];
  }

  /** Trimming the pieces and dropping the empty ones loses no word. */
  lemma {:induction false} KeptWords(pieces: seq<string>)
    ensures AllWords(Kept(pieces)) == AllWords(pieces)
  {
    if pieces == [] {
    } else {
      var n := |pieces| - 1;
      var p := pieces[n];
      KeptWords(pieces[..n]);
      TrimKeepsWords(p);
      AllWordsConcat(pieces[..n], [p]);
      assert pieces == pieces[..n] + [p];
      AllWordsOfOne(p);
      AllWordsOfOne(TrimSpace(p));
      AllWordsConcat(Kept(pieces[..n]), [TrimSpace(p)]);
      assert Kept(pieces[..n]) + [] == Kept(pieces[..n]);
    }
  }

  // ---- Block comments ----

  /** Every comment the splitter takes out opens at top level, and what it leaves side by side does
      not grow together. */
  predicate Apart(s: string)
    decreases |s|
  {
    match OnePass(s)
    case Final(text) => text == s || !ModeAfter(Top, text).Opaque()
    case Again(front, back) => TopLevelCut(front, back) && Apart(front + back)
  }

  lemma IndexInPrefix(t: string, pat: string, e: nat)
    requires Index(t, pat) == e
    ensures Index(t[..e + |pat|], pat) == e
  {
    var p := t[..e + |pat|];
    assert p[e..e + |pat|] == t[e..e + |pat|];
    IndexLeast(p, pat, e);
    var i := Index(p, pat);
    assert t[i..i + |pat|] == p[i..i + |pat|];
    IndexLeast(t, pat, i);
  }

  lemma CommentIsClosed(s: string, start: nat, end: nat)
    requires Index(s, "/*") == start && Index(s[start + 2..], "*/") == end
    ensures ClosedComment(s[start..start + end + 4])
  {
    var k, t := s[start..start + end + 4], s[start + 2..];
    IndexInPrefix(t, "*/", end);
    assert k[2..] == t[..end + 2];
    assert k[..2] == s[start..start + 2];
  }

  /** An unclosed comment swallows the rest. */
  lemma UnclosedComment(a: string, t: string)
    requires !ModeAfter(Top, a).Opaque() && |t| >= 2 && t[0] == '/' && t[1] == '*' && Index(t[2..], "*/") == -1
    ensures Words(a + t) == Words(a)
  {
    CutSplitsWords(a, t);
    BlockComment(t, 0);
    assert t[0..] == t;
  }

  lemma UnclosedKeepsWords(s: string, start: nat)
    requires Index(s, "/*") == start && Index(s[start + 2..], "*/") == -1 && !ModeAfter(Top, s[..start]).Opaque()
    ensures Words(s[..start]) == Words(s)
  {
    PairOccurs(s, '/', '*', start);
    var a, t := s[..start], s[start..];
    assert t[2..] == s[start + 2..];
    assert s == a + t;
    UnclosedComment(a, t);
  }

  lemma ClosedKeepsWords(s: string, start: nat, end: nat)
    requires Index(s, "/*") == start && Index(s[start + 2..], "*/") == end
    requires TopLevelCut(s[..start], s[start + end + 4..])
    ensures Words(s[..start] + s[start + end + 4..]) == Words(s)
  {
    var a, k, b := s[..start], s[start..start + end + 4], s[start + end + 4..];
    CommentIsClosed(s, start, end);
    assert s == a + k + b;
    CommentInsertion(a, k, b);
  }

  /** One round of comment removal. */
  lemma PassKeepsWords(s: string)
    ensures var p := OnePass(s);
            && (p.Final? && (p.text == s || !ModeAfter(Top, p.text).Opaque()) ==> Words(p.text) == Words(s))
            && (p.Again? && TopLevelCut(p.front, p.back) ==> Words(p.front + p.back) == Words(s))
  {
    var start := Index(s, "/*");
    if start >= 0 {
      var end := Index(s[start + 2..], "*/");
      if end == -1 {
        if !ModeAfter(Top, s[..start]).Opaque() {
          UnclosedKeepsWords(s, start);
        }
      } else if TopLevelCut(s[..start], s[start + end + 4..]) {
        ClosedKeepsWords(s, start, end);
      }
    }
  }

  lemma {:induction false} RemovalKeepsWords(s: string)
    requires Apart(s)
    ensures Words(RemoveComments(s)) == Words(s)
    decreases |s|
  {
    var p := OnePass(s);
    PassKeepsWords(s);
    if p.Final? {
    } else {
      RemovalKeepsWords(p.front + p.back);
    }
  }

  // ---- Quoted text ----

  predicate Quoted(m: Mode) { m.Quote? || m.Double? || m.DoubleEsc? || m.Backtick? }

  /** If position i lies in quoted text, no semicolon, line end or double dash stands there. */
  predicate TameAt(s: string, i: nat)
    requires i < |s|
  {
    Quoted(ModeAfter(Top, s[..i])) ==>
      s[i] != ';' && s[i] != '\n' && !(s[i] == '-' && i + 1 < |s| && s[i + 1] == '-')
  }

  predicate TameInside(s: string) {
    forall i: nat :: i < |s| ==> TameAt(s, i)
  }

  /** Quoted text holds none of the splitter's marks and is closed. */
  predicate Tame(s: string) {
    TameInside(s) && !Quoted(ModeAfter(Top, s))
  }

  lemma ModeOfConcat(a: string, b: string)
    ensures ModeAfter(Top, a + b) == ModeAfter(ModeAfter(Top, a), b)
  {
    WordsOfConcat(Top, a, b);
  }

  lemma ModeOfMore(s: string, i: nat)
    requires i < |s|
    ensures ModeAfter(Top, s[..i + 1]) == Next(ModeAfter(Top, s[..i]), s[i])
  {
    ModeOfConcat(s[..i], [s[i]]);
    assert s[..i + 1] == s[..i] + [s[i]];
    assert [s[i]][1..] == "";
  }

  lemma TamePrefix(s: string, n: nat)
    requires TameInside(s) && n <= |s| && !Quoted(ModeAfter(Top, s[..n]))
    ensures Tame(s[..n])
  {
    forall i: nat | i < n ensures TameAt(s[..n], i) {
      assert TameAt(s, i);
      assert s[..n][..i] == s[..i];
    }
  }

  lemma TameSuffix(a: string, b: string)
    requires Tame(a + b) && ModeAfter(Top, a) == Top
    ensures Tame(b)
  {
    ModeOfConcat(a, b);
    forall i: nat | i < |b| ensures TameAt(b, i) {
      assert TameAt(a + b, |a| + i);
      ModeOfConcat(a, b[..i]);
      assert (a + b)[..|a| + i] == a + b[..i];
    }
  }

  lemma TameConcat(a: string, b: string)
    requires Tame(a) && Tame(b) && ModeAfter(Top, a) == Top && (a != "" ==> a[|a| - 1] != '-')
    ensures Tame(a + b)
  {
    ModeOfConcat(a, b);
    forall i: nat | i < |a + b| ensures TameAt(a + b, i) {
      if i < |a| {
        assert TameAt(a, i);
        assert (a + b)[..i] == a[..i];
      } else {
        assert TameAt(b, i - |a|);
        ModeOfConcat(a, b[..i - |a|]);
        assert (a + b)[..i] == a + b[..i - |a|];
      }
    }
  }

  // ---- Modes of clean text ----

  predicate InBlock(m: Mode) { m.Block? || m.BlockStar? }

  lemma {:induction false} NeverInBlock(s: string)
    requires NoPair(s, '/', '*')
    ensures !InBlock(ModeAfter(Top, s))
    ensures ModeAfter(Top, s).Slash? ==> s != "" && s[|s| - 1] == '/'
  {
    if s == "" {
    } else {
      var n := |s| - 1;
      NeverInBlock(s[..n]);
      ModeOfMore(s, n);
      assert s[..n + 1] == s;
      assert n > 0 ==> !(s[n - 1] == '/' && s[n] == '*');
    }
  }

  lemma {:induction false} NeverInLine(s: string)
    requires NoPair(s, '-', '-')
    ensures !ModeAfter(Top, s).Line?
    ensures ModeAfter(Top, s).Dash? ==> s != "" && s[|s| - 1] == '-'
  {
    if s == "" {
    } else {
      var n := |s| - 1;
      NeverInLine(s[..n]);
      ModeOfMore(s, n);
      assert s[..n + 1] == s;
      assert n > 0 ==> !(s[n - 1] == '-' && s[n] == '-');
    }
  }

  /** After clean, tame text the scan stands outside comments and quoted text, so a blank sends it
      back to the top. */
  lemma CleanEnds(s: string, c: char)
    requires CleanLine(s) && Tame(s) && (c == ' ' || c == ';' || c == '\n')
    ensures !ModeAfter(Top, s).Opaque() && ModeAfter(Top, s + [c]) == Top
  {
    NeverInBlock(s);
    NeverInLine(s);
    ModeOfConcat(s, [c]);
    assert [c][1..] == "";
  }

  /** Two clean, tame texts with a blank between them. */
  lemma CleanThen(s: string, c: char, rest: string)
    requires CleanLine(s) && Tame(s) && (c == ' ' || c == ';' || c == '\n')
    ensures Words(s + [c] + rest) == Words(s) + Words(rest)
  {
    CleanEnds(s, c);
    CutSplitsWords(s, [c] + rest);
    SignThen(c, rest);
    assert s + [c] + rest == s + ([c] + rest);
  }

  // ---- Rows ----

  /** A row of the file after comment removal. */
  predicate GoodRow(r: string) {
    NoPair(r, '/', '*') && '\n' !in r && Tame(r)
  }

  lemma {:induction false} LineStays(y: string)
    requires '\n' !in y
    ensures ModeAfter(Line, y) == Line
  {
    if y == "" {
    } else {
      LineStays(y[1..]);
    }
  }

  /** Where the double dash of a row stands, the scan is at top level. */
  lemma DashesAtTop(r: string)
    requires NoPair(r, '/', '*') && TameInside(r) && Index(r, "--") >= 0
    ensures var x := r[..Index(r, "--")]; TopLevelCut(x, r[|x|..]) && !Quoted(ModeAfter(Top, x)) && CleanPairs(x)
  {
    var idx := Index(r, "--");
    var x := r[..idx];
    PairOccurs(r, '-', '-', idx);
    assert TameAt(r, idx);
    BeforeFirstPair(r, '-', '-');
    NeverInLine(x);
    assert NoPair(x, '/', '*');
    NeverInBlock(x);
    if ModeAfter(Top, x).Dash? {
      PairOccurs(r, '-', '-', idx - 1);
      IndexLeast(r, "--", idx - 1);
    }
  }

  predicate CleanPairs(s: string) { NoPair(s, '/', '*') && NoPair(s, '-', '-') }

  /** What is cut off a row is a line comment. */
  lemma CutRow(r: string)
    requires GoodRow(r)
    ensures CleanLine(CutLine(r)) && Tame(CutLine(r))
  {
    if Index(r, "--") >= 0 {
      DashesAtTop(r);
      TamePrefix(r, Index(r, "--"));
    } else {
      PairIndex(r, '-', '-');
    }
  }

  lemma LineEndAt(t: string, rest: string)
    requires '\n' !in t
    ensures Index(t + "\n" + rest, "\n") == |t|
  {
    var s := t + "\n" + rest;
    assert s[|t|..|t| + 1] == "\n";
    IndexLeast(s, "\n", |t|);
    var i := Index(s, "\n");
    assert s[i..i + 1] == "\n";
    assert s[i] == '\n';
  }

  lemma CommentThenRest(t: string, rest: string)
    requires |t| >= 2 && t[0] == '-' && t[1] == '-' && '\n' !in t
    ensures Words(t + "\n" + rest) == Words(rest)
  {
    var s := t + "\n" + rest;
    LineComment(s, 0);
    LineEndAt(t, rest);
    assert s[0..] == s && s[0 + |t| + 1..] == rest;
  }

  lemma LineEndIsThere(t: string)
    ensures Index(t, "\n") >= 0 ==> '\n' in t
  {
    var i := Index(t, "\n");
    if i >= 0 {
      assert t[i] == t[i..i + 1][0];
    }
  }

  lemma CommentAtEnd(t: string)
    requires |t| >= 2 && t[0] == '-' && t[1] == '-' && '\n' !in t
    ensures Words(t) == []
  {
    LineComment(t, 0);
    LineEndIsThere(t);
    assert t[0..] == t;
  }

  /** The words of a row and what follows it. */
  lemma RowThen(r: string, rest: string)
    requires GoodRow(r)
    ensures Words(r + "\n" + rest) == Words(CutLine(r)) + Words(rest)
  {
    CutRow(r);
    var idx := Index(r, "--");
    if idx == -1 {
      CleanThen(r, '\n', rest);
    } else {
      DashesAtTop(r);
      PairOccurs(r, '-', '-', idx);
      var x, t := r[..idx], r[idx..];
      CommentThenRest(t, rest);
      CutSplitsWords(x, t + "\n" + rest);
      assert r + "\n" + rest == x + (t + "\n" + rest);
    }
  }

  lemma LastRow(r: string)
    requires GoodRow(r)
    ensures Words(r) == Words(CutLine(r))
  {
    var idx := Index(r, "--");
    if idx >= 0 {
      DashesAtTop(r);
      PairOccurs(r, '-', '-', idx);
      CommentAtEnd(r[idx..]);
      CutSplitsWords(r[..idx], r[idx..]);
      assert r == r[..idx] + r[idx..];
    }
  }

  /** A line end sends the scan back to the top. */
  lemma RowEnds(r: string)
    requires GoodRow(r)
    ensures ModeAfter(Top, r + "\n") == Top
  {
    var idx := Index(r, "--");
    if idx == -1 {
      CutRow(r);
      CleanEnds(r, '\n');
    } else {
      DashesAtTop(r);
      PairOccurs(r, '-', '-', idx);
      var x, y := r[..idx], r[idx + 2..];
      LineStays(y);
      ModeOfConcat(x, ("--" + y) + "\n");
      assert r + "\n" == x + (("--" + y) + "\n");
      DashesThen(ModeAfter(Top, x), y);
    }
  }

  lemma DashesThen(m: Mode, y: string)
    requires m.Breaks('-') && '\n' !in y
    ensures ModeAfter(m, ("--" + y) + "\n") == Top
  {
    var s := ("--" + y) + "\n";
    assert s[1..] == "-" + y + "\n" && s[1..][1..] == y + "\n";
    LineStays(y);
    WordsOfConcat(Line, y, "\n");
    assert "\n"[1..] == "";
  }

  /** The first row of a text, and the rest. */
  lemma FirstRow(c: string, r: string, rest: string)
    requires c == r + "\n" + rest && '\n' !in r && NoPair(c, '/', '*') && Tame(c)
    ensures GoodRow(r) && NoPair(rest, '/', '*') && Tame(rest)
  {
    assert c[..|r|] == r && c[|r|] == '\n' && c[|r| + 1..] == rest;
    assert TameAt(c, |r|);
    TamePrefix(c, |r|);
    PartKeeps(r, c, '/', '*') by { assert r == c[0..|r|]; }
    PartKeeps(rest, c, '/', '*') by { assert rest == c[|r| + 1..|c|]; }
    RowEnds(r);
    TameSuffix(r + "\n", rest);
  }

  /** The place of the first separator. */
  lemma {:induction false} FirstSeparator(s: string, sep: char) returns (n: nat)
    requires sep in s
    ensures n < |s| && s[n] == sep && sep !in s[..n]
  {
    if s[0] == sep {
      n := 0;
    } else {
      var k := FirstSeparator(s[1..], sep);
      n := k + 1;
      assert s[..n] == [s[0]] + s[1..][..k];
    }
  }

  lemma CutLinesMore(r: string, rows: seq<string>)
    ensures CutLines([r] + rows) == [CutLine(r)] + CutLines(rows)
  {
  }

  /** Rows as the splitter needs them, and the words of a text are those of its cut rows. */
  lemma {:induction false} RowsWords(c: string)
    requires NoPair(c, '/', '*') && Tame(c)
    ensures Words(c) == AllWords(CutLines(Split(c, '\n')))
    ensures forall k :: 0 <= k < |Split(c, '\n')| ==> GoodRow(Split(c, '\n')[k])
    decreases |c|
  {
    if '\n' !in c {
      SplitWhole(c, '\n');
      LastRow(c);
      CutLinesMore(c, []);
      assert CutLines([]) == [] && [c] + [] == [c];
      assert [CutLine(c)] + [] == [CutLine(c)];
      AllWordsOfOne(CutLine(c));
    } else {
      var n := FirstSeparator(c, '\n');
      var r, rest := c[..n], c[n + 1..];
      assert c == r + "\n" + rest;
      FirstRow(c, r, rest);
      RowsWords(rest);
      SplitAt(r, rest, '\n');
      RowThen(r, rest);
      CutLinesMore(r, Split(rest, '\n'));
      AllWordsConcat([CutLine(r)], CutLines(Split(rest, '\n')));
      AllWordsOfOne(CutLine(r));
    }
  }

  // ---- Trimming and joining ----

  lemma {:induction false} QuotedStays(m: Mode, t: string)
    requires Quoted(m) && AllSpace(t)
    ensures Quoted(ModeAfter(m, t))
    decreases |t|
  {
    if t == "" {
    } else {
      assert IsSpace(t[0]);
      QuotedStays(Next(m, t[0]), t[1..]);
    }
  }

  lemma TrimIsTame(s: string)
    requires Tame(s)
    ensures Tame(TrimSpace(s))
  {
    var left, right := TrimSpaceSplits(s);
    var t := TrimSpace(s);
    assert s == left + (t + right);
    BlankHead(left);
    TameSuffix(left, t + right);
    ModeOfConcat(t, right);
    if Quoted(ModeAfter(Top, t)) {
      QuotedStays(ModeAfter(Top, t), right);
    }
    TamePrefix(t + right, |t|);
    assert (t + right)[..|t|] == t;
  }

  predicate GoodLine(s: string) { CleanLine(s) && Tame(s) }

  lemma SpaceBetween(a: string, b: string)
    requires GoodLine(a) && GoodLine(b)
    ensures GoodLine(a + " " + b) && Words(a + " " + b) == Words(a) + Words(b)
  {
    CleanThen(a, ' ', b);
    CleanEnds(a, ' ');
    PairOfConcat(a, ' ', b, '/', '*');
    PairOfConcat(a, ' ', b, '-', '-');
    TamePrefixOfSpace(a);
    TameConcat(a + " ", b);
  }

  lemma TamePrefixOfSpace(a: string)
    requires GoodLine(a)
    ensures Tame(a + " ")
  {
    CleanEnds(a, ' ');
    var s := a + " ";
    forall i: nat | i < |s| ensures TameAt(s, i) {
      if i < |a| {
        assert TameAt(a, i);
        assert s[..i] == a[..i];
      }
    }
  }

  lemma {:induction false} JoinWords(parts: seq<string>)
    requires forall k :: 0 <= k < |parts| ==> GoodLine(parts[k])
    ensures GoodLine(Join(parts, ' ')) && Words(Join(parts, ' ')) == AllWords(parts)
  {
    if parts == [] {
    } else if |parts| == 1 {
      assert parts == [parts[0]];
      AllWordsOfOne(parts[0]);
    } else {
      JoinWords(parts[1..]);
      SpaceBetween(parts[0], Join(parts[1..], ' '));
    }
  }

  lemma GoodKept(pieces: seq<string>)
    requires forall k :: 0 <= k < |pieces| ==> GoodLine(pieces[k])
    ensures forall k :: 0 <= k < |Kept(pieces)| ==> GoodLine(Kept(pieces)[k])
  {
    if pieces == [] {
    } else {
      var n := |pieces| - 1;
      GoodKept(pieces[..n]);
      TrimIsTame(pieces[n]);
      TrimIsPart(pieces[n]);
      CleanPart(TrimSpace(pieces[n]), pieces[n]);
    }
  }

  // ---- Semicolons ----

  lemma FirstStatement(line: string, p: string, rest: string)
    requires line == p + ";" + rest && ';' !in p && GoodLine(line)
    ensures GoodLine(p) && GoodLine(rest)
  {
    assert line[..|p|] == p && line[|p|] == ';' && line[|p| + 1..] == rest;
    assert TameAt(line, |p|);
    TamePrefix(line, |p|);
    CleanPart(p, line) by { assert p == line[0..|p|]; }
    CleanPart(rest, line) by { assert rest == line[|p| + 1..|line|]; }
    CleanEnds(p, ';');
    TameSuffix(p + ";", rest);
  }

  lemma {:induction false} StatementWords(line: string)
    requires GoodLine(line)
    ensures Words(line) == AllWords(Split(line, ';'))
    decreases |line|
  {
    if ';' !in line {
      SplitWhole(line, ';');
      AllWordsOfOne(line);
    } else {
      var n := FirstSeparator(line, ';');
      var p, rest := line[..n], line[n + 1..];
      assert line == p + ";" + rest;
      FirstStatement(line, p, rest);
      StatementWords(rest);
      SplitAt(p, rest, ';');
      CleanThen(p, ';', rest);
      AllWordsConcat([p], Split(rest, ';'));
      AllWordsOfOne(p);
    }
  }

  // ---- The file ----

  lemma CutRowsAreGood(rows: seq<string>)
    requires forall k :: 0 <= k < |rows| ==> GoodRow(rows[k])
    ensures forall k :: 0 <= k < |CutLines(rows)| ==> GoodLine(CutLines(rows)[k])
  {
    forall k | 0 <= k < |rows| ensures GoodLine(CutLines(rows)[k]) {
      CutRow(rows[k]);
    }
  }

  lemma OneLineWords(content: string)
    requires Tame(RemoveComments(content))
    ensures GoodLine(OneLine(content)) && Words(OneLine(content)) == Words(RemoveComments(content))
  {
    var rows := Split(RemoveComments(content), '\n');
    CommentsGone(content);
    RowsWords(RemoveComments(content));
    CutRowsAreGood(rows);
    GoodKept(CutLines(rows));
    JoinWords(Kept(CutLines(rows)));
    KeptWords(CutLines(rows));
  }

  /** When comments stand apart and quoted text is closed and holds no semicolon, line end or double
      dash, the words of a file are the words of its statements, in order. */
  lemma FileWordsAreStatementWords(content: string)
    requires Apart(content) && Tame(RemoveComments(content))
    ensures Words(content) == AllWords(Statements(content))
  {
    RemovalKeepsWords(content);
    OneLineWords(content);
    StatementWords(OneLine(content));
    KeptWords(Split(OneLine(content), ';'));
  }

  /** Without the first condition words grow together: a comment between two words leaves one. */
  lemma CommentGlues(v: string, w: string)
    requires IsWord(v) && IsWord(w)
    ensures RemoveComments(v + ("/**/" + w)) == v + w
    ensures Words(v + ("/**/" + w)) == [v, w] && Words(v + w) == [v + w]
  {
    GluedText(v, w);
    TwoWords(v, "/**/", w);
    WordThen(v + w, "");
    assert (v + w) + "" == v + w;
  }

  lemma TwoWords(v: string, k: string, w: string)
    requires IsWord(v) && IsWord(w) && k == "/**/"
    ensures Words(v + (k + w)) == [v, w]
  {
    ClosedEmpty(k);
    ClosedCommentIsBlank(k);
    WordsOfConcat(Top, k, w);
    WordThen(w, "");
    WordThen(v, k + w);
    assert [v] + [w] == [v, w];
  }

  lemma ClosedEmpty(k: string)
    requires k == "/**/"
    ensures ClosedComment(k)
  {
    assert k[..2] == "/*" && k[2..] == "*/";
    assert "*/"[0..2] == "*/";
  }

  lemma NoSlash(v: string)
    requires IsWord(v)
    ensures '/' !in v
  {
    forall i | 0 <= i < |v| ensures v[i] != '/' {
      assert WordChar(v[i]);
    }
  }

  lemma SettlesNext(s: string, a: string, b: string, pass: string -> Pass)
    requires pass(s) == Again(a, b) && |a| + |b| < |s| && pass(a + b) == Final(a + b)
    ensures Settle(s, pass) == a + b
  {
    assert Settle(a + b, pass) == a + b;
  }

  lemma FirstPass(s: string, v: string, w: string)
    requires IsWord(v) && s == v + ("/**/" + w)
    ensures OnePass(s) == Again(v, w)
  {
    var t := "*/" + w;
    assert "/**/" == "/*" + "*/";
    assert s == v + ("/*" + t);
    FirstOpener(s, v, t);
    assert s[|v| + 2..] == t;
    assert t[0..2] == "*/";
    assert Index(t, "*/") == 0;
    assert s[..|v|] == v && s[|v| + 4..] == w;
  }

  lemma GluedText(v: string, w: string)
    requires IsWord(v) && IsWord(w)
    ensures RemoveComments(v + ("/**/" + w)) == v + w
  {
    FirstPass(v + ("/**/" + w), v, w);
    GluedIsClean(v, w);
    SettlesNext(v + ("/**/" + w), v, w, OnePass);
  }

  lemma GluedIsClean(v: string, w: string)
    requires IsWord(v) && IsWord(w)
    ensures OnePass(v + w) == Final(v + w)
  {
    NoSlash(v);
    NoSlash(w);
    CleanIsFinal(v + w);
  }

  lemma FirstOpener(s: string, v: string, rest: string)
    requires IsWord(v) && s == v + ("/*" + rest)
    ensures Index(s, "/*") == |v|
  {
    assert s[|v|..|v| + 2] == "/*";
    IndexLeast(s, "/*", |v|);
    var i := Index(s, "/*");
    PairOccurs(s, '/', '*', i);
    NoSlash(v);
    assert forall j :: 0 <= j < |v| ==> s[j] == v[j] && v[j] in v;
  }

  // ---- Both conditions are needed ----

  lemma {:induction false} WordKeepsGrowing(w: string, b: string)
    ensures WordsFrom(Word(w), b) != [] && |WordsFrom(Word(w), b)[0]| >= |w|
    decreases |b|
  {
    if b == "" {
    } else if WordChar(b[0]) {
      WordKeepsGrowing(w + [b[0]], b[1..]);
    }
  }

  /** After a front that ends in a word, a comment can go without a trace exactly when what follows it
      does not go on with that word. */
  lemma GluesExactly(a: string, k: string, b: string)
    requires ModeAfter(Top, a).Word? && ClosedComment(k)
    ensures Words(a + b) == Words(a + k + b) <==> b == "" || !WordChar(b[0])
  {
    if b == "" || !WordChar(b[0]) {
      CommentInsertion(a, k, b);
    } else {
      var w := ModeAfter(Top, a).text;
      WordsOfConcat(Top, a, b);
      WordsSplit(Top, a);
      WordKeepsGrowing(w + [b[0]], b[1..]);
      CommentBetween(a, k, b);
      assert Words(a + b)[|Emitted(Top, a)|] == WordsFrom(Word(w), b)[0];
      assert Words(a + k + b)[|Emitted(Top, a)|] == w;
    }
  }

  lemma CommentBetween(a: string, k: string, b: string)
    requires !ModeAfter(Top, a).Opaque() && ClosedComment(k)
    ensures Words(a + k + b) == Words(a) + Words(b)
  {
    assert k[0] == k[..2][0] == '/';
    CutSplitsWords(a, k + b);
    ClosedCommentIsBlank(k);
    WordsOfConcat(Top, k, b);
    ConcatAssoc(a, k, b);
  }

  lemma {:induction false} QuoteStays(s: string)
    requires '\'' !in s
    ensures ModeAfter(Quote, s) == Quote && Emitted(Quote, s) == []
  {
    if s == "" {
    } else {
      QuoteStays(s[1..]);
    }
  }

  /** Quoted text has no words, closed or not. */
  lemma QuotedHasNoWords(s: string)
    requires '\'' !in s
    ensures Words("'" + s) == [] && Words("'" + (s + "'")) == []
  {
    QuoteStays(s);
    WordsSplit(Quote, s);
    WordsOfConcat(Quote, s, "'");
    assert ("'" + s)[1..] == s && ("'" + (s + "'"))[1..] == s + "'";
    assert "'"[1..] == "";
  }

  predicate OfWords(s: string) {
    forall i :: 0 <= i < |s| ==> WordChar(s[i]) || s[i] == ';' || s[i] == '\''
  }

  lemma OfWordsIsClean(s: string)
    requires OfWords(s)
    ensures CleanLine(s)
  {
  }

  /** A semicolon in quoted text cuts it, and its second half turns into words. */
  lemma QuoteIsCut(v: string, w: string)
    requires IsWord(v) && IsWord(w)
    ensures var file := ("'" + v) + ";" + (w + "'");
            Words(file) == [] && Statements(file) == ["'" + v, w + "'"] && AllWords(Statements(file)) == [w]
  {
    var p, q := "'" + v, w + "'";
    var file := p + ";" + q;
    QuotedFile(v, w);
    StatementsOfQuoted(p, q);
    QuotedHasNoWords(v);
    WordThen(w, "'");
    QuotedHasNoWords("");
    assert "'" + "" == "'";
    AllWordsConcat([p], [q]);
    AllWordsOfOne(p);
    AllWordsOfOne(q);
    assert [p] + [q] == [p, q];
  }

  lemma QuotedFile(v: string, w: string)
    requires IsWord(v) && IsWord(w)
    ensures Words(("'" + v) + ";" + (w + "'")) == []
  {
    var inner := v + ";" + w;
    assert '\'' !in inner;
    QuotedHasNoWords(inner);
    assert ("'" + v) + ";" + (w + "'") == "'" + (inner + "'");
  }

  lemma StatementsOfQuoted(p: string, q: string)
    requires p != "" && q != "" && OfWords(p) && OfWords(q) && ';' !in p && ';' !in q
    ensures Statements(p + ";" + q) == [p, q]
  {
    var file := p + ";" + q;
    NoBlanks(p);
    NoBlanks(q);
    NoBlanks(file);
    OfWordsIsClean(file);
    CleanLineIsFixed(file);
    SplitAt(p, q, ';');
    SplitWhole(q, ';');
    assert [p] + [q] == [p, q];
    KeptTidy([p, q]);
  }

  lemma NoBlanks(s: string)
    requires OfWords(s)
    ensures Trimmed(s)
  {
    if s != "" {
      assert !IsSpace(s[0]) && !IsSpace(s[|s| - 1]);
    }
  }
}
