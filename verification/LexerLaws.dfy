/** Laws of the lexer: what comments, trimming and the query wrapper do to the word list. */
module LexerLaws {
  import opened Collections
  import opened Text
  import opened Lexer

  // ---- Composition ----

  lemma {:induction false} WordsOfConcat(m: Mode, a: string, b: string)
    ensures WordsFrom(m, a + b) == Emitted(m, a) + WordsFrom(ModeAfter(m, a), b)
    ensures ModeAfter(m, a + b) == ModeAfter(ModeAfter(m, a), b)
    ensures Emitted(m, a + b) == Emitted(m, a) + Emitted(ModeAfter(m, a), b)
    decreases |a|
  {
    if a == "" {
      assert a + b == b;
    } else {
      assert (a + b)[1..] == a[1..] + b;
      WordsOfConcat(Next(m, a[0]), a[1..], b);
    }
  }

  lemma {:induction false} WordsSplit(m: Mode, a: string)
    ensures WordsFrom(m, a) == Emitted(m, a) + ModeAfter(m, a).Owed()
    decreases |a|
  {
    if a == "" {
    } else {
      WordsSplit(Next(m, a[0]), a[1..]);
    }
  }

  /** Where the pending token breaks off, the scan starts afresh. */
  lemma BreakRestarts(m: Mode, b: string)
    requires b != "" && m.Breaks(b[0])
    ensures WordsFrom(m, b) == m.Owed() + WordsFrom(Top, b)
  {
  }

  /** Between a and b the scan stands at top level: outside comments and quoted text, and b
      does not continue the token that a ends with. */
  predicate TopLevelCut(a: string, b: string) {
    var m := ModeAfter(Top, a);
    !m.Opaque() && (b == "" || m.Breaks(b[0]))
  }

  lemma CutSplitsWords(a: string, b: string)
    requires TopLevelCut(a, b)
    ensures Words(a + b) == Words(a) + Words(b)
  {
    WordsOfConcat(Top, a, b);
    WordsSplit(Top, a);
    if b != "" {
      BreakRestarts(ModeAfter(Top, a), b);
    }
  }

  // ---- Comments ----

  /** A block comment whose only closing mark is its own. */
  predicate ClosedComment(k: string) {
    |k| >= 4 && k[..2] == "/*" && Index(k[2..], "*/") == |k| - 4
  }

  lemma {:induction false} BlockBody(m: Mode, s: string)
    requires |s| >= 2 && Index(s, "*/") == |s| - 2
    requires m.Block? || (m.BlockStar? && s[0] != '/')
    ensures ModeAfter(m, s) == Top && Emitted(m, s) == []
    decreases |s|
  {
    assert OccursAt(s, "*/", |s| - 2);
    assert s[|s| - 2..|s|] == "*/";
    if |s| == 2 {
      assert s == "*/";
      assert s[1..] == "/" && s[1..][1..] == "";
    } else {
      assert !OccursAt(s, "*/", 0);
      IndexTail(s, "*/");
      assert s[0..2] == [s[0], s[1]];
      BlockBody(Next(m, s[0]), s[1..]);
    }
  }

  lemma ClosedCommentIsBlank(k: string)
    requires ClosedComment(k)
    ensures ModeAfter(Top, k) == Top && Emitted(Top, k) == []
  {
    assert k[0] == k[..2][0] == '/' && k[1] == k[..2][1] == '*';
    assert k[1..][1..] == k[2..];
    BlockBody(Block, k[2..]);
  }

  /** A closed block comment put at a top-level position changes no word. */
  lemma CommentInsertion(a: string, k: string, b: string)
    requires TopLevelCut(a, b) && ClosedComment(k)
    ensures Words(a + k + b) == Words(a + b)
  {
    CutSplitsWords(a, b);
    assert k[0] == k[..2][0] == '/';
    assert (k + b)[0] == '/';
    CutSplitsWords(a, k + b);
    ClosedCommentIsBlank(k);
    WordsOfConcat(Top, k, b);
    assert a + k + b == a + (k + b);
  }

  // ---- Trimming ----

  /** A space or semicolon: never part of a word, never opening anything. */
  predicate Blank(c: char) { IsSpace(c) || c == ';' }

  predicate AllBlank(s: string) { forall i :: 0 <= i < |s| ==> Blank(s[i]) }

  lemma {:induction false} BlankTail(m: Mode, t: string)
    requires AllBlank(t)
    ensures WordsFrom(m, t) == m.Owed()
    decreases |t|
  {
    if t == "" {
    } else {
      assert Blank(t[0]);
      BlankTail(Next(m, t[0]), t[1..]);
    }
  }

  /** Spaces, semicolons and opening parentheses keep the scan at top level. */
  lemma {:induction false} BlankHead(t: string)
    requires forall i :: 0 <= i < |t| ==> Blank(t[i]) || t[i] == '('
    ensures ModeAfter(Top, t) == Top && Emitted(Top, t) == []
  {
    if t == "" {
    } else {
      assert Blank(t[0]) || t[0] == '(';
      BlankHead(t[1..]);
    }
  }

  lemma BlankEnds(left: string, s: string, right: string)
    requires forall i :: 0 <= i < |left| ==> Blank(left[i]) || left[i] == '('
    requires AllBlank(right)
    ensures Words(left + s + right) == Words(s)
  {
    BlankHead(left);
    WordsOfConcat(Top, left, s + right);
    assert left + s + right == left + (s + right);
    WordsOfConcat(Top, s, right);
    BlankTail(ModeAfter(Top, s), right);
    WordsSplit(Top, s);
  }

  /** The trimming in `QueryRows` and `ExecuteWrite`: spaces, one trailing semicolon, spaces. */
  function StatementText(sql: string): string {
    TrimSpace(TrimSuffix(TrimSpace(sql), ";"))
  }

  lemma TrimKeepsWords(s: string)
    ensures Words(TrimSpace(s)) == Words(s)
  {
    var left, right := TrimSpaceSplits(s);
    BlankEnds(left, TrimSpace(s), right);
  }

  lemma StatementTextKeepsWords(sql: string)
    ensures Words(StatementText(sql)) == Words(sql)
  {
    TrimKeepsWords(sql);
    var t := TrimSpace(sql);
    var u := TrimSuffix(t, ";");
    TrimKeepsWords(u);
    if u != t {
      assert t == "" + u + ";";
      BlankEnds("", u, ";");
    }
  }

  // ---- The query wrapper ----

  /** The text `QueryRows` sends. */
  function Wrapped(s: string, maxRows: int): string {
    WRAP_HEAD + s + WrapTail(maxRows)
  }

  const WRAP_HEAD := "SELECT * FROM ("

  function WrapTail(maxRows: int): string {
    ") AS _q LIMIT " + Decimal(maxRows)
  }

  /** A maximal identifier is one word. */
  lemma {:induction false} Identifier(m: Mode, w: string)
    requires forall i :: 0 <= i < |w| ==> WordChar(w[i])
    requires m.Word?
    ensures ModeAfter(m, w) == Word(m.text + w) && Emitted(m, w) == []
    decreases |w|
  {
    if w == "" {
      assert m.text + w == m.text;
    } else {
      Identifier(Word(m.text + [w[0]]), w[1..]);
      assert m.text + [w[0]] + w[1..] == m.text + w;
    }
  }

  lemma WordThen(w: string, rest: string)
    requires IsWord(w)
    requires rest == "" || !WordChar(rest[0])
    ensures Words(w + rest) == [w] + Words(rest)
    ensures TopLevelCut(w, rest) && Words(w) == [w]
  {
    Identifier(Word([w[0]]), w[1..]);
    assert w == [w[0]] + w[1..];
    WordsSplit(Top, w);
    CutSplitsWords(w, rest);
  }

  lemma SignThen(c: char, rest: string)
    requires StepTop(c) == Top
    ensures Words([c] + rest) == Words(rest)
  {
    assert ([c] + rest)[1..] == rest;
  }

  predicate IsWord(w: string) {
    w != "" && WordStart(w[0]) && forall i :: 0 <= i < |w| ==> WordChar(w[i])
  }

  /** Words, each with a space before it. */
  function Spaced(ws: seq<string>): string {
    if ws == [] then "" else " " + ws[0] + Spaced(ws[1..])
  }

  lemma SpacedMore(ws: seq<string>, rest: string)
    requires ws != []
    ensures Spaced(ws) + rest == " " + (ws[0] + (Spaced(ws[1..]) + rest))
  {
  }

  lemma StartsApart(ws: seq<string>, rest: string)
    requires rest == "" || !WordChar(rest[0])
    ensures var t := Spaced(ws) + rest; t == "" || !WordChar(t[0])
  {
    assert ws != [] ==> Spaced(ws)[0] == ' ';
  }

  lemma {:induction false} SpacedWords(ws: seq<string>, rest: string)
    requires forall i :: 0 <= i < |ws| ==> IsWord(ws[i])
    requires rest == "" || !WordChar(rest[0])
    ensures Words(Spaced(ws) + rest) == ws + Words(rest)
  {
    if ws == [] {
      assert Spaced(ws) + rest == rest;
    } else {
      var more := Spaced(ws[1..]) + rest;
      SpacedWords(ws[1..], rest);
      StartsApart(ws[1..], rest);
      WordThen(ws[0], more);
      SignThen(' ', ws[0] + more);
      SpacedMore(ws, rest);
      ConcatAssoc([ws[0]], ws[1..], Words(rest));
    }
  }

  lemma {:induction false} NumberTail(s: string)
    requires forall i :: 0 <= i < |s| ==> IsDigit(s[i])
    ensures WordsFrom(Number, s) == []
  {
    if s == "" {
    } else {
      NumberTail(s[1..]);
    }
  }

  lemma DecimalHasNoWords(n: int)
    ensures Words(Decimal(n)) == []
  {
    var d := Digits(if n < 0 then -n else n);
    assert IsDigit(d[0]);
    NumberTail(d[1..]);
    if n < 0 {
      assert Decimal(n)[1..] == d;
      BreakRestarts(Dash, d);
    }
  }

  lemma ParenThen(ws: seq<string>, d: string)
    requires forall i :: 0 <= i < |ws| ==> IsWord(ws[i])
    requires Words(d) == []
    ensures Words(")" + (Spaced(ws) + (" " + d))) == ws
  {
    SignThen(' ', d);
    SpacedWords(ws, " " + d);
    SignThen(')', Spaced(ws) + (" " + d));
    assert ws + [] == ws;
  }

  lemma WrapTailWords(n: int)
    ensures Words(WrapTail(n)) == ["AS", "_q", "LIMIT"]
  {
    DecimalHasNoWords(n);
    WrapTailText(Decimal(n));
    ParenThen(["AS", "_q", "LIMIT"], Decimal(n));
  }

  lemma WrapTailText(d: string)
    ensures ") AS _q LIMIT " + d == ")" + (Spaced(["AS", "_q", "LIMIT"]) + (" " + d))
  {
    SpacedThree("AS", "_q", "LIMIT");
    assert ") AS _q LIMIT " == ")" + (" " + "AS" + (" " + "_q" + (" " + "LIMIT"))) + " ";
  }

  lemma SpacedThree(a: string, b: string, c: string)
    ensures Spaced([a, b, c]) == " " + a + (" " + b + (" " + c))
  {
    assert [a, b, c][1..] == [b, c] && [b, c][1..] == [c] && [c][1..] == [];
    assert Spaced([c]) == " " + c;
  }

  lemma SelectStarFrom(verb: string, from: string, t: string)
    requires IsWord(verb) && IsWord(from)
    ensures Words(verb + " *" + Spaced([from]) + " (" + t) == [verb, from] + Words(t)
  {
    BlankHead(" (");
    var after := " (" + t;
    WordsOfConcat(Top, " (", t);
    var tail := Spaced([from]) + after;
    SpacedWords([from], after);
    BlankStar(tail);
    WordThen(verb, " *" + tail);
    assert verb + " *" + Spaced([from]) + " (" + t == verb + (" *" + tail);
  }

  lemma WrapHeadThen(t: string)
    ensures Words(WRAP_HEAD + t) == ["SELECT", "FROM"] + Words(t)
  {
    SelectStarFrom("SELECT", "FROM", t);
    assert "SELECT" + " *" + Spaced(["FROM"]) + " (" + t == WRAP_HEAD + t;
  }

  lemma BlankStar(t: string)
    ensures Words(" *" + t) == Words(t)
  {
    SignThen('*', t);
    SignThen(' ', "*" + t);
    assert " *" + t == " " + ("*" + t);
  }

  /** A character with no meaning inside comments and quoted text. */
  predicate Inert(c: char) {
    c != '\n' && c != '*' && c != '/' && c != '\'' && c != '"' && c != '\\' && c != '`'
  }

  lemma {:induction false} InertTail(m: Mode, t: string)
    requires m.Opaque() && forall i :: 0 <= i < |t| ==> Inert(t[i])
    ensures WordsFrom(m, t) == []
    decreases |t|
  {
    if t == "" {
    } else {
      assert Inert(t[0]);
      InertTail(Next(m, t[0]), t[1..]);
    }
  }

  lemma TailWords(s: string, n: int)
    ensures Words(s + WrapTail(n)) == Words(s) + (if ModeAfter(Top, s).Opaque() then [] else ["AS", "_q", "LIMIT"])
  {
    var tail := WrapTail(n);
    if ModeAfter(Top, s).Opaque() {
      InertTail(ModeAfter(Top, s), tail);
      WordsOfConcat(Top, s, tail);
      WordsSplit(Top, s);
    } else {
      WrapTailWords(n);
      CutSplitsWords(s, tail);
    }
  }

  /** Exactly the texts whose scan ends outside comments and quoted text keep their wrapper;
      any other text swallows the closing half of it. */
  lemma WrapWords(s: string, n: int)
    ensures Words(Wrapped(s, n)) ==
      ["SELECT", "FROM"] + Words(s) + (if ModeAfter(Top, s).Opaque() then [] else ["AS", "_q", "LIMIT"])
    ensures Words(Wrapped(s, n)) == ["SELECT", "FROM"] + Words(s) + ["AS", "_q", "LIMIT"] <==>
      !ModeAfter(Top, s).Opaque()
  {
    var rest := s + WrapTail(n);
    assert Wrapped(s, n) == WRAP_HEAD + rest;
    WrapHeadThen(rest);
    TailWords(s, n);
  }
}
