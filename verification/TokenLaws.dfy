/** What each kind of text contributes to the word list, told by its characters: quoted text and
    comments nothing, signs and digits nothing, an identifier itself. */
module TokenLaws {
  import opened Text
  import opened Lexer
  import opened LexerLaws

  // ---- Text that is passed over ----

  /** What may stand between two double quotes: a backslash takes the next character with it. */
  predicate DoubleBody(q: string)
    decreases |q|
  {
    if q == "" then true
    else if q[0] == '\\' then |q| >= 2 && DoubleBody(q[2..])
    else q[0] != '"' && DoubleBody(q[1..])
  }

  /** What may stand between two single quotes: single quotes only in pairs. */
  predicate SingleBody(q: string)
    decreases |q|
  {
    if q == "" then true
    else if q[0] == '\'' then |q| >= 2 && q[1] == '\'' && SingleBody(q[2..])
    else SingleBody(q[1..])
  }

  /** What may follow the opening quote c without closing it. */
  predicate Body(c: char, q: string) {
    || (c == '`' && '`' !in q)
    || (c == '"' && DoubleBody(q))
    || (c == '\'' && SingleBody(q))
  }

  /** A quoted text or a comment, from its first character to its last. */
  predicate PassedOver(k: string) {
    || (|k| >= 2 && k[|k| - 1] == k[0] && Body(k[0], k[1..|k| - 1]))
    || (|k| >= 3 && k[..2] == "--" && k[|k| - 1] == '\n' && '\n' !in k[..|k| - 1])
    || ClosedComment(k)
  }

  /** One that is never closed. */
  predicate LeftOpen(k: string) {
    || (k != "" && Body(k[0], k[1..]))
    || (|k| >= 2 && k[0] == '"' && k[|k| - 1] == '\\' && DoubleBody(k[1..|k| - 1]))
    || (|k| >= 2 && k[..2] == "--" && '\n' !in k)
    || (|k| >= 2 && k[..2] == "/*" && Index(k[2..], "*/") == -1)
  }

  // ---- Inside ----

  /** s is read in mode m without a word and without leaving it. */
  predicate Stays(m: Mode, s: string) {
    ModeAfter(m, s) == m && Emitted(m, s) == []
  }

  lemma {:induction false} BacktickStays(q: string)
    requires '`' !in q
    ensures Stays(Backtick, q)
  {
    if q == "" {
    } else {
      BacktickStays(q[1..]);
    }
  }

  lemma {:induction false} DoubleStays(q: string)
    requires DoubleBody(q)
    ensures Stays(Double, q)
    decreases |q|
  {
    if q == "" {
    } else if q[0] == '\\' {
      DoubleStays(q[2..]);
      assert q[1..][1..] == q[2..];
    } else {
      DoubleStays(q[1..]);
    }
  }

  lemma {:induction false} SingleStays(q: string)
    requires SingleBody(q)
    ensures Stays(Quote, q)
    decreases |q|
  {
    if q == "" {
    } else if q[0] == '\'' {
      SingleStays(q[2..]);
      assert q[1..][1..] == q[2..];
    } else {
      SingleStays(q[1..]);
    }
  }

  lemma {:induction false} LineBodyStays(q: string)
    requires '\n' !in q
    ensures Stays(Line, q)
  {
    if q == "" {
    } else {
      LineBodyStays(q[1..]);
    }
  }

  /** The mode an opening quote leads to. */
  function Inside(c: char): Mode {
    if c == '`' then Backtick else if c == '"' then Double else Quote
  }

  lemma BodyStays(c: char, q: string)
    requires Body(c, q)
    ensures Stays(Inside(c), q)
  {
    if c == '`' {
      BacktickStays(q);
    } else if c == '"' {
      DoubleStays(q);
    } else {
      SingleStays(q);
    }
  }

  // ---- From the opening character ----

  /** From any mode outside comments and quotes, s is read up to mode n without a word of its own. */
  predicate Leads(m: Mode, s: string, n: Mode) {
    ModeAfter(m, s) == n && Emitted(m, s) == m.Owed()
  }

  lemma OneChar(m: Mode, c: char)
    ensures ModeAfter(m, [c]) == Next(m, c) && Emitted(m, [c]) == if Completes(m, c) then [m.text] else []
  {
    assert [c][1..] == "";
  }

  lemma LeadsThen(m: Mode, s: string, n: Mode, t: string)
    requires Leads(m, s, n) && Emitted(n, t) == []
    ensures Leads(m, s + t, ModeAfter(n, t))
  {
    WordsOfConcat(m, s, t);
  }

  lemma QuoteOpens(m: Mode, c: char, q: string)
    requires !m.Opaque() && Body(c, q)
    ensures Leads(m, [c] + q, Inside(c))
  {
    OneChar(m, c);
    BodyStays(c, q);
    LeadsThen(m, [c], Inside(c), q);
  }

  lemma QuotePassed(m: Mode, c: char, q: string)
    requires !m.Opaque() && Body(c, q)
    ensures Leads(m, [c] + q + [c], if c == '\'' then QuoteEnd else Top)
  {
    QuoteOpens(m, c, q);
    OneChar(Inside(c), c);
    LeadsThen(m, [c] + q, Inside(c), [c]);
  }

  lemma DashesOpen(m: Mode, q: string)
    requires !m.Opaque() && '\n' !in q
    ensures Leads(m, "--" + q, Line)
  {
    OneChar(m, '-');
    OneChar(Next(m, '-'), '-');
    LeadsThen(m, "-", Next(m, '-'), "-");
    assert "-" + "-" == "--";
    LineBodyStays(q);
    LeadsThen(m, "--", Line, q);
  }

  lemma LinePassed(m: Mode, q: string)
    requires !m.Opaque() && '\n' !in q
    ensures Leads(m, "--" + q + "\n", Top)
  {
    DashesOpen(m, q);
    OneChar(Line, '\n');
    LeadsThen(m, "--" + q, Line, "\n");
  }

  lemma CommentPassed(m: Mode, k: string)
    requires !m.Opaque() && ClosedComment(k)
    ensures Leads(m, k, Top)
  {
    ClosedCommentIsBlank(k);
    assert k[0] == k[..2][0] == '/';
    OneChar(Top, '/');
    OneChar(m, '/');
    WordsOfConcat(Top, "/", k[1..]);
    WordsOfConcat(m, "/", k[1..]);
    assert k == "/" + k[1..];
  }

  /** Whatever is passed over ends outside comments and quotes. */
  lemma Passed(m: Mode, k: string) returns (n: Mode)
    requires !m.Opaque() && PassedOver(k)
    ensures Leads(m, k, n) && (n == Top || n == QuoteEnd)
  {
    n := Top;
    if |k| >= 2 && k[|k| - 1] == k[0] && Body(k[0], k[1..|k| - 1]) {
      QuotePassed(m, k[0], k[1..|k| - 1]);
      assert k == [k[0]] + k[1..|k| - 1] + [k[0]];
      n := if k[0] == '\'' then QuoteEnd else Top;
    } else if ClosedComment(k) {
      CommentPassed(m, k);
    } else {
      LinePassed(m, k[2..|k| - 1]);
      assert k == k[..2] + k[2..|k| - 1] + "\n";
    }
  }

  // ---- The laws ----

  lemma PassedHasNoWords(k: string)
    requires PassedOver(k)
    ensures Words(k) == []
  {
    var n := Passed(Top, k);
    WordsSplit(Top, k);
  }

  /** After what is passed over, the words are those of the rest, whatever was pending before. */
  lemma PassedThen(m: Mode, k: string, b: string)
    requires !m.Opaque() && PassedOver(k)
    ensures WordsFrom(m, k + b) == m.Owed() + Words(b)
  {
    var n := Passed(m, k);
    WordsOfConcat(m, k, b);
    assert n == QuoteEnd ==> WordsFrom(n, b) == Words(b) by {
      QuoteEndIsTop(b);
    }
  }

  /** A second quote after a closed literal and a first quote at top level read alike. */
  lemma QuoteEndIsTop(b: string)
    ensures WordsFrom(QuoteEnd, b) == Words(b)
  {
  }

  /** A quoted text or a comment has no words, and put at any top-level position it changes none. */
  lemma InsertionKeepsWords(a: string, k: string, b: string)
    requires TopLevelCut(a, b) && PassedOver(k)
    ensures Words(a + k + b) == Words(a + b) && Words(k) == []
  {
    PassedHasNoWords(k);
    InsertedWords(ModeAfter(Top, a), a, k, b);
    CutSplitsWords(a, b);
    assert a + k + b == a + (k + b);
  }

  lemma InsertedWords(m: Mode, a: string, k: string, b: string)
    requires m == ModeAfter(Top, a) && !m.Opaque() && PassedOver(k)
    ensures Words(a + (k + b)) == Words(a) + Words(b)
  {
    WordsOfConcat(Top, a, k + b);
    PassedThen(m, k, b);
    WordsSplit(Top, a);
  }

  lemma OpenLeads(m: Mode, k: string) returns (n: Mode)
    requires !m.Opaque() && LeftOpen(k) && !(|k| >= 2 && k[..2] == "/*")
    ensures Leads(m, k, n) && n.Owed() == []
  {
    if Body(k[0], k[1..]) {
      QuoteOpens(m, k[0], k[1..]);
      assert k == [k[0]] + k[1..];
      n := Inside(k[0]);
    } else if k[0] == '"' {
      QuoteOpens(m, '"', k[1..|k| - 1]);
      OneChar(Double, '\\');
      LeadsThen(m, ['"'] + k[1..|k| - 1], Double, "\\");
      assert k == ['"'] + k[1..|k| - 1] + "\\";
      n := DoubleEsc;
    } else {
      DashesOpen(m, k[2..]);
      assert k == k[..2] + k[2..];
      n := Line;
    }
  }

  /** One that is never closed swallows all that follows, so nothing of it is a word. */
  lemma OpenSwallows(a: string, k: string)
    requires !ModeAfter(Top, a).Opaque() && LeftOpen(k)
    ensures Words(a + k) == Words(a)
  {
    var m := ModeAfter(Top, a);
    if |k| >= 2 && k[..2] == "/*" {
      assert k[0] == k[..2][0] == '/' && k[1] == k[..2][1] == '*';
      CutSplitsWords(a, k);
      BlockComment(k, 0);
      assert k[0..] == k;
    } else {
      var n := OpenLeads(m, k);
      WordsOfConcat(Top, a, k);
      WordsSplit(m, k);
      WordsSplit(Top, a);
    }
  }

  /** A run of digits has no words, even when a word follows it at once. */
  lemma {:induction false} DigitsThen(d: string, rest: string)
    requires d != "" && (forall i :: 0 <= i < |d| ==> IsDigit(d[i])) && (rest == "" || !IsDigit(rest[0]))
    ensures Words(d + rest) == Words(rest)
  {
    NumberTail(d[1..]);
    NumberStays(d[1..]);
    WordsOfConcat(Number, d[1..], rest);
    assert (d + rest)[1..] == d[1..] + rest;
    if rest != "" {
      BreakRestarts(Number, rest);
    }
  }

  lemma {:induction false} NumberStays(s: string)
    requires forall i :: 0 <= i < |s| ==> IsDigit(s[i])
    ensures Stays(Number, s)
  {
    if s == "" {
    } else {
      NumberStays(s[1..]);
    }
  }

  /** Letters, digits, the underscore, quotes, the dash and the slash. */
  predicate Meaningful(c: char) {
    || 'a' <= c <= 'z' || 'A' <= c <= 'Z' || '0' <= c <= '9' || c == '_'
    || c == '\'' || c == '"' || c == '`' || c == '-' || c == '/'
  }

  /** Any other character, and a dash or slash that opens no comment, is skipped. */
  lemma SignIsSkipped(c: char, rest: string)
    requires !Meaningful(c) || (c == '-' && !HasPrefix(rest, "-")) || (c == '/' && !HasPrefix(rest, "*"))
    ensures Words([c] + rest) == Words(rest)
  {
    var s := [c] + rest;
    assert s[1..] == rest && s[0..] == s;
    assert rest != "" && rest[0] == '-' ==> HasPrefix(rest, "-");
    assert rest != "" && rest[0] == '*' ==> HasPrefix(rest, "*");
    LoneChar(s, 0);
  }

  /** An identifier that nothing continues is one word, followed by the words of what comes next. */
  lemma IdentifierIsAWord(w: string, rest: string)
    requires w != "" && !IsDigit(w[0])
    requires forall i :: 0 <= i < |w| ==> Letter(w[i])
    requires rest == "" || !Letter(rest[0])
    ensures Words(w + rest) == [w] + Words(rest)
  {
    assert Letter(w[0]);
    WordThen(w, rest);
  }

  /** What an identifier is made of. */
  predicate Letter(c: char) {
    'a' <= c <= 'z' || 'A' <= c <= 'Z' || '0' <= c <= '9' || c == '_'
  }
}
