/** The word lexer of `internal/sqlrun/classify.go`: an index-jumping scanner, proved to
    return the words of a reference automaton that reads one character at a time. */
module Lexer {
  import opened Text

  predicate IsAlpha(c: char) { 'a' <= c <= 'z' || 'A' <= c <= 'Z' }

  predicate IsAlnum(c: char) { IsAlpha(c) || IsDigit(c) }

  predicate WordStart(c: char) { IsAlpha(c) || c == '_' }

  predicate WordChar(c: char) { IsAlnum(c) || c == '_' }

  /** What the characters read so far leave the reference automaton in. */
  datatype Mode =
    | Top                  // between tokens
    | Dash                 // a '-' that may open a line comment
    | Slash                // a '/' that may open a block comment
    | Word(text: string)
    | Number
    | QuoteEnd             // a single quote that may close its literal or be doubled
    | Line                 // inside -- ...
    | Block                // inside /* ...
    | BlockStar            // inside /* ... just after a '*'
    | Quote                // inside '...'
    | Double               // inside "..."
    | DoubleEsc            // inside "..." just after a backslash
    | Backtick             // inside `...`
  {
    /** Inside a comment or a quoted text. */
    predicate Opaque() {
      Line? || Block? || BlockStar? || Quote? || Double? || DoubleEsc? || Backtick?
    }

    /** The words a mode still owes when the text ends or the token breaks off. */
    function Owed(): seq<string> {
      if Word? then [text] else []
    }

    /** Reading c cannot continue the pending token. */
    predicate Breaks(c: char) {
      match this
      case Top => true
      case Dash => c != '-'
      case Slash => c != '*'
      case Word(_) => !WordChar(c)
      case Number => !IsDigit(c)
      case QuoteEnd => c != '\''
      case _ => false
    }
  }

  function StepTop(c: char): Mode {
    if c == '-' then Dash
    else if c == '/' then Slash
    else if c == '\'' then Quote
    else if c == '"' then Double
    else if c == '`' then Backtick
    else if WordStart(c) then Word([c])
    else if IsDigit(c) then Number
    else Top
  }

  /** The mode after one more character. */
  function Next(m: Mode, c: char): Mode {
    if m.Breaks(c) then StepTop(c) else
    match m
    case Dash => Line
    case Slash => Block
    case Word(w) => Word(w + [c])
    case QuoteEnd => Quote
    case Line => if c == '\n' then Top else Line
    case Block => if c == '*' then BlockStar else Block
    case BlockStar => if c == '/' then Top else if c == '*' then BlockStar else Block
    case Quote => if c == '\'' then QuoteEnd else Quote
    case Double => if c == '"' then Top else if c == '\\' then DoubleEsc else Double
    case DoubleEsc => Double
    case Backtick => if c == '`' then Top else Backtick
    case _ => m
  }

  /** Reading c completes a word. */
  predicate Completes(m: Mode, c: char) {
    m.Word? && !WordChar(c)
  }

  /** The words of s for an automaton that starts in mode m. */
  function WordsFrom(m: Mode, s: string): seq<string>
    decreases |s|
  {
    if s == "" then m.Owed()
    else if Completes(m, s[0]) then [m.text] + WordsFrom(Next(m, s[0]), s[1..])
    else WordsFrom(Next(m, s[0]), s[1..])
  }

  /** The mode after s. */
  function ModeAfter(m: Mode, s: string): Mode
    decreases |s|
  {
    if s == "" then m else ModeAfter(Next(m, s[0]), s[1..])
  }

  /** The words completed inside s, without the one still owed at its end. */
  function Emitted(m: Mode, s: string): seq<string>
    decreases |s|
  {
    if s == "" then []
    else if Completes(m, s[0]) then [m.text] + Emitted(Next(m, s[0]), s[1..])
    else Emitted(Next(m, s[0]), s[1..])
  }

  /** The words of a SQL text. */
  function Words(s: string): seq<string> {
    WordsFrom(Top, s)
  }

  // ---- Skipping inside one mode ----

  lemma {:induction false} LineSkips(s: string)
    ensures WordsFrom(Line, s) == if Index(s, "\n") == -1 then [] else WordsFrom(Top, s[Index(s, "\n") + 1..])
  {
    if s == "" {
    } else {
      assert OccursAt(s, "\n", 0) <==> s[0] == '\n';
      if s[0] != '\n' {
        LineSkips(s[1..]);
        IndexTail(s, "\n");
      }
    }
  }

  /** Dropping a first character that starts no match moves the leftmost match by one. */
  lemma IndexTail(s: string, pat: string)
    requires s != "" && !OccursAt(s, pat, 0)
    ensures Index(s, pat) == if Index(s[1..], pat) == -1 then -1 else Index(s[1..], pat) + 1
  {
    IndexShift(s, pat, 0);
  }

  lemma SliceOfTail(s: string, i: nat, j: nat)
    requires i <= j < |s|
    ensures s[1..][i..j] == s[i + 1..j + 1]
  {
  }

  lemma {:induction false} IndexShift(s: string, pat: string, from: nat)
    requires from < |s|
    ensures var k := IndexFrom(s[1..], pat, from);
            IndexFrom(s, pat, from + 1) == if k == -1 then -1 else k + 1
    decreases |s| - from
  {
    assert OccursAt(s[1..], pat, from) <==> OccursAt(s, pat, from + 1) by {
      if from + 1 + |pat| <= |s| {
        SliceOfTail(s, from, from + |pat|);
      }
    }
    if !OccursAt(s, pat, from + 1) && from + 1 < |s| {
      IndexShift(s, pat, from + 1);
    }
  }

  lemma {:induction false} BlockSkips(s: string)
    ensures WordsFrom(Block, s) == if Index(s, "*/") == -1 then [] else WordsFrom(Top, s[Index(s, "*/") + 2..])
    decreases |s|
  {
    if s == "" {
    } else {
      assert OccursAt(s, "*/", 0) <==> |s| >= 2 && s[0] == '*' && s[1] == '/' by {
        if |s| >= 2 { assert s[0..2] == [s[0], s[1]]; }
      }
      if OccursAt(s, "*/", 0) {
        assert s[1..][1..] == s[2..];
      } else {
        IndexTail(s, "*/");
        BlockSkips(s[1..]);
        if s[0] == '*' {
          StarIsBlock(s[1..]);
        }
      }
    }
  }

  /** A star not followed by a slash is ordinary comment text. */
  lemma StarIsBlock(s: string)
    requires s == "" || s[0] != '/'
    ensures WordsFrom(BlockStar, s) == WordsFrom(Block, s)
  {
  }

  // ---- The scanner ----

  /** The body of a single-quoted literal, from the character after the opening quote. */
  method SkipQuote(sql: string, i: nat) returns (j: nat)
    requires i < |sql| && sql[i] == '\''
    ensures i < j <= |sql|
    ensures WordsFrom(Top, sql[i..]) == WordsFrom(Top, sql[j..])
  {
    FirstStep(sql, i);
    j := i + 1;
    while j < |sql|
      invariant i < j <= |sql|
      invariant WordsFrom(Quote, sql[i + 1..]) == WordsFrom(Quote, sql[j..])
    {
      assert sql[j..][1..] == sql[j + 1..];
      if sql[j] == '\'' {
        if j + 1 < |sql| && sql[j + 1] == '\'' {
          assert sql[j + 1..][1..] == sql[j + 2..];
          j := j + 2;
          continue;
        }
        j := j + 1;
        return;
      }
      j := j + 1;
    }
  }

  /** The body of a double-quoted identifier; the result may be one past the end. */
  method SkipDouble(sql: string, i: nat) returns (j: nat)
    requires i < |sql| && sql[i] == '"'
    ensures i < j <= |sql| + 1
    ensures j <= |sql| ==> WordsFrom(Top, sql[i..]) == WordsFrom(Top, sql[j..])
    ensures j > |sql| ==> WordsFrom(Top, sql[i..]) == []
  {
    FirstStep(sql, i);
    j := i + 1;
    while j < |sql| && sql[j] != '"'
      invariant i < j <= |sql| + 1
      invariant j <= |sql| ==> WordsFrom(Double, sql[i + 1..]) == WordsFrom(Double, sql[j..])
      invariant j > |sql| ==> WordsFrom(Double, sql[i + 1..]) == []
      decreases |sql| + 1 - j
    {
      Peel(Double, sql, j);
      if sql[j] == '\\' {
        j := j + 1;
        if j < |sql| {
          Peel(DoubleEsc, sql, j);
        }
      }
      j := j + 1;
    }
    if j < |sql| {
      Peel(Double, sql, j);
      j := j + 1;
    }
  }

  method SkipBacktick(sql: string, i: nat) returns (j: nat)
    requires i < |sql| && sql[i] == '`'
    ensures i < j <= |sql|
    ensures WordsFrom(Top, sql[i..]) == WordsFrom(Top, sql[j..])
  {
    FirstStep(sql, i);
    j := i + 1;
    while j < |sql| && sql[j] != '`'
      invariant i < j <= |sql|
      invariant WordsFrom(Backtick, sql[i + 1..]) == WordsFrom(Backtick, sql[j..])
    {
      assert sql[j..][1..] == sql[j + 1..];
      j := j + 1;
    }
    if j < |sql| {
      assert sql[j..][1..] == sql[j + 1..];
      j := j + 1;
    }
  }

  method SkipWord(sql: string, i: nat) returns (j: nat)
    requires i < |sql| && WordStart(sql[i])
    ensures i < j <= |sql|
    ensures WordsFrom(Top, sql[i..]) == [sql[i..j]] + WordsFrom(Top, sql[j..])
  {
    j := i;
    while j < |sql| && WordChar(sql[j])
      invariant i <= j <= |sql|
      invariant i < j ==> WordsFrom(Top, sql[i..]) == WordsFrom(Word(sql[i..j]), sql[j..])
    {
      assert sql[j..][1..] == sql[j + 1..];
      assert sql[i..j + 1] == if i == j then [sql[i]] else sql[i..j] + [sql[j]];
      j := j + 1;
    }
  }

  method SkipNumber(sql: string, i: nat) returns (j: nat)
    requires i < |sql| && IsDigit(sql[i])
    ensures i < j <= |sql|
    ensures WordsFrom(Top, sql[i..]) == WordsFrom(Top, sql[j..])
  {
    j := i;
    while j < |sql| && IsDigit(sql[j])
      invariant i <= j <= |sql|
      invariant i < j ==> WordsFrom(Top, sql[i..]) == WordsFrom(Number, sql[j..])
    {
      assert sql[j..][1..] == sql[j + 1..];
      j := j + 1;
    }
  }

  /** `tokenize`. */
  method Tokenize(sql: string) returns (words: seq<string>)
    ensures words == Words(sql)
  {
    words := [];
    var i := 0;
    while i < |sql|
      invariant i <= |sql| + 1
      invariant i <= |sql| ==> Words(sql) == words + WordsFrom(Top, sql[i..])
      invariant i > |sql| ==> Words(sql) == words
      decreases |sql| + 1 - i
    {
      var c := sql[i];
      if c == ' ' || c == '\t' || c == '\n' || c == '\r' {
        LoneChar(sql, i);
        i := i + 1;
        continue;
      }
      if c == '-' && i + 1 < |sql| && sql[i + 1] == '-' {
        LineComment(sql, i);
        var end := Index(sql[i..], "\n");
        if end == -1 {
          break;
        }
        i := i + end + 1;
        continue;
      }
      if c == '/' && i + 1 < |sql| && sql[i + 1] == '*' {
        BlockComment(sql, i);
        var end := Index(sql[i + 2..], "*/");
        if end == -1 {
          break;
        }
        i := i + end + 4;
        continue;
      }
      if c == '\'' {
        i := SkipQuote(sql, i);
        continue;
      }
      if c == '"' {
        i := SkipDouble(sql, i);
        continue;
      }
      if c == '`' {
        i := SkipBacktick(sql, i);
        continue;
      }
      if WordStart(c) {
        var j := SkipWord(sql, i);
        words := words + [sql[i..j]];
        i := j;
        continue;
      }
      if IsDigit(c) {
        i := SkipNumber(sql, i);
        continue;
      }
      LoneChar(sql, i);
      i := i + 1;
    }
  }

  lemma Peel(m: Mode, sql: string, i: nat)
    requires i < |sql| && !m.Word?
    ensures WordsFrom(m, sql[i..]) == WordsFrom(Next(m, sql[i]), sql[i + 1..])
  {
    assert sql[i..][1..] == sql[i + 1..];
  }

  lemma FirstStep(sql: string, i: nat)
    requires i < |sql|
    ensures WordsFrom(Top, sql[i..]) == WordsFrom(StepTop(sql[i]), sql[i + 1..])
  {
    assert sql[i..][1..] == sql[i + 1..];
  }

  /** A dash or slash that opens no comment is skipped like any other sign. */
  lemma LoneChar(sql: string, i: nat)
    requires i < |sql| && (StepTop(sql[i]).Top? || StepTop(sql[i]).Dash? || StepTop(sql[i]).Slash?)
    requires sql[i] == '-' ==> !(i + 1 < |sql| && sql[i + 1] == '-')
    requires sql[i] == '/' ==> !(i + 1 < |sql| && sql[i + 1] == '*')
    ensures WordsFrom(Top, sql[i..]) == WordsFrom(Top, sql[i + 1..])
  {
    FirstStep(sql, i);
  }

  /** A line comment, read from its first dash. */
  lemma LineComment(sql: string, i: nat)
    requires i + 1 < |sql| && sql[i] == '-' && sql[i + 1] == '-'
    ensures var end := Index(sql[i..], "\n");
            WordsFrom(Top, sql[i..]) == if end == -1 then [] else WordsFrom(Top, sql[i + end + 1..])
  {
    var s := sql[i..];
    assert s[1..][1..] == s[2..];
    LineSkips(s[2..]);
    IndexTail(s, "\n");
    IndexTail(s[1..], "\n");
    var k := Index(s[2..], "\n");
    if k >= 0 {
      assert s[2..][k + 1..] == sql[i + k + 3..];
    }
  }

  lemma BlockComment(sql: string, i: nat)
    requires i + 1 < |sql| && sql[i] == '/' && sql[i + 1] == '*'
    ensures var end := Index(sql[i + 2..], "*/");
            WordsFrom(Top, sql[i..]) == if end == -1 then [] else WordsFrom(Top, sql[i + end + 4..])
  {
    FirstStep(sql, i);
    assert sql[i + 1..][1..] == sql[i + 2..];
    BlockSkips(sql[i + 2..]);
    var k := Index(sql[i + 2..], "*/");
    if k >= 0 {
      assert sql[i + 2..][k + 2..] == sql[i + k + 4..];
    }
  }
}
