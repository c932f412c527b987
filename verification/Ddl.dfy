/** The DDL printer of `internal/mysqlmgr/ddl.go` and a reference parser that reads its output
    back. */
module Ddl {
  import opened Collections
  import opened Text

  datatype FieldDef = FieldDef(name: string, fieldType: string, fieldLen: int, nullable: bool)

  const VALID_TYPES: set<string> := {
    "VARCHAR", "INT", "BIGINT", "DECIMAL", "DATE", "DATETIME", "TEXT", "BOOLEAN", "FLOAT", "DOUBLE"
  }

  predicate Sized(upper: string) { upper == "VARCHAR" || upper == "DECIMAL" }

  // ---- Validation ----

  predicate GoodType(f: FieldDef) { ToUpper(f.fieldType) in VALID_TYPES }

  predicate GoodLength(f: FieldDef) { Sized(ToUpper(f.fieldType)) ==> f.fieldLen > 0 }

  predicate NewName(fields: seq<FieldDef>, i: nat)
    requires i < |fields|
  {
    forall j :: 0 <= j < i ==> fields[j].name != fields[i].name
  }

  predicate ValidField(fields: seq<FieldDef>, i: nat)
    requires i < |fields|
  {
    GoodType(fields[i]) && GoodLength(fields[i]) && NewName(fields, i)
  }

  predicate ValidFields(fields: seq<FieldDef>) {
    forall i: nat :: i < |fields| ==> ValidField(fields, i)
  }

  datatype FieldError = InvalidType(at: nat) | NeedsLength(at: nat) | DuplicateName(at: nat)

  /** `ValidateFields`: nothing, or what is wrong with the first bad field. */
  method ValidateFields(fields: seq<FieldDef>) returns (err: Option<FieldError>)
    ensures err.None? <==> ValidFields(fields)
    ensures err.Some? ==>
      var i := err.value.at;
      && i < |fields| && ValidFields(fields[..i])
      && match err.value
         case InvalidType(_) => !GoodType(fields[i])
         case NeedsLength(_) => GoodType(fields[i]) && !GoodLength(fields[i])
         case DuplicateName(_) => GoodType(fields[i]) && GoodLength(fields[i]) && !NewName(fields, i)
  {
    var names: set<string> := {};
    for i := 0 to |fields|
      invariant forall j: nat :: j < i ==> ValidField(fields, j)
      invariant forall n :: n in names <==> exists j :: 0 <= j < i && fields[j].name == n
    {
      assert forall j: nat :: j < i ==> ValidField(fields, j) ==> ValidField(fields[..i], j);
      var f := fields[i];
      if !GoodType(f) {
        assert !ValidField(fields, i);
        return Some(InvalidType(i));
      }
      if !GoodLength(f) {
        assert !ValidField(fields, i);
        return Some(NeedsLength(i));
      }
      if f.name in names {
        assert !ValidField(fields, i);
        return Some(DuplicateName(i));
      }
      names := names + {f.name};
    }
    return None;
  }

  // ---- Printing ----

  function TypeFor(upper: string, len: int): string {
    if upper == "VARCHAR" then "VARCHAR(" + Decimal(len) + ")"
    else if upper == "DECIMAL" then "DECIMAL(" + Decimal(len) + ",2)"
    else if upper == "BOOLEAN" then "TINYINT(1)"
    else upper
  }

  function TypeText(f: FieldDef): string {
    TypeFor(ToUpper(f.fieldType), f.fieldLen)
  }

  const NOT_NULL := " NOT NULL"

  function DefText(f: FieldDef): string {
    TypeText(f) + (if f.nullable then "" else NOT_NULL)
  }

  /** A column ready to print. */
  datatype Printed = Printed(name: string, def: string)

  function Quoted(c: Printed): string {
    "`" + c.name + "` " + c.def
  }

  const INDENT := "\n  "

  /** The columns with a comma and a new line between them. */
  function JoinColumns(cols: seq<Printed>): string {
    if cols == [] then ""
    else if |cols| == 1 then Quoted(cols[0])
    else Quoted(cols[0]) + "," + INDENT + JoinColumns(cols[1..])
  }

  function PrintAll(fields: seq<FieldDef>): seq<Printed> {
    seq(|fields|, i requires 0 <= i < |fields| => Printed(fields[i].name, DefText(fields[i])))
  }

  const HEAD := "CREATE TABLE `"
  const OPEN := "` (\n  "
  const TAIL := "\n) ENGINE=InnoDB DEFAULT CHARSET=utf8mb4"

  function Assemble(table: string, body: string): string {
    HEAD + table + OPEN + body
  }

  function TableText(table: string, fields: seq<FieldDef>): string {
    Assemble(table, JoinColumns(PrintAll(fields)) + TAIL)
  }

  /** The definition part of a column, by cases on the capitalised type. */
  method BuildDef(f: FieldDef) returns (def: string)
    ensures def == DefText(f)
  {
    var upper := ToUpper(f.fieldType);
    if upper == "VARCHAR" {
      def := "VARCHAR(" + Decimal(f.fieldLen) + ")";
    } else if upper == "DECIMAL" {
      def := "DECIMAL(" + Decimal(f.fieldLen) + ",2)";
    } else if upper == "BOOLEAN" {
      def := "TINYINT(1)";
    } else {
      def := upper;
    }
    if !f.nullable {
      def := def + NOT_NULL;
    }
  }

  /** `buildCreateTableSQL`. */
  method BuildCreateTableSQL(table: string, fields: seq<FieldDef>) returns (sql: string)
    ensures sql == TableText(table, fields)
    ensures HasPrefix(sql, "CREATE TABLE `" + table + "` (\n  ")
    ensures EndsWith(sql, "\n) ENGINE=InnoDB DEFAULT CHARSET=utf8mb4")
  {
    TextAroundColumns(table, fields);
    var cols := [];
    for i := 0 to |fields|
      invariant cols == PrintAll(fields[..i])
    {
      var def := BuildDef(fields[i]);
      cols := cols + [Printed(fields[i].name, def)];
    }
    assert fields[..|fields|] == fields;
    sql := Assemble(table, JoinColumns(cols) + TAIL);
  }

  // ---- The reference parser ----

  // What the parser looks for, independent of what the printer writes.
  const TABLE_START := "CREATE TABLE `"
  const COLUMNS_START := "` (\n  "
  const NEXT_COLUMN := "\n  "
  const TABLE_END := "\n) ENGINE=InnoDB DEFAULT CHARSET=utf8mb4"
  const REQUIRED := " NOT NULL"

  /** The length of the part before the first c, or of all of s. */
  function Until(s: string, c: char): (n: nat)
    ensures n <= |s| && c !in s[..n] && (n < |s| ==> s[n] == c)
  {
    if s == "" || s[0] == c then 0 else 1 + Until(s[1..], c)
  }

  lemma {:induction false} UntilAt(a: string, c: char, rest: string)
    requires c !in a && (rest == "" || rest[0] == c)
    ensures Until(a + rest, c) == |a|
  {
    if a == "" {
    } else {
      UntilAt(a[1..], c, rest);
      assert (a + rest)[1..] == a[1..] + rest;
    }
  }

  predicate AllDigits(s: string) { forall i :: 0 <= i < |s| ==> IsDigit(s[i]) }

  datatype ColType = ColType(base: string, len: Option<nat>)

  /** A printed type: letters, then perhaps arguments in parentheses. */
  function ParseType(t: string): Option<ColType> {
    var n := Until(t, '(');
    var base, args := t[..n], t[n..];
    if args == "" then Some(ColType(base, None))
    else if base == "TINYINT" && args == "(1)" then Some(ColType("BOOLEAN", None))
    else if base == "VARCHAR" && |args| >= 2 && args[|args| - 1] == ')' && AllDigits(args[1..|args| - 1]) then
      Some(ColType(base, Some(Value(args[1..|args| - 1]))))
    else if base == "DECIMAL" && |args| >= 4 && args[|args| - 3..] == ",2)" && AllDigits(args[1..|args| - 3]) then
      Some(ColType(base, Some(Value(args[1..|args| - 3]))))
    else None
  }

  datatype Column = Column(name: string, colType: ColType, nullable: bool)

  /** A column's definition: its type, then nothing or NOT NULL. */
  function ParseDef(name: string, d: string): Option<Column> {
    var n := Until(d, ' ');
    var t := ParseType(d[..n]);
    if t.None? then None
    else if d[n..] == "" then Some(Column(name, t.value, true))
    else if d[n..] == REQUIRED then Some(Column(name, t.value, false))
    else None
  }

  /** `name` and the rest of its line; after starts with the line end. */
  datatype Front = Front(name: string, line: string, after: string)

  function ReadFront(s: string): (r: Option<Front>)
    ensures r.Some? ==> '`' !in r.value.name && |r.value.after| < |s|
  {
    if s == "" || s[0] != '`' then None else
    var t := s[1..];
    var n := Until(t, '`');
    if n + 2 > |t| || t[n + 1] != ' ' then None else
    var d := t[n + 2..];
    var m := Until(d, '\n');
    Some(Front(t[..n], d[..m], d[m..]))
  }

  predicate Continues(f: Front) {
    f.line != "" && f.line[|f.line| - 1] == ',' && HasPrefix(f.after, NEXT_COLUMN)
  }

  /** How to read a line and a definition. */
  datatype Reader = Reader(front: string -> Option<Front>, def: (string, string) -> Option<Column>)

  /** One or more columns, then the given closing text. */
  function ParseColumns(s: string, tail: string, rd: Reader): Option<seq<Column>>
    decreases |s|
  {
    var f := rd.front(s);
    if f.None? || |f.value.after| >= |s| then None
    else if Continues(f.value) then
      var col := rd.def(f.value.name, f.value.line[..|f.value.line| - 1]);
      var more := ParseColumns(f.value.after[|NEXT_COLUMN|..], tail, rd);
      if col.Some? && more.Some? then Some([col.value] + more.value) else None
    else
      var col := rd.def(f.value.name, f.value.line);
      if col.Some? && f.value.after == tail then Some([col.value]) else None
  }

  datatype Table = Table(name: string, columns: seq<Column>)

  function ParseBody(body: string): Option<seq<Column>> {
    if body == TABLE_END then Some([]) else ParseColumns(body, TABLE_END, Reader(ReadFront, ParseDef))
  }

  function ParseTable(s: string): Option<Table> {
    if !HasPrefix(s, TABLE_START) then None else
    var t := s[|TABLE_START|..];
    var n := Until(t, '`');
    if !HasPrefix(t[n..], COLUMNS_START) then None else
    var cols := ParseBody(t[n + |COLUMNS_START|..]);
    if cols.Some? then Some(Table(t[..n], cols.value)) else None
  }

  // ---- What is recovered ----

  /** A field as far as the DDL can tell: the type in capitals, and a length only where it is
      printed. */
  function Normal(f: FieldDef): Column {
    Column(f.name, NormalType(ToUpper(f.fieldType), f.fieldLen), f.nullable)
  }

  function NormalAll(fields: seq<FieldDef>): seq<Column> {
    seq(|fields|, i requires 0 <= i < |fields| => Normal(fields[i]))
  }

  /** Characters that may stand in a printed type. */
  predicate TypeChars(s: string) {
    forall i :: 0 <= i < |s| ==> s[i] != ' ' && s[i] != '\n'
  }

  lemma PlainTypes(t: string)
    requires t in VALID_TYPES
    ensures t != "" && TypeChars(t) && '(' !in t && t[|t| - 1] != ','
  {
  }

  // ---- Reading types back ----

  /** base(inner) splits at its parenthesis. */
  lemma SplitType(base: string, args: string)
    requires '(' !in base && (args == "" || args[0] == '(')
    ensures Until(base + args, '(') == |base|
    ensures (base + args)[..|base|] == base && (base + args)[|base|..] == args
  {
    UntilAt(base, '(', args);
  }

  lemma DigitsAreType(n: nat, before: string, after: string)
    requires TypeChars(before) && TypeChars(after)
    ensures TypeChars(before + Digits(n) + after)
  {
    var d := Digits(n);
    forall i | 0 <= i < |d| ensures d[i] != ' ' && d[i] != '\n' { assert IsDigit(d[i]); }
  }

  lemma VarcharParses(base: string, args: string, d: string)
    requires base == "VARCHAR" && args == "(" + d + ")" && AllDigits(d)
    ensures ParseType(base + args) == Some(ColType(base, Some(Value(d))))
  {
    SplitType(base, args);
    assert args[1..|args| - 1] == d;
  }

  lemma DecimalParses(base: string, args: string, d: string)
    requires base == "DECIMAL" && args == "(" + d + ",2)" && AllDigits(d)
    ensures ParseType(base + args) == Some(ColType(base, Some(Value(d))))
  {
    SplitType(base, args);
    assert args[1..|args| - 3] == d;
    assert args[|args| - 3..] == ",2)";
  }

  lemma Literals()
    ensures "VARCHAR(" == "VARCHAR" + "(" && "DECIMAL(" == "DECIMAL" + "("
  {
  }

  lemma FourParts(a: string, b: string, c: string, d: string)
    ensures (a + b) + c + d == a + (b + c + d)
  {
  }

  lemma VarcharBack(n: nat)
    ensures ReadsBack("VARCHAR(" + Digits(n) + ")", ColType("VARCHAR", Some(n)))
  {
    var d := Digits(n);
    Literals();
    FourParts("VARCHAR", "(", d, ")");
    VarcharParses("VARCHAR", "(" + d + ")", d);
    ValueOfDigits(n);
    DigitsAreType(n, "VARCHAR(", ")");
  }

  lemma DecimalBack(n: nat)
    ensures ReadsBack("DECIMAL(" + Digits(n) + ",2)", ColType("DECIMAL", Some(n)))
  {
    var d := Digits(n);
    Literals();
    FourParts("DECIMAL", "(", d, ",2)");
    DecimalParses("DECIMAL", "(" + d + ",2)", d);
    ValueOfDigits(n);
    DigitsAreType(n, "DECIMAL(", ",2)");
  }

  lemma BooleanBack(base: string, args: string)
    requires base == "TINYINT" && args == "(1)"
    ensures ParseType(base + args) == Some(ColType("BOOLEAN", None))
    ensures TypeChars(base + args)
  {
    SplitType(base, args);
  }

  lemma PlainBack(t: string)
    requires '(' !in t
    ensures ParseType(t) == Some(ColType(t, None))
  {
    SplitType(t, "");
    assert t + "" == t;
  }

  /** A printed type that stays on its line and is read as ct. */
  predicate ReadsBack(t: string, ct: ColType) {
    t != "" && TypeChars(t) && t[|t| - 1] != ',' && ParseType(t) == Some(ct)
  }

  lemma TinyintBack()
    ensures ReadsBack("TINYINT(1)", ColType("BOOLEAN", None))
  {
    assert "TINYINT(1)" == "TINYINT" + "(1)";
    BooleanBack("TINYINT", "(1)");
  }

  lemma PlainReadsBack(upper: string)
    requires upper in VALID_TYPES && !Sized(upper)
    ensures ReadsBack(upper, ColType(upper, None))
  {
    PlainTypes(upper);
    PlainBack(upper);
  }

  /** The type as far as the DDL can tell. */
  function NormalType(upper: string, len: int): ColType {
    ColType(upper, if Sized(upper) && len >= 0 then Some(len) else None)
  }

  lemma TypeForBack(upper: string, len: int)
    requires upper in VALID_TYPES && (Sized(upper) ==> len > 0)
    ensures ReadsBack(TypeFor(upper, len), NormalType(upper, len))
  {
    if upper == "VARCHAR" {
      VarcharBack(len);
    } else if upper == "DECIMAL" {
      DecimalBack(len);
    } else if upper == "BOOLEAN" {
      TinyintBack();
    } else {
      PlainReadsBack(upper);
    }
  }

  lemma TypeBack(f: FieldDef)
    requires GoodType(f) && GoodLength(f)
    ensures ReadsBack(TypeText(f), Normal(f).colType)
  {
    TypeForBack(ToUpper(f.fieldType), f.fieldLen);
  }

  predicate EndsWith(s: string, e: string) {
    |e| <= |s| && s[|s| - |e|..] == e
  }

  /** A column is declared NOT NULL if and only if its field is not nullable. */
  lemma NotNullExactly(f: FieldDef)
    requires GoodType(f) && GoodLength(f)
    ensures EndsWith(DefText(f), " NOT NULL") <==> !f.nullable
  {
    TypeBack(f);
    var d, mark := DefText(f), " NOT NULL";
    if f.nullable {
      assert d == TypeText(f);
      assert |mark| <= |d| ==> d[|d| - |mark|] != mark[0];
      assert |mark| <= |d| ==> d[|d| - |mark|..][0] == d[|d| - |mark|];
    }
  }

  /** The text around the columns. */
  lemma TextAroundColumns(table: string, fields: seq<FieldDef>)
    ensures TableText(table, fields) == "CREATE TABLE `" + table + "` (\n  " + JoinColumns(PrintAll(fields)) +
      "\n) ENGINE=InnoDB DEFAULT CHARSET=utf8mb4"
  {
    ConcatAssoc(HEAD + table + OPEN, JoinColumns(PrintAll(fields)), TAIL);
  }

  /** A single field is accepted if and only if its type, in capitals, is one of ten, with a positive
      length for two of them. */
  lemma AcceptedAlone(f: FieldDef)
    ensures var t := ToUpper(f.fieldType);
            ValidFields([f]) <==>
              || ((t == "VARCHAR" || t == "DECIMAL") && f.fieldLen > 0)
              || t == "INT" || t == "BIGINT" || t == "DATE" || t == "DATETIME" || t == "TEXT"
              || t == "BOOLEAN" || t == "FLOAT" || t == "DOUBLE"
  {
    assert ValidFields([f]) <==> ValidField([f], 0);
    TenTypes(ToUpper(f.fieldType), f.fieldLen);
  }

  lemma TenTypes(t: string, len: int)
    ensures t in VALID_TYPES && (Sized(t) ==> len > 0) <==>
      || ((t == "VARCHAR" || t == "DECIMAL") && len > 0)
      || t == "INT" || t == "BIGINT" || t == "DATE" || t == "DATETIME" || t == "TEXT"
      || t == "BOOLEAN" || t == "FLOAT" || t == "DOUBLE"
  {
  }

  /** A type and what may follow it. */
  lemma TypeThen(name: string, t: string, more: string, ct: ColType)
    requires ReadsBack(t, ct) && (more == "" || more == NOT_NULL)
    ensures ParseDef(name, t + more) == Some(Column(name, ct, more == ""))
  {
    UntilAt(t, ' ', more);
    assert (t + more)[..|t|] == t && (t + more)[|t|..] == more;
  }

  lemma DefEnds(t: string, more: string)
    requires t != "" && TypeChars(t) && t[|t| - 1] != ',' && (more == "" || more == NOT_NULL)
    ensures var d := t + more; d != "" && '\n' !in d && d[|d| - 1] != ','
  {
    var d := t + more;
    assert more == NOT_NULL ==> more[|more| - 1] == 'L';
    forall i | 0 <= i < |d| ensures d[i] != '\n' {
      assert i >= |t| ==> d[i] == more[i - |t|];
    }
  }

  /** A definition that stays on its line and is read as this column. */
  predicate DefReadsBack(c: Column, d: string) {
    ParseDef(c.name, d) == Some(c) && d != "" && '\n' !in d && d[|d| - 1] != ','
  }

  lemma DefOf(name: string, t: string, nullable: bool, ct: ColType)
    requires ReadsBack(t, ct)
    ensures DefReadsBack(Column(name, ct, nullable), t + (if nullable then "" else NOT_NULL))
  {
    var more := if nullable then "" else NOT_NULL;
    TypeThen(name, t, more, ct);
    DefEnds(t, more);
  }

  lemma DefBack(f: FieldDef)
    requires GoodType(f) && GoodLength(f)
    ensures DefReadsBack(Normal(f), DefText(f))
  {
    TypeBack(f);
    DefOf(f.name, TypeText(f), f.nullable, Normal(f).colType);
  }

  /** One printed column, read off the front of what follows it. */
  lemma FrontBack(name: string, d: string, rest: string)
    requires '`' !in name && '\n' !in d && rest != "" && rest[0] == '\n'
    ensures ReadFront(Quoted(Printed(name, d)) + rest) == Some(Front(name, d, rest))
  {
    var line := d + rest;
    var tail := "` " + line;
    QuotedThen(name, d, rest);
    FrontSlices(name, tail, line);
    UntilAt(name, '`', tail);
    UntilAt(d, '\n', rest);
    assert line[..|d|] == d && line[|d|..] == rest;
  }

  lemma QuotedThen(name: string, d: string, rest: string)
    ensures Quoted(Printed(name, d)) + rest == "`" + (name + ("` " + (d + rest)))
  {
  }

  lemma FrontSlices(name: string, tail: string, line: string)
    requires tail == "` " + line
    ensures ("`" + (name + tail))[1..] == name + tail
    ensures (name + tail)[..|name|] == name && (name + tail)[|name| + 1] == ' ' && (name + tail)[|name| + 2..] == line
  {
  }

  /** A column whose definition stays on its line and reads back. */
  predicate Readable(c: Printed, def: (string, string) -> Option<Column>) {
    '`' !in c.name && '\n' !in c.def && c.def != "" && c.def[|c.def| - 1] != ',' && def(c.name, c.def).Some?
  }

  lemma LastStep(s: string, f: Front, tail: string, rd: Reader)
    requires rd.front(s) == Some(f) && |f.after| < |s|
    requires !Continues(f) && f.after == tail && rd.def(f.name, f.line).Some?
    ensures ParseColumns(s, tail, rd) == Some([rd.def(f.name, f.line).value])
  {
  }

  lemma MoreStep(s: string, name: string, d: string, rest: string, tail: string, rd: Reader)
    requires rd.front(s) == Some(Front(name, d + ",", INDENT + rest)) && |INDENT + rest| < |s|
    requires rd.def(name, d).Some? && ParseColumns(rest, tail, rd).Some?
    ensures ParseColumns(s, tail, rd) == Some([rd.def(name, d).value] + ParseColumns(rest, tail, rd).value)
  {
    assert (d + ",")[..|d|] == d;
    assert (INDENT + rest)[|INDENT|..] == rest;
  }

  lemma CommaBelongsToLine(c: Printed, rest: string)
    ensures Quoted(c) + "," + INDENT + rest == Quoted(Printed(c.name, c.def + ",")) + (INDENT + rest)
  {
  }

  /** The reader reads printed lines. */
  ghost predicate ReadsLines(rd: Reader) {
    forall name, d, rest ::
      '`' !in name && '\n' !in d && rest != "" && rest[0] == '\n' ==>
      rd.front(Quoted(Printed(name, d)) + rest) == Some(Front(name, d, rest))
  }

  lemma MoreColumns(c: Printed, rest: string, tail: string, rd: Reader)
    requires ReadsLines(rd) && Readable(c, rd.def) && ParseColumns(rest, tail, rd).Some?
    ensures ParseColumns(Quoted(c) + "," + INDENT + rest, tail, rd)
         == Some([rd.def(c.name, c.def).value] + ParseColumns(rest, tail, rd).value)
  {
    CommaBelongsToLine(c, rest);
    MoreStep(Quoted(c) + "," + INDENT + rest, c.name, c.def, rest, tail, rd);
  }

  function ReadAll(cols: seq<Printed>, def: (string, string) -> Option<Column>): seq<Column>
    requires forall i :: 0 <= i < |cols| ==> Readable(cols[i], def)
  {
    seq(|cols|, i requires 0 <= i < |cols| => assert Readable(cols[i], def); def(cols[i].name, cols[i].def).value)
  }

  lemma {:induction false} ColumnsBack(cols: seq<Printed>, tail: string, rd: Reader)
    requires ReadsLines(rd) && cols != [] && tail != "" && tail[0] == '\n'
    requires forall i :: 0 <= i < |cols| ==> Readable(cols[i], rd.def)
    ensures ParseColumns(JoinColumns(cols) + tail, tail, rd) == Some(ReadAll(cols, rd.def))
  {
    assert Readable(cols[0], rd.def);
    if |cols| == 1 {
      LastStep(Quoted(cols[0]) + tail, Front(cols[0].name, cols[0].def, tail), tail, rd);
      assert ReadAll(cols, rd.def) == [rd.def(cols[0].name, cols[0].def).value];
    } else {
      ColumnsBack(cols[1..], tail, rd);
      var rest := JoinColumns(cols[1..]) + tail;
      MoreColumns(cols[0], rest, tail, rd);
      assert JoinColumns(cols) + tail == Quoted(cols[0]) + "," + INDENT + rest;
      assert ReadAll(cols, rd.def) == [rd.def(cols[0].name, cols[0].def).value] + ReadAll(cols[1..], rd.def);
    }
  }

  predicate NamesClean(cols: seq<Column>) {
    forall i :: 0 <= i < |cols| ==> '`' !in cols[i].name
  }

  /** The names a parse yields never hold a backtick. */
  lemma {:induction false} ParsedNames(s: string, tail: string, rd: Reader)
    requires forall t :: rd.front(t).Some? ==> '`' !in rd.front(t).value.name
    requires forall n, d :: rd.def(n, d).Some? ==> rd.def(n, d).value.name == n
    ensures ParseColumns(s, tail, rd).Some? ==> NamesClean(ParseColumns(s, tail, rd).value)
    decreases |s|
  {
    var f := rd.front(s);
    if f.Some? && |f.value.after| < |s| && Continues(f.value) {
      ParsedNames(f.value.after[|INDENT|..], tail, rd);
    }
  }

  predicate NoBacktick(table: string, fields: seq<FieldDef>) {
    '`' !in table && forall i :: 0 <= i < |fields| ==> '`' !in fields[i].name
  }

  lemma HeadBack(table: string, body: string)
    requires '`' !in table
    ensures ParseTable(Assemble(table, body)) ==
            if ParseBody(body).Some? then Some(Table(table, ParseBody(body).value)) else None
  {
    var s, t := Assemble(table, body), table + (OPEN + body);
    assert s == HEAD + t;
    assert s[|HEAD|..] == t;
    UntilAt(table, '`', OPEN + body);
    assert t[..|table|] == table && t[|table|..] == OPEN + body;
    assert t[|table| + |OPEN|..] == body;
  }

  lemma FieldsReadable(fields: seq<FieldDef>)
    requires forall i :: 0 <= i < |fields| ==> GoodType(fields[i]) && GoodLength(fields[i]) && '`' !in fields[i].name
    ensures forall i :: 0 <= i < |fields| ==> Readable(PrintAll(fields)[i], ParseDef)
    ensures ReadAll(PrintAll(fields), ParseDef) == NormalAll(fields)
  {
    forall i | 0 <= i < |fields|
      ensures Readable(PrintAll(fields)[i], ParseDef) &&
        ParseDef(fields[i].name, DefText(fields[i])) == Some(Normal(fields[i]))
    {
      DefBack(fields[i]);
    }
  }

  lemma StandardReader()
    ensures ReadsLines(Reader(ReadFront, ParseDef))
  {
    var rd := Reader(ReadFront, ParseDef);
    forall name, d, rest | '`' !in name && '\n' !in d && rest != "" && rest[0] == '\n'
      ensures rd.front(Quoted(Printed(name, d)) + rest) == Some(Front(name, d, rest))
    {
      FrontBack(name, d, rest);
    }
  }

  lemma BodyBack(cols: seq<Printed>)
    requires forall i :: 0 <= i < |cols| ==> Readable(cols[i], ParseDef)
    ensures ParseBody(JoinColumns(cols) + TAIL) == Some(ReadAll(cols, ParseDef))
  {
    if cols == [] {
      assert JoinColumns(cols) + TAIL == TAIL;
      assert ReadAll(cols, ParseDef) == [];
    } else {
      StandardReader();
      ColumnsBack(cols, TAIL, Reader(ReadFront, ParseDef));
      StartsQuoted(cols, TAIL);
    }
  }

  lemma StartsQuoted(cols: seq<Printed>, tail: string)
    requires cols != []
    ensures JoinColumns(cols) + tail != "" && (JoinColumns(cols) + tail)[0] == '`'
  {
  }

  /** Exactly when no name holds a backtick, reading back the DDL of a validated field list gives
      every name, type, printed length and nullability, in order.  The empty list included. */
  lemma RoundTrip(table: string, fields: seq<FieldDef>)
    requires ValidFields(fields)
    ensures ParseTable(TableText(table, fields)) == Some(Table(table, NormalAll(fields))) <==> NoBacktick(table, fields)
  {
    if NoBacktick(table, fields) {
      forall i | 0 <= i < |fields| ensures GoodType(fields[i]) && GoodLength(fields[i]) {
        assert ValidField(fields, i);
      }
      FieldsReadable(fields);
      BodyBack(PrintAll(fields));
      HeadBack(table, JoinColumns(PrintAll(fields)) + TAIL);
    } else {
      ParsedTableIsClean(TableText(table, fields));
      NormalNames(fields);
    }
  }

  lemma NormalNames(fields: seq<FieldDef>)
    ensures NamesClean(NormalAll(fields)) <==> forall i :: 0 <= i < |fields| ==> '`' !in fields[i].name
  {
    assert forall i :: 0 <= i < |fields| ==> NormalAll(fields)[i].name == fields[i].name;
  }

  lemma ParsedTableIsClean(s: string)
    ensures ParseTable(s).Some? ==> '`' !in ParseTable(s).value.name && NamesClean(ParseTable(s).value.columns)
  {
    if HasPrefix(s, HEAD) {
      var t := s[|HEAD|..];
      var n := Until(t, '`');
      if HasPrefix(t[n..], OPEN) {
        ParsedNames(t[n + |OPEN|..], TAIL, Reader(ReadFront, ParseDef));
      }
    }
  }

  /** With a backtick one column can print as two. */
  lemma BacktickCollides(table: string)
    ensures var one := [FieldDef("a` INT,\n  `b", "INT", 0, true)];
            var two := [FieldDef("a", "INT", 0, true), FieldDef("b", "INT", 0, true)];
            && ValidFields(one) && ValidFields(two) && |NormalAll(one)| != |NormalAll(two)|
            && TableText(table, one) == TableText(table, two)
  {
    var one := [FieldDef("a` INT,\n  `b", "INT", 0, true)];
    var two := [FieldDef("a", "INT", 0, true), FieldDef("b", "INT", 0, true)];
    assert ToUpper("INT") == "INT";
    assert forall f :: f in one + two ==> DefText(f) == "INT" + "";
    assert "INT" + "" == "INT";
    assert PrintAll(one) == [Printed("a` INT,\n  `b", "INT")];
    assert PrintAll(two) == [Printed("a", "INT"), Printed("b", "INT")];
    OneAndTwo(PrintAll(one), PrintAll(two));
  }

  lemma OneAndTwo(one: seq<Printed>, two: seq<Printed>)
    requires one == [Printed("a` INT,\n  `b", "INT")] && two == [Printed("a", "INT"), Printed("b", "INT")]
    ensures JoinColumns(one) == JoinColumns(two)
  {
    assert two[1..] == [two[1]];
    assert JoinColumns(two) == Quoted(two[0]) + "," + INDENT + Quoted(two[1]);
    assert Quoted(two[0]) == "`a` INT" && Quoted(two[1]) == "`b` INT";
    assert Quoted(one[0]) == "`a` INT" + "," + "\n  " + "`b` INT";
  }

  /** Two validated tables with one text, the first free of backticks: they are the same up to that
      normalisation exactly when the second is free of them as well. */
  lemma Injective(t1: string, f1: seq<FieldDef>, t2: string, f2: seq<FieldDef>)
    requires ValidFields(f1) && ValidFields(f2) && NoBacktick(t1, f1)
    requires TableText(t1, f1) == TableText(t2, f2)
    ensures (t1 == t2 && NormalAll(f1) == NormalAll(f2)) <==> NoBacktick(t2, f2)
  {
    RoundTrip(t1, f1);
    RoundTrip(t2, f2);
    NormalNames(f1);
    NormalNames(f2);
  }

  /** A name that runs on through its definition and into the next line's name. */
  function Swallowed(c: Printed, next: string): string {
    c.name + "` " + c.def + "," + INDENT + "`" + next
  }

  lemma TwoLines(c: Printed, next: string, last: string)
    ensures Quoted(c) + "," + INDENT + Quoted(Printed(next, last)) == Quoted(Printed(Swallowed(c, next), last))
  {
  }

  lemma JoinFirst(cols: seq<Printed>, rest: string)
    requires |cols| > 1 && JoinColumns(cols[1..]) == rest
    ensures JoinColumns(cols) == Quoted(cols[0]) + "," + INDENT + rest
  {
  }

  /** Any columns print as one, whose name swallows all but the last definition. */
  lemma {:induction false} ColumnsPrintAsOne(cols: seq<Printed>) returns (name: string)
    requires cols != []
    ensures JoinColumns(cols) == Quoted(Printed(name, cols[|cols| - 1].def))
  {
    if |cols| == 1 {
      name := cols[0].name;
    } else {
      var last := cols[|cols| - 1].def;
      var next := ColumnsPrintAsOne(cols[1..]);
      JoinFirst(cols, Quoted(Printed(next, last)));
      TwoLines(cols[0], next, last);
      name := Swallowed(cols[0], next);
    }
  }

  /** Every validated table with a column prints exactly as some validated table of one column. */
  lemma EveryTablePrintsAsOneColumn(table: string, fields: seq<FieldDef>) returns (one: FieldDef)
    requires ValidFields(fields) && fields != []
    ensures ValidFields([one]) && TableText(table, [one]) == TableText(table, fields)
  {
    var last := |fields| - 1;
    var name := ColumnsPrintAsOne(PrintAll(fields));
    one := fields[last].(name := name);
    assert ValidField(fields, last);
    assert PrintAll([one]) == [Printed(name, DefText(one))];
    assert DefText(one) == DefText(fields[last]);
  }

  /** So no table of two or more columns is determined by its text. */
  lemma NoTableIsDetermined(table: string, fields: seq<FieldDef>) returns (other: seq<FieldDef>)
    requires ValidFields(fields) && |fields| >= 2
    ensures ValidFields(other) && TableText(table, other) == TableText(table, fields)
    ensures NormalAll(other) != NormalAll(fields)
  {
    var one := EveryTablePrintsAsOneColumn(table, fields);
    other := [one];
    assert |NormalAll(other)| == 1;
  }

  // ---- Which tables their text determines ----

  /** The number of backticks. */
  function Ticks(s: string): nat {
    if s == "" then 0 else (if s[0] == '`' then 1 else 0) + Ticks(s[1..])
  }

  lemma {:induction false} TicksConcat(a: string, b: string)
    ensures Ticks(a + b) == Ticks(a) + Ticks(b)
  {
    if a == "" {
      assert a + b == b;
    } else {
      TicksConcat(a[1..], b);
      TailOfConcat(a, b);
    }
  }

  lemma {:induction false} NoTicks(s: string)
    ensures Ticks(s) == 0 <==> '`' !in s
  {
    if s == "" {
    } else {
      NoTicks(s[1..]);
    }
  }

  function NameTicks(cols: seq<Printed>): nat {
    if cols == [] then 0 else Ticks(cols[0].name) + NameTicks(cols[1..])
  }

  lemma QuotedTicks(c: Printed)
    requires '`' !in c.def
    ensures Ticks(Quoted(c)) == 2 + Ticks(c.name)
  {
    NameBetween("`", c.name, "` ", c.def);
  }

  lemma NameBetween(mark: string, name: string, sep: string, def: string)
    requires mark == ['`'] && sep == ['`', ' '] && '`' !in def
    ensures Ticks(mark + name + sep + def) == 2 + Ticks(name)
  {
    NoTicks(def);
    OneTick(mark, 0);
    OneTick(sep, 0);
    TicksConcat(mark + name + sep, def);
    TicksConcat(mark + name, sep);
    TicksConcat(mark, name);
  }

  lemma {:induction false} ColumnTicks(cols: seq<Printed>)
    requires forall i :: 0 <= i < |cols| ==> '`' !in cols[i].def
    ensures Ticks(JoinColumns(cols)) == 2 * |cols| + NameTicks(cols)
  {
    if cols == [] {
    } else if |cols| == 1 {
      QuotedTicks(cols[0]);
      assert cols[1..] == [];
    } else {
      var rest := JoinColumns(cols[1..]);
      ColumnTicks(cols[1..]);
      JoinFirst(cols, rest);
      QuotedTicks(cols[0]);
      LineTicks(Quoted(cols[0]), ",", INDENT, rest);
    }
  }

  lemma LineTicks(line: string, comma: string, indent: string, rest: string)
    requires '`' !in comma && '`' !in indent
    ensures Ticks(line + comma + indent + rest) == Ticks(line) + Ticks(rest)
  {
    TicksConcat(line + comma + indent, rest);
    TicksConcat(line + comma, indent);
    TicksConcat(line, comma);
    NoTicks(comma);
    NoTicks(indent);
  }

  lemma {:induction false} CleanNames(cols: seq<Printed>)
    ensures NameTicks(cols) == 0 <==> forall i :: 0 <= i < |cols| ==> '`' !in cols[i].name
  {
    if cols == [] {
    } else {
      NoTicks(cols[0].name);
      CleanNames(cols[1..]);
    }
  }

  lemma TypeHasNoTick(upper: string, len: int)
    requires upper in VALID_TYPES && (Sized(upper) ==> len > 0)
    ensures '`' !in TypeFor(upper, len)
  {
    if Sized(upper) {
      if upper == "VARCHAR" {
        SizedHasNoTick("VARCHAR(", len, ")");
      } else {
        SizedHasNoTick("DECIMAL(", len, ",2)");
      }
    }
  }

  lemma SizedHasNoTick(before: string, n: nat, after: string)
    requires '`' !in before && '`' !in after
    ensures '`' !in before + Digits(n) + after
  {
    forall i | 0 <= i < |Digits(n)| ensures Digits(n)[i] != '`' {
      assert IsDigit(Digits(n)[i]);
    }
  }

  lemma DefHasNoTick(f: FieldDef)
    requires GoodType(f) && GoodLength(f)
    ensures '`' !in DefText(f)
  {
    TypeHasNoTick(ToUpper(f.fieldType), f.fieldLen);
    assert '`' !in NOT_NULL;
  }

  /** The number of backticks in the text of a table: two for its name and for each column, and those
      within the names. */
  lemma TableTicks(table: string, fields: seq<FieldDef>)
    requires ValidFields(fields)
    ensures Ticks(TableText(table, fields)) == 2 + Ticks(table) + 2 * |fields| + NameTicks(PrintAll(fields))
  {
    DefsHaveNoTick(fields);
    FixedFrame();
    AssembledTicks(table, PrintAll(fields));
  }

  lemma DefsHaveNoTick(fields: seq<FieldDef>)
    requires ValidFields(fields)
    ensures forall i :: 0 <= i < |fields| ==> '`' !in PrintAll(fields)[i].def
  {
    forall i | 0 <= i < |fields| ensures '`' !in PrintAll(fields)[i].def {
      assert ValidField(fields, i);
      DefHasNoTick(fields[i]);
    }
  }

  lemma AssembledTicks(table: string, cols: seq<Printed>)
    requires forall i :: 0 <= i < |cols| ==> '`' !in cols[i].def
    requires Frame(HEAD, OPEN, TAIL)
    ensures Ticks(Assemble(table, JoinColumns(cols) + TAIL)) == 2 + Ticks(table) + 2 * |cols| + NameTicks(cols)
  {
    ColumnTicks(cols);
    FrameTicks(HEAD, table, OPEN, JoinColumns(cols), TAIL);
  }

  /** Where the backticks of the fixed parts stand. */
  predicate Frame(head: string, open: string, tail: string) {
    && head != "" && head[|head| - 1] == '`' && '`' !in head[..|head| - 1]
    && open != "" && open[0] == '`' && '`' !in open[1..]
    && '`' !in tail
  }

  lemma FixedFrame()
    ensures Frame(HEAD, OPEN, TAIL)
  {
  }

  lemma FrameTicks(head: string, table: string, open: string, body: string, tail: string)
    requires Frame(head, open, tail)
    ensures Ticks(head + table + open + (body + tail)) == 2 + Ticks(table) + Ticks(body)
  {
    TicksConcat(head + table + open, body + tail);
    TicksConcat(head + table, open);
    TicksConcat(head, table);
    TicksConcat(body, tail);
    OneTick(head, |head| - 1);
    OneTick(open, 0);
    NoTicks(tail);
  }

  lemma {:induction false} OneTick(s: string, i: nat)
    requires i < |s| && s[i] == '`' && '`' !in s[..i] && '`' !in s[i + 1..]
    ensures Ticks(s) == 1
  {
    if i == 0 {
      NoTicks(s[1..]);
    } else {
      assert s[1..][..i - 1] == s[..i][1..] && s[1..][i..] == s[i + 1..];
      assert s[..i][0] == s[0];
      OneTick(s[1..], i - 1);
    }
  }

  lemma CleanWhenNoTicks(table: string, fields: seq<FieldDef>)
    ensures NoBacktick(table, fields) <==> Ticks(table) == 0 && NameTicks(PrintAll(fields)) == 0
  {
    NoTicks(table);
    CleanNames(PrintAll(fields));
    assert forall i :: 0 <= i < |fields| ==> PrintAll(fields)[i].name == fields[i].name;
  }

  /** The text of a table without columns ends differently from that of one with columns. */
  lemma NoColumnsShows(t1: string, f: FieldDef, t2: string)
    requires GoodType(f) && GoodLength(f)
    ensures TableText(t1, [f]) != TableText(t2, [])
  {
    var d := DefText(f);
    DefLast(f);
    assert PrintAll([f]) == [Printed(f.name, d)];
    var q := Quoted(Printed(f.name, d));
    assert q[|q| - 1] == d[|d| - 1];
    LastBefore(HEAD + t1 + OPEN, q, TAIL);
    LastBefore(HEAD + t2, OPEN, TAIL);
    assert HEAD + t1 + OPEN + (q + TAIL) == TableText(t1, [f]);
    assert JoinColumns(PrintAll([])) == "" && "" + TAIL == TAIL;
    assert HEAD + t2 + (OPEN + TAIL) == TableText(t2, []);
    assert OPEN[|OPEN| - 1] == ' ';
  }

  lemma LastBefore(front: string, middle: string, tail: string)
    requires middle != ""
    ensures var s := front + (middle + tail); s[|s| - |tail| - 1] == middle[|middle| - 1]
  {
  }

  lemma DefLast(f: FieldDef)
    requires GoodType(f) && GoodLength(f)
    ensures DefText(f) != "" && DefText(f)[|DefText(f)| - 1] != ' '
  {
    TypeBack(f);
    var t := TypeText(f);
    assert NOT_NULL[|NOT_NULL| - 1] == 'L';
    assert t[|t| - 1] != ' ';
  }

  /** No other validated fields share the text. */
  ghost predicate Determined(table: string, fields: seq<FieldDef>) {
    forall t2, f2 :: ValidFields(f2) && TableText(t2, f2) == TableText(table, fields) ==>
      t2 == table && NormalAll(f2) == NormalAll(fields)
  }

  lemma FewColumnsAreClean(t1: string, f1: seq<FieldDef>, t2: string, f2: seq<FieldDef>)
    requires ValidFields(f1) && ValidFields(f2) && NoBacktick(t1, f1) && |f1| <= 1
    requires TableText(t1, f1) == TableText(t2, f2)
    ensures NoBacktick(t2, f2)
  {
    TableTicks(t1, f1);
    TableTicks(t2, f2);
    CleanWhenNoTicks(t1, f1);
    CleanWhenNoTicks(t2, f2);
    if |f1| == 1 && f2 == [] {
      assert ValidField(f1, 0) && f1 == [f1[0]];
      NoColumnsShows(t1, f1[0], t2);
    }
  }

  /** Among all validated tables, one free of backticks is determined by its text exactly when it has at
      most one column. */
  lemma DeterminedIffOneColumn(table: string, fields: seq<FieldDef>)
    requires ValidFields(fields) && NoBacktick(table, fields)
    ensures Determined(table, fields) <==> |fields| <= 1
  {
    if |fields| <= 1 {
      forall t2, f2 | ValidFields(f2) && TableText(t2, f2) == TableText(table, fields)
        ensures t2 == table && NormalAll(f2) == NormalAll(fields)
      {
        FewColumnsAreClean(table, fields, t2, f2);
        Injective(table, fields, t2, f2);
      }
    } else {
      var other := NoTableIsDetermined(table, fields);
      assert ValidFields(other) && TableText(table, other) == TableText(table, fields);
    }
  }
}
