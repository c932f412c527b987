/** The two groupings of column rows into tables: the bounded one of
    `internal/schema/discovery.go` and the run-by-run one of `internal/handlers/messages.go`. */
module SchemaDiscovery {
  import opened Collections

  datatype Column = Column(name: string, dataType: string, nullable: bool)

  /** A row of the column query. */
  datatype Row = Row(table: string, column: Column)

  /** How a stream of rows goes on after the rows that could be read: it ends, its next row cannot be
      scanned, or the iteration breaks off. */
  datatype End = Ended | Unreadable | BrokenOff

  datatype TableSchema = TableSchema(name: string, columns: seq<Column>)

  function Take<T>(s: seq<T>, n: int): seq<T> {
    if n <= 0 then [] else if n < |s| then s[..n] else s
  }

  // ---- What should come out ----

  /** The distinct tables that are not system tables, by first appearance. */
  function Names(rows: seq<Row>, system: string -> bool): seq<string> {
    if rows == [] then []
    else
      var before, t := Names(rows[..|rows| - 1], system), rows[|rows| - 1].table;
      if system(t) || t in before then before else before + [t]
  }

  /** The columns of one table, in order. */
  function ColumnsOf(rows: seq<Row>, table: string): seq<Column> {
    if rows == [] then []
    else
      var r := rows[|rows| - 1];
      ColumnsOf(rows[..|rows| - 1], table) + (if r.table == table then [r.column] else [])
  }

  function Describe(rows: seq<Row>, names: seq<string>, maxCols: int): seq<TableSchema> {
    seq(|names|, i requires 0 <= i < |names| => TableSchema(names[i], Take(ColumnsOf(rows, names[i]), maxCols)))
  }

  /** The first maxTables tables, each with its first maxCols columns. */
  function Bounded(rows: seq<Row>, system: string -> bool, maxTables: int, maxCols: int): seq<TableSchema> {
    Describe(rows, Take(Names(rows, system), maxTables), maxCols)
  }

  // ---- DiscoverSchema ----

  /** How far the scan gets: up to the row that would open one table too many. */
  function Cut(rows: seq<Row>, system: string -> bool, maxTables: int): (c: nat)
    ensures c <= |rows|
  {
    if rows == [] then 0
    else
      var n := |rows| - 1;
      var c := Cut(rows[..n], system, maxTables);
      if c < n then c
      else if |Names(rows, system)| > |Names(rows[..n], system)| >= maxTables then n
      else n + 1
  }

  lemma {:induction false} NameHasColumns(rows: seq<Row>, t: string, system: string -> bool)
    ensures t in Names(rows, system) ==> ColumnsOf(rows, t) != []
    ensures t !in Names(rows, system) && !system(t) ==> ColumnsOf(rows, t) == []
  {
    if rows == [] {
    } else {
      NameHasColumns(rows[..|rows| - 1], t, system);
    }
  }

  /** What the scan holds: the tables in order, the columns collected for them, and whether it
      stopped at a table too many. */
  datatype Progress = Progress(order: seq<string>, tableMap: map<string, seq<Column>>, stopped: bool)

  function Collected(tableMap: map<string, seq<Column>>, t: string): seq<Column> {
    if t in tableMap then tableMap[t] else []
  }

  /** One row. A table is known by its entry in the map, which its first column makes. */
  function Advance(p: Progress, r: Row, system: string -> bool, maxTables: int, maxCols: int): Progress {
    if p.stopped || system(r.table) then p
    else if r.table !in p.tableMap && |p.order| >= maxTables then p.(stopped := true)
    else Progress(if r.table in p.tableMap then p.order else p.order + [r.table], Put(p.tableMap, r, maxCols), false)
  }

  function Scan(rows: seq<Row>, system: string -> bool, maxTables: int, maxCols: int): Progress {
    if rows == [] then Progress([], map[], false)
    else Advance(Scan(rows[..|rows| - 1], system, maxTables, maxCols), rows[|rows| - 1], system, maxTables, maxCols)
  }

  function Report(p: Progress): seq<TableSchema> {
    seq(|p.order|, i requires 0 <= i < |p.order| => TableSchema(p.order[i], Collected(p.tableMap, p.order[i])))
  }

  lemma ScanMore(rows: seq<Row>, i: nat, system: string -> bool, maxTables: int, maxCols: int)
    requires i < |rows|
    ensures Scan(rows[..i + 1], system, maxTables, maxCols) ==
            Advance(Scan(rows[..i], system, maxTables, maxCols), rows[i], system, maxTables, maxCols)
  {
    assert rows[..i + 1][..i] == rows[..i];
  }

  lemma {:induction false} StoppedStays(rows: seq<Row>, i: nat, system: string -> bool, maxTables: int, maxCols: int)
    requires i <= |rows| && Scan(rows[..i], system, maxTables, maxCols).stopped
    ensures Scan(rows, system, maxTables, maxCols) == Scan(rows[..i], system, maxTables, maxCols)
  {
    if i < |rows| {
      assert rows[..|rows| - 1][..i] == rows[..i];
      StoppedStays(rows[..|rows| - 1], i, system, maxTables, maxCols);
    } else {
      assert rows[..i] == rows;
    }
  }

  /** The loop of `DiscoverSchema`: map and order filled row by row, with skip, skip and break. */
  method Collect(rows: seq<Row>, system: string -> bool, maxTables: int, maxCols: int)
    returns (order: seq<string>, tableMap: map<string, seq<Column>>, stopped: bool)
    ensures Progress(order, tableMap, stopped) == Scan(rows, system, maxTables, maxCols)
  {
    order, tableMap, stopped := [], map[], false;
    for i := 0 to |rows|
      invariant !stopped && Progress(order, tableMap, false) == Scan(rows[..i], system, maxTables, maxCols)
    {
      ScanMore(rows, i, system, maxTables, maxCols);
      var t := rows[i].table;
      if system(t) {
        continue;
      }
      var cols := if t in tableMap then tableMap[t] else [];
      if t !in tableMap {
        if |order| >= maxTables {
          StoppedStays(rows, i + 1, system, maxTables, maxCols);
          stopped := true;
          return;
        }
        order := order + [t];
      }
      if |cols| >= maxCols {
        continue;
      }
      tableMap := tableMap[t := cols + [rows[i].column]];
    }
    assert rows[..|rows|] == rows;
  }

  /** Lists the collected tables. */
  method List(order: seq<string>, tableMap: map<string, seq<Column>>) returns (tables: seq<TableSchema>)
    ensures tables == Report(Progress(order, tableMap, false))
  {
    tables := [];
    for k := 0 to |order|
      invariant tables == Report(Progress(order[..k], tableMap, false))
    {
      tables := tables + [TableSchema(order[k], if order[k] in tableMap then tableMap[order[k]] else [])];
    }
    assert order[..|order|] == order;
  }

  /** `DiscoverSchema`; nothing for an error.  With room for a column the tables come out as bounded;
      without it no table is ever known and each row reports its table anew.  A stream that goes
      wrong is an error unless the scan stopped at the table limit before. */
  method DiscoverSchema(rows: seq<Row>, end: End, system: string -> bool, maxTables: int, maxCols: int)
    returns (tables: Option<seq<TableSchema>>)
    ensures maxCols > 0 ==> (tables.None? <==> !end.Ended? && Cut(rows, system, maxTables) == |rows|)
    ensures maxCols > 0 && tables.Some? ==>
      tables.value == Bounded(rows[..Cut(rows, system, maxTables)], system, maxTables, maxCols)
    ensures maxCols > 0 && tables.Some? && Contiguous(rows) ==>
      tables.value == Bounded(rows, system, maxTables, maxCols)
    ensures maxCols <= 0 ==> (tables.None? <==>
      !end.Ended? && (|Ordinary(rows, system)| <= maxTables || Ordinary(rows, system) == []))
    ensures maxCols <= 0 && tables.Some? ==> tables.value == Blank(Take(Ordinary(rows, system), maxTables))
  {
    var order, tableMap, stopped := Collect(rows, system, maxTables, maxCols);
    if maxCols > 0 {
      ScanIsBounded(rows, system, maxTables, maxCols);
      if Contiguous(rows) {
        CutLosesNothing(rows, system, maxTables, maxCols);
      }
    } else {
      ScanRepeats(rows, system, maxTables, maxCols);
    }
    if !stopped && !end.Ended? {
      return None;
    }
    var list := List(order, tableMap);
    return Some(list);
  }

  /** The scan up to the cut holds the names and their first columns. */
  ghost predicate Follows(p: Progress, rows: seq<Row>, system: string -> bool, maxTables: int, maxCols: int) {
    var c := Cut(rows, system, maxTables);
    && (p.stopped <==> c < |rows|)
    && p.order == Names(rows[..c], system)
    && Filled(p.tableMap, p.order, rows[..c], maxCols)
    && (|p.order| <= maxTables || p.order == [])
  }

  lemma AdvanceFollows(before: seq<Row>, r: Row, p: Progress, system: string -> bool, maxTables: int, maxCols: int)
    requires maxCols > 0 && Follows(p, before, system, maxTables, maxCols) && !p.stopped
    ensures Follows(Advance(p, r, system, maxTables, maxCols), before + [r], system, maxTables, maxCols)
  {
    var rows, n := before + [r], |before|;
    assert rows[..n] == before == before[..n] && rows[..n + 1] == rows;
    NamesSnoc(before, r, system);
    if system(r.table) {
      NamesAreOrdinary(before, system);
      FilledMore(p.tableMap, p.order, before, r, maxCols);
    } else {
      PutFills(p.tableMap, before, r, system, maxCols);
    }
  }

  lemma StoppedFollows(rows: seq<Row>, n: nat, p: Progress, system: string -> bool, maxTables: int, maxCols: int)
    requires n + 1 == |rows| && p.stopped && Follows(p, rows[..n], system, maxTables, maxCols)
    ensures Follows(p, rows, system, maxTables, maxCols)
  {
    var c := Cut(rows[..n], system, maxTables);
    assert Cut(rows, system, maxTables) == c;
    assert rows[..n][..c] == rows[..c];
  }

  lemma {:induction false} ScanFollows(rows: seq<Row>, system: string -> bool, maxTables: int, maxCols: int)
    requires maxCols > 0
    ensures Follows(Scan(rows, system, maxTables, maxCols), rows, system, maxTables, maxCols)
  {
    if rows == [] {
    } else {
      var n := |rows| - 1;
      var before, r := rows[..n], rows[n];
      ScanFollows(before, system, maxTables, maxCols);
      var p := Scan(before, system, maxTables, maxCols);
      if p.stopped {
        StoppedFollows(rows, n, p, system, maxTables, maxCols);
      } else {
        AdvanceFollows(before, r, p, system, maxTables, maxCols);
        assert before + [r] == rows;
      }
    }
  }

  lemma ScanIsBounded(rows: seq<Row>, system: string -> bool, maxTables: int, maxCols: int)
    requires maxCols > 0
    ensures Report(Scan(rows, system, maxTables, maxCols)) ==
            Bounded(rows[..Cut(rows, system, maxTables)], system, maxTables, maxCols)
    ensures Scan(rows, system, maxTables, maxCols).stopped <==> Cut(rows, system, maxTables) < |rows|
  {
    ScanFollows(rows, system, maxTables, maxCols);
    var p := Scan(rows, system, maxTables, maxCols);
    forall i | 0 <= i < |p.order| ensures p.order[i] in p.tableMap {
      assert p.order[i] in p.order;
    }
  }

  // ---- No room for columns ----

  /** The table of every row that is not a system table's, row by row. */
  function Ordinary(rows: seq<Row>, system: string -> bool): seq<string> {
    if rows == [] then []
    else
      var t := rows[|rows| - 1].table;
      Ordinary(rows[..|rows| - 1], system) + (if system(t) then [] else [t])
  }

  function Blank(names: seq<string>): seq<TableSchema> {
    seq(|names|, i requires 0 <= i < |names| => TableSchema(names[i], []))
  }

  lemma {:induction false} ScanRepeats(rows: seq<Row>, system: string -> bool, maxTables: int, maxCols: int)
    requires maxCols <= 0
    ensures var p := Scan(rows, system, maxTables, maxCols);
            && p.tableMap == map[] && p.order == Take(Ordinary(rows, system), maxTables)
            && (p.stopped <==> |Ordinary(rows, system)| > maxTables && Ordinary(rows, system) != [])
  {
    if rows == [] {
    } else {
      ScanRepeats(rows[..|rows| - 1], system, maxTables, maxCols);
    }
  }

  /** Without room for columns the answer is still the bounded one exactly when the rows looked
      at are all of different tables. */
  lemma BlankIsBounded(rows: seq<Row>, system: string -> bool, maxTables: int, maxCols: int)
    requires maxCols <= 0
    ensures Blank(Take(Ordinary(rows, system), maxTables)) == Bounded(rows, system, maxTables, maxCols)
       <==> Distinct(Take(Ordinary(rows, system), maxTables))
  {
    var seen, names := Take(Ordinary(rows, system), maxTables), Take(Names(rows, system), maxTables);
    var blank, bounded := Blank(seen), Bounded(rows, system, maxTables, maxCols);
    DistinctNames(rows, system);
    if Distinct(seen) {
      DistinctRowsAreNames(rows, system, maxTables);
    }
    if blank == bounded {
      assert |seen| == |blank| == |names|;
      forall i | 0 <= i < |seen| ensures seen[i] == names[i] {
        assert blank[i].name == bounded[i].name;
      }
    }
  }

  lemma OneMoreName(seen: seq<string>, names: seq<string>, t: string, n: int)
    requires Distinct(Take(seen + [t], n))
    ensures Distinct(Take(seen, n))
    ensures Take(seen, n) == Take(names, n) ==>
      Take(seen + [t], n) == Take(if t in names then names else names + [t], n)
  {
    var more := seen + [t];
    assert forall i :: 0 <= i < |Take(seen, n)| ==> Take(seen, n)[i] == Take(more, n)[i];
    if |seen| < n && Take(seen, n) == Take(names, n) {
      assert names == seen && more[|seen|] == t;
    }
  }

  lemma {:induction false} DistinctRowsAreNames(rows: seq<Row>, system: string -> bool, maxTables: int)
    requires Distinct(Take(Ordinary(rows, system), maxTables))
    ensures Take(Ordinary(rows, system), maxTables) == Take(Names(rows, system), maxTables)
  {
    if rows == [] {
    } else {
      var before, t := rows[..|rows| - 1], rows[|rows| - 1].table;
      if system(t) {
        assert Ordinary(rows, system) == Ordinary(before, system);
      } else {
        assert Ordinary(rows, system) == Ordinary(before, system) + [t];
        OneMoreName(Ordinary(before, system), Names(before, system), t, maxTables);
      }
      DistinctRowsAreNames(before, system, maxTables);
    }
  }

  /** The map after one more row of an ordinary table. */
  function Put(tableMap: map<string, seq<Column>>, r: Row, maxCols: int): map<string, seq<Column>> {
    var cols := if r.table in tableMap then tableMap[r.table] else [];
    if |cols| >= maxCols then tableMap else tableMap[r.table := cols + [r.column]]
  }

  lemma PutEntry(tableMap: map<string, seq<Column>>, before: seq<Row>, r: Row, maxCols: int)
    requires maxCols > 0 && Collected(tableMap, r.table) == Take(ColumnsOf(before, r.table), maxCols)
    ensures r.table in Put(tableMap, r, maxCols)
    ensures Put(tableMap, r, maxCols)[r.table] == Take(ColumnsOf(before + [r], r.table), maxCols)
  {
    ColumnsMore(before, r, r.table);
    TakeMore(ColumnsOf(before, r.table), r.column, maxCols);
  }

  lemma PutFills(tableMap: map<string, seq<Column>>, before: seq<Row>, r: Row, system: string -> bool, maxCols: int)
    requires maxCols > 0 && !system(r.table)
    requires Filled(tableMap, Names(before, system), before, maxCols)
    ensures Filled(Put(tableMap, r, maxCols), Names(before + [r], system), before + [r], maxCols)
  {
    NamesSnoc(before, r, system);
    NameHasColumns(before, r.table, system);
    PutEntry(tableMap, before, r, maxCols);
    forall u ensures u != r.table ==> ColumnsOf(before + [r], u) == ColumnsOf(before, u) {
      ColumnsMore(before, r, u);
    }
  }

  lemma TakeMore<T>(s: seq<T>, x: T, n: int)
    requires n > 0
    ensures Take(s + [x], n) == if |Take(s, n)| >= n then Take(s, n) else Take(s, n) + [x]
  {
  }

  /** The map holds, for each table in the order, its first columns so far. */
  ghost predicate Filled(tableMap: map<string, seq<Column>>, order: seq<string>, rows: seq<Row>, maxCols: int) {
    && (forall t :: t in tableMap <==> t in order)
    && (forall t :: t in order ==> tableMap[t] == Take(ColumnsOf(rows, t), maxCols))
  }

  lemma FilledMore(tableMap: map<string, seq<Column>>, order: seq<string>, before: seq<Row>, r: Row, maxCols: int)
    requires Filled(tableMap, order, before, maxCols) && r.table !in order
    ensures Filled(tableMap, order, before + [r], maxCols)
  {
    forall u { ColumnsMore(before, r, u); }
  }

  lemma {:induction false} NamesAreOrdinary(rows: seq<Row>, system: string -> bool)
    ensures forall t :: t in Names(rows, system) ==> !system(t)
  {
    if rows == [] {
    } else {
      NamesAreOrdinary(rows[..|rows| - 1], system);
    }
  }

  // ---- The bounded answer, row by row ----

  predicate Rising(at: seq<nat>) {
    forall i, j :: 0 <= i < j < |at| ==> at[i] < at[j]
  }

  /** The rows at these positions are the first ones of the named tables, in this order. */
  predicate Openers(at: seq<nat>, names: seq<string>, rows: seq<Row>) {
    && |at| == |names| && Rising(at)
    && (forall i :: 0 <= i < |at| ==> at[i] < |rows| && rows[at[i]].table == names[i])
    && (forall i, j :: 0 <= i < |at| && 0 <= j < at[i] ==> rows[j].table != names[i])
  }

  lemma OpenersMore(at: seq<nat>, names: seq<string>, rows: seq<Row>)
    requires rows != [] && Openers(at, names, rows[..|rows| - 1])
    ensures Openers(at, names, rows)
    ensures (forall j :: 0 <= j < |rows| - 1 ==> rows[j].table != rows[|rows| - 1].table) ==>
      Openers(at + [|rows| - 1], names + [rows[|rows| - 1].table], rows)
  {
  }

  lemma {:induction false} NamesOpen(rows: seq<Row>, system: string -> bool) returns (at: seq<nat>)
    ensures Openers(at, Names(rows, system), rows)
  {
    at := [];
    if rows == [] {
    } else {
      var n := |rows| - 1;
      at := NamesOpen(rows[..n], system);
      OpenersMore(at, Names(rows[..n], system), rows);
      var t := rows[n].table;
      if !system(t) && t !in Names(rows[..n], system) {
        NamesAppear(rows[..n], system);
        assert forall j :: 0 <= j < n ==> rows[..n][j].table == rows[j].table;
        at := at + [n];
      }
    }
  }

  /** The reported tables: at most as many as the limit, none a system table, in the order of their
      first rows; an ordinary table is missing only if the limit is reached and it begins later. */
  lemma TablesInOrder(rows: seq<Row>, system: string -> bool, maxTables: int) returns (at: seq<nat>)
    ensures var names := Take(Names(rows, system), maxTables);
            && Openers(at, names, rows) && (|names| <= maxTables || names == [])
            && (forall i :: 0 <= i < |names| ==> !system(names[i]))
            && (forall k :: 0 <= k < |rows| && !system(rows[k].table) && rows[k].table !in names ==>
                  |names| >= maxTables && forall i :: 0 <= i < |at| ==> at[i] < k)
  {
    var all := NamesOpen(rows, system);
    var full, names := Names(rows, system), Take(Names(rows, system), maxTables);
    NamesAreOrdinary(rows, system);
    NamesAppear(rows, system);
    at := Take(all, maxTables);
    assert forall j :: 0 <= j < |names| ==> full[j] == names[j] && full[j] in names;
    forall i | 0 <= i < |names| ensures !system(names[i]) {
      assert names[i] == full[i] && full[i] in full;
    }
    forall k | 0 <= k < |rows| && !system(rows[k].table) && rows[k].table !in names
      ensures |names| >= maxTables && forall i :: 0 <= i < |at| ==> at[i] < k
    {
      assert rows[k].table in full;
      var j :| 0 <= j < |full| && full[j] == rows[k].table;
      assert all[j] <= k;
    }
  }

  /** The columns at these positions are those of a table, in this order. */
  predicate Stand(at: seq<nat>, cols: seq<Column>, rows: seq<Row>, t: string) {
    && |at| == |cols| && Rising(at)
    && (forall i :: 0 <= i < |at| ==> at[i] < |rows| && rows[at[i]] == Row(t, cols[i]))
  }

  lemma StandMore(at: seq<nat>, cols: seq<Column>, rows: seq<Row>, t: string)
    requires rows != [] && Stand(at, cols, rows[..|rows| - 1], t)
    ensures Stand(at, cols, rows, t)
    ensures rows[|rows| - 1].table == t ==> Stand(at + [|rows| - 1], cols + [rows[|rows| - 1].column], rows, t)
  {
  }

  lemma {:induction false} ColumnsStand(rows: seq<Row>, t: string) returns (at: seq<nat>)
    ensures Stand(at, ColumnsOf(rows, t), rows, t)
    ensures forall k :: 0 <= k < |rows| && rows[k].table == t ==> k in at
  {
    at := [];
    if rows == [] {
    } else {
      var n := |rows| - 1;
      var before := ColumnsStand(rows[..n], t);
      StandMore(before, ColumnsOf(rows[..n], t), rows, t);
      at := if rows[n].table == t then before + [n] else before;
      forall k | 0 <= k < |rows| && rows[k].table == t ensures k in at {
        assert k < n ==> rows[..n][k].table == t;
      }
    }
  }

  /** The columns reported for a table: at most as many as the limit, those of its first rows, in order;
      a row is left out only if the limit is reached and it comes later. */
  lemma ColumnsInOrder(rows: seq<Row>, t: string, maxCols: int) returns (at: seq<nat>)
    ensures var cols := Take(ColumnsOf(rows, t), maxCols);
            && Stand(at, cols, rows, t) && (|cols| <= maxCols || cols == [])
            && (forall k :: 0 <= k < |rows| && rows[k].table == t && k !in at ==>
                  |cols| >= maxCols && forall i :: 0 <= i < |at| ==> at[i] < k)
  {
    var all := ColumnsStand(rows, t);
    at := Take(all, maxCols);
    assert forall j :: 0 <= j < |at| ==> all[j] == at[j] && all[j] in at;
    forall k | 0 <= k < |rows| && rows[k].table == t && k !in at
      ensures |Take(ColumnsOf(rows, t), maxCols)| >= maxCols && forall i :: 0 <= i < |at| ==> at[i] < k
    {
      var j :| 0 <= j < |all| && all[j] == k;
    }
  }

  /** The scan reads all rows if and only if the ordinary tables fit into the limit. */
  lemma {:induction false} CutIsLate(rows: seq<Row>, system: string -> bool, maxTables: int)
    ensures Cut(rows, system, maxTables) == |rows| <==>
      |Names(rows, system)| <= maxTables || Names(rows, system) == []
  {
    var c := Cut(rows, system, maxTables);
    NamesFit(rows, system, maxTables);
    if c < |rows| {
      CutOpensTable(rows, system, maxTables);
      NamesGrow(rows, c + 1, system);
      assert rows[..c + 1][..c] == rows[..c];
      assert Names(rows[..c + 1], system) == Names(rows[..c], system) + [rows[c].table];
    } else {
      assert rows[..c] == rows;
    }
  }

  lemma {:induction false} NamesFit(rows: seq<Row>, system: string -> bool, maxTables: int)
    ensures var names := Names(rows[..Cut(rows, system, maxTables)], system); |names| <= maxTables || names == []
  {
    if rows == [] {
    } else {
      var n := |rows| - 1;
      NamesFit(rows[..n], system, maxTables);
      var c := Cut(rows, system, maxTables);
      assert c <= n ==> rows[..n][..c] == rows[..c];
      assert c == n + 1 ==> rows[..c] == rows;
      assert rows[..n][..n] == rows[..n];
    }
  }

  // ---- Contiguous streams ----

  /** The rows of each table stand together. */
  predicate Contiguous(rows: seq<Row>) {
    forall i, j, k :: 0 <= i < j < k < |rows| && rows[i].table == rows[k].table ==> rows[j].table == rows[i].table
  }

  lemma {:induction false} NamesAppear(rows: seq<Row>, system: string -> bool)
    ensures forall t :: t in Names(rows, system) <==> !system(t) && exists i :: 0 <= i < |rows| && rows[i].table == t
  {
    if rows == [] {
    } else {
      var n := |rows| - 1;
      NamesAppear(rows[..n], system);
      forall t ensures t in Names(rows, system) <==> !system(t) && exists i :: 0 <= i < |rows| && rows[i].table == t {
        if !system(t) && t in Names(rows[..n], system) {
          var i :| 0 <= i < n && rows[..n][i].table == t;
          assert rows[i].table == t;
        }
        if exists i :: 0 <= i < |rows| && rows[i].table == t {
          var i :| 0 <= i < |rows| && rows[i].table == t;
          assert i < n ==> rows[..n][i].table == t;
        }
      }
    }
  }

  lemma {:induction false} NamesGrow(rows: seq<Row>, i: nat, system: string -> bool)
    requires i <= |rows|
    ensures Names(rows[..i], system) <= Names(rows, system)
  {
    if i == |rows| {
      assert rows[..i] == rows;
    } else {
      NamesGrow(rows[..|rows| - 1], i, system);
      assert rows[..|rows| - 1][..i] == rows[..i];
    }
  }

  lemma {:induction false} NoMoreColumns(rows: seq<Row>, i: nat, t: string)
    requires i <= |rows| && forall k :: i <= k < |rows| ==> rows[k].table != t
    ensures ColumnsOf(rows, t) == ColumnsOf(rows[..i], t)
  {
    if i == |rows| {
      assert rows[..i] == rows;
    } else {
      NoMoreColumns(rows[..|rows| - 1], i, t);
      assert rows[..|rows| - 1][..i] == rows[..i];
    }
  }

  /** The row at the cut opens a table beyond the limit. */
  lemma {:induction false} CutOpensTable(rows: seq<Row>, system: string -> bool, maxTables: int)
    requires Cut(rows, system, maxTables) < |rows|
    ensures var c := Cut(rows, system, maxTables);
            && !system(rows[c].table) && rows[c].table !in Names(rows[..c], system)
            && |Names(rows[..c], system)| >= maxTables
  {
    var n := |rows| - 1;
    if Cut(rows[..n], system, maxTables) < n {
      CutOpensTable(rows[..n], system, maxTables);
      var c := Cut(rows, system, maxTables);
      assert rows[..n][..c] == rows[..c] && rows[..n][c] == rows[c];
    }
  }

  /** On a contiguous stream stopping at the cut loses nothing: the result is the first maxTables
      tables of the whole stream, each with its first maxCols columns. */
  lemma CutLosesNothing(rows: seq<Row>, system: string -> bool, maxTables: int, maxCols: int)
    requires Contiguous(rows)
    ensures Bounded(rows[..Cut(rows, system, maxTables)], system, maxTables, maxCols) ==
      Bounded(rows, system, maxTables, maxCols)
  {
    var c := Cut(rows, system, maxTables);
    if c == |rows| {
      assert rows[..c] == rows;
    } else {
      CutOpensTable(rows, system, maxTables);
      NamesGrow(rows, c, system);
      var some, all := Names(rows[..c], system), Names(rows, system);
      TakeOfLonger(some, all, maxTables);
      SameColumns(rows, c, some, system, maxTables);
      SameDescription(rows[..c], rows, Take(some, maxTables), maxCols);
    }
  }

  lemma TakeOfLonger<T>(a: seq<T>, b: seq<T>, n: int)
    requires a <= b && |a| >= n
    ensures Take(a, n) == Take(b, n)
  {
  }

  lemma SameColumns(rows: seq<Row>, c: nat, names: seq<string>, system: string -> bool, n: int)
    requires Contiguous(rows) && c < |rows| && names == Names(rows[..c], system) && rows[c].table !in names
    ensures forall i :: 0 <= i < |Take(names, n)| ==>
      ColumnsOf(rows[..c], Take(names, n)[i]) == ColumnsOf(rows, Take(names, n)[i])
  {
    forall i | 0 <= i < |Take(names, n)|
      ensures ColumnsOf(rows[..c], Take(names, n)[i]) == ColumnsOf(rows, Take(names, n)[i])
    {
      assert Take(names, n)[i] == names[i] && names[i] in names;
      TableEndsBefore(rows, c, names[i], system);
    }
  }

  lemma SameDescription(some: seq<Row>, all: seq<Row>, names: seq<string>, maxCols: int)
    requires forall i :: 0 <= i < |names| ==> ColumnsOf(some, names[i]) == ColumnsOf(all, names[i])
    ensures Describe(some, names, maxCols) == Describe(all, names, maxCols)
  {
  }

  /** A table seen before a row of another, new table has no row after it. */
  lemma TableEndsBefore(rows: seq<Row>, c: nat, t: string, system: string -> bool)
    requires Contiguous(rows) && c < |rows|
    requires t in Names(rows[..c], system) && t != rows[c].table
    ensures ColumnsOf(rows, t) == ColumnsOf(rows[..c], t)
  {
    NamesAppear(rows[..c], system);
    var i :| 0 <= i < c && rows[..c][i].table == t;
    forall k | c <= k < |rows| ensures rows[k].table != t {
      assert rows[i].table == t && rows[c].table != t;
    }
    NoMoreColumns(rows, c, t);
  }

  // ---- resolveDatasetSchema ----

  /** Maximal runs of rows of one table. */
  function Runs(rows: seq<Row>): seq<TableSchema> {
    if rows == [] then [] else Grouped(Runs(rows[..|rows| - 1]), rows[|rows| - 1])
  }

  lemma GroupLast(tables: seq<TableSchema>, current: TableSchema, r: Row)
    ensures Grouped(tables + [current], r) ==
      if current.name == r.table then tables + [TableSchema(r.table, current.columns + [r.column])]
      else tables + [current] + [TableSchema(r.table, [r.column])]
  {
    assert (tables + [current])[..|tables|] == tables;
  }

  lemma GroupCurrent(done: seq<TableSchema>, current: seq<TableSchema>, r: Row)
    requires |current| <= 1 && (current == [] ==> done == [])
    ensures Grouped(done + current, r) ==
      if current == [] || current[0].name != r.table then done + current + [TableSchema(r.table, [r.column])]
      else done + [TableSchema(current[0].name, current[0].columns + [r.column])]
  {
    if current == [] {
      assert done + current == [];
    } else {
      assert current == [current[0]];
      GroupLast(done, current[0], r);
    }
  }

  lemma RunsMore(rows: seq<Row>, i: nat)
    requires i < |rows|
    ensures Runs(rows[..i + 1]) == Grouped(Runs(rows[..i]), rows[i])
  {
    assert rows[..i + 1][..i] == rows[..i];
  }

  /** `resolveDatasetSchema`; nothing for an error.  The loop keeps a current table, flushed when the
      name changes. */
  method ResolveDatasetSchema(rows: seq<Row>, end: End) returns (tables: Option<seq<TableSchema>>)
    ensures tables == if end.Ended? then Some(Runs(rows)) else None
  {
    var done: seq<TableSchema> := [];
    var current: seq<TableSchema> := [];
    for i := 0 to |rows|
      invariant |current| <= 1 && (current == [] ==> done == [])
      invariant done + current == Runs(rows[..i])
    {
      RunsMore(rows, i);
      GroupCurrent(done, current, rows[i]);
      if current == [] || current[0].name != rows[i].table {
        done := done + current;
        current := [TableSchema(rows[i].table, [])];
        assert [] + [rows[i].column] == [rows[i].column];
      }
      current := [TableSchema(current[0].name, current[0].columns + [rows[i].column])];
    }
    assert rows[..|rows|] == rows;
    if !end.Ended? {
      return None;
    }
    return Some(done + current);
  }

  function Rows(t: TableSchema): seq<Row> {
    seq(|t.columns|, i requires 0 <= i < |t.columns| => Row(t.name, t.columns[i]))
  }

  function Flatten(tables: seq<TableSchema>): seq<Row> {
    if tables == [] then [] else Flatten(tables[..|tables| - 1]) + Rows(tables[|tables| - 1])
  }

  /** No group is empty and no two neighbours share a name. */
  predicate Separated(tables: seq<TableSchema>) {
    && (forall i :: 0 <= i < |tables| ==> tables[i].columns != [])
    && (forall i :: 0 <= i < |tables| - 1 ==> tables[i].name != tables[i + 1].name)
  }

  lemma FlattenMore(tables: seq<TableSchema>, t: TableSchema)
    ensures Flatten(tables + [t]) == Flatten(tables) + Rows(t)
  {
    assert (tables + [t])[..|tables|] == tables;
  }

  /** The groups flatten back to the rows, whatever the rows. */
  lemma {:induction false} RunsFlatten(rows: seq<Row>)
    ensures Regroups(Runs(rows), rows)
  {
    if rows == [] {
    } else {
      var before, r := rows[..|rows| - 1], rows[|rows| - 1];
      RunsFlatten(before);
      OneMoreRow(Runs(before), before, r);
      assert before + [r] == rows;
    }
  }

  /** The tables are the rows cut into groups: concatenated they give the rows back, no group is
      empty and no two neighbours share a name. */
  predicate Regroups(tables: seq<TableSchema>, rows: seq<Row>) {
    Flatten(tables) == rows && Separated(tables)
  }

  /** The groups after one more row. */
  function Grouped(before: seq<TableSchema>, r: Row): seq<TableSchema> {
    var m := |before| - 1;
    if before != [] && before[m].name == r.table then
      before[..m] + [TableSchema(r.table, before[m].columns + [r.column])]
    else before + [TableSchema(r.table, [r.column])]
  }

  lemma OneMoreRow(before: seq<TableSchema>, rows: seq<Row>, r: Row)
    requires Regroups(before, rows)
    ensures Regroups(Grouped(before, r), rows + [r])
  {
    GroupedSeparated(before, r);
    var m := |before| - 1;
    if before != [] && before[m].name == r.table {
      var last := TableSchema(r.table, before[m].columns + [r.column]);
      FlattenMore(before[..m], last);
      RowsMore(before[m], r);
      ConcatAssoc(Flatten(before[..m]), Rows(before[m]), [r]);
    } else {
      FlattenMore(before, TableSchema(r.table, [r.column]));
      RowsMore(TableSchema(r.table, []), r);
      assert [] + [r.column] == [r.column] && [] + [r] == [r];
    }
  }

  lemma RowsMore(t: TableSchema, r: Row)
    requires t.name == r.table
    ensures Rows(TableSchema(t.name, t.columns + [r.column])) == Rows(t) + [r]
  {
  }

  lemma GroupedSeparated(before: seq<TableSchema>, r: Row)
    requires Separated(before)
    ensures Separated(Grouped(before, r))
  {
  }

  lemma ContiguousPrefix(rows: seq<Row>, i: nat)
    requires Contiguous(rows) && i <= |rows|
    ensures Contiguous(rows[..i])
  {
  }

  /** On a contiguous stream the last name is the last row's. */
  lemma {:induction false} LastName(rows: seq<Row>, system: string -> bool)
    requires Plain(rows, system) && rows != []
    ensures Names(rows, system) != [] && Names(rows, system)[|Names(rows, system)| - 1] == rows[|rows| - 1].table
  {
    var n := |rows| - 1;
    if n == 0 {
    } else {
      ContiguousPrefix(rows, n);
      LastName(rows[..n], system);
      NamesAppear(rows[..n], system);
      if rows[n].table in Names(rows[..n], system) {
        var i :| 0 <= i < n && rows[..n][i].table == rows[n].table;
        assert i < n - 1 ==> rows[n - 1].table == rows[i].table;
      }
    }
  }

  function Whole(rows: seq<Row>, names: seq<string>): seq<TableSchema> {
    seq(|names|, i requires 0 <= i < |names| => TableSchema(names[i], ColumnsOf(rows, names[i])))
  }

  lemma {:induction false} DistinctNames(rows: seq<Row>, system: string -> bool)
    ensures Distinct(Names(rows, system))
  {
    if rows == [] {
    } else {
      DistinctNames(rows[..|rows| - 1], system);
    }
  }

  lemma ColumnsMore(before: seq<Row>, r: Row, t: string)
    ensures ColumnsOf(before + [r], t) == if r.table == t then ColumnsOf(before, t) + [r.column]
      else ColumnsOf(before, t)
  {
    assert (before + [r])[..|before|] == before;
  }

  lemma WholeAtName(before: seq<Row>, r: Row, names: seq<string>, i: nat)
    requires i < |names| && names[i] != r.table
    ensures Whole(before + [r], names)[i] == Whole(before, names)[i]
  {
    ColumnsMore(before, r, names[i]);
  }

  lemma ExtendLast(before: seq<Row>, r: Row, names: seq<string>)
    requires names != [] && names[|names| - 1] == r.table && Distinct(names)
    ensures Whole(before + [r], names) == Grouped(Whole(before, names), r)
  {
    var m := |names| - 1;
    var was, now := Whole(before, names), Whole(before + [r], names);
    ColumnsMore(before, r, r.table);
    var last := TableSchema(r.table, was[m].columns + [r.column]);
    assert now[m] == last;
    forall i | 0 <= i < m ensures now[i] == was[i] {
      assert names[i] != names[m];
      WholeAtName(before, r, names, i);
    }
    assert now == was[..m] + [last];
  }

  lemma OpenNew(before: seq<Row>, r: Row, names: seq<string>)
    requires r.table !in names && ColumnsOf(before, r.table) == []
    ensures Whole(before + [r], names + [r.table]) == Grouped(Whole(before, names), r)
  {
    var m := |names|;
    var was, now := Whole(before, names), Whole(before + [r], names + [r.table]);
    ColumnsMore(before, r, r.table);
    assert [] + [r.column] == [r.column];
    forall i | 0 <= i < m ensures now[i] == was[i] && names[i] != r.table {
      assert names[i] in names;
      ColumnsMore(before, r, names[i]);
    }
    assert now == was + [TableSchema(r.table, [r.column])];
  }

  lemma NewTable(rows: seq<Row>, system: string -> bool)
    requires Contiguous(rows) && |rows| > 0
    requires |rows| > 1 ==> rows[|rows| - 2].table != rows[|rows| - 1].table
    ensures rows[|rows| - 1].table !in Names(rows[..|rows| - 1], system)
  {
    NamesAppear(rows[..|rows| - 1], system);
  }

  lemma NamesSnoc(before: seq<Row>, r: Row, system: string -> bool)
    ensures Names(before + [r], system) ==
      if system(r.table) || r.table in Names(before, system) then Names(before, system)
        else Names(before, system) + [r.table]
  {
    assert (before + [r])[..|before|] == before;
  }

  /** Rows of no system table, the tables standing together. */
  predicate Plain(rows: seq<Row>, system: string -> bool) {
    Contiguous(rows) && forall i :: 0 <= i < |rows| ==> !system(rows[i].table)
  }

  lemma GroupedSame(before: seq<Row>, r: Row, system: string -> bool)
    requires Plain(before, system) && before != [] && before[|before| - 1].table == r.table
    ensures Grouped(Whole(before, Names(before, system)), r) == Whole(before + [r], Names(before + [r], system))
  {
    var names, more := Names(before, system), Names(before + [r], system);
    LastName(before, system);
    DistinctNames(before, system);
    assert names[|names| - 1] in names;
    assert more == names by { NamesSnoc(before, r, system); }
    ExtendLast(before, r, names);
  }

  lemma GroupedNew(before: seq<Row>, r: Row, system: string -> bool)
    requires !system(r.table) && r.table !in Names(before, system)
    ensures Grouped(Whole(before, Names(before, system)), r) == Whole(before + [r], Names(before + [r], system))
  {
    NamesSnoc(before, r, system);
    NameHasColumns(before, r.table, system);
    OpenNew(before, r, Names(before, system));
  }

  /** On a contiguous stream without system tables the runs are the tables. */
  lemma {:induction false} RunsAreTables(rows: seq<Row>, system: string -> bool)
    requires Plain(rows, system)
    ensures Runs(rows) == Whole(rows, Names(rows, system))
  {
    if rows == [] {
    } else {
      var n := |rows| - 1;
      ContiguousPrefix(rows, n);
      RunsAreTables(rows[..n], system);
      assert rows == rows[..n] + [rows[n]];
      if n > 0 && rows[n - 1].table == rows[n].table {
        GroupedSame(rows[..n], rows[n], system);
      } else {
        NewTable(rows, system);
        GroupedNew(rows[..n], rows[n], system);
      }
    }
  }

  lemma {:induction false} WithinLimits(rows: seq<Row>, system: string -> bool, maxTables: int, maxCols: int)
    requires |Names(rows, system)| <= maxTables
    requires forall t :: t in Names(rows, system) ==> |ColumnsOf(rows, t)| <= maxCols
    ensures Bounded(rows, system, maxTables, maxCols) == Whole(rows, Names(rows, system))
  {
    var names := Names(rows, system);
    assert Take(names, maxTables) == names;
    forall i | 0 <= i < |names| ensures Take(ColumnsOf(rows, names[i]), maxCols) == ColumnsOf(rows, names[i]) {
      assert names[i] in names;
    }
  }

  /** The two groupings agree on contiguous streams within the limits and without system tables. */
  lemma GroupingsAgree(rows: seq<Row>, system: string -> bool, maxTables: int, maxCols: int)
    requires Plain(rows, system)
    requires |Names(rows, system)| <= maxTables
    requires forall t :: t in Names(rows, system) ==> |ColumnsOf(rows, t)| <= maxCols
    ensures Bounded(rows[..Cut(rows, system, maxTables)], system, maxTables, maxCols) == Runs(rows)
  {
    CutLosesNothing(rows, system, maxTables, maxCols);
    WithinLimits(rows, system, maxTables, maxCols);
    RunsAreTables(rows, system);
  }
}
