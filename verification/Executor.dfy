/** The execution gate: roles (`internal/rbac/roles.go`, `internal/sqlrun/permissions.go`) and
    the NL2SQL executor (`internal/nl2sqlexec/executor.go`). */
module Executor {
  import opened Collections
  import opened Text
  import opened Lexer
  import opened LexerLaws
  import opened Classifier

  // ---- Roles ----

  const ROLE_ORDER: map<string, int> := map[
    "read_only_visitor" := 1, "normal_user" := 2, "data_admin" := 3, "super_admin" := 4
  ]

  /** Go's zero value for a missing key: an unknown role ranks below all known ones. */
  function Rank(role: string): int {
    if role in ROLE_ORDER then ROLE_ORDER[role] else 0
  }

  function MinRole(t: SqlType): string {
    match t
    case Select => "read_only_visitor"
    case Insert => "normal_user"
    case Update => "normal_user"
    case CreateTable => "data_admin"
    case CreateDatabase => "super_admin"
    case Delete => "data_admin"
    case Drop => "super_admin"
    case Alter => "data_admin"
    case Truncate => "data_admin"
    case Unknown => "super_admin"
  }

  /** `IsAllowedForRole`. */
  predicate Allowed(t: SqlType, role: string) {
    Rank(role) >= Rank(MinRole(t))
  }

  /** `rbac.MinRole`: a test for a role, failing for every unknown one. */
  function RoleTest(required: string): string -> bool {
    if required !in ROLE_ORDER then (user: string) => false
    else (user: string) => user in ROLE_ORDER && ROLE_ORDER[user] >= ROLE_ORDER[required]
  }

  /** The two readings of the role order agree on every SQL type and every text taken as a role. */
  lemma RoleReadingsAgree(t: SqlType, role: string)
    ensures Allowed(t, role) <==> RoleTest(MinRole(t))(role)
  {
    assert MinRole(t) in ROLE_ORDER && Rank(MinRole(t)) >= 1;
  }

  // ---- System tables ----

  const SYSTEM_TABLES: set<string> := {
    "users", "workspaces", "sessions", "messages", "runs", "audit_events", "async_tasks", "knowledge_docs",
    "data_sources", "agent_run_steps", "datasets", "dataset_permissions", "dataset_tables", "table_fields",
    "permission_requests"
  }

  predicate IdentChar(c: char) { IsAlnum(c) || c == '_' }

  /** name stands at i in s with no identifier character on either side. */
  predicate WholeAt(s: string, name: string, i: nat) {
    && OccursAt(s, name, i)
    && (i == 0 || !IdentChar(s[i - 1]))
    && (i + |name| >= |s| || !IdentChar(s[i + |name|]))
  }

  /** The leftmost occurrence of a system table's name, case folded, is a whole identifier. */
  predicate NamesTable(sql: string, table: string) {
    var s, name := ToUpper(sql), ToUpper(table);
    Index(s, name) >= 0 && WholeAt(s, name, Index(s, name))
  }

  predicate NamesAny(sql: string, tables: set<string>) {
    exists t :: t in tables && NamesTable(sql, t)
  }

  predicate NamesSystemTable(sql: string) {
    NamesAny(sql, SYSTEM_TABLES)
  }

  /** The check for one table, on the capitalised text. */
  method FindsTable(upper: string, name: string) returns (found: bool)
    ensures found <==> Index(upper, name) >= 0 && WholeAt(upper, name, Index(upper, name))
  {
    var idx := Index(upper, name);
    if idx == -1 {
      return false;
    }
    var before := idx == 0 || !IdentChar(upper[idx - 1]);
    var after := idx + |name| >= |upper| || !IdentChar(upper[idx + |name|]);
    return before && after;
  }

  /** `CheckSystemTableInSQL` over a given table map, visited in no particular order. */
  method CheckTablesInSQL(sql: string, tables: set<string>) returns (hit: Option<string>)
    ensures hit.Some? <==> NamesAny(sql, tables)
    ensures hit.Some? ==> hit.value in tables && NamesTable(sql, hit.value)
  {
    var upper := ToUpper(sql);
    var left := tables;
    while left != {}
      invariant left <= tables
      invariant forall t :: t in tables && t !in left ==> !NamesTable(sql, t)
      decreases left
    {
      var tbl :| tbl in left;
      left := left - {tbl};
      var found := FindsTable(upper, ToUpper(tbl));
      if found {
        return Some(tbl);
      }
    }
    return None;
  }

  /** The first occurrence of the name decides: with a whole identifier there the table is found,
      with a part of a longer one it is not, whatever stands further right. */
  lemma FirstOccurrenceDecides(sql: string, table: string, i: nat)
    requires OccursAt(ToUpper(sql), ToUpper(table), i)
    requires forall j: nat :: j < i ==> !OccursAt(ToUpper(sql), ToUpper(table), j)
    ensures var u, e := ToUpper(sql), i + |table|;
            NamesTable(sql, table) <==>
              && (i == 0 || !('A' <= u[i - 1] <= 'Z' || 'a' <= u[i - 1] <= 'z' || '0' <= u[i - 1] <= '9' || u[i - 1] == '_'))
              && (e == |u| || !('A' <= u[e] <= 'Z' || 'a' <= u[e] <= 'z' || '0' <= u[e] <= '9' || u[e] == '_'))
  {
    IndexLeast(ToUpper(sql), ToUpper(table), i);
  }

  lemma OtherLetter(s: string, name: string, j: nat)
    requires j < |s| && name != "" && s[j] != name[0]
    ensures !OccursAt(s, name, j)
  {
    assert j + |name| <= |s| ==> s[j..j + |name|][0] == s[j];
  }

  // ---- The executor ----

  /** What the SQL generator answers; an error may or may not carry a gRPC status. */
  datatype Generated = RpcError(isStatus: bool) | NotOk(message: string) | Sql(text: string)

  /** What the database answers. */
  datatype Reply = DbError | Done(affected: int)

  datatype Sent = Query(text: string) | Exec(text: string)

  datatype Result = Failed | Rows(sql: string) | Affected(sql: string, count: int)

  /** A connection pool, with every statement it was handed. */
  class Pool {
    var sent: seq<Sent>

    method Run(s: Sent, reply: Reply) returns (r: Reply)
      modifies this
      ensures sent == old(sent) + [s] && r == reply
    {
      sent := sent + [s];
      r := reply;
    }
  }

  /** The statements a generated answer is allowed to send for a role. */
  function Effects(gen: Generated, role: string, maxRows: int): seq<Sent> {
    if !gen.Sql? then [] else
    var sql := TrimSpace(gen.text);
    if ClassifySQL(sql).Select? then
      if ReadOnly(StatementText(sql)) then [Query(Wrapped(StatementText(sql), maxRows))] else []
    else if Allowed(ClassifySQL(sql), role) && !NamesSystemTable(sql) then [Exec(StatementText(sql))]
    else []
  }

  /** `QueryRows`. */
  method QueryRows(pool: Pool, text: string, maxRows: int, reply: Reply) returns (r: Reply)
    modifies pool
    ensures pool.sent == old(pool.sent) +
      (if ReadOnly(StatementText(text)) then [Query(Wrapped(StatementText(text), maxRows))] else [])
    ensures r == if ReadOnly(StatementText(text)) then reply else DbError
  {
    var sql := StatementText(text);
    var found := IsReadOnlySQL(sql);
    if found.Some? {
      return DbError;
    }
    r := pool.Run(Query(Wrapped(sql, maxRows)), reply);
  }

  /** `ExecuteWrite`. */
  method ExecuteWrite(pool: Pool, text: string, reply: Reply) returns (r: Reply)
    modifies pool
    ensures pool.sent == old(pool.sent) + [Exec(StatementText(text))] && r == reply
  {
    r := pool.Run(Exec(StatementText(text)), reply);
  }

  /** `Executor.Execute`. */
  method Execute(gen: Generated, role: string, maxRows: int, reply: Reply, pool: Pool) returns (r: Result)
    modifies pool
    ensures pool.sent == old(pool.sent) + Effects(gen, role, maxRows)
    ensures r.Failed? <==> Effects(gen, role, maxRows) == [] || reply.DbError?
    ensures r.Rows? ==> Effects(gen, role, maxRows)[0].Query? && r.sql == TrimSpace(gen.text)
    ensures r.Affected? ==>
      Effects(gen, role, maxRows)[0].Exec? && r.sql == TrimSpace(gen.text) && reply == Done(r.count)
  {
    if !gen.Sql? {
      return Failed;
    }
    var sql := TrimSpace(gen.text);
    var sqlType := ClassifySQL(sql);
    if sqlType.Select? {
      var rows := QueryRows(pool, sql, maxRows, reply);
      return if rows.DbError? then Failed else Rows(sql);
    }
    if !Allowed(sqlType, role) {
      return Failed;
    }
    var hit := CheckTablesInSQL(sql, SYSTEM_TABLES);
    if hit.Some? {
      return Failed;
    }
    var affected := ExecuteWrite(pool, sql, reply);
    return if affected.DbError? then Failed else Affected(sql, affected.affected);
  }

  datatype Response = InvalidArgument | Unavailable | Answer(ok: bool)

  /** `InternalNL2SQL`: the call carries no role. */
  method InternalNL2SQL(userMessage: string, gen: Generated, maxRows: int, reply: Reply, pool: Pool)
    returns (r: Response)
    modifies pool
    ensures userMessage == "" ==> r.InvalidArgument? && pool.sent == old(pool.sent)
    ensures userMessage != "" ==>
      && pool.sent == old(pool.sent) + Effects(gen, "", maxRows)
      && r == if gen.RpcError? && gen.isStatus then Unavailable
        else Answer(Effects(gen, "", maxRows) != [] && !reply.DbError?)
    ensures exists sent: seq<Sent> ::
      pool.sent == old(pool.sent) + sent && |sent| <= 1 && forall s :: s in sent ==> s.Query? && ReadOnly(s.text)
  {
    if userMessage == "" {
      assert pool.sent == old(pool.sent) + [];
      return InvalidArgument;
    }
    UnknownRoleOnlyReads(gen, "", maxRows);
    var result := Execute(gen, "", maxRows, reply, pool);
    if result.Failed? && gen.RpcError? && gen.isStatus {
      return Unavailable;
    }
    return Answer(!result.Failed?);
  }

  // ---- What the gate guarantees ----

  /** At most one statement goes out.  One sent for reading holds no write keyword, wrapper
      included; one sent for writing keeps the words that were checked, comes from a role that may
      write its type, and names no system table first. */
  lemma GateIsSafe(gen: Generated, role: string, maxRows: int)
    ensures |Effects(gen, role, maxRows)| <= 1
    ensures forall i :: 0 <= i < |Effects(gen, role, maxRows)| ==>
      gen.Sql? && Safe(Effects(gen, role, maxRows)[i], gen.text, role)
  {
    if gen.Sql? {
      if ReadOnly(StatementText(TrimSpace(gen.text))) {
        QueryIsSafe(gen.text, role, maxRows);
      }
      if Allowed(ClassifySQL(TrimSpace(gen.text)), role) && !ClassifySQL(TrimSpace(gen.text)).Select? {
        WriteIsSafe(gen.text, role);
      }
    }
  }

  /** What may go out for a generated text. */
  predicate Safe(s: Sent, text: string, role: string) {
    match s
    case Query(q) => ReadOnly(q) && ReadOnly(text)
    case Exec(e) =>
      && Words(e) == Words(text)
      && MayWrite(role, ClassifySQL(TrimSpace(text)))
      && !NamesSystemTable(TrimSpace(text))
  }

  /** The three roles that write at all, by what they may write. */
  predicate MayWrite(role: string, t: SqlType) {
    match t
    case Select => false
    case Insert => role == "normal_user" || role == "data_admin" || role == "super_admin"
    case Update => role == "normal_user" || role == "data_admin" || role == "super_admin"
    case Delete => role == "data_admin" || role == "super_admin"
    case CreateTable => role == "data_admin" || role == "super_admin"
    case Alter => role == "data_admin" || role == "super_admin"
    case Truncate => role == "data_admin" || role == "super_admin"
    case CreateDatabase => role == "super_admin"
    case Drop => role == "super_admin"
    case Unknown => role == "super_admin"
  }

  lemma SameWords(text: string)
    ensures Words(StatementText(TrimSpace(text))) == Words(text)
  {
    TrimKeepsWords(text);
    StatementTextKeepsWords(TrimSpace(text));
  }

  lemma QueryIsSafe(text: string, role: string, maxRows: int)
    requires ReadOnly(StatementText(TrimSpace(text)))
    ensures Safe(Query(Wrapped(StatementText(TrimSpace(text)), maxRows)), text, role)
  {
    SameWords(text);
    WrapKeepsVerdict(StatementText(TrimSpace(text)), maxRows);
  }

  lemma WriteIsSafe(text: string, role: string)
    requires Allowed(ClassifySQL(TrimSpace(text)), role) && !ClassifySQL(TrimSpace(text)).Select?
    ensures !NamesSystemTable(TrimSpace(text)) ==> Safe(Exec(StatementText(TrimSpace(text))), text, role)
  {
    SameWords(text);
    AllowedMayWrite(role, ClassifySQL(TrimSpace(text)));
  }

  lemma AllowedMayWrite(role: string, t: SqlType)
    requires !t.Select?
    ensures Allowed(t, role) <==> MayWrite(role, t)
  {
  }

  /** A higher role sends whatever a lower one does, and the same statement. */
  lemma GateIsMonotone(gen: Generated, low: string, high: string, maxRows: int)
    requires Rank(low) <= Rank(high)
    ensures Effects(gen, low, maxRows) <= Effects(gen, high, maxRows)
    ensures Effects(gen, low, maxRows) != [] ==> Effects(gen, low, maxRows) == Effects(gen, high, maxRows)
  {
  }

  /** A caller whose role is not one of the four can only read. */
  lemma UnknownRoleOnlyReads(gen: Generated, role: string, maxRows: int)
    requires role !in ROLE_ORDER
    ensures |Effects(gen, role, maxRows)| <= 1
    ensures forall s :: s in Effects(gen, role, maxRows) ==> s.Query? && ReadOnly(s.text)
  {
    GateIsSafe(gen, role, maxRows);
    forall s | s in Effects(gen, role, maxRows)
      ensures s.Query? && ReadOnly(s.text)
    {
      assert Safe(s, gen.text, role);
      WritersAreKnown(role);
    }
  }

  /** Only three of the four roles write anything. */
  lemma WritersAreKnown(role: string)
    requires role !in ROLE_ORDER
    ensures forall t :: !MayWrite(role, t)
  {
  }

  // ---- A reference that goes unnoticed ----

  lemma {:induction false} AbsentFrom(s: string, name: string, c: char, from: nat)
    requires c in name && c !in s && from <= |s|
    ensures IndexFrom(s, name, from) == -1
    decreases |s| - from
  {
    var k :| 0 <= k < |name| && name[k] == c;
    if from + |name| <= |s| {
      assert s[from..from + |name|][k] == s[from + k];
    }
    if from == |s| {
    } else {
      AbsentFrom(s, name, c, from + 1);
    }
  }

  /** Every system table but users has one of these letters in its name. */
  lemma RareLetter(table: string) returns (c: char)
    requires table in SYSTEM_TABLES && table != "users"
    ensures c in ToUpper(table) && c in {'A', 'I', 'N', 'P'}
  {
    var k :=
      if table in {"audit_events", "async_tasks", "agent_run_steps", "permission_requests"} then 0
      else if table == "sessions" || table == "messages" then 4
      else if table == "runs" then 2
      else if table == "workspaces" then 6
      else 1;
    c := ToUpper(table)[k];
  }

  /** The name users stands first inside a longer name, and no other system table occurs. */
  lemma UsersHidden(sql: string, i: nat)
    requires 0 < i && OccursAt(ToUpper(sql), ToUpper(USERS), i) && IdentChar(ToUpper(sql)[i - 1])
    requires forall j: nat :: j < i ==> !OccursAt(ToUpper(sql), ToUpper(USERS), j)
    requires forall c :: c in {'A', 'I', 'N', 'P'} ==> c !in ToUpper(sql)
    ensures !NamesSystemTable(sql)
  {
    FirstOccurrenceDecides(sql, "users", i);
    forall t | t in SYSTEM_TABLES && t != "users" ensures !NamesTable(sql, t) {
      var c := RareLetter(t);
      AbsentFrom(ToUpper(sql), ToUpper(t), c, 0);
    }
  }

  lemma UpperConcat(a: string, b: string)
    ensures ToUpper(a + b) == ToUpper(a) + ToUpper(b)
  {
  }

  const HIDING := "DELETE my_"
  const USERS := "users"

  /** A statement that deletes from my_users and from users. */
  function HiddenWrite(rest: string): string {
    HIDING + (USERS + ("," + (USERS + rest)))
  }

  /** What may follow: text that continues no identifier, ends in no space or semicolon, and has none
      of the four letters. */
  predicate Harmless(rest: string) {
    && rest != "" && !IdentChar(ToUpper(rest)[0])
    && !IsSpace(rest[|rest| - 1]) && rest[|rest| - 1] != ';'
    && (forall c :: c in {'A', 'I', 'N', 'P'} ==> c !in ToUpper(rest))
  }

  lemma HiddenCapitals(rest: string)
    ensures ToUpper(HiddenWrite(rest)) == "DELETE MY_" + ("USERS" + ("," + ("USERS" + ToUpper(rest))))
  {
    UpperConcat(HIDING, USERS + ("," + (USERS + rest)));
    UpperConcat(USERS, "," + (USERS + rest));
    UpperConcat(",", USERS + rest);
    UpperConcat(USERS, rest);
    assert ToUpper(HIDING) == "DELETE MY_" && ToUpper(USERS) == "USERS" && ToUpper(",") == ",";
  }

  lemma OccursBetween(a: string, p: string, b: string)
    ensures OccursAt(a + (p + b), p, |a|)
  {
    assert (a + (p + b))[|a|..|a| + |p|] == p;
  }

  /** Where the name stands in such a text. */
  lemma HiddenPlaces(u: string, r: string)
    requires u == "DELETE MY_" + ("USERS" + ("," + ("USERS" + r))) && r != "" && !IdentChar(r[0])
    ensures forall j: nat :: j < 10 ==> !OccursAt(u, "USERS", j)
    ensures OccursAt(u, "USERS", 10) && u[9] == '_' && WholeAt(u, "USERS", 16)
  {
    OccursBetween("DELETE MY_", "USERS", "," + ("USERS" + r));
    var a := "DELETE MY_" + ("USERS" + ",");
    assert u == a + ("USERS" + r);
    OccursBetween(a, "USERS", r);
    assert u[15] == ',' && u[21] == r[0];
    forall j: nat | j < 10 ensures !OccursAt(u, "USERS", j) {
      assert u[j] == "DELETE MY_"[j] != 'U';
      OtherLetter(u, "USERS", j);
    }
  }

  lemma HiddenIsDelete(rest: string)
    requires Harmless(rest)
    ensures var sql := HiddenWrite(rest); TrimSpace(sql) == sql && StatementText(sql) == sql && ClassifySQL(sql).Delete?
  {
    var sql := HiddenWrite(rest);
    assert sql[0] == 'D' && sql[|sql| - 1] == rest[|rest| - 1];
    TrimmedIsFixed(sql);
    assert sql[|sql| - 1..] == [rest[|rest| - 1]];
    HiddenCapitals(rest);
    DeleteFirst(ToUpper(sql), "MY_" + ("USERS" + ("," + ("USERS" + ToUpper(rest)))));
  }

  lemma DeleteFirst(u: string, more: string)
    requires u == "DELETE " + more
    ensures StripParens(u) == u && ClassifyUpper(u).Delete?
  {
    assert u[0] == 'D' && u[6] == ' ';
    assert u[..6] == "DELETE";
  }

  lemma NoRareLetters(u: string, r: string)
    requires u == "DELETE MY_" + ("USERS" + ("," + ("USERS" + r)))
    requires forall c :: c in {'A', 'I', 'N', 'P'} ==> c !in r
    ensures forall c :: c in {'A', 'I', 'N', 'P'} ==> c !in u
  {
    forall c | c in {'A', 'I', 'N', 'P'} ensures c !in u {
      assert c !in "DELETE MY_" && c !in "USERS" && c !in ",";
    }
  }

  lemma HiddenFromGate(rest: string)
    requires Harmless(rest)
    ensures WholeAt(ToUpper(HiddenWrite(rest)), ToUpper(USERS), 16) && !NamesSystemTable(HiddenWrite(rest))
  {
    HiddenCapitals(rest);
    HiddenPlaces(ToUpper(HiddenWrite(rest)), ToUpper(rest));
    NoRareLetters(ToUpper(HiddenWrite(rest)), ToUpper(rest));
    assert ToUpper(USERS) == "USERS";
    UsersHidden(HiddenWrite(rest), 10);
  }

  lemma DeleteGoesOut(sql: string, maxRows: int)
    requires TrimSpace(sql) == sql && StatementText(sql) == sql && ClassifySQL(sql).Delete? && !NamesSystemTable(sql)
    ensures Effects(Sql(sql), "data_admin", maxRows) == [Exec(sql)]
  {
  }

  /** A whole family of writes goes out for a data_admin although the table users stands in them
      as a whole identifier. */
  lemma HiddenReferenceExample(rest: string, maxRows: int)
    requires Harmless(rest)
    ensures WholeAt(ToUpper(HiddenWrite(rest)), ToUpper(USERS), 16)
    ensures Effects(Sql(HiddenWrite(rest)), "data_admin", maxRows) == [Exec(HiddenWrite(rest))]
  {
    HiddenFromGate(rest);
    HiddenIsDelete(rest);
    DeleteGoesOut(HiddenWrite(rest), maxRows);
  }

  /** One of them is a plain MySQL statement. */
  lemma HiddenStatement()
    ensures Harmless(" FROM my_users,users")
  {
    var rest := " FROM my_users,users";
    assert ToUpper(rest) == " FROM MY_USERS,USERS";
    assert rest[|rest| - 1] == 's';
  }
}
