/**
 Marking audit rows as deleted: buildMarkDeletedQuery of internal/audit/audit.go.
 The query is text with positional parameters, so the model keeps the text and
 the argument list, parses the text as SQLite does, and says what executing it
 with those arguments does to the tables.
 */
module AuditDeletion {
  import opened Collections
  import opened Options

  // ---------------------------------------------------------------------
  // Rows and statements
  // ---------------------------------------------------------------------

  /** A row of vm_details or resource_details; `resourceType` is a column of the latter only. */
  datatype Row = Row(auditId: int, resourceType: string, name: string, namespace: string,
                     status: string, deletedAt: Option<string>)

  /** What becomes of one write to the database. */
  datatype WriteFault = Written | NotWritten | ReplyLost

  /** audit_log, as far as the query reads it: the run id of each execution. */
  type Executions = map<int, string>

  datatype Condition =
    | ColumnIn(column: string, marks: nat)
    | NamespaceIs
    | RunIn(marks: nat)
    | ResourceTypeIs

  /** UPDATE table SET status = 'deleted', deleted_at = ? WHERE the conditions hold. */
  datatype Statement = MarkDeleted(table: string, where: seq<Condition>)

  /** The query text as SQLite's tokenizer sees it: white space is gone, `?` is a parameter. */
  datatype Token = Sym(text: string) | Mark

  type Query = seq<Token>

  /** strings.Join of `n` question marks with commas. */
  function Marks(n: nat): Query {
    if n == 0 then [] else if n == 1 then [Mark] else Marks(n - 1) + [Sym(","), Mark]
  }

  function ConditionText(c: Condition): Query {
    match c
    case ColumnIn(column, n) => [Sym(column), Sym("IN"), Sym("(")] + Marks(n) + [Sym(")")]
    case NamespaceIs => [Sym("namespace"), Sym("="), Mark]
    case RunIn(n) =>
      [Sym("audit_id"), Sym("IN"), Sym("("), Sym("SELECT"), Sym("id"), Sym("FROM"), Sym("audit_log"),
       Sym("WHERE"), Sym("run_id"), Sym("IN"), Sym("(")] + Marks(n) + [Sym(")"), Sym(")")]
    case ResourceTypeIs => [Sym("resource_type"), Sym("="), Mark]
  }

  function WhereText(where: seq<Condition>): Query {
    if where == [] then []
    else ConditionText(where[0]) + if |where| == 1 then [] else [Sym("AND")] + WhereText(where[1..])
  }

  const SET_DELETED := [Sym("SET"), Sym("status"), Sym("="), Sym("'deleted'"), Sym(","), Sym("deleted_at"), Sym("="),
                        Mark, Sym("WHERE")]

  function UpdateText(table: string): Query {
    [Sym("UPDATE"), Sym(table)] + SET_DELETED
  }

  function Text(s: Statement): Query {
    UpdateText(s.table) + WhereText(s.where)
  }

  /** How many parameters a condition takes. */
  function Arity(c: Condition): nat {
    match c
    case ColumnIn(_, n) => n
    case NamespaceIs => 1
    case RunIn(n) => n
    case ResourceTypeIs => 1
  }

  function Arities(where: seq<Condition>): nat {
    if where == [] then 0 else Arity(where[0]) + Arities(where[1..])
  }

  /** The columns of internal/audit/schema.go that the queries name. */
  function ColumnOf(table: string, row: Row, column: string): Option<string> {
    if column == "namespace" then Some(row.namespace)
    else if table == "vm_details" && column == "vm_name" then Some(row.name)
    else if table == "resource_details" && column == "resource_name" then Some(row.name)
    else if table == "resource_details" && column == "resource_type" then Some(row.resourceType)
    else None
  }

  predicate HasColumn(table: string, column: string) {
    ColumnOf(table, Row(0, "", "", "", "", None), column).Some?
  }

  /** SQLite accepts the condition for the table. */
  predicate Resolves(table: string, c: Condition) {
    match c
    case ColumnIn(column, _) => HasColumn(table, column)
    case ResourceTypeIs => HasColumn(table, "resource_type")
    case _ => true
  }

  predicate ConditionHolds(table: string, c: Condition, args: seq<string>, row: Row, log: Executions)
    requires |args| == Arity(c)
  {
    match c
    case ColumnIn(column, _) =>
      ColumnOf(table, row, column).Some? && ColumnOf(table, row, column).value in args
    case NamespaceIs => ColumnOf(table, row, "namespace") == Some(args[0])
    case RunIn(_) => row.auditId in log && log[row.auditId] in args
    case ResourceTypeIs => ColumnOf(table, row, "resource_type") == Some(args[0])
  }

  /** The conditions take their parameters from `args` from left to right. */
  predicate Selects(table: string, where: seq<Condition>, args: seq<string>, row: Row, log: Executions)
    requires |args| == Arities(where)
  {
    where == [] || (
      var n := Arity(where[0]);
      ConditionHolds(table, where[0], args[..n], row, log) && Selects(table, where[1..], args[n..], row, log))
  }

  /** The two tables that have rows to mark. */
  datatype Tables = Tables(vms: seq<Row>, resources: seq<Row>)

  /** The statement names a table and columns that exist, and there is an argument for each parameter. */
  predicate Runs(s: Statement, args: seq<string>) {
    && s.table in {"vm_details", "resource_details"}
    && (forall c <- s.where :: Resolves(s.table, c))
    && |args| == 1 + Arities(s.where)
  }

  function Updated(s: Statement, args: seq<string>, rows: seq<Row>, log: Executions): seq<Row>
    requires Runs(s, args)
  {
    seq(|rows|, i requires 0 <= i < |rows| =>
      if Selects(s.table, s.where, args[1..], rows[i], log)
      then rows[i].(status := "deleted", deletedAt := Some(args[0]))
      else rows[i])
  }

  /** What running the text with the arguments makes of the tables; `None` when SQLite refuses it. */
  function Executed(query: Query, args: seq<string>, t: Tables, log: Executions): Option<Tables> {
    var s := Parse(query);
    if s.None? || !Runs(s.value, args) then None
    else if s.value.table == "vm_details" then Some(t.(vms := Updated(s.value, args, t.vms, log)))
    else Some(t.(resources := Updated(s.value, args, t.resources, log)))
  }

  // ---------------------------------------------------------------------
  // Parsing
  // ---------------------------------------------------------------------

  /** A list of parameters and what follows it. */
  datatype List = List(marks: nat, rest: Query)

  function ParseList(q: Query): (l: List)
    ensures |l.rest| <= |q|
  {
    if q == [] || q[0] != Mark then List(0, q)
    else if |q| > 1 && q[1] == Sym(",") then
      var l := ParseList(q[2..]);
      List(l.marks + 1, l.rest)
    else List(1, q[1..])
  }

  datatype Clause = Clause(c: Condition, rest: Query)

  const RUN_IN := [Sym("audit_id"), Sym("IN"), Sym("("), Sym("SELECT"), Sym("id"), Sym("FROM"), Sym("audit_log"),
                   Sym("WHERE"), Sym("run_id"), Sym("IN"), Sym("(")]

  function ParseCondition(q: Query): (r: Option<Clause>)
    ensures r.Some? ==> |r.value.rest| < |q|
  {
    if [Sym("namespace"), Sym("="), Mark] <= q then Some(Clause(NamespaceIs, q[3..]))
    else if [Sym("resource_type"), Sym("="), Mark] <= q then Some(Clause(ResourceTypeIs, q[3..]))
    else if RUN_IN <= q then
      var l := ParseList(q[|RUN_IN|..]);
      if [Sym(")"), Sym(")")] <= l.rest then Some(Clause(RunIn(l.marks), l.rest[2..])) else None
    else if |q| >= 3 && q[0].Sym? && q[1..3] == [Sym("IN"), Sym("(")] then
      var l := ParseList(q[3..]);
      if [Sym(")")] <= l.rest then Some(Clause(ColumnIn(q[0].text, l.marks), l.rest[1..])) else None
    else None
  }

  function ParseWhere(q: Query): Option<seq<Condition>>
    decreases |q|
  {
    var first := ParseCondition(q);
    if first.None? then None
    else
      var rest := first.value.rest;
      if rest == [] then Some([first.value.c])
      else if rest[0] != Sym("AND") then None
      else
        var more := ParseWhere(rest[1..]);
        if more.None? then None else Some([first.value.c] + more.value)
  }

  function Parse(q: Query): Option<Statement> {
    if |q| < 2 || q[0] != Sym("UPDATE") || !q[1].Sym? || !(SET_DELETED <= q[2..]) then None
    else
      var where := ParseWhere(q[2..][|SET_DELETED|..]);
      if where.None? then None else Some(MarkDeleted(q[1].text, where.value))
  }

  lemma {:induction false} MarksFromTheLeft(n: nat)
    requires n >= 2
    ensures Marks(n) == [Mark, Sym(",")] + Marks(n - 1)
  {
    if n > 2 {
      MarksFromTheLeft(n - 1);
    }
  }

  lemma ListOfOneMore(q: Query)
    ensures ParseList([Mark, Sym(",")] + q) == List(ParseList(q).marks + 1, ParseList(q).rest)
  {
    assert ([Mark, Sym(",")] + q)[2..] == q;
  }

  lemma {:induction false} ListParses(n: nat, rest: Query)
    requires rest != [] && rest[0] == Sym(")")
    ensures ParseList(Marks(n) + rest) == List(n, rest)
  {
    if n == 0 {
      assert Marks(0) + rest == rest;
    } else if n == 1 {
      assert ([Mark] + rest)[1..] == rest;
      assert |","| == 1 && ","[0] != ")"[0];
    } else {
      MarksFromTheLeft(n);
      ListParses(n - 1, rest);
      hide Marks, ParseList;
      ConcatIsAssociative([Mark, Sym(",")], Marks(n - 1), rest);
      ListOfOneMore(Marks(n - 1) + rest);
    }
  }

  lemma ConditionParses(c: Condition, rest: Query)
    ensures ParseCondition(ConditionText(c) + rest) == Some(Clause(c, rest))
  {
    var q := ConditionText(c) + rest;
    match c {
      case NamespaceIs => assert q[3..] == rest;
      case ResourceTypeIs =>
        assert q[0] != Sym("namespace") && q[3..] == rest;
      case RunIn(n) => RunInParses(n, rest);
      case ColumnIn(column, n) => ColumnInParses(column, n, rest);
    }
  }

  lemma RunInParses(n: nat, rest: Query)
    ensures ParseCondition(ConditionText(RunIn(n)) + rest) == Some(Clause(RunIn(n), rest))
  {
    var q, tail := ConditionText(RunIn(n)) + rest, [Sym(")"), Sym(")")] + rest;
    ListParses(n, tail);
    hide Marks, ParseList;
    assert q == RUN_IN + (Marks(n) + tail);
    assert q[|RUN_IN|..] == Marks(n) + tail;
    assert |"IN"| == 2 && |"="| == 1 && q[1] == Sym("IN");
    assert tail[2..] == rest;
  }

  lemma OnlyColumnIn(q: Query)
    requires |q| >= 4 && q[1] == Sym("IN") && q[3] != Sym("SELECT")
    ensures !([Sym("namespace"), Sym("="), Mark] <= q) && !([Sym("resource_type"), Sym("="), Mark] <= q) && !(RUN_IN <= q)
  {
    assert |"IN"| == 2 && |"="| == 1;
    assert RUN_IN[3] == Sym("SELECT");
  }

  lemma ColumnInParses(column: string, n: nat, rest: Query)
    ensures ParseCondition(ConditionText(ColumnIn(column, n)) + rest) == Some(Clause(ColumnIn(column, n), rest))
  {
    var q, tail := ConditionText(ColumnIn(column, n)) + rest, [Sym(")")] + rest;
    ListParses(n, tail);
    FirstOfMarks(n, tail);
    assert q == [Sym(column), Sym("IN"), Sym("(")] + (Marks(n) + tail);
    hide Marks, ParseList;
    assert q[3] == (Marks(n) + tail)[0];
    OnlyColumnIn(q);
    assert q[3..] == Marks(n) + tail && q[1..3] == [Sym("IN"), Sym("(")];
    assert tail[1..] == rest;
  }

  lemma FirstOfMarks(n: nat, tail: Query)
    requires tail != [] && tail[0] == Sym(")")
    ensures (Marks(n) + tail)[0] != Sym("SELECT")
  {
    assert |")"| == 1 && |"SELECT"| == 6;
    if n >= 2 {
      MarksFromTheLeft(n);
    }
  }

  lemma WhereFirst(c: Condition, more: Query)
    requires ParseWhere(more).Some?
    ensures ParseWhere(ConditionText(c) + ([Sym("AND")] + more)) == Some([c] + ParseWhere(more).value)
  {
    var rest := [Sym("AND")] + more;
    ConditionParses(c, rest);
    hide ParseCondition, ConditionText;
    assert rest[1..] == more;
  }

  lemma WhereLast(c: Condition)
    ensures ParseWhere(ConditionText(c)) == Some([c])
  {
    ConditionParses(c, []);
    hide ParseCondition, ConditionText;
    assert ConditionText(c) + [] == ConditionText(c);
  }

  lemma {:induction false} WhereParses(where: seq<Condition>)
    requires where != []
    ensures ParseWhere(WhereText(where)) == Some(where)
  {
    hide ParseWhere, ConditionText;
    if |where| == 1 {
      WhereLast(where[0]);
      assert ConditionText(where[0]) + [] == ConditionText(where[0]) && where == [where[0]];
    } else {
      WhereParses(where[1..]);
      WhereFirst(where[0], WhereText(where[1..]));
      assert [where[0]] + where[1..] == where;
    }
  }

  /** The text of a statement is read as that statement and as no other. */
  lemma TextParses(s: Statement)
    requires s.where != []
    ensures Parse(Text(s)) == Some(s)
  {
    WhereParses(s.where);
    var head, body := [Sym("UPDATE"), Sym(s.table)], WhereText(s.where);
    hide ParseWhere, WhereText;
    ConcatIsAssociative(head, SET_DELETED, body);
    var q := Text(s);
    assert q == head + (SET_DELETED + body) && q[0] == Sym("UPDATE") && q[1] == Sym(s.table);
    assert q[2..] == SET_DELETED + body;
    assert (SET_DELETED + body)[|SET_DELETED|..] == body;
  }

  // ---------------------------------------------------------------------
  // buildMarkDeletedQuery
  // ---------------------------------------------------------------------

  /** The table has the rows to be marked, and the column their names. */
  predicate Fits(table: string, nameCol: string, resourceType: string) {
    || (table == "vm_details" && nameCol == "vm_name" && resourceType == "")
    || (table == "resource_details" && nameCol == "resource_name")
  }

  /** The rows of the one table that match are marked, and nothing else changes. */
  function TablesMarked(t: Tables, log: Executions, table: string, resourceType: string, names: seq<string>,
                        namespace: string, runIDs: seq<string>, now: string): Tables
  {
    if table == "vm_details" then t.(vms := MarkedRows(t.vms, log, resourceType, names, namespace, runIDs, now))
    else t.(resources := MarkedRows(t.resources, log, resourceType, names, namespace, runIDs, now))
  }

  /** For a table or a column that does not exist SQLite refuses the query. */
  method BuildMarkDeletedQuery(table: string, nameCol: string, resourceType: string, names: seq<string>,
                               namespace: string, runIDs: seq<string>, now: string)
    returns (query: Query, args: seq<string>)
    ensures CountMarks(query) == |args|
    ensures Fits(table, nameCol, resourceType) ==> forall t, log ::
              Executed(query, args, t, log)
              == Some(TablesMarked(t, log, table, resourceType, names, namespace, runIDs, now))
    ensures !HasColumn(table, nameCol) || (resourceType != "" && !HasColumn(table, "resource_type")) ==> forall t, log ::
              Executed(query, args, t, log) == None
  {
    args := [now];
    var namePlaceholders: Query := [];
    for i := 0 to |names|
      invariant args == [now] + names[..i]
      invariant namePlaceholders == Marks(i)
    {
      namePlaceholders := namePlaceholders + if i == 0 then [Mark] else [Sym(","), Mark];
      args := args + [names[i]];
    }
    args := args + [namespace];
    var runPlaceholders: Query := [];
    for i := 0 to |runIDs|
      invariant args == [now] + names + [namespace] + runIDs[..i]
      invariant runPlaceholders == Marks(i)
    {
      runPlaceholders := runPlaceholders + if i == 0 then [Mark] else [Sym(","), Mark];
      args := args + [runIDs[i]];
    }
    query := UpdateText(table)
             + ([Sym(nameCol), Sym("IN"), Sym("(")] + namePlaceholders + [Sym(")")])
             + [Sym("AND"), Sym("namespace"), Sym("="), Mark]
             + [Sym("AND"), Sym("audit_id"), Sym("IN"), Sym("("), Sym("SELECT"), Sym("id"), Sym("FROM"),
                Sym("audit_log"), Sym("WHERE"), Sym("run_id"), Sym("IN"), Sym("(")]
             + runPlaceholders + [Sym(")"), Sym(")")];
    if resourceType != "" {
      query := query + [Sym("AND"), Sym("resource_type"), Sym("="), Mark];
      args := args + [resourceType];
    }
    assert names[..|names|] == names && runIDs[..|runIDs|] == runIDs;
    assert args == Arguments(resourceType, names, namespace, runIDs, now);
    assert query == Glued(table, nameCol, Marks(|names|), Marks(|runIDs|), resourceType != "");
    hide *;
    ShapeText(table, nameCol, |names|, |runIDs|, resourceType != "");
    QueryCounts(table, nameCol, resourceType, names, namespace, runIDs, now);
    if Fits(table, nameCol, resourceType) {
      forall t, log
        ensures Executed(query, args, t, log)
                == Some(TablesMarked(t, log, table, resourceType, names, namespace, runIDs, now))
      {
        QueryMeaning(table, nameCol, resourceType, names, namespace, runIDs, now, t, log);
      }
    }
    if !HasColumn(table, nameCol) || (resourceType != "" && !HasColumn(table, "resource_type")) {
      forall t, log ensures Executed(query, args, t, log) == None {
        QueryRefused(table, nameCol, resourceType, |names|, |runIDs|, args, t, log);
      }
    }
  }

  function Shape(table: string, nameCol: string, names: nat, runIDs: nat, typed: bool): Statement {
    MarkDeleted(table,
                [ColumnIn(nameCol, names), NamespaceIs, RunIn(runIDs)] + (if typed then [ResourceTypeIs] else []))
  }

  function Arguments(resourceType: string, names: seq<string>, namespace: string, runIDs: seq<string>,
                     now: string): seq<string>
  {
    [now] + names + [namespace] + runIDs + (if resourceType != "" then [resourceType] else [])
  }

  /** The rows the query is for. */
  predicate Hit(row: Row, log: Executions, resourceType: string, names: seq<string>, namespace: string,
                runIDs: seq<string>)
  {
    && row.name in names
    && row.namespace == namespace
    && row.auditId in log && log[row.auditId] in runIDs
    && (resourceType == "" || row.resourceType == resourceType)
  }

  function MarkedRows(rows: seq<Row>, log: Executions, resourceType: string, names: seq<string>, namespace: string,
                      runIDs: seq<string>, now: string): seq<Row>
  {
    seq(|rows|, i requires 0 <= i < |rows| =>
      if Hit(rows[i], log, resourceType, names, namespace, runIDs)
      then rows[i].(status := "deleted", deletedAt := Some(now))
      else rows[i])
  }

  /** The number of positional parameters in a query. */
  function CountMarks(q: Query): nat {
    if q == [] then 0 else (if q[0].Mark? then 1 else 0) + CountMarks(q[1..])
  }

  lemma {:induction false} CountOfSum(q: Query, r: Query)
    ensures CountMarks(q + r) == CountMarks(q) + CountMarks(r)
  {
    if q == [] {
      assert q + r == r;
    } else {
      assert (q + r)[1..] == q[1..] + r;
      CountOfSum(q[1..], r);
    }
  }

  lemma {:induction false} CountNone(q: Query)
    requires Mark !in q
    ensures CountMarks(q) == 0
  {
    if q != [] {
      CountNone(q[1..]);
    }
  }

  lemma {:induction false} MarksInMarks(n: nat)
    ensures CountMarks(Marks(n)) == n
  {
    if n > 1 {
      MarksInMarks(n - 1);
      CountOfSum(Marks(n - 1), [Sym(","), Mark]);
      CountOfSum([Sym(",")], [Mark]);
    }
  }

  lemma ConditionMarks(c: Condition)
    ensures CountMarks(ConditionText(c)) == Arity(c)
  {
    match c {
      case ColumnIn(column, n) =>
        Enclosed([Sym(column), Sym("IN"), Sym("(")], n, [Sym(")")]);
      case NamespaceIs =>
        Enclosed([Sym("namespace"), Sym("=")], 1, []);
        assert ConditionText(c) == [Sym("namespace"), Sym("=")] + Marks(1) + [];
      case RunIn(n) =>
        Enclosed([Sym("audit_id"), Sym("IN"), Sym("("), Sym("SELECT"), Sym("id"), Sym("FROM"), Sym("audit_log"),
                  Sym("WHERE"), Sym("run_id"), Sym("IN"), Sym("(")], n, [Sym(")"), Sym(")")]);
      case ResourceTypeIs =>
        Enclosed([Sym("resource_type"), Sym("=")], 1, []);
        assert ConditionText(c) == [Sym("resource_type"), Sym("=")] + Marks(1) + [];
    }
  }

  lemma Enclosed(before: Query, n: nat, after: Query)
    requires Mark !in before && Mark !in after
    ensures CountMarks(before + Marks(n) + after) == n
  {
    CountNone(before);
    CountNone(after);
    MarksInMarks(n);
    CountOfSum(before + Marks(n), after);
    CountOfSum(before, Marks(n));
  }

  lemma {:induction false} WhereMarks(where: seq<Condition>)
    ensures CountMarks(WhereText(where)) == Arities(where)
  {
    if where != [] {
      ConditionMarks(where[0]);
      var rest := if |where| == 1 then [] else [Sym("AND")] + WhereText(where[1..]);
      CountOfSum(ConditionText(where[0]), rest);
      if |where| > 1 {
        CountOfSum([Sym("AND")], WhereText(where[1..]));
      }
      WhereMarks(where[1..]);
    }
  }

  lemma TextMarks(s: Statement)
    ensures CountMarks(Text(s)) == 1 + Arities(s.where)
  {
    WhereMarks(s.where);
    var before := UpdateText(s.table)[..9];
    CountNone(before);
    CountOfSum(before, [Mark, Sym("WHERE")]);
    assert UpdateText(s.table) == before + [Mark, Sym("WHERE")];
    CountOfSum(UpdateText(s.table), WhereText(s.where));
  }

  function Glued(table: string, nameCol: string, names: Query, runIDs: Query, typed: bool): Query {
    UpdateText(table)
    + ([Sym(nameCol), Sym("IN"), Sym("(")] + names + [Sym(")")])
    + [Sym("AND"), Sym("namespace"), Sym("="), Mark]
    + [Sym("AND"), Sym("audit_id"), Sym("IN"), Sym("("), Sym("SELECT"), Sym("id"), Sym("FROM"),
       Sym("audit_log"), Sym("WHERE"), Sym("run_id"), Sym("IN"), Sym("(")]
    + runIDs + [Sym(")"), Sym(")")]
    + (if typed then [Sym("AND"), Sym("resource_type"), Sym("="), Mark] else [])
  }

  lemma ShapeText(table: string, nameCol: string, names: nat, runIDs: nat, typed: bool)
    ensures Text(Shape(table, nameCol, names, runIDs, typed)) == Glued(table, nameCol, Marks(names), Marks(runIDs), typed)
  {
    ShapeConditions(table, nameCol, names, runIDs, typed);
    var byRun := [Sym("audit_id"), Sym("IN"), Sym("("), Sym("SELECT"), Sym("id"), Sym("FROM"), Sym("audit_log"),
                  Sym("WHERE"), Sym("run_id"), Sym("IN"), Sym("(")];
    assert [Sym("AND")] + ConditionText(NamespaceIs) == [Sym("AND"), Sym("namespace"), Sym("="), Mark];
    assert [Sym("AND")] + ConditionText(ResourceTypeIs) == [Sym("AND"), Sym("resource_type"), Sym("="), Mark];
    assert [Sym("AND")] + byRun
           == [Sym("AND"), Sym("audit_id"), Sym("IN"), Sym("("), Sym("SELECT"), Sym("id"), Sym("FROM"),
               Sym("audit_log"), Sym("WHERE"), Sym("run_id"), Sym("IN"), Sym("(")];
    Regroup(UpdateText(table) + ConditionText(ColumnIn(nameCol, names)) + ([Sym("AND")] + ConditionText(NamespaceIs)),
            [Sym("AND")], byRun, Marks(runIDs), [Sym(")"), Sym(")")]);
  }

  lemma Regroup(a: Query, b: Query, c: Query, d: Query, e: Query)
    ensures a + (b + (c + d + e)) == a + (b + c) + d + e
  {
  }

  lemma ShapeConditions(table: string, nameCol: string, names: nat, runIDs: nat, typed: bool)
    ensures Text(Shape(table, nameCol, names, runIDs, typed))
            == UpdateText(table) + ConditionText(ColumnIn(nameCol, names))
               + ([Sym("AND")] + ConditionText(NamespaceIs))
               + ([Sym("AND")] + ConditionText(RunIn(runIDs)))
               + (if typed then [Sym("AND")] + ConditionText(ResourceTypeIs) else [])
  {
    var where := Shape(table, nameCol, names, runIDs, typed).where;
    var last := if typed then [ResourceTypeIs] else [];
    hide ConditionText, UpdateText;
    assert where[1..] == [NamespaceIs, RunIn(runIDs)] + last;
    assert where[1..][1..] == [RunIn(runIDs)] + last;
    assert where[1..][1..][1..] == last;
    var tail := if typed then [Sym("AND")] + ConditionText(ResourceTypeIs) else [];
    assert WhereText(where[1..][1..]) == ConditionText(RunIn(runIDs)) + tail;
    assert WhereText(where[1..]) == ConditionText(NamespaceIs) + ([Sym("AND")] + (ConditionText(RunIn(runIDs)) + tail));
    assert WhereText(where) == ConditionText(ColumnIn(nameCol, names)) + ([Sym("AND")] + WhereText(where[1..]));
    hide WhereText;
    Flatten(UpdateText(table), ConditionText(ColumnIn(nameCol, names)), [Sym("AND")], ConditionText(NamespaceIs),
            ConditionText(RunIn(runIDs)), tail);
  }

  lemma Flatten(u: Query, c: Query, and: Query, n: Query, r: Query, tail: Query)
    ensures u + (c + (and + (n + (and + (r + tail))))) == u + c + (and + n) + (and + r) + tail
  {
  }

  lemma SelectsFirst(table: string, c: Condition, rest: seq<Condition>, cArgs: seq<string>, restArgs: seq<string>,
                     row: Row, log: Executions)
    requires |cArgs| == Arity(c) && |restArgs| == Arities(rest)
    ensures Arities([c] + rest) == |cArgs + restArgs|
    ensures Selects(table, [c] + rest, cArgs + restArgs, row, log)
            <==> ConditionHolds(table, c, cArgs, row, log) && Selects(table, rest, restArgs, row, log)
  {
    assert ([c] + rest)[1..] == rest;
    assert (cArgs + restArgs)[..|cArgs|] == cArgs && (cArgs + restArgs)[|cArgs|..] == restArgs;
  }

  /** For the right table and column, the conditions single out the rows the query is for. */
  lemma SelectsIsHit(table: string, nameCol: string, resourceType: string, names: seq<string>, namespace: string,
                     runIDs: seq<string>, now: string, row: Row, log: Executions)
    requires Fits(table, nameCol, resourceType)
    ensures var s := Shape(table, nameCol, |names|, |runIDs|, resourceType != "");
            var args := Arguments(resourceType, names, namespace, runIDs, now);
            && |args| == 1 + Arities(s.where)
            && (Selects(table, s.where, args[1..], row, log) <==> Hit(row, log, resourceType, names, namespace, runIDs))
  {
    var types := if resourceType != "" then [resourceType] else [];
    var byType: seq<Condition> := if resourceType != "" then [ResourceTypeIs] else [];
    var byRun := [RunIn(|runIDs|)] + byType;
    var byNamespace := [NamespaceIs] + byRun;
    var all := [ColumnIn(nameCol, |names|)] + byNamespace;
    assert Shape(table, nameCol, |names|, |runIDs|, resourceType != "").where == all;
    assert Arguments(resourceType, names, namespace, runIDs, now)[1..] == names + ([namespace] + (runIDs + types));
    SelectsType(table, nameCol, resourceType, row, log);
    NameColumn(table, nameCol, resourceType, row);
    hide Selects, Arities, ColumnOf, Fits;
    SelectsFirst(table, RunIn(|runIDs|), byType, runIDs, types, row, log);
    SelectsFirst(table, NamespaceIs, byRun, [namespace], runIDs + types, row, log);
    SelectsFirst(table, ColumnIn(nameCol, |names|), byNamespace, names, [namespace] + (runIDs + types), row, log);
  }

  lemma NameColumn(table: string, nameCol: string, resourceType: string, row: Row)
    requires Fits(table, nameCol, resourceType)
    ensures ColumnOf(table, row, nameCol) == Some(row.name) && ColumnOf(table, row, "namespace") == Some(row.namespace)
    ensures resourceType != "" ==> ColumnOf(table, row, "resource_type") == Some(row.resourceType)
    ensures table in {"vm_details", "resource_details"}
  {
    assert |"namespace"| == 9 && |"vm_name"| == 7 && |"resource_name"| == 13;
    assert "resource_type"[9] == 't' && "resource_name"[9] == 'n';
    assert |"vm_details"| == 10 && |"resource_details"| == 16;
  }

  lemma SelectsType(table: string, nameCol: string, resourceType: string, row: Row, log: Executions)
    requires Fits(table, nameCol, resourceType)
    ensures var types := if resourceType != "" then [resourceType] else [];
            var byType: seq<Condition> := if resourceType != "" then [ResourceTypeIs] else [];
            && Arities(byType) == |types|
            && (Selects(table, byType, types, row, log) <==> resourceType == "" || row.resourceType == resourceType)
  {
    NameColumn(table, nameCol, resourceType, row);
    hide ColumnOf, Fits;
    if resourceType != "" {
      SelectsFirst(table, ResourceTypeIs, [], [resourceType], [], row, log);
      assert [ResourceTypeIs] + [] == [ResourceTypeIs] && [resourceType] + [] == [resourceType];
    }
  }

  lemma QueryCounts(table: string, nameCol: string, resourceType: string, names: seq<string>, namespace: string,
                    runIDs: seq<string>, now: string)
    ensures var s := Shape(table, nameCol, |names|, |runIDs|, resourceType != "");
            CountMarks(Text(s)) == |Arguments(resourceType, names, namespace, runIDs, now)|
  {
    var s := Shape(table, nameCol, |names|, |runIDs|, resourceType != "");
    TextMarks(s);
    hide CountMarks, Text;
    var last: seq<Condition> := if resourceType != "" then [ResourceTypeIs] else [];
    assert s.where[1..] == [NamespaceIs, RunIn(|runIDs|)] + last;
    assert s.where[1..][1..] == [RunIn(|runIDs|)] + last;
    assert s.where[1..][1..][1..] == last;
    assert Arities(last) == if resourceType != "" then 1 else 0;
    assert Arities(s.where[1..][1..]) == |runIDs| + Arities(last);
    assert Arities(s.where[1..]) == 1 + |runIDs| + Arities(last);
    assert Arities(s.where) == |names| + 1 + |runIDs| + Arities(last);
  }

  lemma ShapeRuns(table: string, nameCol: string, resourceType: string, names: seq<string>, namespace: string,
                  runIDs: seq<string>, now: string)
    requires Fits(table, nameCol, resourceType)
    ensures Runs(Shape(table, nameCol, |names|, |runIDs|, resourceType != ""),
                 Arguments(resourceType, names, namespace, runIDs, now))
  {
    var none := Row(0, "", "", "", "", None);
    SelectsIsHit(table, nameCol, resourceType, names, namespace, runIDs, now, none, map[]);
    NameColumn(table, nameCol, resourceType, none);
    hide ColumnOf, Fits, Selects, Arities, Arguments;
  }

  /** Read as SQL and bound by position, the text marks the rows it is for and touches no others. */
  lemma QueryMeaning(table: string, nameCol: string, resourceType: string, names: seq<string>, namespace: string,
                     runIDs: seq<string>, now: string, t: Tables, log: Executions)
    requires Fits(table, nameCol, resourceType)
    ensures Executed(Text(Shape(table, nameCol, |names|, |runIDs|, resourceType != "")),
                     Arguments(resourceType, names, namespace, runIDs, now), t, log)
            == Some(TablesMarked(t, log, table, resourceType, names, namespace, runIDs, now))
  {
    var s := Shape(table, nameCol, |names|, |runIDs|, resourceType != "");
    TextParses(s);
    ShapeRuns(table, nameCol, resourceType, names, namespace, runIDs, now);
    hide Parse, Text, Runs, Fits;
    UpdatedIsMarked(table, nameCol, resourceType, names, namespace, runIDs, now, t.vms, log);
    UpdatedIsMarked(table, nameCol, resourceType, names, namespace, runIDs, now, t.resources, log);
    hide Updated, MarkedRows;
  }

  lemma UpdatedIsMarked(table: string, nameCol: string, resourceType: string, names: seq<string>, namespace: string,
                        runIDs: seq<string>, now: string, rows: seq<Row>, log: Executions)
    requires Fits(table, nameCol, resourceType)
    requires Runs(Shape(table, nameCol, |names|, |runIDs|, resourceType != ""),
                  Arguments(resourceType, names, namespace, runIDs, now))
    ensures Updated(Shape(table, nameCol, |names|, |runIDs|, resourceType != ""),
                    Arguments(resourceType, names, namespace, runIDs, now), rows, log)
            == MarkedRows(rows, log, resourceType, names, namespace, runIDs, now)
  {
    hide Selects, Hit, Fits, ColumnOf;
    forall i | 0 <= i < |rows| {
      SelectsIsHit(table, nameCol, resourceType, names, namespace, runIDs, now, rows[i], log);
    }
  }

  lemma ShapeDoesNotRun(table: string, nameCol: string, resourceType: string, names: nat, runIDs: nat, args: seq<string>)
    requires !HasColumn(table, nameCol) || (resourceType != "" && !HasColumn(table, "resource_type"))
    ensures !Runs(Shape(table, nameCol, names, runIDs, resourceType != ""), args)
  {
    hide HasColumn;
    var s := Shape(table, nameCol, names, runIDs, resourceType != "");
    if !HasColumn(table, nameCol) {
      assert ColumnIn(nameCol, names) in s.where && !Resolves(s.table, ColumnIn(nameCol, names));
    } else {
      assert s.where[3] == ResourceTypeIs;
      assert ResourceTypeIs in s.where && !Resolves(s.table, ResourceTypeIs);
    }
  }

  lemma QueryRefused(table: string, nameCol: string, resourceType: string, names: nat, runIDs: nat, args: seq<string>,
                     t: Tables, log: Executions)
    requires !HasColumn(table, nameCol) || (resourceType != "" && !HasColumn(table, "resource_type"))
    ensures Executed(Text(Shape(table, nameCol, names, runIDs, resourceType != "")), args, t, log) == None
  {
    TextParses(Shape(table, nameCol, names, runIDs, resourceType != ""));
    ShapeDoesNotRun(table, nameCol, resourceType, names, runIDs, args);
    hide Parse, Text, HasColumn, Runs, Shape;
  }
}
