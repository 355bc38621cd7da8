/**
  The server-side compiler of `src/lib/supabaseClient.ts`: a descriptor
  becomes one parameterised SQL statement (text plus bound values) or an
  immediate result.  The store call `client.query` is abstracted into the
  reply it gives, so the compiler is a function of the descriptor and that
  reply.  Only values are bound; table and column names are interpolated
  between back-quotes.
 */
module Compiler {
  import opened Wrappers
  import opened Text
  import opened Query

  // ---------------------------------------------------------------------
  // WHERE clause

  /** `operatorMap[filter.operator]`: a name outside the map reads as `undefined`. */
  function OpSymbol(op: FilterOp): (r: string)
    ensures '?' !in r
    ensures r == "undefined" <==> op.OtherOp?
  {
    match op
    case Eq => "="
    case Neq => "!="
    case Gt => ">"
    case Gte => ">="
    case Lt => "<"
    case Lte => "<="
    case OtherOp(_) => "undefined"
  }

  /** An identifier between back-quotes. */
  function Quote(id: string): string {
    "`" + id + "`"
  }

  /** One filter's term: the quoted column, the operator and a placeholder. */
  function Term(f: Filter): string {
    Quote(f.column) + " " + OpSymbol(f.op) + " ?"
  }

  function Terms(fs: seq<Filter>): (ts: seq<string>)
    ensures |ts| == |fs| && forall i :: 0 <= i < |fs| ==> ts[i] == Term(fs[i])
  {
    seq(|fs|, i requires 0 <= i < |fs| => Term(fs[i]))
  }

  function FilterValues(fs: seq<Filter>): (vs: seq<Value>)
    ensures |vs| == |fs| && forall i :: 0 <= i < |fs| ==> vs[i] == fs[i].value
  {
    seq(|fs|, i requires 0 <= i < |fs| => fs[i].value)
  }

  function Columns(fs: seq<Filter>): (cs: seq<string>)
    ensures |cs| == |fs| && forall i :: 0 <= i < |fs| ==> cs[i] == fs[i].column
  {
    seq(|fs|, i requires 0 <= i < |fs| => fs[i].column)
  }

  /** A WHERE clause (empty when there are no filters) and the values it binds. */
  datatype Where = Where(clause: string, values: seq<Value>)

  /** The specification of `buildWhereClause`. */
  function WhereClause(fs: seq<Filter>): Where {
    if |fs| == 0 then Where("", []) else Where("WHERE " + Join(Terms(fs), " AND "), FilterValues(fs))
  }

  /** `buildWhereClause`: pushes one term and one value per filter, then joins the terms. */
  method BuildWhereClause(filters: seq<Filter>) returns (w: Where)
    ensures w == WhereClause(filters)
  {
    if |filters| == 0 {
      return Where("", []);
    }
    var clauses: seq<string> := [];
    var values: seq<Value> := [];
    var i := 0;
    while i < |filters|
      invariant 0 <= i <= |filters|
      invariant |clauses| == i && |values| == i
      invariant forall k :: 0 <= k < i ==> clauses[k] == Term(filters[k]) && values[k] == filters[k].value
    {
      var filter := filters[i];
      clauses := clauses + ["`" + filter.column + "` " + OpSymbol(filter.op) + " ?"];
      values := values + [filter.value];
      i := i + 1;
    }
    assert clauses == Terms(filters);
    assert values == FilterValues(filters);
    w := Where("WHERE " + Join(clauses, " AND "), values);
  }

  /** A text holding exactly one `?`, between two texts that hold none. */
  lemma OnePlaceholder(a: string, b: string)
    requires '?' !in a && '?' !in b
    ensures CountChar(a + "?" + b, '?') == 1
  {
    CountCharConcat(a + "?", b, '?');
    CountCharConcat(a, "?", '?');
    CountCharAbsent(a, '?');
    CountCharAbsent(b, '?');
  }

  /** A term holds one placeholder plus whatever `?` its column name holds. */
  lemma TermPlaceholders(f: Filter)
    ensures CountChar(Term(f), '?') == CountChar(f.column, '?') + 1
  {
    var tail := "` " + OpSymbol(f.op) + " ";
    assert Term(f) == "`" + f.column + (tail + "?" + "");
    CountCharConcat("`" + f.column, tail + "?" + "", '?');
    CountCharConcat("`", f.column, '?');
    CountCharAbsent("`", '?');
    OnePlaceholder(tail, "");
  }

  lemma {:induction false} TermsPlaceholders(fs: seq<Filter>)
    ensures SumCounts(Terms(fs), '?') == |fs| + SumCounts(Columns(fs), '?')
  {
    if |fs| > 0 {
      TermsPlaceholders(fs[1..]);
      assert Terms(fs)[1..] == Terms(fs[1..]);
      assert Columns(fs)[1..] == Columns(fs[1..]);
      TermPlaceholders(fs[0]);
    }
  }

  /**
    The WHERE clause: empty with no values for no filters; otherwise it
    starts with "WHERE ", binds the filter values in filter order, and
    holds one placeholder per filter plus any `?` smuggled in a column name.
   */
  lemma WhereClauseMeaning(fs: seq<Filter>)
    ensures fs == [] ==> WhereClause(fs) == Where("", [])
    ensures fs != [] ==> StartsWith(WhereClause(fs).clause, "WHERE ")
    ensures |WhereClause(fs).values| == |fs|
    ensures forall i :: 0 <= i < |fs| ==> WhereClause(fs).values[i] == fs[i].value
    ensures CountChar(WhereClause(fs).clause, '?') == |fs| + SumCounts(Columns(fs), '?')
  {
    if fs != [] {
      var body := Join(Terms(fs), " AND ");
      CountCharJoin(Terms(fs), " AND ", '?');
      TermsPlaceholders(fs);
      CountCharConcat("WHERE ", body, '?');
      CountCharAbsent("WHERE ", '?');
      assert ("WHERE " + body)[..6] == "WHERE ";
    }
  }

  // ---------------------------------------------------------------------
  // Statements

  /** SQL text and the values bound to its placeholders, in order. */
  datatype Statement = Statement(sql: string, params: seq<Value>)

  /** How the store's reply becomes the result's `data`. */
  datatype Shape =
    | GivesNull              // data: null whatever the store returns
    | Gives(payload: Payload) // data fixed by the descriptor (the written rows)
    | GivesRows              // the returned rows, or [] when the reply is not a list
    | GivesFirstRow          // the first returned row, or null

  /** Either a result decided without touching the store, or one statement to issue. */
  datatype Compiled = Immediate(result: QueryResult) | Issue(stmt: Statement, shape: Shape)

  /** The message of the TypeError `Object.keys(undefined)` throws. */
  const NoObjectMessage := "Cannot convert undefined or null to object"

  /** `Array.isArray(data) ? data : [data]`; absent data makes `Object.keys` of the first row throw. */
  function RowsOf(d: Data): Result<seq<Record>> {
    match d
    case NoData => Throws(NoObjectMessage)
    case One(r) => Ok([r])
    case Many(rs) => Ok(rs)
  }

  /** `columns.map(col => row[col])` */
  function Cells(row: Record, cols: seq<string>): (vs: seq<Value>)
    ensures |vs| == |cols| && forall j :: 0 <= j < |cols| ==> vs[j] == Get(row, cols[j])
  {
    seq(|cols|, j requires 0 <= j < |cols| => Get(row, cols[j]))
  }

  /** `rows.flatMap(row => columns.map(col => row[col]))` */
  function RowMajor(rows: seq<Record>, cols: seq<string>): seq<Value> {
    if |rows| == 0 then [] else Cells(rows[0], cols) + RowMajor(rows[1..], cols)
  }

  /** One group of bound cells per row. */
  lemma {:induction false} RowMajorLength(rows: seq<Record>, cols: seq<string>)
    ensures |RowMajor(rows, cols)| == |rows| * |cols|
  {
    if |rows| > 0 {
      RowMajorLength(rows[1..], cols);
      assert |rows| * |cols| == |cols| + (|rows| - 1) * |cols|;
    }
  }

  lemma MulSucc(i: nat, c: nat)
    requires i > 0
    ensures i * c == c + (i - 1) * c
  {
  }

  lemma MulBound(i: nat, n: nat, c: nat, j: nat)
    requires i < n && j < c
    ensures i * c + j < n * c
  {
    assert i * c <= (n - 1) * c;
    MulSucc(n, c);
  }

  /** The bound cells are laid out row by row: cell (i, j) sits at i * c + j. */
  lemma {:induction false} RowMajorLayout(rows: seq<Record>, cols: seq<string>, i: nat, j: nat)
    requires i < |rows| && j < |cols|
    ensures i * |cols| + j < |RowMajor(rows, cols)|
    ensures RowMajor(rows, cols)[i * |cols| + j] == Get(rows[i], cols[j])
  {
    RowMajorLength(rows, cols);
    MulBound(i, |rows|, |cols|, j);
    if i > 0 {
      var k := (i - 1) * |cols| + j;
      RowMajorLayout(rows[1..], cols, i - 1, j);
      MulSucc(i, |cols|);
      var all := RowMajor(rows, cols);
      var head := Cells(rows[0], cols);
      var rest := RowMajor(rows[1..], cols);
      assert all == head + rest;
      assert all[|head| + k] == rest[k];
      assert rows[1..][i - 1] == rows[i];
    }
  }

  /** The row-major position of cell (i, j) when every row has c cells. */
  function Pos(i: nat, c: nat, j: nat): nat {
    i * c + j
  }

  /** Every cell of every row, at its row-major position. */
  lemma RowMajorCells(rows: seq<Record>, cols: seq<string>)
    ensures forall i: nat, j: nat :: i < |rows| && j < |cols| ==>
      Pos(i, |cols|, j) < |RowMajor(rows, cols)| && RowMajor(rows, cols)[Pos(i, |cols|, j)] == Get(rows[i], cols[j])
  {
    forall i: nat, j: nat | i < |rows| && j < |cols|
      ensures Pos(i, |cols|, j) < |RowMajor(rows, cols)| && RowMajor(rows, cols)[Pos(i, |cols|, j)] == Get(rows[i], cols[j])
    {
      RowMajorLayout(rows, cols, i, j);
    }
  }

  function QuotedList(cols: seq<string>): string {
    Join(seq(|cols|, j requires 0 <= j < |cols| => Quote(cols[j])), ", ")
  }

  /** `(?, ?, ...)` with one placeholder per column. */
  function RowPlaceholders(c: nat): string {
    "(" + Join(seq(c, _ => "?"), ", ") + ")"
  }

  function InsertSql(table: string, cols: seq<string>, k: nat): string {
    "INSERT INTO " + Quote(table) + " (" + QuotedList(cols) + ") VALUES "
      + Join(seq(k, _ => RowPlaceholders(|cols|)), ", ")
  }

  /** The conflict clause: every column is overwritten by the inserted value. */
  function Assignments(cols: seq<string>): (a: seq<string>)
    ensures |a| == |cols|
    ensures forall j :: 0 <= j < |cols| ==> a[j] == Quote(cols[j]) + " = VALUES(" + Quote(cols[j]) + ")"
  {
    seq(|cols|, j requires 0 <= j < |cols| => Quote(cols[j]) + " = VALUES(" + Quote(cols[j]) + ")")
  }

  function UpsertSql(table: string, cols: seq<string>, k: nat): string {
    InsertSql(table, cols, k) + " ON DUPLICATE KEY UPDATE " + Join(Assignments(cols), ", ")
  }

  function SetTerms(cols: seq<string>): (a: seq<string>)
    ensures |a| == |cols| && forall j :: 0 <= j < |cols| ==> a[j] == Quote(cols[j]) + " = ?"
  {
    seq(|cols|, j requires 0 <= j < |cols| => Quote(cols[j]) + " = ?")
  }

  function UpdateSql(table: string, cols: seq<string>, clause: string): string {
    "UPDATE " + Quote(table) + " SET " + Join(SetTerms(cols), ", ") + " " + clause
  }

  function DeleteSql(table: string, clause: string): string {
    "DELETE FROM " + Quote(table) + " " + clause
  }

  function OrderClause(o: Option<OrderBy>): string {
    match o
    case None => ""
    case Some(ob) => "ORDER BY " + Quote(ob.column) + " " + (if ob.ascending then "ASC" else "DESC")
  }

  function LimitClause(l: Option<int>): string {
    match l
    case None => ""
    case Some(n) => "LIMIT " + IntToString(n)
  }

  function OffsetClause(l: Option<int>): string {
    match l
    case None => ""
    case Some(n) => "OFFSET " + IntToString(n)
  }

  /** The selected columns; an unset (or empty) list selects every column. */
  function SelectList(s: QueryState): string {
    if s.selectColumns == "" then "*" else s.selectColumns
  }

  /** The head of a SELECT, up to and including the quoted table name. */
  function SelectHead(s: QueryState): string {
    "SELECT " + SelectList(s) + " FROM " + Quote(s.table)
  }

  /** What follows the WHERE clause: the ORDER BY, LIMIT and OFFSET pieces, each after a space. */
  function SelectTail(s: QueryState): string {
    " " + OrderClause(s.orderBy) + " " + LimitClause(s.limit) + " " + OffsetClause(s.offset)
  }

  /** The unrendered SELECT text, before trimming. */
  function RawSelect(s: QueryState, clause: string): string {
    SelectHead(s) + " " + clause + SelectTail(s)
  }

  /** The pieces joined by single spaces, then trimmed, as the template literal and `.trim()` do. */
  function SelectSql(s: QueryState, clause: string): string {
    Trim(RawSelect(s, clause))
  }

  // The three emulated stored procedures, as literal statements cut around
  // their placeholders.  Each line is spelled as a few short literals: the
  // lemmas below that show no `?` lies outside the placeholders look at the
  // characters of each literal, which the verifier manages only for short
  // ones.
  const Indent := "           "

  const IncrementHead :=
    "INSERT INTO " + "user_sessions " + "(session_id, " + "user_pseudo_id, " + "messages_sent, " + "is_active)\n"
    + Indent + "VALUES ("
  const IncrementTail :=
    ", 1, 1)\n"
    + Indent + "ON DUPLICATE " + "KEY UPDATE " + "messages_sent = " + "COALESCE(" + "messages_sent, " + "0) + 1, "
    + "is_active = 1"
  const IncrementSessionMessagesSql := IncrementHead + "?, ?" + IncrementTail

  const MessageCountsHead :=
    "SELECT " + "DATE(created_at) " + "AS date, " + "COUNT(*) " + "AS messages\n"
    + Indent + "FROM " + "messages_log\n"
    + Indent + "WHERE " + "created_at >= "
  const MessageCountsTail :=
    "\n"
    + Indent + "GROUP BY " + "DATE(created_at)\n"
    + Indent + "ORDER BY " + "DATE(created_at) " + "ASC"
  const DailyMessageCountsSql := MessageCountsHead + "?" + MessageCountsTail

  const ActiveUsersHead :=
    "SELECT " + "activity_date " + "AS date, " + "COUNT(DISTINCT " + "user_pseudo_id) " + "AS active_users\n"
    + Indent + "FROM " + "daily_activity_log\n"
    + Indent + "WHERE " + "activity_date >= "
  const ActiveUsersTail :=
    "\n"
    + Indent + "GROUP BY " + "activity_date\n"
    + Indent + "ORDER BY " + "activity_date " + "ASC"
  const DailyActiveUserCountsSql := ActiveUsersHead + "?" + ActiveUsersTail

  /** The closed set of emulated procedure names. */
  const RpcNames: set<string> :=
    {"increment_session_messages", "get_daily_message_counts", "get_daily_active_user_counts"}

  /** `rpcParams?.[key]` */
  function Param(params: Option<Record>, key: string): Value {
    match params
    case None => Undefined
    case Some(r) => Get(r, key)
  }

  function CompileRpc(name: string, params: Option<Record>): Compiled {
    if name == "increment_session_messages" then
      var sessionId := Param(params, "session_id_param");
      Issue(Statement(IncrementSessionMessagesSql, [sessionId, sessionId]), GivesNull)
    else if name == "get_daily_message_counts" then
      Issue(Statement(DailyMessageCountsSql, [Param(params, "start_date")]), GivesRows)
    else if name == "get_daily_active_user_counts" then
      Issue(Statement(DailyActiveUserCountsSql, [Param(params, "start_date")]), GivesRows)
    else
      Immediate(QueryResult(NullData, Some("RPC " + name + " not implemented")))
  }

  /** Insert, update and upsert of the rows `data` holds. */
  function CompileWrite(s: QueryState): Compiled {
    match RowsOf(s.data)
    case Throws(m) => Immediate(QueryResult(NullData, Some(m)))
    case Ok(rows) =>
      if |rows| == 0 then Immediate(QueryResult(Rows([]), None))
      else
        var cols := Keys(rows[0]);
        if s.action == Insert then
          Issue(Statement(InsertSql(s.table, cols, |rows|), RowMajor(rows, cols)), Gives(Rows(rows)))
        else if s.action == Upsert then
          Issue(Statement(UpsertSql(s.table, cols, |rows|), RowMajor(rows, cols)), Gives(Rows(rows)))
        else
          var w := WhereClause(s.filters);
          Issue(Statement(UpdateSql(s.table, cols, w.clause), Cells(rows[0], cols) + w.values), Gives(OneRow(rows[0])))
  }

  function CompileDelete(s: QueryState): Compiled {
    var w := WhereClause(s.filters);
    Issue(Statement(DeleteSql(s.table, w.clause), w.values), GivesNull)
  }

  function CompileSelect(s: QueryState): Compiled {
    var w := WhereClause(s.filters);
    Issue(Statement(SelectSql(s, w.clause), w.values),
          if s.single || s.maybeSingle then GivesFirstRow else GivesRows)
  }

  /** The statement generation of `executeServerQuery`, branch by branch in the source's order. */
  function Compile(s: QueryState): Compiled {
    if s.action == Rpc && s.rpcName != "" then CompileRpc(s.rpcName, s.rpcParams)
    else if s.action == Insert || s.action == Update || s.action == Upsert then CompileWrite(s)
    else if s.action == Delete then CompileDelete(s)
    else if s.action == Select then CompileSelect(s)
    else Immediate(QueryResult(NullData, Some("Unsupported query action")))
  }

  // ---------------------------------------------------------------------
  // Execution against an abstract store

  /** What `getMysqlClient` and `client.query` gave back for the issued statement. */
  datatype StoreReply =
    | Fetched(rows: seq<Record>)  // a result set
    | NotAList                    // an OK packet or anything that is not an array
    | Failed(message: string)     // `client.query` threw
    | NoConnection(message: string) // `getMysqlClient` threw, before the try block

  /** `executeServerQuery` either resolves to a result or, when no connection can be had, rejects. */
  datatype ServerOutcome = Resolved(result: QueryResult) | Rejected(message: string)

  function Finish(shape: Shape, reply: StoreReply): Payload {
    var fetched := if reply.Fetched? then reply.rows else [];
    match shape
    case GivesNull => NullData
    case Gives(p) => p
    case GivesRows => Rows(fetched)
    case GivesFirstRow => if |fetched| == 0 then NullData else OneRow(fetched[0])
  }

  /** `error.message || 'Database error'` */
  function ErrorMessage(m: string): (r: string)
    ensures r != ""
  {
    if m == "" then "Database error" else m
  }

  /** `executeServerQuery(state)`, with the store's reply to the compiled statement as a parameter. */
  function ExecuteServerQuery(s: QueryState, reply: StoreReply): ServerOutcome {
    if reply.NoConnection? then Rejected(reply.message)
    else
      match Compile(s)
      case Immediate(r) => Resolved(r)
      case Issue(stmt, shape) =>
        if reply.Failed? then Resolved(QueryResult(NullData, Some(ErrorMessage(reply.message))))
        else Resolved(QueryResult(Finish(shape, reply), None))
  }

  // ---------------------------------------------------------------------
  // Placeholders and bound values agree

  /** The identifiers the compiler interpolates (table, columns, keys of the first row) hold no `?`. */
  predicate Clean(s: QueryState) {
    '?' !in s.table && '?' !in s.selectColumns
    && (forall f :: f in s.filters ==> '?' !in f.column)
    && (s.orderBy.Some? ==> '?' !in s.orderBy.value.column)
    && match s.data
       case NoData => true
       case One(r) => KeysClean(r)
       case Many(rs) => rs == [] || KeysClean(rs[0])
  }

  predicate KeysClean(r: Record) {
    forall i :: 0 <= i < |r| ==> '?' !in r[i].0
  }

  lemma CountBetween(a: string, b: string, c: string, ch: char)
    requires ch !in a && ch !in c
    ensures CountChar(a + b + c, ch) == CountChar(b, ch)
  {
    CountCharConcat(a + b, c, ch);
    CountCharConcat(a, b, ch);
    CountCharAbsent(a, ch);
    CountCharAbsent(c, ch);
  }

  lemma QuotedListFree(cols: seq<string>)
    requires forall j :: 0 <= j < |cols| ==> '?' !in cols[j]
    ensures '?' !in QuotedList(cols)
  {
    JoinFree(seq(|cols|, j requires 0 <= j < |cols| => Quote(cols[j])), ", ", '?');
  }

  lemma RowPlaceholdersCount(c: nat)
    ensures CountChar(RowPlaceholders(c), '?') == c
  {
    var marks := seq(c, _ => "?");
    SumCountsUniform(marks, '?', 1);
    CountCharJoin(marks, ", ", '?');
    CountBetween("(", Join(marks, ", "), ")", '?');
  }

  lemma InsertCount(t: string, cols: seq<string>, k: nat)
    requires '?' !in t && forall j :: 0 <= j < |cols| ==> '?' !in cols[j]
    ensures CountChar(InsertSql(t, cols, k), '?') == k * |cols|
  {
    QuotedListFree(cols);
    var head := "INSERT INTO " + Quote(t) + " (" + QuotedList(cols) + ") VALUES ";
    var groups := seq(k, _ => RowPlaceholders(|cols|));
    forall i | 0 <= i < k ensures CountChar(groups[i], '?') == |cols| {
      RowPlaceholdersCount(|cols|);
    }
    SumCountsUniform(groups, '?', |cols|);
    CountCharJoin(groups, ", ", '?');
    assert InsertSql(t, cols, k) == head + Join(groups, ", ") + "";
    CountBetween(head, Join(groups, ", "), "", '?');
  }

  lemma UpsertCount(t: string, cols: seq<string>, k: nat)
    requires '?' !in t && forall j :: 0 <= j < |cols| ==> '?' !in cols[j]
    ensures CountChar(UpsertSql(t, cols, k), '?') == k * |cols|
  {
    var keyword := " ON DUPLICATE KEY UPDATE ";
    InsertCount(t, cols, k);
    JoinFree(Assignments(cols), ", ", '?');
    CountCharAbsent(keyword, '?');
    CountCharAbsent(Join(Assignments(cols), ", "), '?');
    CountCharConcat(InsertSql(t, cols, k), keyword, '?');
    CountCharConcat(InsertSql(t, cols, k) + keyword, Join(Assignments(cols), ", "), '?');
  }

  /** With clean filter columns the WHERE clause holds exactly one placeholder per filter. */
  lemma CleanWhereCount(fs: seq<Filter>)
    requires forall f :: f in fs ==> '?' !in f.column
    ensures CountChar(WhereClause(fs).clause, '?') == |fs|
  {
    WhereClauseMeaning(fs);
    var cs := Columns(fs);
    forall i | 0 <= i < |cs| ensures CountChar(cs[i], '?') == 0 {
      assert fs[i] in fs;
      CountCharAbsent(cs[i], '?');
    }
    SumCountsUniform(cs, '?', 0);
  }

  lemma UpdateCount(t: string, cols: seq<string>, clause: string)
    requires '?' !in t && forall j :: 0 <= j < |cols| ==> '?' !in cols[j]
    ensures CountChar(UpdateSql(t, cols, clause), '?') == |cols| + CountChar(clause, '?')
  {
    var sets := SetTerms(cols);
    forall j | 0 <= j < |cols| ensures CountChar(sets[j], '?') == 1 {
      assert sets[j] == Quote(cols[j]) + " = " + "?" + "";
      OnePlaceholder(Quote(cols[j]) + " = ", "");
    }
    SumCountsUniform(sets, '?', 1);
    CountCharJoin(sets, ", ", '?');
    var head := "UPDATE " + Quote(t) + " SET ";
    assert UpdateSql(t, cols, clause) == head + (Join(sets, ", ") + " " + clause) + "";
    CountBetween(head, Join(sets, ", ") + " " + clause, "", '?');
    CountCharConcat(Join(sets, ", ") + " ", clause, '?');
    CountCharConcat(Join(sets, ", "), " ", '?');
  }

  lemma DeleteCount(t: string, clause: string)
    requires '?' !in t
    ensures CountChar(DeleteSql(t, clause), '?') == CountChar(clause, '?')
  {
    assert DeleteSql(t, clause) == "DELETE FROM " + Quote(t) + " " + clause + "";
    CountBetween("DELETE FROM " + Quote(t) + " ", clause, "", '?');
  }

  /** The ORDER BY, LIMIT and OFFSET pieces hold no placeholder. */
  lemma TailFree(s: QueryState)
    requires s.orderBy.Some? ==> '?' !in s.orderBy.value.column
    ensures '?' !in SelectTail(s)
  {
    if s.limit.Some? {
      var r := IntToString(s.limit.value);
      assert forall k :: 0 <= k < |r| ==> r[k] != '?';
    }
    if s.offset.Some? {
      var r := IntToString(s.offset.value);
      assert forall k :: 0 <= k < |r| ==> r[k] != '?';
    }
  }

  lemma SelectCount(s: QueryState, clause: string)
    requires '?' !in s.table && '?' !in s.selectColumns
    requires s.orderBy.Some? ==> '?' !in s.orderBy.value.column
    ensures CountChar(SelectSql(s, clause), '?') == CountChar(clause, '?')
  {
    TailFree(s);
    CountBetween(SelectHead(s) + " ", clause, SelectTail(s), '?');
    TrimCount(RawSelect(s, clause), '?');
  }

  lemma IncrementHeadFree() ensures '?' !in IncrementHead {}
  lemma IncrementTailFree() ensures '?' !in IncrementTail {}
  lemma MessageCountsHeadFree() ensures '?' !in MessageCountsHead {}
  lemma MessageCountsTailFree() ensures '?' !in MessageCountsTail {}
  lemma ActiveUsersHeadFree() ensures '?' !in ActiveUsersHead {}
  lemma ActiveUsersTailFree() ensures '?' !in ActiveUsersTail {}

  lemma IncrementCount()
    ensures CountChar(IncrementSessionMessagesSql, '?') == 2
  {
    assert "?, ?" == "?" + (", " + "?" + "");
    OnePlaceholder(", ", "");
    CountCharConcat("?", ", ?", '?');
    IncrementHeadFree();
    IncrementTailFree();
    CountBetween(IncrementHead, "?, ?", IncrementTail, '?');
  }

  lemma MessageCountsCount()
    ensures CountChar(DailyMessageCountsSql, '?') == 1
  {
    MessageCountsHeadFree();
    MessageCountsTailFree();
    CountBetween(MessageCountsHead, "?", MessageCountsTail, '?');
  }

  lemma ActiveUsersCount()
    ensures CountChar(DailyActiveUserCountsSql, '?') == 1
  {
    ActiveUsersHeadFree();
    ActiveUsersTailFree();
    CountBetween(ActiveUsersHead, "?", ActiveUsersTail, '?');
  }

  lemma RpcCount(name: string, params: Option<Record>)
    ensures CompileRpc(name, params).Issue? ==>
      CountChar(CompileRpc(name, params).stmt.sql, '?') == |CompileRpc(name, params).stmt.params|
  {
    IncrementCount();
    MessageCountsCount();
    ActiveUsersCount();
  }

  /**
    Every issued statement binds exactly one value per placeholder, as long
    as the interpolated identifiers hold no `?`.
   */
  lemma PlaceholdersMatchParams(s: QueryState)
    requires Clean(s)
    ensures Compile(s).Issue? ==> CountChar(Compile(s).stmt.sql, '?') == |Compile(s).stmt.params|
  {
    if s.action == Rpc && s.rpcName != "" {
      RpcCount(s.rpcName, s.rpcParams);
    } else if s.action == Insert || s.action == Update || s.action == Upsert {
      if RowsOf(s.data).Ok? && |RowsOf(s.data).value| > 0 {
        var rows := RowsOf(s.data).value;
        var cols := Keys(rows[0]);
        RowMajorLength(rows, cols);
        if s.action == Insert {
          InsertCount(s.table, cols, |rows|);
        } else if s.action == Upsert {
          UpsertCount(s.table, cols, |rows|);
        } else {
          CleanWhereCount(s.filters);
          UpdateCount(s.table, cols, WhereClause(s.filters).clause);
        }
      }
    } else if s.action == Delete {
      CleanWhereCount(s.filters);
      DeleteCount(s.table, WhereClause(s.filters).clause);
    } else if s.action == Select {
      CleanWhereCount(s.filters);
      SelectCount(s, WhereClause(s.filters).clause);
    }
  }

  // ---------------------------------------------------------------------
  // What each action compiles to and returns

  lemma PrefixOf(a: string, b: string)
    ensures StartsWith(a + b, a)
  {
    assert (a + b)[..|a|] == a;
  }

  /** Insert, update and upsert without data fail with the TypeError `Object.keys` raises. */
  lemma AbsentDataFails(s: QueryState, reply: StoreReply)
    requires s.action in {Insert, Update, Upsert} && s.data == NoData && !reply.NoConnection?
    ensures ExecuteServerQuery(s, reply) == Resolved(QueryResult(NullData, Some(NoObjectMessage)))
  {
  }

  /** Insert, update and upsert of an empty list never reach the store and return `[]`. */
  lemma EmptyWriteSkipsStore(s: QueryState, reply: StoreReply)
    requires s.action in {Insert, Update, Upsert} && s.data == Many([]) && !reply.NoConnection?
    ensures Compile(s).Immediate?
    ensures ExecuteServerQuery(s, reply) == Resolved(QueryResult(Rows([]), None))
  {
  }

  /**
    Insert: the column list is the first row's keys and every row
    contributes one group of cells, in row-major order.
   */
  lemma InsertCompiles(s: QueryState, rows: seq<Record>)
    requires s.action == Insert && RowsOf(s.data) == Ok(rows) && rows != []
    ensures Compile(s).Issue? && Compile(s).shape == Gives(Rows(rows))
    ensures |Compile(s).stmt.params| == |rows| * |Keys(rows[0])|
    ensures forall i: nat, j: nat :: i < |rows| && j < |Keys(rows[0])| ==>
      Pos(i, |Keys(rows[0])|, j) < |Compile(s).stmt.params|
      && Compile(s).stmt.params[Pos(i, |Keys(rows[0])|, j)] == Get(rows[i], Keys(rows[0])[j])
  {
    var cols := Keys(rows[0]);
    assert Compile(s) == CompileWrite(s);
    assert Compile(s).stmt.params == RowMajor(rows, cols);
    RowMajorLength(rows, cols);
    RowMajorCells(rows, cols);
  }

  /** The insert statement names the quoted table, then the column list in parentheses. */
  lemma InsertNamesTable(s: QueryState, rows: seq<Record>)
    requires s.action == Insert && RowsOf(s.data) == Ok(rows) && rows != []
    ensures Compile(s).Issue?
    ensures StartsWith(Compile(s).stmt.sql, "INSERT INTO " + Quote(s.table) + " (" + QuotedList(Keys(rows[0])) + ") VALUES ")
  {
    var cols := Keys(rows[0]);
    assert Compile(s) == CompileWrite(s);
    var head := "INSERT INTO " + Quote(s.table) + " (" + QuotedList(cols) + ") VALUES ";
    var groups := Join(seq(|rows|, _ => RowPlaceholders(|cols|)), ", ");
    assert InsertSql(s.table, cols, |rows|) == head + groups;
    PrefixOf(head, groups);
  }

  /** A successful insert or upsert returns the rows it wrote, whatever the store replied. */
  lemma InsertResult(s: QueryState, rows: seq<Record>, reply: StoreReply)
    requires s.action in {Insert, Upsert} && RowsOf(s.data) == Ok(rows) && rows != []
    requires !reply.NoConnection? && !reply.Failed?
    ensures ExecuteServerQuery(s, reply) == Resolved(QueryResult(Rows(rows), None))
  {
    assert Compile(s) == CompileWrite(s);
  }

  /**
    Upsert is the insert of the same rows, with the same bound values,
    followed by a conflict clause that overwrites every column.
   */
  lemma UpsertExtendsInsert(s: QueryState, rows: seq<Record>)
    requires s.action == Upsert && RowsOf(s.data) == Ok(rows) && rows != []
    ensures var ins := Compile(s.(action := Insert));
      Compile(s).Issue? && ins.Issue?
      && Compile(s).stmt.sql == ins.stmt.sql + " ON DUPLICATE KEY UPDATE " + Join(Assignments(Keys(rows[0])), ", ")
      && Compile(s).stmt.params == ins.stmt.params
      && Compile(s).shape == ins.shape == Gives(Rows(rows))
  {
  }

  /**
    Update: one SET term per key of the first row, bound to that row's
    values and followed by the filter values; later rows play no part and
    the first row is what a successful call returns.
   */
  lemma UpdateCompiles(s: QueryState, rows: seq<Record>)
    requires s.action == Update && RowsOf(s.data) == Ok(rows) && rows != []
    ensures Compile(s).Issue? && Compile(s).shape == Gives(OneRow(rows[0]))
    ensures StartsWith(Compile(s).stmt.sql, "UPDATE " + Quote(s.table) + " SET ")
    ensures var cols := Keys(rows[0]); var ps := Compile(s).stmt.params;
      |ps| == |cols| + |s.filters|
      && (forall j :: 0 <= j < |cols| ==> ps[j] == Get(rows[0], cols[j]))
      && (forall i :: 0 <= i < |s.filters| ==> ps[|cols| + i] == s.filters[i].value)
  {
    var cols := Keys(rows[0]);
    var w := WhereClause(s.filters);
    WhereClauseMeaning(s.filters);
    PrefixOf("UPDATE " + Quote(s.table) + " SET ", Join(SetTerms(cols), ", ") + " " + w.clause);
    assert UpdateSql(s.table, cols, w.clause)
      == "UPDATE " + Quote(s.table) + " SET " + (Join(SetTerms(cols), ", ") + " " + w.clause);
  }

  lemma UpdateIgnoresLaterRows(s: QueryState, first: Record, more: seq<Record>)
    requires s.action == Update
    ensures Compile(s.(data := Many([first] + more))) == Compile(s.(data := One(first)))
  {
  }

  /** Delete: the filters' WHERE clause and values; without filters the statement deletes every row. */
  lemma DeleteCompiles(s: QueryState)
    requires s.action == Delete
    ensures Compile(s).Issue? && Compile(s).shape == GivesNull
    ensures StartsWith(Compile(s).stmt.sql, "DELETE FROM " + Quote(s.table) + " ")
    ensures Compile(s).stmt.params == FilterValues(s.filters)
    ensures s.filters == [] ==> Compile(s).stmt == Statement("DELETE FROM " + Quote(s.table) + " ", [])
  {
    PrefixOf("DELETE FROM " + Quote(s.table) + " ", WhereClause(s.filters).clause);
  }

  lemma HeadEnds(s: QueryState)
    ensures |SelectHead(s)| > 0 && SelectHead(s)[0] == 'S' && SelectHead(s)[|SelectHead(s)| - 1] == '`'
  {
  }

  lemma SelectHeadKept(s: QueryState, clause: string)
    ensures StartsWith(SelectSql(s, clause), SelectHead(s))
  {
    var head := SelectHead(s);
    var x := RawSelect(s, clause);
    HeadEnds(s);
    assert x[0..|head|] == head;
    TrimKeepsAt(x, 0, |head|);
  }

  lemma StarHead(s: QueryState)
    requires s.selectColumns == ""
    ensures SelectHead(s) == "SELECT * FROM " + Quote(s.table)
  {
    assert "SELECT " + "*" + " FROM " == "SELECT * FROM ";
  }

  lemma OrderEnds(o: Option<OrderBy>)
    requires o.Some?
    ensures |OrderClause(o)| > 0 && OrderClause(o)[0] == 'O' && OrderClause(o)[|OrderClause(o)| - 1] == 'C'
  {
  }

  lemma NumberEnds(word: string, n: int)
    requires word != []
    ensures var t := word + IntToString(n); |t| > 0 && t[0] == word[0] && !IsWhitespace(t[|t| - 1])
  {
    var digits := IntToString(n);
    assert (word + digits)[|word + digits| - 1] == digits[|digits| - 1];
  }

  /** Regrouping a text followed by a six-piece tail around each of the tail's three words. */
  lemma Regroup(x: string, p: string, o: string, q: string, l: string, r: string, f: string)
    ensures x + (p + o + q + l + r + f) == (x + p) + o + (q + l + r + f)
    ensures x + (p + o + q + l + r + f) == (x + p + o + q) + l + (r + f)
    ensures x + (p + o + q + l + r + f) == (x + p + o + q + l + r) + f + []
  {
  }

  lemma RawAroundOrder(s: QueryState, clause: string)
    ensures RawSelect(s, clause) == (SelectHead(s) + " " + clause + " ") + OrderClause(s.orderBy)
      + (" " + LimitClause(s.limit) + " " + OffsetClause(s.offset))
  {
    Regroup(SelectHead(s) + " " + clause, " ", OrderClause(s.orderBy), " ", LimitClause(s.limit), " ", OffsetClause(s.offset));
  }

  lemma RawAroundLimit(s: QueryState, clause: string)
    ensures RawSelect(s, clause) == (SelectHead(s) + " " + clause + " " + OrderClause(s.orderBy) + " ")
      + LimitClause(s.limit) + (" " + OffsetClause(s.offset))
  {
    Regroup(SelectHead(s) + " " + clause, " ", OrderClause(s.orderBy), " ", LimitClause(s.limit), " ", OffsetClause(s.offset));
  }

  lemma RawAroundOffset(s: QueryState, clause: string)
    ensures RawSelect(s, clause) == (SelectHead(s) + " " + clause + " " + OrderClause(s.orderBy) + " "
      + LimitClause(s.limit) + " ") + OffsetClause(s.offset) + []
  {
    Regroup(SelectHead(s) + " " + clause, " ", OrderClause(s.orderBy), " ", LimitClause(s.limit), " ", OffsetClause(s.offset));
  }

  lemma SelectOrderKept(s: QueryState, clause: string)
    requires s.orderBy.Some?
    ensures Contains(SelectSql(s, clause), OrderClause(s.orderBy))
  {
    OrderEnds(s.orderBy);
    RawAroundOrder(s, clause);
    TrimKeeps(SelectHead(s) + " " + clause + " ", OrderClause(s.orderBy), " " + LimitClause(s.limit) + " " + OffsetClause(s.offset));
  }

  lemma SelectLimitKept(s: QueryState, clause: string)
    requires s.limit.Some?
    ensures Contains(SelectSql(s, clause), LimitClause(s.limit))
  {
    NumberEnds("LIMIT ", s.limit.value);
    RawAroundLimit(s, clause);
    TrimKeeps(SelectHead(s) + " " + clause + " " + OrderClause(s.orderBy) + " ", LimitClause(s.limit), " " + OffsetClause(s.offset));
  }

  lemma SelectOffsetKept(s: QueryState, clause: string)
    requires s.offset.Some?
    ensures Contains(SelectSql(s, clause), OffsetClause(s.offset))
  {
    NumberEnds("OFFSET ", s.offset.value);
    RawAroundOffset(s, clause);
    TrimKeeps(SelectHead(s) + " " + clause + " " + OrderClause(s.orderBy) + " " + LimitClause(s.limit) + " ", OffsetClause(s.offset), []);
  }

  /** Select binds exactly the filter values; `single` and `maybeSingle` keep only the first row. */
  lemma SelectCompiles(s: QueryState)
    requires s.action == Select
    ensures Compile(s).Issue?
    ensures Compile(s).shape == if s.single || s.maybeSingle then GivesFirstRow else GivesRows
    ensures Compile(s).stmt.params == FilterValues(s.filters)
    ensures Compile(s).stmt.sql == SelectSql(s, WhereClause(s.filters).clause)
  {
    WhereClauseMeaning(s.filters);
    assert Compile(s) == CompileSelect(s);
  }

  /**
    The SELECT text starts with the column list (all columns when none
    was chosen) and the quoted table, and keeps every ORDER BY, LIMIT and
    OFFSET piece the descriptor asks for.
   */
  lemma SelectText(s: QueryState, clause: string)
    ensures StartsWith(SelectSql(s, clause), "SELECT " + SelectList(s) + " FROM " + Quote(s.table))
    ensures s.selectColumns == "" ==> StartsWith(SelectSql(s, clause), "SELECT * FROM " + Quote(s.table))
    ensures s.orderBy.Some? ==> Contains(SelectSql(s, clause), OrderClause(s.orderBy))
    ensures s.limit.Some? ==> Contains(SelectSql(s, clause), "LIMIT " + IntToString(s.limit.value))
    ensures s.offset.Some? ==> Contains(SelectSql(s, clause), "OFFSET " + IntToString(s.offset.value))
  {
    SelectHeadKept(s, clause);
    if s.selectColumns == "" {
      StarHead(s);
    }
    if s.orderBy.Some? { SelectOrderKept(s, clause); }
    if s.limit.Some? { SelectLimitKept(s, clause); }
    if s.offset.Some? { SelectOffsetKept(s, clause); }
  }

  /** A select returns the store's rows; a reply that is not a list counts as no rows. */
  lemma SelectReturnsRows(s: QueryState, reply: StoreReply)
    requires s.action == Select && !s.single && !s.maybeSingle
    requires reply.Fetched? || reply.NotAList?
    ensures reply.Fetched? ==> ExecuteServerQuery(s, reply) == Resolved(QueryResult(Rows(reply.rows), None))
    ensures reply.NotAList? ==> ExecuteServerQuery(s, reply) == Resolved(QueryResult(Rows([]), None))
  {
    assert Compile(s) == CompileSelect(s);
  }

  /** With `single` or `maybeSingle` a select returns only the first row, or null when there is none. */
  lemma SelectReturnsFirstRow(s: QueryState, reply: StoreReply)
    requires s.action == Select && (s.single || s.maybeSingle)
    requires reply.Fetched? || reply.NotAList?
    ensures reply.Fetched? && reply.rows != [] ==>
      ExecuteServerQuery(s, reply) == Resolved(QueryResult(OneRow(reply.rows[0]), None))
    ensures reply.NotAList? || reply.rows == [] ==>
      ExecuteServerQuery(s, reply) == Resolved(QueryResult(NullData, None))
  {
    assert Compile(s) == CompileSelect(s);
  }

  /**
    The procedure call: only the three emulated names reach the store;
    the session counter binds its session id twice and returns null; the
    two daily reports bind the start date and return the rows.
   */
  lemma RpcCompiles(s: QueryState, reply: StoreReply)
    requires s.action == Rpc && s.rpcName != "" && !reply.NoConnection?
    ensures s.rpcName !in RpcNames ==>
      ExecuteServerQuery(s, reply) == Resolved(QueryResult(NullData, Some("RPC " + s.rpcName + " not implemented")))
    ensures s.rpcName == "increment_session_messages" ==>
      Compile(s).Issue? && Compile(s).stmt.params == [Param(s.rpcParams, "session_id_param"), Param(s.rpcParams, "session_id_param")]
      && (reply.Failed? || ExecuteServerQuery(s, reply) == Resolved(QueryResult(NullData, None)))
    ensures s.rpcName in RpcNames - {"increment_session_messages"} ==>
      Compile(s).Issue? && Compile(s).stmt.params == [Param(s.rpcParams, "start_date")]
      && (reply.Fetched? ==> ExecuteServerQuery(s, reply) == Resolved(QueryResult(Rows(reply.rows), None)))
  {
  }

  /** Any other action, and a procedure call without a name, is refused without touching the store. */
  lemma UnsupportedAction(s: QueryState, reply: StoreReply)
    requires s.action.Other? || (s.action == Rpc && s.rpcName == "")
    requires !reply.NoConnection?
    ensures ExecuteServerQuery(s, reply) == Resolved(QueryResult(NullData, Some("Unsupported query action")))
  {
  }

  /**
    A store failure inside the try block becomes an error result with a
    non-empty message; only a failure to get a connection makes the call
    reject.
   */
  lemma StoreErrorContained(s: QueryState, reply: StoreReply)
    ensures ExecuteServerQuery(s, reply).Rejected? <==> reply.NoConnection?
    ensures reply.Failed? && Compile(s).Issue? ==>
      ExecuteServerQuery(s, reply).result.data == NullData
      && ExecuteServerQuery(s, reply).result.error.Some?
      && ExecuteServerQuery(s, reply).result.error.value != ""
    ensures Compile(s).Immediate? && !reply.NoConnection? ==> ExecuteServerQuery(s, reply) == Resolved(Compile(s).result)
  {
  }
}
