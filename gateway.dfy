/**
  The `/api/db` route (`src/app/api/db/route.ts`): the browser's only way
  to the store.  A posted descriptor is admitted or refused on three table
  sets, its action and (for some requests) the validity of the admin
  session; an admitted one goes to the server compiler and its result is
  mapped to an HTTP response.
 */
module Gateway {
  import opened Wrappers
  import opened Query
  import opened Compiler

  /** Tables anyone may read. */
  const PublicReadTables: set<string> := {"app_configurations"}

  /** Tables whose writes need an admin session. */
  const AdminWriteTables: set<string> :=
    {"app_configurations", "ai_media_assets", "global_statuses", "managed_demo_contacts", "ad_settings"}

  /** Every table the route serves at all. */
  const AllowedTables: set<string> := AdminWriteTables +
    {"messages_log", "daily_activity_log", "user_sessions", "user_analytics", "page_views",
     "ad_interactions", "ad_revenue_log", "user_journey_steps", "cookie_consents"}

  /** The posted body: a descriptor, or text that `request.json()` could not parse. */
  datatype Incoming = Parsed(state: QueryState) | Malformed(message: string)

  datatype Body = ErrorBody(error: string) | DataBody(data: Payload)

  datatype Response = Response(status: int, body: Body)

  /** The admission decision: refuse with a status and message, or forward to the executor. */
  datatype Gate = Refuse(status: int, message: string) | Forward

  /** The checks of the route, in its order; `sessionValid` is what `verifyAdminSession` would answer. */
  function Admit(s: QueryState, sessionValid: bool): Gate {
    if s.table !in AllowedTables then Refuse(400, "Table not allowed")
    else if s.action == Rpc then Refuse(400, "RPC not allowed via this endpoint")
    else if IsWrite(s.action) && s.table in AdminWriteTables && !sessionValid then Refuse(401, "Unauthorized")
    else if s.action == Select && s.table !in PublicReadTables && !sessionValid then Refuse(401, "Unauthorized")
    else Forward
  }

  /** `error.message || 'Database request failed'` */
  function FailureMessage(m: string): (r: string)
    ensures r != ""
    ensures m != "" ==> r == m
  {
    if m == "" then "Database request failed" else m
  }

  /** `POST /api/db`, with the store's reply to whatever statement is issued as a parameter. */
  function DbPost(req: Incoming, sessionValid: bool, reply: StoreReply): Response {
    match req
    case Malformed(m) => Response(500, ErrorBody(FailureMessage(m)))
    case Parsed(s) =>
      match Admit(s, sessionValid)
      case Refuse(status, message) => Response(status, ErrorBody(message))
      case Forward =>
        match ExecuteServerQuery(s, reply)
        case Rejected(m) => Response(500, ErrorBody(FailureMessage(m)))
        case Resolved(r) =>
          if r.error.Some? then Response(400, ErrorBody(r.error.value))
          else Response(200, DataBody(r.data))
  }

  /** The sets nest: public reads are admin tables, admin tables are allowed tables. */
  lemma TableSetsNest()
    ensures PublicReadTables <= AdminWriteTables <= AllowedTables
    ensures "_rpc" !in AllowedTables
  {
  }

  /** Default deny: a table outside the allowed set is refused whatever the action or session. */
  lemma UnknownTableRefused(s: QueryState, sessionValid: bool, reply: StoreReply)
    requires s.table !in AllowedTables
    ensures DbPost(Parsed(s), sessionValid, reply) == Response(400, ErrorBody("Table not allowed"))
  {
  }

  /** A procedure call on an allowed table is refused and never executed. */
  lemma RpcRefused(s: QueryState, sessionValid: bool, reply: StoreReply)
    requires s.table in AllowedTables && s.action == Rpc
    ensures DbPost(Parsed(s), sessionValid, reply) == Response(400, ErrorBody("RPC not allowed via this endpoint"))
  {
  }

  /** Without a valid session: writes to admin tables and reads of non-public tables are refused with 401. */
  lemma SessionRequired(s: QueryState, reply: StoreReply)
    requires s.table in AllowedTables
    requires (IsWrite(s.action) && s.table in AdminWriteTables) || (s.action == Select && s.table !in PublicReadTables)
    ensures DbPost(Parsed(s), false, reply) == Response(401, ErrorBody("Unauthorized"))
  {
  }

  /**
    Exactly the requests that pass every check reach the executor: an
    allowed table, not a procedure call, and a valid session whenever the
    request writes an admin table or reads a non-public one.
   */
  lemma ForwardExactly(s: QueryState, sessionValid: bool)
    ensures Admit(s, sessionValid) == Forward <==>
      s.table in AllowedTables && s.action != Rpc
      && (IsWrite(s.action) && s.table in AdminWriteTables ==> sessionValid)
      && (s.action == Select && s.table !in PublicReadTables ==> sessionValid)
  {
  }

  /**
    Writes to allowed tables outside the admin set (the analytics tables)
    reach the executor with no session check, and so do reads of the public
    table and descriptors with an unknown action.
   */
  lemma OpenRequests(s: QueryState, sessionValid: bool)
    requires s.table in AllowedTables
    requires (IsWrite(s.action) && s.table !in AdminWriteTables)
      || (s.action == Select && s.table in PublicReadTables)
      || s.action.Other?
    ensures Admit(s, sessionValid) == Forward
    ensures Admit(s, false) == Forward
  {
  }

  /** A valid session admits every non-procedure request on an allowed table. */
  lemma SessionAdmitsAll(s: QueryState)
    requires s.table in AllowedTables && s.action != Rpc
    ensures Admit(s, true) == Forward
  {
  }

  /**
    The procedures are closed to the gateway: what an admitted descriptor
    compiles to does not depend on any procedure name or parameters it
    carries, so no emulated procedure can run through this route.
   */
  lemma ForwardedIgnoresProcedure(s: QueryState, sessionValid: bool)
    requires Admit(s, sessionValid) == Forward
    ensures s.table in AllowedTables && s.action != Rpc
    ensures Compile(s) == Compile(s.(rpcName := "", rpcParams := None))
  {
    var t := s.(rpcName := "", rpcParams := None);
    if s.action == Insert || s.action == Update || s.action == Upsert {
      assert CompileWrite(s) == CompileWrite(t);
    } else if s.action == Delete {
      assert CompileDelete(s) == CompileDelete(t);
    } else if s.action == Select {
      assert CompileSelect(s) == CompileSelect(t);
    }
  }

  /**
    An admitted request's result: an executor error becomes 400 with its
    message, success becomes 200 with the data, and only a failure to reach
    the store becomes 500.
   */
  lemma ForwardedResponse(s: QueryState, sessionValid: bool, reply: StoreReply)
    requires Admit(s, sessionValid) == Forward
    ensures reply.NoConnection? ==> DbPost(Parsed(s), sessionValid, reply).status == 500
    ensures !reply.NoConnection? ==>
      var r := ExecuteServerQuery(s, reply).result;
      DbPost(Parsed(s), sessionValid, reply) ==
        if r.error.Some? then Response(400, ErrorBody(r.error.value)) else Response(200, DataBody(r.data))
  {
    StoreErrorContained(s, reply);
  }

  /** A body that is not JSON gives 500 with a non-empty message. */
  lemma MalformedBody(m: string, sessionValid: bool, reply: StoreReply)
    ensures DbPost(Malformed(m), sessionValid, reply).status == 500
    ensures DbPost(Malformed(m), sessionValid, reply).body.ErrorBody?
    ensures DbPost(Malformed(m), sessionValid, reply).body.error != ""
  {
  }
}
