/**
  The query descriptor: the one unit of work that the builder accumulates,
  the compiler turns into a parameterised statement and the `/api/db`
  gateway admits or refuses (the `QueryState`, `QueryFilter` and
  `QueryResult` types of `src/lib/supabaseClient.ts`).
 */
module Query {
  import opened Wrappers

  /** A JSON-like cell, filter or parameter value. */
  datatype Value = Undefined | Null | Bool(b: bool) | Num(n: int) | Str(s: string)

  /** A record: its fields in `Object.keys` order. */
  type Record = seq<(string, Value)>

  /** `Object.keys(r)` */
  function Keys(r: Record): (ks: seq<string>)
    ensures |ks| == |r| && forall i :: 0 <= i < |r| ==> ks[i] == r[i].0
  {
    seq(|r|, i requires 0 <= i < |r| => r[i].0)
  }

  /** `r[k]`: the value of field `k`, or `undefined` when the record has none. */
  function Get(r: Record, k: string): Value {
    if |r| == 0 then Undefined else if r[0].0 == k then r[0].1 else Get(r[1..], k)
  }

  /** An operator name outside the six that `operatorMap` knows. */
  type UnknownOpName = name: string | name !in ["eq", "neq", "gt", "gte", "lt", "lte"] witness "like"

  /**
    The six comparison operators a filter can use, and any other name a
    descriptor received from a client may carry.
   */
  datatype FilterOp = Eq | Neq | Gt | Gte | Lt | Lte | OtherOp(name: UnknownOpName)

  datatype Filter = Filter(column: string, op: FilterOp, value: Value)

  datatype OrderBy = OrderBy(column: string, ascending: bool)

  /** An action name outside the six of `QueryState`. */
  type UnknownActionName = name: string | name !in ["select", "insert", "update", "upsert", "delete", "rpc"] witness "count"

  /**
    The descriptor's action.  A body that reaches the gateway is untyped
    JSON, so it may carry an action string outside the six; `Other` holds it.
   */
  datatype Action = Select | Insert | Update | Upsert | Delete | Rpc | Other(name: UnknownActionName)

  predicate IsWrite(a: Action) {
    a == Insert || a == Update || a == Upsert || a == Delete
  }

  /** The `data` payload: absent, one record, or an array of records. */
  datatype Data = NoData | One(record: Record) | Many(records: seq<Record>)

  /**
    The descriptor.  `selectColumns` and `rpcName` are only ever checked for
    truthiness, so an absent one is the empty string; `limit` and `offset`
    are compared with `undefined`, so they are options.  Unlike `action`,
    `limit`, `offset` and `filters` are typed here: a JSON body that gives
    `limit` as a string or leaves out `filters` is not represented.
   */
  datatype QueryState = QueryState(
    action: Action,
    table: string,
    filters: seq<Filter>,
    selectColumns: string,
    orderBy: Option<OrderBy>,
    limit: Option<int>,
    offset: Option<int>,
    data: Data,
    single: bool,
    maybeSingle: bool,
    rpcName: string,
    rpcParams: Option<Record>)

  /** A fresh descriptor bound to `table` (the builder's constructor state). */
  function Fresh(table: string): (s: QueryState)
    ensures s.action == Select && s.table == table && s.filters == []
  {
    QueryState(Select, table, [], "", None, None, None, NoData, false, false, "", None)
  }

  /** What a result's `data` field holds. */
  datatype Payload = NullData | OneRow(row: Record) | Rows(rows: seq<Record>)

  /** `{ data, error }`; `error` holds the message when there is one. */
  datatype QueryResult = QueryResult(data: Payload, error: Option<string>)
}
