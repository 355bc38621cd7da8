/**
  The fluent `QueryBuilder` of `src/lib/supabaseClient.ts`: a mutable
  descriptor that chained calls update in place.  `insert` and `rpc` run at
  once; every other chain runs when it is awaited (`then`).  Running means
  handing a merged copy of the descriptor either to the `/api/db` route (in
  a browser) or to the server compiler; which one is the `Dispatch`.
 */
module Builder {
  import opened Wrappers
  import opened Query

  /** Where `execute` sends the merged descriptor. */
  datatype Dispatch = ViaApi(state: QueryState) | InProcess(state: QueryState)

  /** `execute(overrides)`: the merged copy goes to the API route in a browser and to the server otherwise. */
  function Route(state: QueryState, isBrowser: bool): (d: Dispatch)
    ensures d.state == state
    ensures d.ViaApi? <==> isBrowser
  {
    if isBrowser then ViaApi(state) else InProcess(state)
  }

  class QueryBuilder {
    /** The descriptor accumulated so far. */
    var state: QueryState

    /** `supabase.from(table)`: a select on `table` with no filters. */
    constructor (table: string)
      ensures state == Fresh(table)
    {
      state := Fresh(table);
    }

    /** `select(columns = '*')` */
    method Select(columns: Option<string>)
      modifies this
      ensures state == old(state).(action := Query.Select, selectColumns := columns.GetOr("*"))
    {
      state := state.(action := Query.Select, selectColumns := columns.GetOr("*"));
    }

    /** `update(data)`: only records the action and the data; nothing runs yet. */
    method Update(data: Data)
      modifies this
      ensures state == old(state).(action := Query.Update, data := data)
    {
      state := state.(action := Query.Update, data := data);
    }

    /** `upsert(data)` */
    method Upsert(data: Data)
      modifies this
      ensures state == old(state).(action := Query.Upsert, data := data)
    {
      state := state.(action := Query.Upsert, data := data);
    }

    /** `delete()` */
    method Delete()
      modifies this
      ensures state == old(state).(action := Query.Delete)
    {
      state := state.(action := Query.Delete);
    }

    /**
      `eq`, `neq`, `gt`, `gte`, `lt` and `lte`: each appends one filter
      with its operator; earlier filters stay, in order.
     */
    method AddFilter(column: string, op: FilterOp, value: Value)
      modifies this
      ensures state == old(state).(filters := old(state).filters + [Filter(column, op, value)])
      ensures |state.filters| == |old(state).filters| + 1
      ensures state.filters[..|old(state).filters|] == old(state).filters
    {
      state := state.(filters := state.filters + [Filter(column, op, value)]);
    }

    /** `order(column, { ascending })`, ascending unless the option says otherwise. */
    method Order(column: string, ascending: Option<bool>)
      modifies this
      ensures state == old(state).(orderBy := Some(OrderBy(column, ascending.GetOr(true))))
      ensures ascending == None ==> state.orderBy.value.ascending
    {
      state := state.(orderBy := Some(OrderBy(column, ascending.GetOr(true))));
    }

    /** `limit(count)` */
    method Limit(count: int)
      modifies this
      ensures state == old(state).(limit := Some(count))
    {
      state := state.(limit := Some(count));
    }

    /** `range(from, to)`: the rows from `from` to `to`, both included. */
    method Range(from: int, to: int)
      modifies this
      ensures state == old(state).(offset := Some(from), limit := Some(to - from + 1))
      ensures state.offset.value + state.limit.value - 1 == to
    {
      state := state.(offset := Some(from), limit := Some(to - from + 1));
    }

    /** `maybeSingle()` */
    method MaybeSingle()
      modifies this
      ensures state == old(state).(maybeSingle := true)
    {
      state := state.(maybeSingle := true);
    }

    /** `single()` */
    method Single()
      modifies this
      ensures state == old(state).(single := true)
    {
      state := state.(single := true);
    }

    /**
      `insert(data)`: runs at once on a copy carrying the insert action and
      the data; the builder's own descriptor is left as it was.
     */
    method Insert(data: Data, isBrowser: bool) returns (d: Dispatch)
      ensures d == Route(state.(action := Query.Insert, data := data), isBrowser)
    {
      d := Route(state.(action := Query.Insert, data := data), isBrowser);
    }

    /** `rpc(name, params)`: runs at once; absent params override any stored ones. */
    method Rpc(name: string, params: Option<Record>, isBrowser: bool) returns (d: Dispatch)
      ensures d == Route(state.(action := Query.Rpc, rpcName := name, rpcParams := params), isBrowser)
    {
      d := Route(state.(action := Query.Rpc, rpcName := name, rpcParams := params), isBrowser);
    }

    /** Awaiting the builder runs the descriptor as it stands. */
    method Then(isBrowser: bool) returns (d: Dispatch)
      ensures d == Route(state, isBrowser)
    {
      d := Route(state, isBrowser);
    }
  }

  /** `supabase.rpc(name, params)`: a procedure call on the `_rpc` pseudo-table. */
  method SupabaseRpc(name: string, params: Option<Record>, isBrowser: bool) returns (d: Dispatch)
    ensures d == Route(Fresh("_rpc").(action := Query.Rpc, rpcName := name, rpcParams := params), isBrowser)
    ensures d.state.table == "_rpc"
  {
    var b := new QueryBuilder("_rpc");
    d := b.Rpc(name, params, isBrowser);
  }
}
