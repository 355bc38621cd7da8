/**
  `POST /api/analytics/batch` (`src/app/api/analytics/batch/route.ts`): the
  batch-size checks, the per-event mapping to the rows the store is asked
  to write, and the success/failure accounting.  The store is not
  modelled: each event yields the list of writes it asks for, and whether
  the one store error the route inspects (the `messages_log` insert of a
  `message_sent` event) occurred is a parameter.  `toISOString` of a
  timestamp is the parameter `iso`.
 */
module Batch {
  import opened Wrappers
  import opened Text
  import opened Tracker

  /** An event as posted; `data` is `None` when `eventData` is missing. */
  datatype BatchEvent = BatchEvent(eventType: string, data: Option<map<string, Value>>, userId: string, sessionId: string, timestamp: int)

  /**
    A row as the route's object literal writes it: every column the literal
    names, with `None` where the value is `undefined`.  The route calls the
    compiler in process, and `Object.keys` keeps such a column, so it is
    bound as `undefined` (and an upsert overwrites the stored value with it).
   */
  type Row = map<string, Option<Value>>

  /** A row the route asks the store to write. */
  datatype Write =
    | Insert(table: string, row: Row)
    | Upsert(table: string, row: Row)
    | Update(table: string, row: Row, keyColumn: string, key: Value)
    | Rpc(name: string, params: map<string, Value>)
      // `updateDailyAnalytics(date, messageCount, errorCount, responseTime)`
    | RefreshDaily(date: string, messageCount: int, errorCount: int, responseTime: Value)

  /**
    How `processEvent` settles: fulfilled after its writes, or rejected
    after those it attempted.
   */
  datatype Outcome = Fulfilled(writes: seq<Write>) | Rejected(attempted: seq<Write>)

  /** JavaScript truthiness of a present value. */
  predicate Truthy(v: Value) {
    match v
    case Str(s) => s != ""
    case Num(n) => n != 0
    case Flag(b) => b
    case Obj(_) => true
  }

  function Field(d: map<string, Value>, k: string): Option<Value> {
    if k in d then Some(d[k]) else None
  }

  /** `x || fallback` */
  function Or(v: Option<Value>, fallback: Value): (r: Value)
    ensures v.Some? && Truthy(v.value) ==> r == v.value
    ensures (v.None? || !Truthy(v.value)) ==> r == fallback
  {
    if v.Some? && Truthy(v.value) then v.value else fallback
  }

  /** `new Date(timestamp).toISOString().split('T')[0]` */
  function Day(iso: int -> string, timestamp: int): string {
    Split(iso(timestamp), 'T')[0]
  }

  /** `userId || sessionId || 'anonymous_' + timestamp` */
  function PseudoId(e: BatchEvent): (r: string)
    ensures r != ""
    ensures e.userId != "" ==> r == e.userId
    ensures e.userId == "" && e.sessionId != "" ==> r == e.sessionId
    ensures e.userId == "" && e.sessionId == "" ==> StartsWith(r, "anonymous_")
  {
    if e.userId != "" then e.userId else if e.sessionId != "" then e.sessionId else "anonymous_" + IntToString(e.timestamp)
  }

  /** The `daily_activity_log` row of an event. */
  function ActivityRow(e: BatchEvent, day: string, chatId: Value): Row {
    map["user_pseudo_id" := Some(Str(PseudoId(e))), "activity_date" := Some(Str(day)), "chat_id" := Some(chatId)]
  }

  /** The `messages_log` row of a `message_sent` event, its content already cut. */
  function MessageRow(d: map<string, Value>, timestamp: int, chatId: Value, text: Option<Value>, iso: int -> string): Row {
    map["message_id" := Some(Or(Field(d, "messageId"), Str("msg_" + IntToString(timestamp)))),
        "sender_type" := Some(Or(Field(d, "senderType"), Str("user"))),
        "chat_id" := Some(chatId),
        "text_content" := text,
        "has_image" := Some(Or(Field(d, "hasImage"), Flag(false))),
        "created_at" := Some(Str(iso(timestamp)))]
  }

  /** The `ad_revenue_log` row: one impression for a view, one click for a click (the revenue estimates are not modelled). */
  function AdRow(d: map<string, Value>, day: string): Row {
    var action := Field(d, "action");
    map["date" := Some(Str(day)),
        "ad_network" := Some(Or(Field(d, "network"), Str("unknown"))),
        "ad_type" := Some(Or(Field(d, "adType"), Str("unknown"))),
        "impressions" := Some(Num(if action == Some(Str("view")) then 1 else 0)),
        "clicks" := Some(Num(if action == Some(Str("click")) then 1 else 0))]
  }

  /** The `user_analytics` row: every column of the literal, `undefined` ones included. */
  function UserAnalyticsRow(d: map<string, Value>, session: Value): Row {
    map["session_id" := Some(session), "user_pseudo_id" := Some(Or(Field(d, "userPseudoId"), session)),
        "country_code" := Field(d, "countryCode"), "country_name" := Field(d, "countryName"),
        "timezone" := Field(d, "timezone"), "device_type" := Field(d, "deviceType"),
        "browser" := Field(d, "browser"), "os" := Field(d, "os"),
        "screen_resolution" := Field(d, "screenResolution"), "language" := Field(d, "language")]
  }

  /** `eventData.details?.duration || 0` */
  function Duration(d: map<string, Value>): Value {
    var details := Field(d, "details");
    if details.Some? && details.value.Obj? then Or(Field(details.value.fields, "duration"), Num(0)) else Num(0)
  }

  /**
    `processEvent`.  Reading `eventData.chatId` with no `eventData`, and
    `substring` on a content that is not a string, throw; the only store
    error that rejects is that of the `messages_log` insert.
   */
  function ProcessEvent(e: BatchEvent, iso: int -> string, insertFails: bool): Outcome {
    if e.data.None? then Rejected([])
    else
      var d := e.data.value;
      var chatId := Or(Field(d, "chatId"), Str("kruthika_chat"));
      var day := Day(iso, e.timestamp);
      var session := Str(e.sessionId);
      if e.eventType == "message_sent" then
        var content := Field(d, "content");
        if content.Some? && !content.value.Str? then Rejected([])
        else
          var text := if content.Some? then Some(Str(Truncate(content.value.s))) else None;
          var insert := Insert("messages_log", MessageRow(d, e.timestamp, chatId, text, iso));
          if insertFails then Rejected([insert])
          else Fulfilled([insert, Upsert("daily_activity_log", ActivityRow(e, day, chatId)),
                          RefreshDaily(day, if Field(d, "senderType") == Some(Str("user")) then 1 else 0, 0, Num(0))])
      else if e.eventType == "session_start" || e.eventType == "session_resume" then
        Fulfilled([Upsert("daily_activity_log", ActivityRow(e, day, chatId))])
      else if e.eventType == "ad_interaction" then
        Fulfilled([Upsert("ad_revenue_log", AdRow(d, day))])
      else if e.eventType == "image_shared" then
        Fulfilled([Insert("messages_log",
          map["message_id" := Some(Str("img_" + IntToString(e.timestamp))), "sender_type" := Some(Str("user")),
              "chat_id" := Some(chatId), "text_content" := Some(Str("Image shared")), "has_image" := Some(Flag(true)),
              "created_at" := Some(Str(iso(e.timestamp)))])])
      else if e.eventType == "page_view" then
        Fulfilled([Insert("page_views",
          map["session_id" := Some(session), "page_path" := Field(d, "page"), "page_title" := Field(d, "title"),
              "referrer" := Field(d, "referrer")])])
      else if e.eventType == "user_action" then
        Fulfilled(if Field(d, "action") == Some(Str("performance_metric")) then [RefreshDaily(day, 0, 0, Duration(d))] else [])
      else if e.eventType == "cookie_consent" then
        Fulfilled([Insert("cookie_consents",
          map["session_id" := Some(session),
              "necessary" := Field(d, "necessary"), "analytics" := Field(d, "analytics"),
              "advertising" := Field(d, "advertising"), "personalization" := Field(d, "personalization"),
              "ai_learning" := Some(Or(Field(d, "aiLearning"), Flag(false))),
              "intimacy_level" := Some(Or(Field(d, "intimacyLevel"), Flag(false)))])])
      else if e.eventType == "journey_step" then
        Fulfilled([Insert("user_journey_steps",
          map["session_id" := Some(session), "step_name" := Field(d, "stepName"), "step_order" := Field(d, "stepOrder"),
              "page_path" := Field(d, "pagePath")])])
      else if e.eventType == "session_update" then
        Fulfilled([Update("user_sessions",
          map["ended_at" := Field(d, "endedAt"), "duration_seconds" := Field(d, "durationSeconds"),
              "is_active" := Field(d, "isActive")],
          "session_id", session)])
      else if e.eventType == "session_message_increment" then
        Fulfilled([Rpc("increment_session_messages", map["session_id_param" := session])])
      else if e.eventType == "user_analytics" then
        Fulfilled([Upsert("user_analytics",
          UserAnalyticsRow(d, session))])
      else Fulfilled([])
  }

  /** The event types `processEvent` has a case for. */
  const KnownTypes := {"message_sent", "session_start", "session_resume", "ad_interaction", "image_shared", "page_view",
                       "user_action", "cookie_consent", "journey_step", "session_update", "session_message_increment",
                       "user_analytics"}

  // ---------------------------------------------------------------------
  // The route

  /** The sanitized `events` member: an array, or anything else. */
  datatype Events = NotArray | Events(list: seq<BatchEvent>)

  /** The body: JSON that `request.json()` could not parse, or the sanitized `events` and `sessionId`. */
  datatype Body = Unparsable(message: string) | Posted(events: Events, sessionId: string)

  /** The verdict of the POST-data validation, which is not part of this model; "" is a missing message. */
  datatype Verdict = Accepted | Refused(error: string)

  datatype BatchReply =
    | Blocked
    | Error(status: int, error: string)
    | Summary(processed: nat, successful: nat, failed: nat, sessionId: string)

  const MaxBatch := 100

  /** Every event processed, in order; `insertFails(i)` says whether event `i`'s message insert fails. */
  function Outcomes(events: seq<BatchEvent>, iso: int -> string, insertFails: nat -> bool): (r: seq<Outcome>)
    ensures |r| == |events|
    ensures forall i :: 0 <= i < |events| ==> r[i] == ProcessEvent(events[i], iso, insertFails(i))
  {
    seq(|events|, i requires 0 <= i < |events| => ProcessEvent(events[i], iso, insertFails(i)))
  }

  function CountFulfilled(rs: seq<Outcome>): nat {
    if |rs| == 0 then 0 else (if rs[0].Fulfilled? then 1 else 0) + CountFulfilled(rs[1..])
  }

  function CountRejected(rs: seq<Outcome>): nat {
    if |rs| == 0 then 0 else (if rs[0].Rejected? then 1 else 0) + CountRejected(rs[1..])
  }

  /** `POST` */
  function BatchPost(securityBlocks: bool, apiSecurityBlocks: bool, dbConfigured: bool, body: Body, verdict: Verdict,
                     iso: int -> string, insertFails: nat -> bool): BatchReply {
    if securityBlocks || apiSecurityBlocks then Blocked
    else if !dbConfigured then Error(500, "Database not configured")
    else
      match body
      case Unparsable(_) => Error(500, "Failed to process batch events")
      case Posted(events, sessionId) =>
        if verdict.Refused? then Error(400, if verdict.error == "" then "Invalid request" else verdict.error)
        else if events.NotArray? || |events.list| == 0 then Error(400, "No events provided")
        else if |events.list| > MaxBatch then Error(400, "Batch size too large. Maximum 100 events per request.")
        else
          var rs := Outcomes(events.list, iso, insertFails);
          Summary(|events.list|, CountFulfilled(rs), CountRejected(rs), sessionId)
  }

  // ---------------------------------------------------------------------
  // Lemmas

  lemma {:induction false} CountsAddUp(rs: seq<Outcome>)
    ensures CountFulfilled(rs) + CountRejected(rs) == |rs|
  {
    if |rs| > 0 {
      CountsAddUp(rs[1..]);
    }
  }

  /** Every event counts as successful exactly when none was rejected. */
  lemma {:induction false} AllFulfilled(rs: seq<Outcome>)
    ensures CountFulfilled(rs) == |rs| <==> forall i :: 0 <= i < |rs| ==> rs[i].Fulfilled?
    ensures CountRejected(rs) == 0 <==> forall i :: 0 <= i < |rs| ==> rs[i].Fulfilled?
  {
    if |rs| > 0 {
      AllFulfilled(rs[1..]);
      CountsAddUp(rs[1..]);
      assert forall i :: 1 <= i < |rs| ==> rs[i] == rs[1..][i - 1];
    }
  }

  /**
    No events, or a value that is not an array, gives 400; more than 100
    gives 400; 1 to 100 events are processed, the reply counting each one
    as successful or failed.
   */
  lemma BatchSizes(dbConfigured: bool, events: Events, sessionId: string, iso: int -> string, insertFails: nat -> bool)
    requires dbConfigured
    ensures var r := BatchPost(false, false, dbConfigured, Posted(events, sessionId), Accepted, iso, insertFails);
      (events.NotArray? || |events.list| == 0 ==> r == Error(400, "No events provided"))
      && (events.Events? && |events.list| > MaxBatch ==> r.Error? && r.status == 400)
      && (events.Events? && 1 <= |events.list| <= MaxBatch ==>
            r.Summary? && r.processed == |events.list| && r.successful + r.failed == r.processed
            && r.sessionId == sessionId
            && (r.failed == 0 <==> forall i :: 0 <= i < |events.list| ==> ProcessEvent(events.list[i], iso, insertFails(i)).Fulfilled?))
  {
    if events.Events? && 1 <= |events.list| <= MaxBatch {
      var rs := Outcomes(events.list, iso, insertFails);
      CountsAddUp(rs);
      AllFulfilled(rs);
    }
  }

  /**
    An event is rejected only when it has no data or is a `message_sent`
    event (whose content is not a string or whose insert failed); every
    other type, known or not, is fulfilled.
   */
  lemma RejectedEvents(e: BatchEvent, iso: int -> string, insertFails: bool)
    ensures ProcessEvent(e, iso, insertFails).Rejected? ==> e.data.None? || e.eventType == "message_sent"
    ensures e.data.Some? && e.eventType == "message_sent" && !insertFails
      && (Field(e.data.value, "content").None? || Field(e.data.value, "content").value.Str?)
      ==> ProcessEvent(e, iso, insertFails).Fulfilled?
  {
  }

  /**
    A field the event leaves out is still a column of the row, bound as
    `undefined`: a `user_analytics` upsert always names all ten columns,
    each of the eight copied ones holding exactly the event's field, and a
    `session_update` always sets all three columns.
   */
  lemma UndefinedFieldsBound(e: BatchEvent, iso: int -> string, insertFails: bool)
    requires e.data.Some?
    ensures var d := e.data.value;
      e.eventType == "user_analytics" ==>
        var o := ProcessEvent(e, iso, insertFails);
        o.Fulfilled? && |o.writes| == 1 && o.writes[0].Upsert?
        && o.writes[0].row.Keys == {"session_id", "user_pseudo_id", "country_code", "country_name", "timezone",
                                   "device_type", "browser", "os", "screen_resolution", "language"}
        && o.writes[0].row["country_code"] == Field(d, "countryCode")
        && o.writes[0].row["country_name"] == Field(d, "countryName")
        && o.writes[0].row["timezone"] == Field(d, "timezone")
        && o.writes[0].row["device_type"] == Field(d, "deviceType")
        && o.writes[0].row["browser"] == Field(d, "browser")
        && o.writes[0].row["os"] == Field(d, "os")
        && o.writes[0].row["screen_resolution"] == Field(d, "screenResolution")
        && o.writes[0].row["language"] == Field(d, "language")
    ensures var d := e.data.value;
      e.eventType == "session_update" ==>
        var o := ProcessEvent(e, iso, insertFails);
        o.Fulfilled? && |o.writes| == 1 && o.writes[0].Update?
        && o.writes[0].row == map["ended_at" := Field(d, "endedAt"), "duration_seconds" := Field(d, "durationSeconds"),
                                  "is_active" := Field(d, "isActive")]
  {
  }

  /** An unknown event type with data counts as a success and writes nothing. */
  lemma UnknownTypeSucceeds(e: BatchEvent, iso: int -> string, insertFails: bool)
    requires e.data.Some? && e.eventType !in KnownTypes
    ensures ProcessEvent(e, iso, insertFails) == Fulfilled([])
  {
  }

  /**
    A `message_sent` event logs the message with the defaults filled in:
    message id "msg_<timestamp>", sender "user", chat "kruthika_chat", no
    image, and content cut to its first 500 characters; then the
    activity of its pseudo-id for the day.
   */
  lemma MessageDefaults(e: BatchEvent, iso: int -> string, content: string)
    requires e.eventType == "message_sent" && e.data == Some(map["content" := Str(content)])
    ensures var o := ProcessEvent(e, iso, false);
      var day := Day(iso, e.timestamp);
      o.Fulfilled? && |o.writes| == 3
      && o.writes[0] == Insert("messages_log", map[
           "message_id" := Some(Str("msg_" + IntToString(e.timestamp))), "sender_type" := Some(Str("user")),
           "chat_id" := Some(Str("kruthika_chat")), "text_content" := Some(Str(Truncate(content))),
           "has_image" := Some(Flag(false)), "created_at" := Some(Str(iso(e.timestamp)))])
      && o.writes[1] == Upsert("daily_activity_log", map[
           "user_pseudo_id" := Some(Str(PseudoId(e))), "activity_date" := Some(Str(day)),
           "chat_id" := Some(Str("kruthika_chat"))])
      && o.writes[2] == RefreshDaily(day, 0, 0, Num(0))
  {
  }

  /** An ad interaction is one impression for "view", one click for "click", never both. */
  lemma AdCountsExclusive(d: map<string, Value>, day: string)
    ensures var row := AdRow(d, day);
      var imp := row["impressions"];
      var clk := row["clicks"];
      imp.Some? && imp.value.Num? && clk.Some? && clk.value.Num?
      && (imp.value.n == 1 <==> Field(d, "action") == Some(Str("view")))
      && (clk.value.n == 1 <==> Field(d, "action") == Some(Str("click")))
      && imp.value.n + clk.value.n <= 1
      && imp.value.n >= 0 && clk.value.n >= 0
  {
  }

  // ---------------------------------------------------------------------
  // Daily active users

  /** The distinct pseudo-ids among a day's `daily_activity_log` rows. */
  function Dau(ids: seq<string>): (n: nat)
  {
    |set id | id in ids|
  }

  /** Adding a row adds one active user exactly when its pseudo-id is new. */
  lemma DauAppend(ids: seq<string>, id: string)
    ensures Dau(ids + [id]) == Dau(ids) + (if id in ids then 0 else 1)
  {
    var before := set x | x in ids;
    var after := set x | x in ids + [id];
    assert after == before + {id};
  }

  /** The count of active users never exceeds the number of rows, and equals it when no id repeats. */
  lemma {:induction false} DauBounds(ids: seq<string>)
    ensures Dau(ids) <= |ids|
    ensures (forall i, j :: 0 <= i < j < |ids| ==> ids[i] != ids[j]) ==> Dau(ids) == |ids|
  {
    if |ids| > 0 {
      var init := ids[..|ids| - 1];
      assert ids == init + [ids[|ids| - 1]];
      DauBounds(init);
      DauAppend(init, ids[|ids| - 1]);
    }
  }
}
