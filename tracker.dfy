/**
  The browser-side analytics tracker (`src/lib/analytics-tracker.ts`): an
  in-memory event queue that is flushed to `/api/analytics/batch` in one
  snapshot, and put back at the front when the send fails; and the two
  user-agent classifiers.

  The send is asynchronous: `flushEvents` takes its snapshot and empties
  the queue at once, and the outcome arrives later.  The model keeps the
  snapshots whose outcome is still open in `sending`, and the ones whose
  send went through in `delivered`; `Resolve` is the arrival of one
  outcome.  The clock is the parameter `now`.
 */
module Tracker {
  import opened Wrappers
  import opened Text

  /** A JSON value inside `eventData` (numbers are whole). */
  datatype Value = Str(s: string) | Num(n: int) | Flag(b: bool) | Obj(fields: map<string, Value>)

  /**
    An `AnalyticsEvent`.  A missing `eventType`, `userId` or `sessionId` is
    "", a missing `timestamp` is 0 (all falsy, as the source tests them),
    and missing `eventData` is `None`.
   */
  datatype Event = Event(eventType: string, data: Option<map<string, Value>>, userId: string, sessionId: string, timestamp: int)

  /** Queue length at which a tracked event triggers a flush. */
  const FlushThreshold := 50

  /** Characters of message content a `message_sent` event keeps. */
  const MaxContent := 500

  /**
    The queue, the snapshots sent and not yet answered (oldest first), and
    the events whose send completed.
   */
  datatype Buffer = Buffer(queue: seq<Event>, sending: seq<seq<Event>>, delivered: seq<Event>)

  function Flatten(ss: seq<seq<Event>>): seq<Event> {
    if |ss| == 0 then [] else ss[0] + Flatten(ss[1..])
  }

  /** Every event the tracker holds or has delivered. */
  function Held(b: Buffer): seq<Event> {
    b.delivered + Flatten(b.sending) + b.queue
  }

  /** The missing `userId`, `sessionId` and `timestamp` filled in from the tracker and the clock. */
  function Filled(e: Event, userId: string, sessionId: string, now: int): (f: Event)
    ensures f.eventType == e.eventType && f.data == e.data
    ensures f.userId == (if e.userId != "" then e.userId else userId)
    ensures f.sessionId == (if e.sessionId != "" then e.sessionId else sessionId)
    ensures f.timestamp == (if e.timestamp != 0 then e.timestamp else now)
  {
    e.(userId := if e.userId == "" then userId else e.userId,
       sessionId := if e.sessionId == "" then sessionId else e.sessionId,
       timestamp := if e.timestamp == 0 then now else e.timestamp)
  }

  /** `flushEvents`, up to its first `await`: the whole queue becomes one snapshot in flight. */
  function Flush(b: Buffer): Buffer {
    if |b.queue| == 0 then b else Buffer([], b.sending + [b.queue], b.delivered)
  }

  /** The push in `trackEvent`, and the flush that follows it for a `session_start` or a full queue. */
  function Enqueue(b: Buffer, f: Event): Buffer {
    var pushed := b.(queue := b.queue + [f]);
    if f.eventType == "session_start" || |pushed.queue| >= FlushThreshold then Flush(pushed) else pushed
  }

  /** `trackEvent`: nothing when tracking is off or the event has no type or no data. */
  function Track(b: Buffer, enabled: bool, userId: string, sessionId: string, e: Event, now: int): Buffer {
    if !enabled || e.eventType == "" || e.data.None? then b
    else Enqueue(b, Filled(e, userId, sessionId, now))
  }

  /** Several `trackEvent` calls in a row. */
  function TrackAll(b: Buffer, enabled: bool, userId: string, sessionId: string, es: seq<Event>, now: int): Buffer
    decreases |es|
  {
    if |es| == 0 then b else TrackAll(Track(b, enabled, userId, sessionId, es[0], now), enabled, userId, sessionId, es[1..], now)
  }

  /**
    The outcome of snapshot `i` arrives: a send that threw puts the
    snapshot back at the front of the queue, in its order and ahead of
    whatever was queued since; otherwise it is delivered.
   */
  function Resolve(b: Buffer, i: nat, failed: bool): Buffer
    requires i < |b.sending|
  {
    var rest := b.sending[..i] + b.sending[i + 1..];
    if failed then Buffer(b.sending[i] + b.queue, rest, b.delivered)
    else Buffer(b.queue, rest, b.delivered + b.sending[i])
  }

  class AnalyticsTracker {
    var enabled: bool
    const userId: string
    const sessionId: string
    var queue: seq<Event>
    var sending: seq<seq<Event>>
    var delivered: seq<Event>

    function State(): Buffer
      reads this
    {
      Buffer(queue, sending, delivered)
    }

    /** A tracker for a user and a session, with tracking off until consent turns it on. */
    constructor (userId: string, sessionId: string)
      ensures this.userId == userId && this.sessionId == sessionId
      ensures !enabled && State() == Buffer([], [], [])
    {
      this.userId := userId;
      this.sessionId := sessionId;
      enabled := false;
      queue := [];
      sending := [];
      delivered := [];
    }

    /** `enableTracking` (the consent-driven start-up events it then tracks are not modelled). */
    method EnableTracking()
      modifies this
      ensures enabled && State() == old(State())
    {
      enabled := true;
    }

    /** `disableTracking` */
    method DisableTracking()
      modifies this
      ensures !enabled && State() == old(State())
    {
      enabled := false;
    }

    /** `flushEvents`, up to its first `await`. */
    method FlushEvents()
      modifies this
      ensures enabled == old(enabled)
      ensures State() == Flush(old(State()))
    {
      if |queue| == 0 {
        return;
      }
      var eventsToSend := queue;
      queue := [];
      sending := sending + [eventsToSend];
    }

    /** `trackEvent` */
    method TrackEvent(e: Event, now: int)
      modifies this
      ensures enabled == old(enabled)
      ensures State() == Track(old(State()), enabled, userId, sessionId, e, now)
    {
      if !enabled {
        return;
      }
      if e.eventType == "" || e.data.None? {
        return;
      }
      var event := e;
      if event.userId == "" {
        event := event.(userId := userId);
      }
      if event.sessionId == "" {
        event := event.(sessionId := sessionId);
      }
      if event.timestamp == 0 {
        event := event.(timestamp := now);
      }
      queue := queue + [event];
      if event.eventType == "session_start" {
        FlushEvents();
      } else if |queue| >= FlushThreshold {
        FlushEvents();
      }
    }

    /** The `fetch` of snapshot `i` settles; `failed` when it threw. */
    method FinishFlush(i: nat, failed: bool)
      requires i < |sending|
      modifies this
      ensures enabled == old(enabled)
      ensures State() == Resolve(old(State()), i, failed)
    {
      var eventsToSend := sending[i];
      sending := sending[..i] + sending[i + 1..];
      if failed {
        queue := eventsToSend + queue;
      } else {
        delivered := delivered + eventsToSend;
      }
    }

    /**
      `trackMessage`: the message event (content cut to 500 characters),
      the session counter event and, for a user message, the journey steps.
      The source reads the page path from `window.location` and the session
      start from its `sessionStartTime` field; here both are parameters, as
      is the clock.
     */
    method TrackMessage(messageId: string, senderType: string, content: string, hasImage: bool,
                        pagePath: string, sessionStart: int, now: int)
      modifies this
      ensures enabled == old(enabled)
      ensures State() == TrackAll(old(State()), enabled, userId, sessionId,
        MessageEvents(userId, sessionId, messageId, senderType, content, hasImage, pagePath, sessionStart, now), now)
    {
      var es := MessageEvents(userId, sessionId, messageId, senderType, content, hasImage, pagePath, sessionStart, now);
      var i := 0;
      while i < |es|
        invariant 0 <= i <= |es| && enabled == old(enabled)
        invariant TrackAll(old(State()), enabled, userId, sessionId, es, now)
          == TrackAll(State(), enabled, userId, sessionId, es[i..], now)
      {
        TrackEvent(es[i], now);
        assert es[i..][1..] == es[i + 1..];
        i := i + 1;
      }
    }
  }

  /** `content.substring(0, 500)` */
  function Truncate(content: string): string {
    if |content| <= MaxContent then content else content[..MaxContent]
  }

  /** `trackJourneyStep(stepName, order)` */
  function JourneyStep(userId: string, sessionId: string, stepName: string, order: int, pagePath: string, now: int): Event {
    Event("journey_step", Some(map["stepName" := Str(stepName), "stepOrder" := Num(order), "pagePath" := Str(pagePath)]),
      userId, sessionId, now)
  }

  /** The events `trackMessage` tracks, in order. */
  function MessageEvents(userId: string, sessionId: string, messageId: string, senderType: string, content: string,
                         hasImage: bool, pagePath: string, sessionStart: int, now: int): seq<Event> {
    var message := Event("message_sent",
      Some(map["chatId" := Str("kruthika_chat"), "messageId" := Str(messageId), "senderType" := Str(senderType),
               "content" := Str(Truncate(content)), "hasImage" := Flag(hasImage)]),
      userId, sessionId, now);
    var increment := Event("session_message_increment", Some(map["sessionId" := Str(sessionId)]), userId, sessionId, now);
    var steps :=
      if senderType != "user" then []
      else if now - sessionStart > 15 * 60 * 1000 then
        [JourneyStep(userId, sessionId, "message_sent", 3, pagePath, now), JourneyStep(userId, sessionId, "long_session", 5, pagePath, now)]
      else [JourneyStep(userId, sessionId, "message_sent", 3, pagePath, now)];
    [message, increment] + steps
  }

  // ---------------------------------------------------------------------
  // Lemmas about the queue

  /** With tracking off, or an event without a type or data, nothing changes. */
  lemma IgnoredEvents(b: Buffer, enabled: bool, userId: string, sessionId: string, e: Event, now: int)
    requires !enabled || e.eventType == "" || e.data.None?
    ensures Track(b, enabled, userId, sessionId, e, now) == b
  {
  }

  /**
    A tracked event other than `session_start` that leaves fewer than 50
    queued goes at the end of the queue; a `session_start`, or the 50th
    event, sends the whole queue with it at the end as one new snapshot
    and leaves the queue empty.  Nothing delivered changes.
   */
  lemma TrackedEvent(b: Buffer, userId: string, sessionId: string, e: Event, now: int)
    requires e.eventType != "" && e.data.Some?
    ensures var f := Filled(e, userId, sessionId, now);
      var a := Track(b, true, userId, sessionId, e, now);
      a.delivered == b.delivered
      && (if e.eventType == "session_start" || |b.queue| + 1 >= FlushThreshold
          then a.queue == [] && a.sending == b.sending + [b.queue + [f]]
          else a.queue == b.queue + [f] && a.sending == b.sending)
  {
  }

  /**
    A tracked event never leaves 50 or more queued when fewer were queued.
    The bound is not kept by a failed send, which puts its whole snapshot
    back (see `FailedSendRefills`).
   */
  lemma QueueBelowThreshold(b: Buffer, enabled: bool, userId: string, sessionId: string, e: Event, now: int)
    requires |b.queue| < FlushThreshold
    ensures |Track(b, enabled, userId, sessionId, e, now).queue| < FlushThreshold
  {
  }

  /**
    The 50th event sends the queue, and when that send fails all 50 events
    are queued again; the next tracked event then sends them at once.
   */
  lemma FailedSendRefills(b: Buffer, userId: string, sessionId: string, e: Event, e2: Event, now: int)
    requires |b.queue| == FlushThreshold - 1 && e.eventType != "" && e.data.Some?
    requires e2.eventType != "" && e2.data.Some?
    ensures var a := Track(b, true, userId, sessionId, e, now);
      |a.sending| == |b.sending| + 1
      && |Resolve(a, |b.sending|, true).queue| == FlushThreshold
      && Track(Resolve(a, |b.sending|, true), true, userId, sessionId, e2, now).queue == []
  {
    TrackedEvent(b, userId, sessionId, e, now);
    var a := Track(b, true, userId, sessionId, e, now);
    TrackedEvent(Resolve(a, |b.sending|, true), userId, sessionId, e2, now);
  }

  lemma {:induction false} FlattenAppend(a: seq<seq<Event>>, c: seq<seq<Event>>)
    ensures Flatten(a + c) == Flatten(a) + Flatten(c)
  {
    if |a| == 0 {
      assert a + c == c;
    } else {
      assert (a + c)[0] == a[0] && (a + c)[1..] == a[1..] + c;
      FlattenAppend(a[1..], c);
    }
  }

  lemma FlattenOne(s: seq<Event>)
    ensures Flatten([s]) == s
  {
    assert [s][1..] == [];
  }

  /** Flushing loses nothing and sends the queue in its order: the held events stay the same sequence. */
  lemma FlushKeepsEvents(b: Buffer)
    ensures Held(Flush(b)) == Held(b)
    ensures Flush(b).delivered == b.delivered
    ensures |b.queue| > 0 ==> Flush(b).sending[|Flush(b).sending| - 1] == b.queue && Flush(b).queue == []
  {
    if |b.queue| > 0 {
      FlattenAppend(b.sending, [b.queue]);
      FlattenOne(b.queue);
    }
  }

  /** A tracked event adds exactly itself, filled in, to what the tracker holds. */
  lemma TrackAddsEvent(b: Buffer, userId: string, sessionId: string, e: Event, now: int)
    requires e.eventType != "" && e.data.Some?
    ensures Held(Track(b, true, userId, sessionId, e, now)) == Held(b) + [Filled(e, userId, sessionId, now)]
  {
    var f := Filled(e, userId, sessionId, now);
    var pushed := b.(queue := b.queue + [f]);
    assert Held(pushed) == Held(b) + [f];
    FlushKeepsEvents(pushed);
  }

  /**
    Whatever the outcome of a send, no event is lost or duplicated: the
    tracker holds the same events, only their place changes.
   */
  lemma ResolveKeepsEvents(b: Buffer, i: nat, failed: bool)
    requires i < |b.sending|
    ensures multiset(Held(Resolve(b, i, failed))) == multiset(Held(b))
  {
    var s := b.sending;
    assert s == s[..i] + ([s[i]] + s[i + 1..]);
    FlattenAppend(s[..i], [s[i]] + s[i + 1..]);
    FlattenAppend([s[i]], s[i + 1..]);
    FlattenOne(s[i]);
    FlattenAppend(s[..i], s[i + 1..]);
  }

  /**
    A failed send puts its snapshot back at the front, in its original
    order, ahead of the events queued since; a successful one appends it to
    what was delivered.  The other snapshots in flight keep their order.
   */
  lemma ResolveOrder(b: Buffer, i: nat, failed: bool)
    requires i < |b.sending|
    ensures var a := Resolve(b, i, failed);
      a.sending == b.sending[..i] + b.sending[i + 1..]
      && (failed ==> a.queue[..|b.sending[i]|] == b.sending[i] && a.queue[|b.sending[i]|..] == b.queue && a.delivered == b.delivered)
      && (!failed ==> a.queue == b.queue && a.delivered == b.delivered + b.sending[i])
  {
  }

  /** A message event keeps at most 500 characters: the start of the content. */
  lemma MessageContent(userId: string, sessionId: string, messageId: string, senderType: string, content: string,
                       hasImage: bool, pagePath: string, sessionStart: int, now: int)
    ensures var es := MessageEvents(userId, sessionId, messageId, senderType, content, hasImage, pagePath, sessionStart, now);
      var stored := es[0].data.value["content"].s;
      es[0].eventType == "message_sent"
      && |stored| <= MaxContent && stored == content[..|stored|]
      && (|content| <= MaxContent ==> stored == content)
      && (|content| > MaxContent ==> |stored| == MaxContent)
  {
  }

  /** A user message adds the `message_sent` journey step, and `long_session` after more than 15 minutes. */
  lemma MessageSteps(userId: string, sessionId: string, messageId: string, senderType: string, content: string,
                     hasImage: bool, pagePath: string, sessionStart: int, now: int)
    ensures var es := MessageEvents(userId, sessionId, messageId, senderType, content, hasImage, pagePath, sessionStart, now);
      |es| == (if senderType != "user" then 2 else if now - sessionStart > 900000 then 4 else 3)
      && es[1].eventType == "session_message_increment"
      && (forall k :: 2 <= k < |es| ==> es[k].eventType == "journey_step")
  {
  }

  // ---------------------------------------------------------------------
  // User-agent classifiers

  /** `getBrowserName`: the first of Chrome, Firefox, Safari, Edge the agent mentions, else "Other". */
  function BrowserName(userAgent: string): (r: string)
    ensures r in {"Chrome", "Firefox", "Safari", "Edge", "Other"}
  {
    if Contains(userAgent, "Chrome") then "Chrome"
    else if Contains(userAgent, "Firefox") then "Firefox"
    else if Contains(userAgent, "Safari") then "Safari"
    else if Contains(userAgent, "Edge") then "Edge"
    else "Other"
  }

  /**
    The tests go in that order: a name is reported exactly when the agent
    mentions it and none before it; so an agent that mentions Chrome as
    well as Edge counts as Chrome.
   */
  lemma BrowserOrder(userAgent: string)
    ensures BrowserName(userAgent) == "Chrome" <==> Contains(userAgent, "Chrome")
    ensures BrowserName(userAgent) == "Firefox" <==> !Contains(userAgent, "Chrome") && Contains(userAgent, "Firefox")
    ensures BrowserName(userAgent) == "Safari" <==>
      !Contains(userAgent, "Chrome") && !Contains(userAgent, "Firefox") && Contains(userAgent, "Safari")
    ensures BrowserName(userAgent) == "Edge" <==>
      !Contains(userAgent, "Chrome") && !Contains(userAgent, "Firefox") && !Contains(userAgent, "Safari") && Contains(userAgent, "Edge")
    ensures BrowserName(userAgent) == "Other" <==>
      !Contains(userAgent, "Chrome") && !Contains(userAgent, "Firefox") && !Contains(userAgent, "Safari") && !Contains(userAgent, "Edge")
  {
  }

  /** `getOS` over the agent string. */
  function OsName(userAgent: string): (r: string)
    ensures r in {"Windows", "macOS", "Linux", "Android", "iOS", "Other"}
  {
    if Contains(userAgent, "Windows") then "Windows"
    else if Contains(userAgent, "Mac") then "macOS"
    else if Contains(userAgent, "Linux") then "Linux"
    else if Contains(userAgent, "Android") then "Android"
    else if Contains(userAgent, "iOS") then "iOS"
    else "Other"
  }

  /** Windows, Mac, Linux, Android and iOS are tested in that order; the first the agent mentions names the OS. */
  lemma OsOrder(userAgent: string)
    ensures OsName(userAgent) == "Windows" <==> Contains(userAgent, "Windows")
    ensures OsName(userAgent) == "macOS" <==> !Contains(userAgent, "Windows") && Contains(userAgent, "Mac")
    ensures OsName(userAgent) == "Linux" <==>
      !Contains(userAgent, "Windows") && !Contains(userAgent, "Mac") && Contains(userAgent, "Linux")
    ensures OsName(userAgent) == "Android" <==>
      !Contains(userAgent, "Windows") && !Contains(userAgent, "Mac") && !Contains(userAgent, "Linux")
      && Contains(userAgent, "Android")
    ensures OsName(userAgent) == "iOS" <==>
      !Contains(userAgent, "Windows") && !Contains(userAgent, "Mac") && !Contains(userAgent, "Linux")
      && !Contains(userAgent, "Android") && Contains(userAgent, "iOS")
    ensures OsName(userAgent) == "Other" <==>
      !Contains(userAgent, "Windows") && !Contains(userAgent, "Mac") && !Contains(userAgent, "Linux")
      && !Contains(userAgent, "Android") && !Contains(userAgent, "iOS")
  {
  }

  /** The device rule: `/Mobile|Android|iPhone|iPad/`, and then `/iPad/` for a tablet. */
  function DeviceType(userAgent: string): string {
    if Contains(userAgent, "Mobile") || Contains(userAgent, "Android") || Contains(userAgent, "iPhone") || Contains(userAgent, "iPad")
    then (if Contains(userAgent, "iPad") then "tablet" else "mobile")
    else "desktop"
  }

  /** Tablet exactly for iPad; mobile exactly for the other mobile markers without iPad; desktop otherwise. */
  lemma DeviceTypeExactly(userAgent: string)
    ensures DeviceType(userAgent) == "tablet" <==> Contains(userAgent, "iPad")
    ensures DeviceType(userAgent) == "mobile" <==>
      !Contains(userAgent, "iPad") && (Contains(userAgent, "Mobile") || Contains(userAgent, "Android") || Contains(userAgent, "iPhone"))
    ensures DeviceType(userAgent) == "desktop" <==>
      !Contains(userAgent, "iPad") && !Contains(userAgent, "Mobile") && !Contains(userAgent, "Android") && !Contains(userAgent, "iPhone")
  {
  }

  /** An Android agent is reported as Linux, since "Linux" is checked first and Android agents mention it. */
  lemma AndroidSeenAsLinux(userAgent: string)
    requires !Contains(userAgent, "Windows") && !Contains(userAgent, "Mac") && Contains(userAgent, "Linux")
    ensures OsName(userAgent) == "Linux"
  {
  }
}
