/**
  `GET /api/analytics` (`src/app/api/analytics/route.ts`): the referer
  check, the type and date-range dispatch, and the integer aggregations
  over rows already fetched from the store.  Hours of day are given as
  integers (what `getHours`/`getUTCHours` return); the queries and their
  time windows are not modelled.
 */
module Analytics {
  import opened Text
  import opened Tally

  function EntryCount(e: Entry): int { e.count }

  // ---------------------------------------------------------------------
  // Top countries and top pages

  /** The rows whose `country_name` is set (`filter(item => item.country_name)`). */
  function Named(names: seq<string>): (r: seq<string>)
    ensures "" !in r
    ensures forall k :: k != "" ==> multiset(r)[k] == multiset(names)[k]
  {
    if |names| == 0 then []
    else
      var init := names[..|names| - 1];
      var last := names[|names| - 1];
      assert names == init + [last];
      Named(init) + (if last == "" then [] else [last])
  }

  /** `getRealTopCountries`, from the `country_name` of each row ("" when unset). */
  function TopCountries(names: seq<string>): seq<Entry> {
    if |names| == 0 then [] else Take(SortDesc(Count(Named(names)), EntryCount), 5)
  }

  /** A page path, "/" when unset. */
  function PagePath(path: string): string {
    if path == "" then "/" else path
  }

  function PagePaths(paths: seq<string>): (r: seq<string>)
    ensures |r| == |paths|
    ensures forall i :: 0 <= i < |paths| ==> r[i] == PagePath(paths[i])
  {
    if |paths| == 0 then [] else PagePaths(paths[..|paths| - 1]) + [PagePath(paths[|paths| - 1])]
  }

  /** `getRealTopPages`, from the `page_path` of each row ("" when unset). */
  function TopPages(paths: seq<string>): seq<Entry> {
    if |paths| == 0 then [] else Take(SortDesc(Count(PagePaths(paths)), EntryCount), 5)
  }

  /**
    The meaning of a top-5 list over counted keys: at most five entries,
    largest count first, distinct keys each with its number of occurrences,
    no key left out that occurs more often than the last one listed, and
    keys of equal count listed in the order they first appear.
   */
  ghost predicate TopFive(r: seq<Entry>, keys: seq<string>) {
    |r| <= 5
    && SortedDesc(r, EntryCount)
    && DistinctKeys(r)
    && (forall i :: 0 <= i < |r| ==> r[i].key in keys && r[i].count == multiset(keys)[r[i].key])
    && (forall k :: k in keys && k !in Keys(r) ==> |r| == 5 && multiset(keys)[k] <= r[4].count)
    && (forall c :: OfWeight(r, EntryCount, c) <= OfWeight(Count(keys), EntryCount, c))
  }

  lemma TopOfCount(keys: seq<string>)
    ensures TopFive(Take(SortDesc(Count(keys), EntryCount), 5), keys)
  {
    var t := Count(keys);
    CountCorrect(keys);
    SortDescCorrect(t, EntryCount);
    TopIsHeaviest(t, EntryCount, 5);
    var sorted := SortDesc(t, EntryCount);
    var top := Take(sorted, 5);
    PermutedKeysDistinct(t, sorted);
    TopEntriesCounted(t, keys, top);
    TopLeavesLighter(t, keys, top);
    forall c ensures OfWeight(top, EntryCount, c) <= OfWeight(t, EntryCount, c) {
      TopKeepsTies(t, EntryCount, 5, c);
    }
  }

  lemma TopEntriesCounted(t: seq<Entry>, keys: seq<string>, top: seq<Entry>)
    requires Counts(t, keys)
    requires forall x :: x in top ==> x in t
    ensures forall i :: 0 <= i < |top| ==> top[i].key in keys && top[i].count == multiset(keys)[top[i].key]
  {
    forall i | 0 <= i < |top| ensures top[i].key in keys && top[i].count == multiset(keys)[top[i].key] {
      assert top[i] in top;
      var m :| 0 <= m < |t| && t[m] == top[i];
      assert Keys(t)[m] == top[i].key;
    }
  }

  lemma TopLeavesLighter(t: seq<Entry>, keys: seq<string>, top: seq<Entry>)
    requires Counts(t, keys)
    requires forall x :: x in t && x !in top ==> |top| == 5 && EntryCount(x) <= EntryCount(top[4])
    ensures forall k :: k in keys && k !in Keys(top) ==> |top| == 5 && multiset(keys)[k] <= top[4].count
  {
    forall k | k in keys && k !in Keys(top) ensures |top| == 5 && multiset(keys)[k] <= top[4].count {
      assert k in Keys(t);
      var m :| 0 <= m < |t| && Keys(t)[m] == k;
      var e := t[m];
      assert e.key == k && e.count == multiset(keys)[k];
      KeyOfMember(top, e);
      assert e in t && e !in top;
    }
  }

  /** A rearrangement of distinct-keyed entries has distinct keys. */
  lemma PermutedKeysDistinct(t: seq<Entry>, sorted: seq<Entry>)
    requires DistinctKeys(t) && multiset(sorted) == multiset(t)
    ensures DistinctKeys(sorted)
  {
    forall i, j | 0 <= i < j < |sorted| ensures sorted[i].key != sorted[j].key {
      assert sorted[i] in multiset(t) && sorted[j] in multiset(t);
      var a :| 0 <= a < |t| && t[a] == sorted[i];
      var b :| 0 <= b < |t| && t[b] == sorted[j];
      if a == b {
        assert sorted == sorted[..i] + [sorted[i]] + sorted[i + 1..j] + [sorted[j]] + sorted[j + 1..];
        assert multiset(sorted)[t[a]] >= 2;
        OccursOnce(t, a);
      }
    }
  }

  lemma OccursOnce(t: seq<Entry>, a: nat)
    requires DistinctKeys(t) && a < |t|
    ensures multiset(t)[t[a]] == 1
  {
    var e := t[a];
    assert t == t[..a] + [e] + t[a + 1..];
    assert e !in t[..a];
    assert e !in t[a + 1..];
  }

  /**
    Top countries skip rows without a country and keep the five most
    frequent, largest first, each with its number of rows.
   */
  lemma TopCountriesMeaning(names: seq<string>)
    ensures TopFive(TopCountries(names), Named(names))
    ensures forall i :: 0 <= i < |TopCountries(names)| ==>
      TopCountries(names)[i].key != "" && TopCountries(names)[i].count == multiset(names)[TopCountries(names)[i].key]
  {
    TopOfCount(Named(names));
  }

  /** Top pages count a row without a path as "/", and keep the five most visited, largest first. */
  lemma TopPagesMeaning(paths: seq<string>)
    ensures TopFive(TopPages(paths), PagePaths(paths))
    ensures "" !in Keys(TopPages(paths))
  {
    var keys := PagePaths(paths);
    TopOfCount(keys);
    assert "" !in keys;
    var r := TopPages(paths);
    assert forall i :: 0 <= i < |r| ==> r[i].key in keys;
  }

  // ---------------------------------------------------------------------
  // Peak hours

  /** `${hour} AM`-style label. */
  function TimeLabel(h: int): string
    requires 0 <= h < 24
  {
    if h == 0 then "12 AM"
    else if h < 12 then NatToString(h) + " AM"
    else if h == 12 then "12 PM"
    else NatToString(h - 12) + " PM"
  }

  /** The label is the twelve-hour clock reading: 12 for the hours 0 and 12, AM exactly before noon. */
  lemma TwelveHourClock(h: int)
    requires 0 <= h < 24
    ensures TimeLabel(h) == NatToString(if h % 12 == 0 then 12 else h % 12) + (if h < 12 then " AM" else " PM")
  {
    if 0 < h < 12 {
      assert h % 12 == h;
    } else if 12 < h {
      assert h % 12 == h - 12;
    }
  }

  /** `${hour.toString().padStart(2, '0')}:00` */
  function HourFormatted(h: int): string
    requires 0 <= h < 24
  {
    PadTwo(h) + ":00"
  }

  function Digit(d: int): char
    requires 0 <= d < 10
  {
    (('0' as int) + d) as char
  }

  /** Two digits, tens then units, and ":00". */
  lemma HourFormattedDigits(h: int)
    requires 0 <= h < 24
    ensures HourFormatted(h) == [Digit(h / 10), Digit(h % 10)] + ":00"
  {
    if h >= 10 {
      assert NatToString(h) == NatToString(h / 10) + [Digit(h % 10)];
    }
  }

  /** One entry of the peak-hours list. */
  datatype PeakHour = PeakHour(hour: int, hourFormatted: string, timeLabel: string, users: nat)

  /** The `hourCounts` fold: messages per hour of day. */
  function HourCounts(hours: seq<int>): (r: seq<nat>)
    ensures |r| == 24
  {
    if |hours| == 0 then seq(24, _ => 0)
    else
      var before := HourCounts(hours[..|hours| - 1]);
      var h := hours[|hours| - 1];
      if 0 <= h < 24 then before[h := before[h] + 1] else before
  }

  lemma {:induction false} HourCountsCorrect(hours: seq<int>)
    ensures forall h :: 0 <= h < 24 ==> HourCounts(hours)[h] == multiset(hours)[h]
  {
    if |hours| > 0 {
      var init := hours[..|hours| - 1];
      assert hours == init + [hours[|hours| - 1]];
      HourCountsCorrect(init);
    }
  }

  /** `getRealPeakHours`, from the hour of each message. */
  function PeakHours(hours: seq<int>): seq<PeakHour> {
    if |hours| == 0 then []
    else
      var counts := HourCounts(hours);
      seq(24, h requires 0 <= h < 24 => PeakHour(h, HourFormatted(h), TimeLabel(h), counts[h]))
  }

  /** No messages, no entries; otherwise one entry per hour in order, each with its labels and its number of messages. */
  lemma PeakHoursMeaning(hours: seq<int>)
    ensures |hours| == 0 ==> PeakHours(hours) == []
    ensures |hours| > 0 ==>
      |PeakHours(hours)| == 24
      && forall h :: 0 <= h < 24 ==>
           PeakHours(hours)[h].hour == h && PeakHours(hours)[h].users == multiset(hours)[h]
           && PeakHours(hours)[h].hourFormatted == HourFormatted(h)
           && PeakHours(hours)[h].timeLabel == TimeLabel(h)
  {
    HourCountsCorrect(hours);
  }

  // ---------------------------------------------------------------------
  // User journey

  const StepOrder := ["landing", "chat_started", "message_sent", "image_shared", "long_session", "return_visit"]

  /** `replace('_', ' ')`: only the first occurrence. */
  function ReplaceFirst(s: string, a: char, b: char): string {
    if |s| == 0 then "" else if s[0] == a then [b] + s[1..] else [s[0]] + ReplaceFirst(s[1..], a, b)
  }

  /** `\w` */
  predicate IsWordChar(c: char) {
    'a' <= c <= 'z' || 'A' <= c <= 'Z' || '0' <= c <= '9' || c == '_'
  }

  function Upper(c: char): char {
    if 'a' <= c <= 'z' then (c as int - 32) as char else c
  }

  /** `replace(/\b\w/g, l => l.toUpperCase())`: every word's first character in upper case. */
  function Title(s: string): (r: string)
    ensures |r| == |s|
  {
    seq(|s|, i requires 0 <= i < |s| => if IsWordChar(s[i]) && (i == 0 || !IsWordChar(s[i - 1])) then Upper(s[i]) else s[i])
  }

  function StepLabel(step: string): string {
    Title(ReplaceFirst(step, '_', ' '))
  }

  /**
    A lower-case step name with at most one underscore, at `u`, is labelled
    with its first letter in upper case and, when there is an underscore, a
    space in its place and the next letter in upper case; nothing else
    changes ("chat_started" is "Chat Started").
   */
  lemma StepLabelShape(step: string, u: nat)
    requires 0 < u <= |step|
    requires forall i :: 0 <= i < |step| && i != u ==> 'a' <= step[i] <= 'z'
    requires u < |step| ==> step[u] == '_' && u + 1 < |step|
    ensures var t := StepLabel(step);
      |t| == |step|
      && t[0] == Upper(step[0])
      && (u < |step| ==> t[u] == ' ' && t[u + 1] == Upper(step[u + 1]))
      && (forall i :: 0 <= i < |step| && i != 0 && i != u && i != u + 1 ==> t[i] == step[i])
  {
    ReplaceFirstAt(step, u);
    var r := ReplaceFirst(step, '_', ' ');
    assert |r| == |step|;
    assert forall i :: 0 <= i < |r| ==> r[i] == (if i == u then ' ' else step[i]);
    var t := Title(r);
    assert t[0] == Upper(step[0]);
    if u < |step| {
      assert t[u] == ' ';
      assert !IsWordChar(r[u]) && t[u + 1] == Upper(step[u + 1]);
    }
    forall i | 0 < i < |r| && i != u && i != u + 1 ensures t[i] == step[i] {
      assert IsWordChar(r[i - 1]);
    }
  }

  lemma {:induction false} ReplaceFirstAt(s: string, u: nat)
    requires u <= |s| && '_' !in s[..u]
    requires u < |s| ==> s[u] == '_'
    ensures ReplaceFirst(s, '_', ' ') == if u < |s| then s[..u] + " " + s[u + 1..] else s
  {
    if |s| > 0 && u > 0 {
      assert s[0] != '_' by { assert s[..u][0] == s[0]; }
      assert s[1..][..u - 1] == s[..u][1..];
      ReplaceFirstAt(s[1..], u - 1);
      if u < |s| {
        assert [s[0]] + (s[1..][..u - 1] + " " + s[1..][u..]) == s[..u] + " " + s[u + 1..];
      }
    }
  }

  /** One entry of the journey funnel (its conversion percentage is not modelled). */
  datatype JourneyStep = JourneyStep(step: string, count: nat)

  /** `getRealUserJourney`, from the `step_name` of each row. */
  function UserJourney(steps: seq<string>): seq<JourneyStep> {
    if |steps| == 0 then []
    else
      var counts := Count(steps);
      seq(6, i requires 0 <= i < 6 => JourneyStep(StepLabel(StepOrder[i]), Lookup(counts, StepOrder[i])))
  }

  /** No rows, no entries; otherwise the six fixed steps in order, each with its number of rows. */
  lemma UserJourneyMeaning(steps: seq<string>)
    ensures |steps| == 0 ==> UserJourney(steps) == []
    ensures |steps| > 0 ==>
      |UserJourney(steps)| == 6
      && forall i :: 0 <= i < 6 ==> UserJourney(steps)[i].step == StepLabel(StepOrder[i]) && UserJourney(steps)[i].count == multiset(steps)[StepOrder[i]]
  {
    if |steps| > 0 {
      CountCorrect(steps);
      forall i | 0 <= i < 6 ensures UserJourney(steps)[i].count == multiset(steps)[StepOrder[i]] {
        LookupCount(Count(steps), steps, StepOrder[i]);
      }
    }
  }

  // ---------------------------------------------------------------------
  // The route

  datatype AnalyticsReply =
    | Blocked
    | Error(status: int, error: string)
    | Overview(daysBack: int)
    | Realtime
    | Detailed(daysBack: int)

  /** How far back a `dateRange` reaches. */
  function DaysBack(dateRange: string): (d: int)
    ensures d in {1, 7, 30, 90}
  {
    if dateRange == "1d" then 1
    else if dateRange == "30d" then 30
    else if dateRange == "90d" then 90
    else 7
  }

  /**
    `GET`: the security layer, the referer check, the API security layer,
    then the parameters; a missing header or parameter is "".
   */
  function AnalyticsGet(securityBlocks: bool, referer: string, host: string, apiSecurityBlocks: bool,
                        typeParam: string, dateRange: string, dbConfigured: bool): AnalyticsReply {
    if securityBlocks then Blocked
    else if referer != "" && host != "" && !Contains(referer, host) then Error(401, "Unauthorized - Invalid referer")
    else if apiSecurityBlocks then Blocked
    else
      var kind := if typeParam == "" then "overview" else typeParam;
      var days := DaysBack(if dateRange == "" then "7d" else dateRange);
      if !dbConfigured then Error(500, "Database not configured")
      else if kind == "overview" then Overview(days)
      else if kind == "realtime" then Realtime
      else if kind == "detailed" then Detailed(days)
      else Error(400, "Invalid analytics type")
  }

  /** A present referer that does not contain the present host is refused with 401, whatever the parameters. */
  lemma RefererChecked(referer: string, host: string, apiSecurityBlocks: bool, typeParam: string, dateRange: string, dbConfigured: bool)
    ensures AnalyticsGet(false, referer, host, apiSecurityBlocks, typeParam, dateRange, dbConfigured).Error?
      && AnalyticsGet(false, referer, host, apiSecurityBlocks, typeParam, dateRange, dbConfigured).status == 401
      <==> referer != "" && host != "" && !Contains(referer, host)
  {
  }

  /**
    Past the checks: no type means the overview; the three known types are
    served and any other is 400; the range is 1, 7, 30 or 90 days for
    1d/7d/30d/90d and 7 days for anything else.
   */
  lemma Dispatch(typeParam: string, dateRange: string)
    ensures var r := AnalyticsGet(false, "", "", false, typeParam, dateRange, true);
      (typeParam == "" || typeParam == "overview" ==> r.Overview?)
      && (typeParam == "realtime" ==> r == Realtime)
      && (typeParam == "detailed" ==> r.Detailed?)
      && (typeParam !in {"", "overview", "realtime", "detailed"} ==> r == Error(400, "Invalid analytics type"))
      && (r.Overview? || r.Detailed? ==>
            r.daysBack == (if dateRange == "1d" then 1 else if dateRange == "30d" then 30 else if dateRange == "90d" then 90 else 7))
  {
  }

  // ---------------------------------------------------------------------
  // The detailed view

  /** The fields of a `messages_log` row the detailed view reads; `utcHour` is `getUTCHours()` of its time. */
  datatype Message = Message(senderType: string, hasImage: bool, utcHour: int)

  datatype Breakdown = Breakdown(user: nat, ai: nat, withImages: nat, total: nat)

  datatype HourlyRow = HourlyRow(hour: int, messages: nat)

  datatype DetailedView = DetailedView(breakdown: Breakdown, hourlyDistribution: seq<HourlyRow>, peakHours: seq<HourlyRow>)

  function CountSender(ms: seq<Message>, sender: string): nat {
    if |ms| == 0 then 0 else (if ms[0].senderType == sender then 1 else 0) + CountSender(ms[1..], sender)
  }

  function CountImages(ms: seq<Message>): nat {
    if |ms| == 0 then 0 else (if ms[0].hasImage then 1 else 0) + CountImages(ms[1..])
  }

  function CountHour(ms: seq<Message>, h: int): nat {
    if |ms| == 0 then 0 else (if ms[0].utcHour == h then 1 else 0) + CountHour(ms[1..], h)
  }

  /** The `messageBreakdown` member: `total` is user plus AI messages only. */
  function MessageBreakdown(ms: seq<Message>): Breakdown {
    var user := CountSender(ms, "user");
    var ai := CountSender(ms, "ai");
    Breakdown(user, ai, CountImages(ms), user + ai)
  }

  lemma {:induction false} SendersBounded(ms: seq<Message>)
    ensures CountSender(ms, "user") + CountSender(ms, "ai") <= |ms|
    ensures CountSender(ms, "user") + CountSender(ms, "ai") == |ms| <==> forall i :: 0 <= i < |ms| ==> ms[i].senderType in {"user", "ai"}
  {
    if |ms| > 0 {
      SendersBounded(ms[1..]);
      assert forall i :: 1 <= i < |ms| ==> ms[i] == ms[1..][i - 1];
    }
  }

  /** The total never exceeds the rows and equals them exactly when every sender is "user" or "ai". */
  lemma BreakdownTotal(ms: seq<Message>)
    ensures MessageBreakdown(ms).total <= |ms|
    ensures MessageBreakdown(ms).total == |ms| <==> forall i :: 0 <= i < |ms| ==> ms[i].senderType in {"user", "ai"}
  {
    SendersBounded(ms);
  }

  /** `hourlyData`: the 24 hours in order, each with its number of messages. */
  function Hourly(ms: seq<Message>): (r: seq<HourlyRow>)
    ensures |r| == 24
  {
    seq(24, h requires 0 <= h < 24 => HourlyRow(h, CountHour(ms, h)))
  }

  function HourlyMessages(r: HourlyRow): int { r.messages }

  /**
    `getDetailedAnalytics` as written: `hourlyData.sort(...)` sorts the
    array in place, and `hourlyDistribution` is that same array.
   */
  function DetailedAsWritten(ms: seq<Message>): DetailedView {
    var sorted := SortDesc(Hourly(ms), HourlyMessages);
    DetailedView(MessageBreakdown(ms), sorted, Take(sorted, 6))
  }

  /** The evident intent: the distribution by hour, and the six busiest hours beside it. */
  function DetailedCorrected(ms: seq<Message>): DetailedView {
    var hourly := Hourly(ms);
    DetailedView(MessageBreakdown(ms), hourly, Take(SortDesc(hourly, HourlyMessages), 6))
  }

  /**
    As written, as soon as some hour has more messages than midnight the
    "distribution" no longer starts at hour 0: it is ordered by count.
   */
  lemma HourlyOutOfOrder(ms: seq<Message>, h: int)
    requires 0 < h < 24 && CountHour(ms, h) > CountHour(ms, 0)
    ensures DetailedAsWritten(ms).hourlyDistribution[0].hour != 0
  {
    var hourly := Hourly(ms);
    SortDescCorrect(hourly, HourlyMessages);
    var sorted := SortDesc(hourly, HourlyMessages);
    assert hourly[h] in multiset(sorted);
    var j :| 0 <= j < |sorted| && sorted[j] == hourly[h];
    assert sorted[0].messages >= hourly[h].messages;
    assert sorted[0] in multiset(hourly);
    var k :| 0 <= k < 24 && hourly[k] == sorted[0];
  }

  /** One message sent at five o'clock UTC is enough. */
  lemma OneMessageAtFive()
    ensures DetailedAsWritten([Message("user", false, 5)]).hourlyDistribution[0].hour != 0
  {
    HourlyOutOfOrder([Message("user", false, 5)], 5);
  }

  /**
    The corrected view lists every hour in order with its messages, and
    beside it six hours, busiest first, none of them quieter than an hour
    left out; hours with the same count are the earliest such hours, in
    hour order.
   */
  lemma DetailedCorrectedMeaning(ms: seq<Message>)
    ensures var v := DetailedCorrected(ms);
      |v.hourlyDistribution| == 24
      && (forall h :: 0 <= h < 24 ==> v.hourlyDistribution[h] == HourlyRow(h, CountHour(ms, h)))
      && |v.peakHours| == 6
      && SortedDesc(v.peakHours, HourlyMessages)
      && (forall x :: x in v.peakHours ==> x in v.hourlyDistribution)
      && (forall x :: x in v.hourlyDistribution && x !in v.peakHours ==> x.messages <= v.peakHours[5].messages)
      && (forall c :: OfWeight(v.peakHours, HourlyMessages, c) <= OfWeight(v.hourlyDistribution, HourlyMessages, c))
  {
    SortDescCorrect(Hourly(ms), HourlyMessages);
    TopIsHeaviest(Hourly(ms), HourlyMessages, 6);
    forall c ensures OfWeight(Take(SortDesc(Hourly(ms), HourlyMessages), 6), HourlyMessages, c) <= OfWeight(Hourly(ms), HourlyMessages, c) {
      TopKeepsTies(Hourly(ms), HourlyMessages, 6, c);
    }
  }
}
