/**
 * The analyzer (json_tools/aw_analyze.py): totals and per-app, per-device,
 * per-day, per-hour and per-URL tallies of an event list, the lexical range
 * of its timestamps, a top-N summary report, and the extraction of an event
 * list from the JSON shapes the other tools write.
 */
module Analyze {
  import opened Wrappers
  import opened Events
  import opened Tallies
  import Sorting
  import Durations

  //
  // Grouping keys
  //

  /** `e.get('data', {}).get('app', 'Unknown')` */
  function AppKey(e: Event): string
  {
    DataFieldOr(e, "app", "Unknown")
  }

  /** `e.get('device', e.get('data', {}).get('hostname', 'Unknown'))` */
  function DeviceKey(e: Event): string
  {
    if e.device.Some? then e.device.value else DataFieldOr(e, "hostname", "Unknown")
  }

  /** `e['timestamp'][:10]`, the `YYYY-MM-DD` part. */
  function DayKey(e: Event): string
  {
    Slice(TimestampOf(e), 0, 10)
  }

  /** `e['timestamp'][11:13]`, the `HH` part. */
  function HourKey(e: Event): string
  {
    Slice(TimestampOf(e), 11, 13)
  }

  //
  // The URL tally
  //

  /** `e.get('data', {}).get('url')` when it is truthy, that is a non-empty string. */
  function UrlOf(e: Event): Option<string>
  {
    var u := DataField(e, "url");
    if u.Some? && u.value != "" then u else None
  }

  /** `e.get('data', {}).get('title', 'Unknown Title')` */
  function PageTitle(e: Event): string
  {
    DataFieldOr(e, "title", "Unknown Title")
  }

  datatype UrlUsage = UrlUsage(duration: real, events: nat, title: string)

  /** An insertion-ordered dictionary from URLs to their usage. */
  datatype UrlTally = UrlTally(order: seq<string>, usage: map<string, UrlUsage>)

  /** One event of `url`: its duration and count are added and a strictly longer title replaces the kept one. */
  function BumpUrl(t: UrlTally, url: string, d: real, title: string): UrlTally
  {
    if url in t.usage then
      var u := t.usage[url];
      t.(usage := t.usage[url := UrlUsage(u.duration + d, u.events + 1, if |title| > |u.title| then title else u.title)])
    else
      // the entry starts from the title '', which any non-empty title replaces
      UrlTally(t.order + [url], t.usage[url := UrlUsage(d, 1, if |title| > 0 then title else "")])
  }

  /** The URL loop of `analyze_events`. */
  function UrlTallyOf(s: seq<Event>): UrlTally
  {
    if s == [] then UrlTally([], map[])
    else
      var t := UrlTallyOf(s[..|s| - 1]);
      var e := s[|s| - 1];
      if UrlOf(e).Some? then BumpUrl(t, UrlOf(e).value, Dur(e), PageTitle(e)) else t
  }

  /** The events of `url`. */
  function OfUrl(s: seq<Event>, url: string): seq<Event>
  {
    Filter(s, e => UrlOf(e) == Some(url))
  }

  /** `titles[p]` is a longest title, and the first of that length. */
  predicate FirstLongestAt(s: seq<Event>, p: int)
  {
    && 0 <= p < |s|
    && (forall j :: 0 <= j < |s| ==> |PageTitle(s[j])| <= |PageTitle(s[p])|)
    && (forall j :: 0 <= j < p ==> |PageTitle(s[j])| < |PageTitle(s[p])|)
  }

  /** `title` is the first of the longest titles of `s`. */
  ghost predicate FirstLongest(s: seq<Event>, title: string)
  {
    exists p :: FirstLongestAt(s, p) && title == PageTitle(s[p])
  }

  /** Keeping the title unless the next one is strictly longer keeps the first longest one. */
  lemma FirstLongestStep(s: seq<Event>, e: Event, title: string)
    requires FirstLongest(s, title)
    ensures FirstLongest(s + [e], if |PageTitle(e)| > |title| then PageTitle(e) else title)
  {
    var all := s + [e];
    var p :| FirstLongestAt(s, p) && title == PageTitle(s[p]);
    if |PageTitle(e)| > |title| {
      assert FirstLongestAt(all, |s|) by {
        forall j | 0 <= j < |s| ensures |PageTitle(all[j])| < |PageTitle(all[|s|])| {
          assert all[j] == s[j];
        }
      }
    } else {
      assert FirstLongestAt(all, p) by {
        forall j | 0 <= j < |all| ensures |PageTitle(all[j])| <= |PageTitle(all[p])| {
          if j < |s| {
            assert all[j] == s[j];
          }
        }
        forall j | 0 <= j < p ensures |PageTitle(all[j])| < |PageTitle(all[p])| {
          assert all[j] == s[j];
        }
      }
    }
  }

  /** The events of `url` in a list, one event longer. */
  lemma OfUrlSnoc(s: seq<Event>, url: string)
    requires s != []
    ensures OfUrl(s, url) == OfUrl(s[..|s| - 1], url) + (if UrlOf(s[|s| - 1]) == Some(url) then [s[|s| - 1]] else [])
  {
  }

  /** Each URL once in `order`, and `order` lists exactly the keys of `usage`, as many as there are. */
  ghost predicate UrlWellFormed(t: UrlTally)
  {
    && Distinct(t.order)
    && (forall u :: u in t.usage <==> u in t.order)
    && |t.order| == |t.usage|
  }

  lemma BumpUrlWellFormed(t: UrlTally, url: string, d: real, title: string)
    requires UrlWellFormed(t)
    ensures UrlWellFormed(BumpUrl(t, url, d, title))
  {
    if url !in t.usage {
      var o := t.order + [url];
      forall i, j | 0 <= i < j < |o| ensures o[i] != o[j] {
        if j == |t.order| {
          assert o[i] == t.order[i];
        }
      }
    }
  }

  /** The URL tally is a well-formed dictionary. */
  lemma {:induction false} UrlTallyWellFormed(s: seq<Event>)
    ensures UrlWellFormed(UrlTallyOf(s))
  {
    if s != [] {
      var init := s[..|s| - 1];
      var e := s[|s| - 1];
      UrlTallyWellFormed(init);
      if UrlOf(e).Some? {
        BumpUrlWellFormed(UrlTallyOf(init), UrlOf(e).value, Dur(e), PageTitle(e));
      }
    }
  }

  /**
   * Only URLs of events with a truthy URL are tallied, and each one's entry
   * sums the durations and counts the events of that URL.
   */
  lemma {:induction false} UrlTallyTotals(s: seq<Event>, url: string)
    ensures url in UrlTallyOf(s).usage <==> OfUrl(s, url) != []
    ensures url in UrlTallyOf(s).usage ==>
      UrlTallyOf(s).usage[url].duration == SumDurations(OfUrl(s, url)) && UrlTallyOf(s).usage[url].events == |OfUrl(s, url)|
  {
    if s != [] {
      var init := s[..|s| - 1];
      var e := s[|s| - 1];
      UrlTallyTotals(init, url);
      OfUrlSnoc(s, url);
      if UrlOf(e) == Some(url) {
        SumDurationsAppend(OfUrl(init, url), [e]);
        assert SumDurations([e]) == Dur(e) by {
          assert [e][..0] == [];
        }
      }
    }
  }

  /** The kept title after one more event. */
  lemma UrlTallySnocTitle(s: seq<Event>, url: string)
    requires s != [] && url in UrlTallyOf(s).usage
    ensures var init, e := s[..|s| - 1], s[|s| - 1];
      var t := UrlTallyOf(s).usage[url].title;
      if UrlOf(e) != Some(url) then url in UrlTallyOf(init).usage && t == UrlTallyOf(init).usage[url].title
      else if url in UrlTallyOf(init).usage then
        var before := UrlTallyOf(init).usage[url].title;
        t == if |PageTitle(e)| > |before| then PageTitle(e) else before
      else t == PageTitle(e)
  {
  }

  /** Each tallied URL keeps the first of the longest titles among its events. */
  lemma {:induction false} UrlTallyTitle(s: seq<Event>, url: string)
    requires url in UrlTallyOf(s).usage
    ensures FirstLongest(OfUrl(s, url), UrlTallyOf(s).usage[url].title)
  {
    var init := s[..|s| - 1];
    var e := s[|s| - 1];
    OfUrlSnoc(s, url);
    UrlTallySnocTitle(s, url);
    if UrlOf(e) == Some(url) {
      if url in UrlTallyOf(init).usage {
        UrlTallyTitle(init, url);
        FirstLongestStep(OfUrl(init, url), e, UrlTallyOf(init).usage[url].title);
      } else {
        UrlTallyTotals(init, url);
        assert OfUrl(s, url) == [e];
        assert FirstLongestAt([e], 0);
      }
    } else {
      UrlTallyTitle(init, url);
    }
  }

  //
  // The date range
  //

  /** `[e['timestamp'] for e in s if 'timestamp' in e]` */
  function Stamps(s: seq<Event>): (r: seq<string>)
    ensures forall x :: x in r <==> exists i :: 0 <= i < |s| && s[i].timestamp == Some(x)
  {
    if s == [] then []
    else
      var init := s[..|s| - 1];
      var r := Stamps(init) + (if s[|s| - 1].timestamp.Some? then [s[|s| - 1].timestamp.value] else []);
      assert forall i :: 0 <= i < |init| ==> init[i] == s[i];
      r
  }

  /** `min(ts)` on strings. */
  function MinLex(ts: seq<string>): (r: string)
    requires ts != []
    ensures r in ts && forall x :: x in ts ==> LexLe(r, x)
  {
    if |ts| == 1 then
      LexLeReflexive(ts[0]);
      ts[0]
    else
      var m := MinLex(ts[..|ts| - 1]);
      var last := ts[|ts| - 1];
      assert forall x :: x in ts ==> x in ts[..|ts| - 1] || x == last;
      LexLeTotal(m, last);
      LexLeReflexive(last);
      LexLeTransitiveAll(last, m, ts[..|ts| - 1]);
      if LexLe(m, last) then m else last
  }

  /** `max(ts)` on strings. */
  function MaxLex(ts: seq<string>): (r: string)
    requires ts != []
    ensures r in ts && forall x :: x in ts ==> LexLe(x, r)
  {
    if |ts| == 1 then
      LexLeReflexive(ts[0]);
      ts[0]
    else
      var m := MaxLex(ts[..|ts| - 1]);
      var last := ts[|ts| - 1];
      assert forall x :: x in ts ==> x in ts[..|ts| - 1] || x == last;
      LexLeTotal(m, last);
      LexLeReflexive(last);
      LexLeTransitiveAllUp(last, m, ts[..|ts| - 1]);
      if LexLe(last, m) then m else last
  }

  /** `b <= m <= every x` makes `b <= every x`. */
  lemma LexLeTransitiveAll(b: string, m: string, xs: seq<string>)
    requires forall x :: x in xs ==> LexLe(m, x)
    ensures LexLe(b, m) ==> forall x :: x in xs ==> LexLe(b, x)
  {
    if LexLe(b, m) {
      forall x | x in xs ensures LexLe(b, x) {
        LexLeTransitive(b, m, x);
      }
    }
  }

  /** `every x <= m <= b` makes `every x <= b`. */
  lemma LexLeTransitiveAllUp(b: string, m: string, xs: seq<string>)
    requires forall x :: x in xs ==> LexLe(x, m)
    ensures LexLe(m, b) ==> forall x :: x in xs ==> LexLe(x, b)
  {
    if LexLe(m, b) {
      forall x | x in xs ensures LexLe(x, b) {
        LexLeTransitive(x, m, b);
      }
    }
  }

  /** `{'start': min(ts), 'end': max(ts)}`, or `{}` without timestamps. */
  function DateRange(s: seq<Event>): Option<(string, string)>
  {
    var ts := Stamps(s);
    if ts == [] then None else Some((MinLex(ts), MaxLex(ts)))
  }

  //
  // analyze_events
  //

  datatype Analysis = Analysis(
    totalEvents: nat,
    totalDuration: real,
    totalFormatted: Durations.Rendered,
    apps: Tally,
    devices: Tally,
    daily: Tally,
    hourly: Tally,
    urls: UrlTally,
    dateRange: Option<(string, string)>)

  /** The early return of `analyze_events` on an empty list. */
  const EmptyAnalysis: Analysis :=
    Analysis(0, 0.0, Durations.FormatDuration(0.0), EmptyTally, EmptyTally, EmptyTally, EmptyTally, UrlTally([], map[]), None)

  /** The statistics of a list whose every event has a timestamp. */
  function Statistics(s: seq<Event>): Analysis
  {
    Analysis(
      |s|, SumDurations(s), Durations.FormatDuration(SumDurations(s)),
      TallyBy(s, AppKey), TallyBy(s, DeviceKey), TallyBy(s, DayKey), TallyBy(s, HourKey),
      UrlTallyOf(s), DateRange(s))
  }

  /** `analyze_events(events)`: the daily loop raises KeyError on an event without a timestamp. */
  function AnalyzeEvents(s: seq<Event>): Result<Analysis, Error>
  {
    if s == [] then Ok(EmptyAnalysis)
    else if !AllTimestamped(s) then Err(MissingTimestamp)
    else Ok(Statistics(s))
  }

  /** The early return for an empty list is what the general computation gives on it. */
  lemma EmptyFastPathAgrees()
    ensures Statistics([]) == EmptyAnalysis
  {
  }

  /** A tally that files every event once: its durations sum to `total` and its counts to `count`. */
  ghost predicate Partitions(t: Tally, total: real, count: nat)
  {
    WellFormed(t) && SumUsage(t.order, t.usage) == total && CountUsage(t.order, t.usage) == count
  }

  lemma TallyPartitions(s: seq<Event>, key: Event -> string)
    ensures Partitions(TallyBy(s, key), SumDurations(s), |s|)
  {
    TallyWellFormed(s, key);
    TallyTotals(s, key);
  }

  /**
   * The analysis fails exactly on a non-empty list with an event lacking a
   * timestamp; otherwise every tally partitions the events: its durations
   * sum to the total duration and its counts to the number of events.
   */
  lemma AnalyzeEventsTotals(s: seq<Event>)
    ensures AnalyzeEvents(s).Err? <==> s != [] && !AllTimestamped(s)
    ensures AnalyzeEvents(s).Ok? ==>
      var a := AnalyzeEvents(s).value;
      && a.totalEvents == |s| && a.totalDuration == SumDurations(s)
      && Partitions(a.apps, a.totalDuration, a.totalEvents)
      && Partitions(a.devices, a.totalDuration, a.totalEvents)
      && Partitions(a.daily, a.totalDuration, a.totalEvents)
      && Partitions(a.hourly, a.totalDuration, a.totalEvents)
      && UrlWellFormed(a.urls)
  {
    UrlTallyWellFormed(s);
    TallyPartitions(s, AppKey);
    TallyPartitions(s, DeviceKey);
    TallyPartitions(s, DayKey);
    TallyPartitions(s, HourKey);
  }

  /** On a non-empty list, the date range runs from the lexically least to the greatest timestamp. */
  lemma AnalyzeEventsDateRange(s: seq<Event>)
    requires AnalyzeEvents(s).Ok? && s != []
    ensures var r := AnalyzeEvents(s).value.dateRange;
      && r.Some?
      && (exists i :: 0 <= i < |s| && s[i].timestamp == Some(r.value.0))
      && (exists i :: 0 <= i < |s| && s[i].timestamp == Some(r.value.1))
      && forall i :: 0 <= i < |s| ==> LexLe(r.value.0, TimestampOf(s[i])) && LexLe(TimestampOf(s[i]), r.value.1)
  {
    var ts := Stamps(s);
    assert s[0].timestamp.value in ts;
    forall i | 0 <= i < |s| ensures TimestampOf(s[i]) in ts {
      assert s[i].timestamp == Some(TimestampOf(s[i]));
    }
  }

  /** The URL loop. */
  method AccumulateUrls(events: seq<Event>) returns (t: UrlTally)
    ensures t == UrlTallyOf(events)
  {
    t := UrlTally([], map[]);
    var i := 0;
    while i < |events|
      invariant 0 <= i <= |events|
      invariant t == UrlTallyOf(events[..i])
    {
      assert events[..i + 1][..i] == events[..i];
      var e := events[i];
      var url := UrlOf(e);
      if url.Some? {
        t := BumpUrl(t, url.value, Dur(e), PageTitle(e));
      }
      i := i + 1;
    }
    assert events[..i] == events;
  }

  /** `analyze_events`, with its five tally loops. */
  method AnalyzeEventsLoops(events: seq<Event>) returns (r: Result<Analysis, Error>)
    ensures r == AnalyzeEvents(events)
  {
    if events == [] {
      return Ok(EmptyAnalysis);
    }
    var total := SumDurations(events);
    var apps := Accumulate(events, AppKey);
    var devices := Accumulate(events, DeviceKey);
    var daily := AccumulateStamped(events, DayKey);
    if daily.Err? {
      return Err(daily.error);
    }
    var hourly := AccumulateStamped(events, HourKey);
    var urls := AccumulateUrls(events);
    return Ok(Analysis(|events|, total, Durations.FormatDuration(total), apps, devices, daily.value, hourly.value, urls, DateRange(events)));
  }

  //
  // generate_summary_report
  //

  /** `(d / total * 100) if total > 0 else 0` */
  function Percentage(d: real, total: real): real
  {
    if total > 0.0 then d / total * 100.0 else 0.0
  }

  datatype TopApp = TopApp(app: string, duration: real, formatted: Durations.Rendered, events: nat, percentage: real)
  datatype TopUrl = TopUrl(url: string, title: string, duration: real, formatted: Durations.Rendered, events: nat, percentage: real)
  datatype Period = Period(key: string, duration: real, formatted: Durations.Rendered, events: nat)
  datatype Overview = Overview(totalEvents: nat, totalDuration: real, totalFormatted: Durations.Rendered, dateRange: Option<(string, string)>)
  datatype Report = Report(overview: Overview, topApps: seq<TopApp>, topUrls: seq<TopUrl>, daily: seq<Period>, hourly: seq<Period>)

  /** `key=lambda x: x[1]['duration'], reverse=True`: the stable sort puts `a` first on a tie. */
  predicate LongerOrEqual(a: Entry, b: Entry)
  {
    a.usage.duration >= b.usage.duration
  }

  datatype UrlEntry = UrlEntry(url: string, usage: UrlUsage)

  predicate UrlLongerOrEqual(a: UrlEntry, b: UrlEntry)
  {
    a.usage.duration >= b.usage.duration
  }

  /** `sorted(d.items())` on distinct keys: by key. */
  predicate KeyLe(a: Entry, b: Entry)
  {
    LexLe(a.key, b.key)
  }

  function UrlEntries(t: UrlTally): (r: seq<UrlEntry>)
    ensures |r| == |t.order|
  {
    seq(|t.order|, i requires 0 <= i < |t.order| =>
      UrlEntry(t.order[i], if t.order[i] in t.usage then t.usage[t.order[i]] else UrlUsage(0.0, 0, "")))
  }

  function TopAppOf(x: Entry, total: real): TopApp
  {
    TopApp(x.key, x.usage.duration, Durations.FormatDuration(x.usage.duration), x.usage.events, Percentage(x.usage.duration, total))
  }

  function TopUrlOf(x: UrlEntry, total: real): TopUrl
  {
    TopUrl(x.url, x.usage.title, x.usage.duration, Durations.FormatDuration(x.usage.duration), x.usage.events, Percentage(x.usage.duration, total))
  }

  function PeriodOf(x: Entry, key: string): Period
  {
    Period(key, x.usage.duration, Durations.FormatDuration(x.usage.duration), x.usage.events)
  }

  /** The apps, longest first, cut to `topN`. */
  function RankedApps(a: Analysis, topN: int): seq<Entry>
  {
    Sorting.Take(Sorting.Sort(Entries(a.apps), LongerOrEqual), topN)
  }

  /** The URLs, longest first, cut to `topN`; none when there are no URLs. */
  function RankedUrls(a: Analysis, topN: int): seq<UrlEntry>
  {
    if a.urls.order == [] then [] else Sorting.Take(Sorting.Sort(UrlEntries(a.urls), UrlLongerOrEqual), topN)
  }

  function SortedByKey(t: Tally): seq<Entry>
  {
    Sorting.Sort(Entries(t), KeyLe)
  }

  /** `generate_summary_report(analysis, top_n)`. */
  function GenerateSummaryReport(a: Analysis, topN: int): Report
  {
    var apps := RankedApps(a, topN);
    var urls := RankedUrls(a, topN);
    var days := SortedByKey(a.daily);
    var hours := SortedByKey(a.hourly);
    Report(
      Overview(a.totalEvents, a.totalDuration, a.totalFormatted, a.dateRange),
      seq(|apps|, i requires 0 <= i < |apps| => TopAppOf(apps[i], a.totalDuration)),
      seq(|urls|, i requires 0 <= i < |urls| => TopUrlOf(urls[i], a.totalDuration)),
      seq(|days|, i requires 0 <= i < |days| => PeriodOf(days[i], days[i].key)),
      seq(|hours|, i requires 0 <= i < |hours| => PeriodOf(hours[i], hours[i].key + ":00")))
  }

  lemma LongerOrEqualPreorder()
    ensures Sorting.TotalPreorder(LongerOrEqual)
    ensures Sorting.TotalPreorder(UrlLongerOrEqual)
  {
  }

  lemma KeyLePreorder()
    ensures Sorting.TotalPreorder(KeyLe)
  {
    forall a: Entry, b: Entry ensures KeyLe(a, b) || KeyLe(b, a) {
      LexLeTotal(a.key, b.key);
    }
    forall a: Entry, b: Entry, c: Entry | KeyLe(a, b) && KeyLe(b, c) ensures KeyLe(a, c) {
      LexLeTransitive(a.key, b.key, c.key);
    }
  }

  /**
   * The top apps: at most `top_n` of them (all when there are fewer; a
   * negative `top_n` drops that many from the end), longest first, drawn
   * from the app tally without repeats, each with its share of the total (0
   * when the total is 0).
   */
  lemma TopAppsOrder(a: Analysis, topN: int)
    ensures var top := GenerateSummaryReport(a, topN).topApps;
      && (topN >= 0 ==> |top| == if topN < |a.apps.order| then topN else |a.apps.order|)
      && (topN < 0 ==> |top| == if |a.apps.order| + topN < 0 then 0 else |a.apps.order| + topN)
      && multiset(RankedApps(a, topN)) <= multiset(Entries(a.apps))
      && (forall i :: 0 <= i < |top| ==> top[i] == TopAppOf(RankedApps(a, topN)[i], a.totalDuration))
      && (forall i, j :: 0 <= i < j < |top| ==> top[i].duration >= top[j].duration)
      && (forall i :: 0 <= i < |top| ==> top[i].percentage == if a.totalDuration > 0.0 then top[i].duration / a.totalDuration * 100.0 else 0.0)
  {
    var sorted := Sorting.Sort(Entries(a.apps), LongerOrEqual);
    var ranked := RankedApps(a, topN);
    LongerOrEqualPreorder();
    Sorting.SortSorted(Entries(a.apps), LongerOrEqual);
    Sorting.TakeSorted(Entries(a.apps), LongerOrEqual, topN);
    assert ranked == sorted[..|ranked|];
  }

  /** Each top app is an entry of the app tally, with its duration and count. */
  lemma TopAppsListed(a: Analysis, topN: int)
    ensures var top := GenerateSummaryReport(a, topN).topApps;
      forall i :: 0 <= i < |top| ==> Entry(top[i].app, Usage(top[i].duration, top[i].events)) in Entries(a.apps)
  {
    var sorted := Sorting.Sort(Entries(a.apps), LongerOrEqual);
    var ranked := RankedApps(a, topN);
    var top := GenerateSummaryReport(a, topN).topApps;
    Sorting.SortPermutes(Entries(a.apps), LongerOrEqual);
    forall i | 0 <= i < |top| ensures Entry(top[i].app, Usage(top[i].duration, top[i].events)) in Entries(a.apps) {
      assert top[i] == TopAppOf(ranked[i], a.totalDuration);
      assert ranked[i] == sorted[i];
      assert sorted[i] in multiset(Entries(a.apps));
    }
  }

  /** No app left out of the top list is longer than one listed. */
  lemma TopAppsOmitted(a: Analysis, topN: int)
    ensures var top := GenerateSummaryReport(a, topN).topApps;
      forall x :: x in Entries(a.apps) && x !in RankedApps(a, topN) ==>
        forall i :: 0 <= i < |top| ==> top[i].duration >= x.usage.duration
  {
    var sorted := Sorting.Sort(Entries(a.apps), LongerOrEqual);
    var ranked := RankedApps(a, topN);
    var top := GenerateSummaryReport(a, topN).topApps;
    LongerOrEqualPreorder();
    Sorting.SortSorted(Entries(a.apps), LongerOrEqual);
    Sorting.SortPermutes(Entries(a.apps), LongerOrEqual);
    assert ranked == sorted[..|ranked|];
    forall x | x in Entries(a.apps) && x !in ranked
      ensures forall i :: 0 <= i < |top| ==> top[i].duration >= x.usage.duration
    {
      assert x in multiset(sorted);
      var j :| 0 <= j < |sorted| && sorted[j] == x;
      forall i | 0 <= i < |top| ensures top[i].duration >= x.usage.duration {
        assert top[i] == TopAppOf(ranked[i], a.totalDuration);
        assert ranked[i] == sorted[i];
      }
    }
  }

  /**
   * The top URLs: none without URLs, otherwise at most `top_n` (a negative
   * `top_n` drops that many from the end), longest first, each drawn from
   * the URL tally's entries.
   */
  lemma TopUrlsFacts(a: Analysis, topN: int)
    ensures var top := GenerateSummaryReport(a, topN).topUrls;
      && (a.urls.order == [] ==> top == [])
      && (topN >= 0 ==> |top| == if topN < |a.urls.order| then topN else |a.urls.order|)
      && (topN < 0 ==> |top| == if |a.urls.order| + topN < 0 then 0 else |a.urls.order| + topN)
      && multiset(RankedUrls(a, topN)) <= multiset(UrlEntries(a.urls))
      && (forall i :: 0 <= i < |top| ==> top[i] == TopUrlOf(RankedUrls(a, topN)[i], a.totalDuration))
      && (forall i, j :: 0 <= i < j < |top| ==> top[i].duration >= top[j].duration)
      && (forall i :: 0 <= i < |top| ==> top[i].percentage == Percentage(top[i].duration, a.totalDuration))
      && (forall i :: 0 <= i < |top| ==> exists k :: 0 <= k < |a.urls.order| && UrlEntries(a.urls)[k] == UrlEntry(top[i].url, UrlUsage(top[i].duration, top[i].events, top[i].title)))
  {
    if a.urls.order != [] {
      var sorted := Sorting.Sort(UrlEntries(a.urls), UrlLongerOrEqual);
      var ranked := RankedUrls(a, topN);
      var top := GenerateSummaryReport(a, topN).topUrls;
      LongerOrEqualPreorder();
      Sorting.SortSorted(UrlEntries(a.urls), UrlLongerOrEqual);
      Sorting.SortPermutes(UrlEntries(a.urls), UrlLongerOrEqual);
      Sorting.TakeSorted(UrlEntries(a.urls), UrlLongerOrEqual, topN);
      assert ranked == sorted[..|ranked|];
      forall i | 0 <= i < |top|
        ensures exists k :: 0 <= k < |a.urls.order| && UrlEntries(a.urls)[k] == UrlEntry(top[i].url, UrlUsage(top[i].duration, top[i].events, top[i].title))
      {
        assert ranked[i] == sorted[i];
        assert sorted[i] in multiset(UrlEntries(a.urls));
      }
    }
  }

  /** No URL left out of the top list is longer than one listed. */
  lemma TopUrlsOmitted(a: Analysis, topN: int)
    ensures var top := GenerateSummaryReport(a, topN).topUrls;
      forall x :: x in UrlEntries(a.urls) && x !in RankedUrls(a, topN) ==>
        forall i :: 0 <= i < |top| ==> top[i].duration >= x.usage.duration
  {
    var ranked := RankedUrls(a, topN);
    var top := GenerateSummaryReport(a, topN).topUrls;
    if a.urls.order != [] {
      LongerOrEqualPreorder();
      Sorting.TakeSorted(UrlEntries(a.urls), UrlLongerOrEqual, topN);
      forall x | x in UrlEntries(a.urls) && x !in ranked
        ensures forall i :: 0 <= i < |top| ==> top[i].duration >= x.usage.duration
      {
        assert multiset(ranked)[x] == 0 < multiset(UrlEntries(a.urls))[x];
        forall i | 0 <= i < |top| ensures top[i].duration >= x.usage.duration {
          assert top[i] == TopUrlOf(ranked[i], a.totalDuration);
        }
      }
    }
  }

  /** On a well-formed tally, entry `i` is URL `i` with its usage, and no URL has two entries. */
  lemma UrlEntriesListed(t: UrlTally)
    requires UrlWellFormed(t)
    ensures forall i :: 0 <= i < |t.order| ==> t.order[i] in t.usage && UrlEntries(t)[i] == UrlEntry(t.order[i], t.usage[t.order[i]])
    ensures forall i, j :: 0 <= i < j < |t.order| ==> UrlEntries(t)[i].url != UrlEntries(t)[j].url
  {
  }

  /** On a well-formed URL tally each top URL is listed once, with its tallied usage. */
  lemma TopUrlsDistinct(a: Analysis, topN: int)
    requires UrlWellFormed(a.urls)
    ensures var top := GenerateSummaryReport(a, topN).topUrls;
      && (forall i :: 0 <= i < |top| ==>
            top[i].url in a.urls.usage && a.urls.usage[top[i].url] == UrlUsage(top[i].duration, top[i].events, top[i].title))
      && (forall i, j :: 0 <= i < j < |top| ==> top[i].url != top[j].url)
  {
    var entries := UrlEntries(a.urls);
    var ranked := RankedUrls(a, topN);
    var top := GenerateSummaryReport(a, topN).topUrls;
    if a.urls.order != [] {
      LongerOrEqualPreorder();
      Sorting.TakeSorted(entries, UrlLongerOrEqual, topN);
      UrlEntriesListed(a.urls);
      assert Distinct(entries);
      DistinctSubmultiset(ranked, entries);
      forall i | 0 <= i < |top|
        ensures top[i].url in a.urls.usage && a.urls.usage[top[i].url] == UrlUsage(top[i].duration, top[i].events, top[i].title)
      {
        assert top[i] == TopUrlOf(ranked[i], a.totalDuration);
        assert ranked[i] in multiset(entries);
      }
      forall i, j | 0 <= i < j < |top| ensures top[i].url != top[j].url {
        assert top[i] == TopUrlOf(ranked[i], a.totalDuration) && top[j] == TopUrlOf(ranked[j], a.totalDuration);
        assert ranked[i] in multiset(entries) && ranked[j] in multiset(entries);
        var k1 :| 0 <= k1 < |entries| && entries[k1] == ranked[i];
        var k2 :| 0 <= k2 < |entries| && entries[k2] == ranked[j];
        assert k1 != k2;
      }
    }
  }

  /**
   * The daily and hourly breakdowns list every day and hour of the analysis in
   * ascending key order; an hour is labelled `HH:00`.
   */
  lemma BreakdownFacts(a: Analysis, topN: int)
    ensures var r := GenerateSummaryReport(a, topN);
      && |r.daily| == |a.daily.order| && |r.hourly| == |a.hourly.order|
      && (forall i, j :: 0 <= i < j < |r.daily| ==> LexLe(r.daily[i].key, r.daily[j].key))
      && (forall i :: 0 <= i < |r.hourly| ==> r.hourly[i].key == SortedByKey(a.hourly)[i].key + ":00")
      && (forall i, j :: 0 <= i < j < |r.hourly| ==> LexLe(SortedByKey(a.hourly)[i].key, SortedByKey(a.hourly)[j].key))
      && multiset(SortedByKey(a.daily)) == multiset(Entries(a.daily))
      && multiset(SortedByKey(a.hourly)) == multiset(Entries(a.hourly))
  {
    KeyLePreorder();
    Sorting.SortSorted(Entries(a.daily), KeyLe);
    Sorting.SortSorted(Entries(a.hourly), KeyLe);
    Sorting.SortPermutes(Entries(a.daily), KeyLe);
    Sorting.SortPermutes(Entries(a.hourly), KeyLe);
  }

  //
  // extract_events_from_data
  //

  /** The `bucket` tag `extract_events_from_data` puts on a copy of each bucket event. */
  function BucketTag(e: Event, name: string): Event
  {
    e.(bucket := Some(name))
  }

  /** `extract_events_from_data(data)`: a list, else `events`, else `buckets`, else the `data` envelope, else nothing. */
  function ExtractEvents(d: Doc): seq<Event>
    decreases d
  {
    match d
    case EventList(items) => items
    case Object(events, buckets, envelope, _) =>
      if events.Some? then events.value
      else if buckets.Some? then Flatten(buckets.value, BucketTag)
      else if envelope.Some? then ExtractEvents(envelope.value)
      else []
  }

  /**
   * The events extracted from a bucket export are exactly the buckets'
   * events, each tagged with the name of its bucket and otherwise unchanged,
   * and as many as the buckets hold.
   */
  lemma ExtractFromBuckets(d: Doc, e: Event)
    requires d.Object? && d.events.None? && d.buckets.Some?
    ensures var bs := d.buckets.value;
      && |ExtractEvents(d)| == BucketEventCount(bs)
      && (e in ExtractEvents(d) <==>
            exists i, j :: 0 <= i < |bs| && bs[i].bucket.events.Some? && 0 <= j < |bs[i].bucket.events.value|
                        && e == bs[i].bucket.events.value[j].(bucket := Some(bs[i].name)))
  {
    FlattenMembers(d.buckets.value, BucketTag, e);
    FlattenLength(d.buckets.value, BucketTag);
  }

  /** `extract_events_from_data`, with its loops over buckets and their events. */
  method ExtractEventsFromData(d: Doc) returns (events: seq<Event>)
    ensures events == ExtractEvents(d)
    decreases d
  {
    if d.EventList? {
      return d.items;
    }
    if d.events.Some? {
      return d.events.value;
    }
    if d.buckets.Some? {
      var bs := d.buckets.value;
      events := [];
      var i := 0;
      while i < |bs|
        invariant 0 <= i <= |bs|
        invariant events == Flatten(bs[..i], BucketTag)
      {
        assert bs[..i + 1][..i] == bs[..i];
        var nb := bs[i];
        if nb.bucket.events.Some? {
          var es := nb.bucket.events.value;
          var j := 0;
          ghost var before := events;
          while j < |es|
            invariant 0 <= j <= |es|
            invariant events == before + Tagged(nb, BucketTag)[..j]
          {
            assert Tagged(nb, BucketTag)[..j + 1] == Tagged(nb, BucketTag)[..j] + [BucketTag(es[j], nb.name)];
            events := events + [BucketTag(es[j], nb.name)];
            j := j + 1;
          }
          assert Tagged(nb, BucketTag)[..j] == Tagged(nb, BucketTag);
        }
        i := i + 1;
      }
      assert bs[..i] == bs;
      return events;
    }
    if d.envelope.Some? {
      events := ExtractEventsFromData(d.envelope.value);
      return events;
    }
    return [];
  }
}
