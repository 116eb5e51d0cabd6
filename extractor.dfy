/**
 * The seven-day extractor (json_tools/aw_extractor.py): the entries of a
 * loaded browser-watcher export whose timestamp falls in the eight days up to
 * a fixed `today`, then a summary of them: the total time, the ten URLs with
 * the most time, and the twenty most recent entries. Reading and writing
 * files is not part of this model: the loaded list comes in as a parameter
 * and the lines that would be printed and the list that would be saved come
 * out as values.
 */
module Extractor {
  import opened Wrappers
  import opened Events
  import opened Dates
  import Durations
  import Sorting
  import DateFilter

  //
  // The seven-day window
  //

  /** `today` in `extract_last_7_days_data`: 7 June 2025. */
  const Today: Date := Date(2025, 6, 7)

  /** `'timestamp' in entry and is_within_last_7_days(entry['timestamp'], today)` */
  predicate Recent(e: Event, today: Date, lenient: Lenient)
    requires ValidDate(today) && DateLe(Date(1, 1, 8), today)
  {
    e.timestamp.Some? && IsWithinLast7Days(e.timestamp.value, today, lenient)
  }

  /** The entries the loop of `extract_last_7_days_data` keeps. */
  function Last7Days(s: seq<Event>, today: Date, lenient: Lenient): seq<Event>
    requires ValidDate(today) && DateLe(Date(1, 1, 8), today)
  {
    Filter(s, e => Recent(e, today, lenient))
  }

  /** Keeping the last seven days is the date-range selection from `today - 7 days` to `today`. */
  lemma {:induction false} Last7DaysIsRange(s: seq<Event>, today: Date, lenient: Lenient)
    requires ValidDate(today) && DateLe(Date(1, 1, 8), today)
    ensures Last7Days(s, today, lenient) == DateFilter.EventsInRange(s, DaysBefore(today, 7), today, lenient)
  {
    if s != [] {
      Last7DaysIsRange(s[..|s| - 1], today, lenient);
      var e := s[|s| - 1];
      assert Recent(e, today, lenient) == DateFilter.InRange(e, DaysBefore(today, 7), today, lenient);
    }
  }

  /**
   * An entry is kept exactly when it has a timestamp whose leniently parsed
   * date lies between `today - 7 days` and `today`, both included: an entry
   * without a timestamp, or with one that does not parse, is dropped.
   */
  lemma Last7DaysMembers(s: seq<Event>, today: Date, lenient: Lenient, e: Event)
    requires ValidDate(today) && DateLe(Date(1, 1, 8), today)
    ensures e in Last7Days(s, today, lenient) <==>
      && e in s && e.timestamp.Some? && lenient(e.timestamp.value).Some?
      && DateLe(DaysBefore(today, 7), lenient(e.timestamp.value).value) && DateLe(lenient(e.timestamp.value).value, today)
    ensures e in s && (e.timestamp.None? || lenient(e.timestamp.value).None?) ==> e !in Last7Days(s, today, lenient)
  {
    Last7DaysIsRange(s, today, lenient);
  }

  /** The kept entries keep their order and their number of occurrences. */
  lemma Last7DaysOrder(s: seq<Event>, today: Date, lenient: Lenient)
    requires ValidDate(today) && DateLe(Date(1, 1, 8), today)
    ensures Subsequence(Last7Days(s, today, lenient), s)
    ensures forall e :: e in Last7Days(s, today, lenient) ==> multiset(Last7Days(s, today, lenient))[e] == multiset(s)[e]
  {
    Last7DaysIsRange(s, today, lenient);
  }

  /** Extracting a second time from the extracted entries changes nothing. */
  lemma Last7DaysIdempotent(s: seq<Event>, today: Date, lenient: Lenient)
    requires ValidDate(today) && DateLe(Date(1, 1, 8), today)
    ensures Last7Days(Last7Days(s, today, lenient), today, lenient) == Last7Days(s, today, lenient)
  {
    Last7DaysIsRange(s, today, lenient);
    Last7DaysIsRange(Last7Days(s, today, lenient), today, lenient);
    DateFilter.EventsInRangeIdempotent(s, DaysBefore(today, 7), today, lenient);
  }

  /**
   * `extract_last_7_days_data` once the file has been loaded (a missing or
   * malformed file loads as `[]`): the entries dated 31 May 2025 to 7 June
   * 2025, in input order.
   */
  method ExtractLast7DaysData(allData: seq<Event>, lenient: Lenient) returns (recent: seq<Event>)
    ensures recent == Last7Days(allData, Today, lenient)
    ensures recent == DateFilter.EventsInRange(allData, Date(2025, 5, 31), Today, lenient)
  {
    SevenDaysBeforeExample();
    Last7DaysIsRange(allData, Today, lenient);
    if allData == [] {
      return [];
    }
    recent := [];
    var i := 0;
    while i < |allData|
      invariant 0 <= i <= |allData|
      invariant recent == Last7Days(allData[..i], Today, lenient)
    {
      var entry := allData[i];
      assert allData[..i + 1][..i] == allData[..i];
      if entry.timestamp.Some? {
        if IsWithinLast7Days(entry.timestamp.value, Today, lenient) {
          recent := recent + [entry];
        }
      }
      i := i + 1;
    }
    assert allData[..i] == allData;
  }

  //
  // format_duration
  //

  /** A duration as this tool prints it: the rendered number and the unit as a word. */
  datatype Words = Words(rendered: Durations.Rendered, suffix: string)

  /**
   * `format_duration(d)`: the thresholds and decimals of the analyzer's
   * `format_duration`, with ` seconds`, ` minutes` or ` hours` after the number.
   */
  function FormatDuration(d: real): (r: Words)
    ensures r.suffix == " seconds" <==> d < 60.0
    ensures r.suffix == " minutes" <==> 60.0 <= d < 3600.0
    ensures r.suffix == " hours" <==> 3600.0 <= d
    ensures r.rendered.value * Durations.Scale(r.rendered.unit) == d
    ensures r.rendered.decimals == if d < 3600.0 then 1 else 2
  {
    var x := Durations.FormatDuration(d);
    Words(x, Durations.WordSuffix(x.unit))
  }

  /** 45 s prints as "45.0 seconds", 3599 s as "60.0 minutes" and 3600 s as "1.00 hours". */
  lemma FormatDurationExamples()
    ensures FormatDuration(45.0).suffix == " seconds" && Durations.Digits(FormatDuration(45.0).rendered) == 450
    ensures FormatDuration(3599.0).suffix == " minutes" && Durations.Digits(FormatDuration(3599.0).rendered) == 600
    ensures FormatDuration(3600.0).suffix == " hours" && Durations.Digits(FormatDuration(3600.0).rendered) == 100
  {
    assert Durations.Pow10(1) == 10 && Durations.Pow10(2) == 100;
  }

  //
  // The URL summary
  //

  /** `'data' in entry and 'url' in entry['data']`: the entry's URL, which may be empty. */
  function UrlOf(e: Event): Option<string>
  {
    DataField(e, "url")
  }

  /** `entry['data'].get('title', 'Unknown Title')` */
  function TitleOf(e: Event): string
  {
    DataFieldOr(e, "title", "Unknown Title")
  }

  /** One value of `url_summary`. */
  datatype Site = Site(title: string, totalDuration: real, visitCount: nat)

  /** `url_summary`: a dictionary from URLs to sites, its keys in insertion order. */
  datatype Summary = Summary(order: seq<string>, sites: map<string, Site>)

  const EmptySummary: Summary := Summary([], map[])

  /** Each URL once in `order`, and `order` lists exactly the keys of `sites`. */
  ghost predicate WellFormed(t: Summary)
  {
    Distinct(t.order) && forall u :: u in t.sites <==> u in t.order
  }

  /** One visit: a new URL is entered with the visit's title and zero totals, then the totals grow. */
  function AddVisit(t: Summary, url: string, d: real, title: string): Summary
  {
    var t' := if url in t.sites then t else Summary(t.order + [url], t.sites[url := Site(title, 0.0, 0)]);
    var site := t'.sites[url];
    t'.(sites := t'.sites[url := Site(site.title, site.totalDuration + d, site.visitCount + 1)])
  }

  /** The loop building `url_summary`, from an empty dictionary. */
  function SummaryOf(s: seq<Event>): Summary
  {
    if s == [] then EmptySummary
    else
      var t := SummaryOf(s[..|s| - 1]);
      var e := s[|s| - 1];
      if UrlOf(e).Some? then AddVisit(t, UrlOf(e).value, Dur(e), TitleOf(e)) else t
  }

  /** The entries of `url`. */
  function Visits(s: seq<Event>, url: string): seq<Event>
  {
    Filter(s, e => UrlOf(e) == Some(url))
  }

  /** The entries with a URL. */
  function WithUrl(s: seq<Event>): seq<Event>
  {
    Filter(s, e => UrlOf(e).Some?)
  }

  /** The entries without a URL. */
  function WithoutUrl(s: seq<Event>): seq<Event>
  {
    Filter(s, e => UrlOf(e).None?)
  }

  lemma AddVisitWellFormed(t: Summary, url: string, d: real, title: string)
    requires WellFormed(t)
    ensures WellFormed(AddVisit(t, url, d, title))
  {
    if url !in t.sites {
      var o := t.order + [url];
      forall i, j | 0 <= i < j < |o| ensures o[i] != o[j] {
        if j == |t.order| {
          assert o[i] == t.order[i];
        }
      }
    }
  }

  /** The summary is a well-formed dictionary. */
  lemma {:induction false} SummaryWellFormed(s: seq<Event>)
    ensures WellFormed(SummaryOf(s))
  {
    if s != [] {
      SummaryWellFormed(s[..|s| - 1]);
      var e := s[|s| - 1];
      if UrlOf(e).Some? {
        AddVisitWellFormed(SummaryOf(s[..|s| - 1]), UrlOf(e).value, Dur(e), TitleOf(e));
      }
    }
  }

  /**
   * A URL is a key exactly when some entry has it, and its site holds the
   * title of its first entry, the summed durations of its entries and their
   * number.
   */
  lemma {:induction false} SummarySite(s: seq<Event>, url: string)
    ensures url in SummaryOf(s).sites <==> Visits(s, url) != []
    ensures url in SummaryOf(s).sites ==>
      SummaryOf(s).sites[url] == Site(TitleOf(Visits(s, url)[0]), SumDurations(Visits(s, url)), |Visits(s, url)|)
  {
    if s != [] {
      var init := s[..|s| - 1];
      var e := s[|s| - 1];
      var v := Visits(init, url);
      SummarySite(init, url);
      assert Visits(s, url) == if UrlOf(e) == Some(url) then v + [e] else v;
      if UrlOf(e) == Some(url) {
        assert (v + [e])[..|v|] == v;
        if v != [] {
          assert (v + [e])[0] == v[0];
        }
      }
    }
  }

  /** The keys of the summary are the URLs of the entries. */
  lemma SummaryKeys(s: seq<Event>, url: string)
    ensures url in SummaryOf(s).sites <==> exists i :: 0 <= i < |s| && UrlOf(s[i]) == Some(url)
  {
    SummarySite(s, url);
    FilterFacts(s, e => UrlOf(e) == Some(url));
    if exists i :: 0 <= i < |s| && UrlOf(s[i]) == Some(url) {
      var i :| 0 <= i < |s| && UrlOf(s[i]) == Some(url);
      assert s[i] in Visits(s, url);
    }
    if Visits(s, url) != [] {
      assert Visits(s, url)[0] in Visits(s, url);
    }
  }

  /** The summed durations of the sites listed in `order`. */
  function SiteDurations(order: seq<string>, sites: map<string, Site>): real
  {
    if order == [] then 0.0
    else SiteDurations(order[..|order| - 1], sites) + (if order[|order| - 1] in sites then sites[order[|order| - 1]].totalDuration else 0.0)
  }

  /** The summed visit counts of the sites listed in `order`. */
  function SiteVisits(order: seq<string>, sites: map<string, Site>): int
  {
    if order == [] then 0
    else SiteVisits(order[..|order| - 1], sites) + (if order[|order| - 1] in sites then sites[order[|order| - 1]].visitCount else 0)
  }

  lemma {:induction false} SiteTotalsAbsent(order: seq<string>, sites: map<string, Site>, u: string, x: Site)
    requires u !in order
    ensures SiteDurations(order, sites[u := x]) == SiteDurations(order, sites)
    ensures SiteVisits(order, sites[u := x]) == SiteVisits(order, sites)
  {
    if order != [] {
      SiteTotalsAbsent(order[..|order| - 1], sites, u, x);
    }
  }

  lemma {:induction false} SiteTotalsUpdate(order: seq<string>, sites: map<string, Site>, u: string, x: Site)
    requires Distinct(order) && u in order && u in sites
    ensures SiteDurations(order, sites[u := x]) == SiteDurations(order, sites) + (x.totalDuration - sites[u].totalDuration)
    ensures SiteVisits(order, sites[u := x]) == SiteVisits(order, sites) + (x.visitCount - sites[u].visitCount)
  {
    var init := order[..|order| - 1];
    assert Distinct(init);
    if order[|order| - 1] == u {
      assert u !in init;
      SiteTotalsAbsent(init, sites, u, x);
    } else {
      assert u in init;
      SiteTotalsUpdate(init, sites, u, x);
    }
  }

  lemma AddVisitTotals(t: Summary, url: string, d: real, title: string)
    requires WellFormed(t)
    ensures var r := AddVisit(t, url, d, title);
      SiteDurations(r.order, r.sites) == SiteDurations(t.order, t.sites) + d && SiteVisits(r.order, r.sites) == SiteVisits(t.order, t.sites) + 1
  {
    if url in t.sites {
      var x := t.sites[url];
      SiteTotalsUpdate(t.order, t.sites, url, Site(x.title, x.totalDuration + d, x.visitCount + 1));
    } else {
      var o := t.order + [url];
      var sites := t.sites[url := Site(title, 0.0, 0)][url := Site(title, 0.0 + d, 0 + 1)];
      assert sites == t.sites[url := Site(title, d, 1)];
      assert o[..|t.order|] == t.order;
      SiteTotalsAbsent(t.order, t.sites, url, Site(title, d, 1));
    }
  }

  /** The sites' durations add up to those of the entries with a URL, and their visits to the number of those entries. */
  lemma {:induction false} SummaryTotals(s: seq<Event>)
    ensures SiteDurations(SummaryOf(s).order, SummaryOf(s).sites) == SumDurations(WithUrl(s))
    ensures SiteVisits(SummaryOf(s).order, SummaryOf(s).sites) == |WithUrl(s)|
  {
    if s != [] {
      var init := s[..|s| - 1];
      var e := s[|s| - 1];
      SummaryTotals(init);
      if UrlOf(e).Some? {
        SummaryWellFormed(init);
        AddVisitTotals(SummaryOf(init), UrlOf(e).value, Dur(e), TitleOf(e));
        var w := WithUrl(init) + [e];
        assert w[..|w| - 1] == WithUrl(init);
      }
    }
  }

  /** The total is split between the entries with a URL, which the summary accounts for, and the rest. */
  lemma TotalSplits(s: seq<Event>)
    ensures SumDurations(s) == SiteDurations(SummaryOf(s).order, SummaryOf(s).sites) + SumDurations(WithoutUrl(s))
  {
    SummaryTotals(s);
    SumDurationsPartition(s);
  }

  lemma {:induction false} SumDurationsPartition(s: seq<Event>)
    ensures SumDurations(s) == SumDurations(WithUrl(s)) + SumDurations(WithoutUrl(s))
  {
    if s != [] {
      var init := s[..|s| - 1];
      var e := s[|s| - 1];
      SumDurationsPartition(init);
      if UrlOf(e).Some? {
        var w := WithUrl(init) + [e];
        assert w[..|w| - 1] == WithUrl(init);
      } else {
        var w := WithoutUrl(init) + [e];
        assert w[..|w| - 1] == WithoutUrl(init);
      }
    }
  }

  /** Keys are in order of first appearance: an earlier key has an entry before every entry of a later key. */
  lemma {:induction false} SummaryFirstSeen(s: seq<Event>, i: nat, j: nat)
    requires i < j < |SummaryOf(s).order|
    ensures var o := SummaryOf(s).order;
      exists a :: 0 <= a < |s| && UrlOf(s[a]) == Some(o[i]) && forall b :: 0 <= b <= a ==> UrlOf(s[b]) != Some(o[j])
  {
    var init := s[..|s| - 1];
    var e := s[|s| - 1];
    var t := SummaryOf(init);
    var o := SummaryOf(s).order;
    SummaryWellFormed(init);
    if j < |t.order| {
      assert o[..|t.order|] == t.order;
      SummaryFirstSeen(init, i, j);
      var a :| 0 <= a < |init| && UrlOf(init[a]) == Some(t.order[i]) && forall b :: 0 <= b <= a ==> UrlOf(init[b]) != Some(t.order[j]);
      assert s[a] == init[a];
      assert forall b :: 0 <= b <= a ==> s[b] == init[b];
    } else {
      assert o == t.order + [UrlOf(e).value] && UrlOf(e).value !in t.sites;
      assert o[i] == t.order[i] && o[i] in t.sites;
      SummaryKeys(init, o[i]);
      SummaryKeys(init, o[j]);
      var a :| 0 <= a < |init| && UrlOf(init[a]) == Some(o[i]);
      assert s[a] == init[a];
      assert forall b :: 0 <= b <= a ==> s[b] == init[b];
    }
  }

  /** The loop of `analyze_data` that fills `url_summary`. */
  method SummarizeUrls(data: seq<Event>) returns (t: Summary)
    ensures t == SummaryOf(data)
  {
    t := EmptySummary;
    var i := 0;
    while i < |data|
      invariant 0 <= i <= |data|
      invariant t == SummaryOf(data[..i])
    {
      var entry := data[i];
      assert data[..i + 1][..i] == data[..i];
      if entry.data.Some? && "url" in entry.data.value {
        var url := entry.data.value["url"];
        var duration := Dur(entry);
        var title := TitleOf(entry);
        if url !in t.sites {
          t := Summary(t.order + [url], t.sites[url := Site(title, 0.0, 0)]);
        }
        var site := t.sites[url];
        t := t.(sites := t.sites[url := Site(site.title, site.totalDuration + duration, site.visitCount + 1)]);
      }
      i := i + 1;
    }
    assert data[..i] == data;
  }

  //
  // Ranking
  //

  /** One pair of `url_summary.items()`. */
  datatype Item = Item(url: string, site: Site)

  /** `url_summary.items()`, in insertion order. */
  function Items(t: Summary): (r: seq<Item>)
    ensures |r| == |t.order|
  {
    seq(|t.order|, i requires 0 <= i < |t.order| =>
      Item(t.order[i], if t.order[i] in t.sites then t.sites[t.order[i]] else Site("", 0.0, 0)))
  }

  /** `key=lambda x: x[1]['total_duration'], reverse=True`: the stable sort keeps `a` first on a tie. */
  predicate LongerOrEqual(a: Item, b: Item)
  {
    a.site.totalDuration >= b.site.totalDuration
  }

  /** `key=lambda x: x.get('timestamp', ''), reverse=True`. */
  predicate NewerOrEqual(a: Event, b: Event)
  {
    LexLe(TimestampOf(b), TimestampOf(a))
  }

  lemma LongerOrEqualPreorder()
    ensures Sorting.TotalPreorder(LongerOrEqual)
  {
  }

  lemma NewerOrEqualPreorder()
    ensures Sorting.TotalPreorder(NewerOrEqual)
  {
    forall a: Event, b: Event ensures NewerOrEqual(a, b) || NewerOrEqual(b, a) {
      LexLeTotal(TimestampOf(a), TimestampOf(b));
    }
    forall a: Event, b: Event, c: Event | NewerOrEqual(a, b) && NewerOrEqual(b, c) ensures NewerOrEqual(a, c) {
      LexLeTransitive(TimestampOf(c), TimestampOf(b), TimestampOf(a));
    }
  }

  /** How many sites and recent entries are shown. */
  const SitesShown: int := 10
  const EntriesShown: int := 20

  /** `sorted_urls[:10]`. */
  function TopSites(t: Summary): seq<Item>
  {
    Sorting.Take(Sorting.Sort(Items(t), LongerOrEqual), SitesShown)
  }

  /** `sorted_data[:20]`. */
  function LatestEntries(data: seq<Event>): seq<Event>
  {
    Sorting.Take(Sorting.Sort(data, NewerOrEqual), EntriesShown)
  }

  /**
   * The twenty latest entries: all of them when there are fewer, newest
   * first by timestamp text (a missing one counting as the empty text), each
   * an entry of the input as often as it occurs there at most, and no entry
   * left out newer than one shown.
   */
  lemma LatestEntriesFacts(data: seq<Event>)
    ensures var r := LatestEntries(data);
      && |r| == (if |data| < EntriesShown then |data| else EntriesShown)
      && (forall i, j :: 0 <= i < j < |r| ==> LexLe(TimestampOf(r[j]), TimestampOf(r[i])))
      && multiset(r) <= multiset(data)
      && (forall e :: multiset(r)[e] < multiset(data)[e] ==> forall i :: 0 <= i < |r| ==> LexLe(TimestampOf(e), TimestampOf(r[i])))
  {
    NewerOrEqualPreorder();
    Sorting.TakeSorted(data, NewerOrEqual, EntriesShown);
  }

  //
  // The printed summary
  //

  /**
   * `parser.parse(ts).strftime('%Y-%m-%d %H:%M:%S')`, or None where the parse
   * raises. It is not part of this model, so it comes in as a parameter.
   */
  type Render = string -> Option<string>

  /** One entry of the top-sites listing: rank, title cut to 50 characters, URL, time, visits. */
  datatype SiteLine = SiteLine(rank: nat, title: string, url: string, time: Words, visits: nat)

  /** One entry of the recent-activity listing: rank, time, title cut to 60, duration, URL cut to 80. */
  datatype ActivityLine = ActivityLine(rank: nat, time: string, title: string, duration: Words, url: string)

  /** What `analyze_data` prints for a non-empty list. */
  datatype Report = Report(totalDuration: real, total: Words, sites: seq<SiteLine>, activity: seq<ActivityLine>)

  function SiteLineOf(rank: nat, x: Item): SiteLine
  {
    SiteLine(rank, Slice(x.site.title, 0, 50), x.url, FormatDuration(x.site.totalDuration), x.site.visitCount)
  }

  /** The lines of one recent entry: a missing timestamp reads `Unknown`, one that does not parse is shown as it is. */
  function ActivityLineOf(rank: nat, e: Event, render: Render): ActivityLine
  {
    var timestamp := if e.timestamp.Some? then e.timestamp.value else "Unknown";
    var time := if render(timestamp).Some? then render(timestamp).value else timestamp;
    ActivityLine(rank, time, Slice(DataFieldOr(e, "title", "Unknown Title"), 0, 60), FormatDuration(Dur(e)),
                 Slice(DataFieldOr(e, "url", "Unknown URL"), 0, 80))
  }

  /** The recent-activity loop: an entry without `data` prints nothing but still takes its rank. */
  function ActivityLines(top: seq<Event>, render: Render): seq<ActivityLine>
  {
    if top == [] then []
    else
      var lines := ActivityLines(top[..|top| - 1], render);
      var e := top[|top| - 1];
      if e.data.Some? then lines + [ActivityLineOf(|top|, e, render)] else lines
  }

  /** `line` is the line of the entry of `top` at its rank, which has `data`. */
  predicate LineOfEntry(line: ActivityLine, top: seq<Event>, render: Render)
  {
    1 <= line.rank <= |top| && top[line.rank - 1].data.Some? && line == ActivityLineOf(line.rank, top[line.rank - 1], render)
  }

  /**
   * Each recent-activity line is that of an entry with `data`, carrying the
   * entry's position in the list (from 1).
   */
  lemma {:induction false} ActivityLinesEntries(top: seq<Event>, render: Render)
    ensures forall i :: 0 <= i < |ActivityLines(top, render)| ==> LineOfEntry(ActivityLines(top, render)[i], top, render)
  {
    if top != [] {
      var init := top[..|top| - 1];
      var e := top[|top| - 1];
      var before := ActivityLines(init, render);
      ActivityLinesEntries(init, render);
      var lines := ActivityLines(top, render);
      assert lines == if e.data.Some? then before + [ActivityLineOf(|top|, e, render)] else before;
      forall i | 0 <= i < |lines| ensures LineOfEntry(lines[i], top, render) {
        if i < |before| {
          assert lines[i] == before[i];
          assert LineOfEntry(before[i], init, render);
          assert top[before[i].rank - 1] == init[before[i].rank - 1];
        }
      }
    }
  }

  /** There are no more lines than entries, and their positions go up. */
  lemma {:induction false} ActivityLinesAscending(top: seq<Event>, render: Render)
    ensures var lines := ActivityLines(top, render);
      && |lines| <= |top|
      && forall i, j :: 0 <= i < j < |lines| ==> lines[i].rank < lines[j].rank
  {
    if top != [] {
      var init := top[..|top| - 1];
      var e := top[|top| - 1];
      var before := ActivityLines(init, render);
      ActivityLinesAscending(init, render);
      if e.data.Some? {
        ActivityLinesEntries(init, render);
        var lines := before + [ActivityLineOf(|top|, e, render)];
        forall i, j | 0 <= i < j < |lines| ensures lines[i].rank < lines[j].rank {
          assert lines[i] == before[i] && LineOfEntry(before[i], init, render);
          if j < |before| {
            assert lines[j] == before[j];
          }
        }
      }
    }
  }

  /** Every entry with `data` has its line. */
  lemma {:induction false} ActivityLinesComplete(top: seq<Event>, render: Render, k: nat)
    requires k < |top| && top[k].data.Some?
    ensures exists i :: 0 <= i < |ActivityLines(top, render)| && ActivityLines(top, render)[i].rank == k + 1
  {
    var init := top[..|top| - 1];
    var before := ActivityLines(init, render);
    if k == |top| - 1 {
      assert ActivityLines(top, render)[|before|].rank == k + 1;
    } else {
      assert init[k] == top[k];
      ActivityLinesComplete(init, render, k);
      var i :| 0 <= i < |before| && before[i].rank == k + 1;
      assert ActivityLines(top, render)[i] == before[i];
    }
  }

  /** The top-sites listing of the entries' URL summary. */
  function SiteLines(data: seq<Event>): seq<SiteLine>
  {
    var top := TopSites(SummaryOf(data));
    seq(|top|, i requires 0 <= i < |top| => SiteLineOf(i + 1, top[i]))
  }

  /** `analyze_data(data)`: nothing for an empty list. */
  function ReportOf(data: seq<Event>, render: Render): Option<Report>
  {
    if data == [] then None
    else
      var total := SumDurations(data);
      Some(Report(total, FormatDuration(total), SiteLines(data), ActivityLines(LatestEntries(data), render)))
  }

  /** The items of a well-formed summary are its keys, each with its site. */
  lemma ItemsOfSummary(t: Summary)
    requires WellFormed(t)
    ensures forall x :: x in multiset(Items(t)) ==> x.url in t.sites && x.site == t.sites[x.url]
    ensures forall u :: u in t.sites ==> Item(u, t.sites[u]) in multiset(Items(t))
  {
    forall x | x in multiset(Items(t)) ensures x.url in t.sites && x.site == t.sites[x.url] {
      var k :| 0 <= k < |Items(t)| && Items(t)[k] == x;
      assert t.order[k] in t.sites;
    }
    forall u | u in t.sites ensures Item(u, t.sites[u]) in multiset(Items(t)) {
      var k :| 0 <= k < |t.order| && t.order[k] == u;
      assert Items(t)[k] == Item(u, t.sites[u]);
    }
  }

  /** `sorted_urls[:10]` is ordered, drawn from the items, and goes before every item left out. */
  lemma TopSitesSorted(t: Summary)
    ensures Sorting.Sorted(TopSites(t), LongerOrEqual)
    ensures multiset(TopSites(t)) <= multiset(Items(t))
    ensures forall x :: multiset(TopSites(t))[x] < multiset(Items(t))[x] ==>
      forall i :: 0 <= i < |TopSites(t)| ==> LongerOrEqual(TopSites(t)[i], x)
  {
    LongerOrEqualPreorder();
    Sorting.TakeSorted(Items(t), LongerOrEqual, SitesShown);
  }

  /**
   * The top sites: ten, or every URL when there are fewer, each a key of the
   * summary with its site, longest first.
   */
  lemma TopSitesRanked(t: Summary)
    requires WellFormed(t)
    ensures var top := TopSites(t);
      && |top| == (if |t.order| < SitesShown then |t.order| else SitesShown)
      && (forall i :: 0 <= i < |top| ==> top[i].url in t.sites && top[i].site == t.sites[top[i].url])
      && (forall i, j :: 0 <= i < j < |top| ==> top[i].site.totalDuration >= top[j].site.totalDuration)
  {
    var top := TopSites(t);
    TopSitesSorted(t);
    ItemsOfSummary(t);
    forall i | 0 <= i < |top| ensures top[i] in multiset(Items(t)) {
      assert top[i] in multiset(top);
    }
  }

  /** No key left out of the top sites is longer than one shown. */
  lemma TopSitesBeatRest(t: Summary, u: string)
    requires WellFormed(t) && u in t.sites
    requires forall i :: 0 <= i < |TopSites(t)| ==> TopSites(t)[i].url != u
    ensures forall i :: 0 <= i < |TopSites(t)| ==> TopSites(t)[i].site.totalDuration >= t.sites[u].totalDuration
  {
    var top := TopSites(t);
    var x := Item(u, t.sites[u]);
    TopSitesSorted(t);
    ItemsOfSummary(t);
    assert x !in top;
  }

  /**
   * The top-sites listing: ten lines, or one per URL when there are fewer,
   * ranked from 1, longest first, each for a URL of the entries with the
   * title of its first entry (cut to 50 characters), its summed durations
   * and its number of entries.
   */
  lemma TopSitesListed(data: seq<Event>)
    ensures var sites := SiteLines(data);
      && |sites| == (if |SummaryOf(data).order| < SitesShown then |SummaryOf(data).order| else SitesShown)
      && (forall i :: 0 <= i < |sites| ==>
            var v := Visits(data, sites[i].url);
            && v != [] && sites[i].rank == i + 1 && sites[i].title == Slice(TitleOf(v[0]), 0, 50)
            && sites[i].time == FormatDuration(SumDurations(v)) && sites[i].visits == |v|)
      && (forall i, j :: 0 <= i < j < |sites| ==> SumDurations(Visits(data, sites[i].url)) >= SumDurations(Visits(data, sites[j].url)))
  {
    var t := SummaryOf(data);
    var top := TopSites(t);
    var sites := SiteLines(data);
    SummaryWellFormed(data);
    TopSitesRanked(t);
    forall i | 0 <= i < |top|
      ensures sites[i] == SiteLineOf(i + 1, top[i])
      ensures var v := Visits(data, top[i].url); v != [] && top[i].site == Site(TitleOf(v[0]), SumDurations(v), |v|)
    {
      SummarySite(data, top[i].url);
    }
  }

  /** No URL left out of the top-sites listing has more time than one listed. */
  lemma TopSitesOmitted(data: seq<Event>, url: string)
    requires url in SummaryOf(data).sites
    requires forall i :: 0 <= i < |SiteLines(data)| ==> SiteLines(data)[i].url != url
    ensures forall i :: 0 <= i < |SiteLines(data)| ==> SumDurations(Visits(data, SiteLines(data)[i].url)) >= SumDurations(Visits(data, url))
  {
    var t := SummaryOf(data);
    var top := TopSites(t);
    var sites := SiteLines(data);
    SummaryWellFormed(data);
    TopSitesRanked(t);
    SummarySite(data, url);
    forall i | 0 <= i < |top|
      ensures sites[i] == SiteLineOf(i + 1, top[i])
      ensures top[i].site.totalDuration == SumDurations(Visits(data, top[i].url))
    {
      SummarySite(data, top[i].url);
    }
    TopSitesBeatRest(t, url);
  }

  /**
   * The report of a non-empty list: the total is the sum of all durations, a
   * missing one counting as 0, which is the sites' durations plus those of the
   * entries without a URL; at most twenty entries are listed as recent.
   */
  lemma ReportShape(data: seq<Event>, render: Render)
    requires data != []
    ensures ReportOf(data, render).Some?
    ensures var r := ReportOf(data, render).value;
      && r.totalDuration == SiteDurations(SummaryOf(data).order, SummaryOf(data).sites) + SumDurations(WithoutUrl(data))
      && r.total == FormatDuration(r.totalDuration)
      && |r.activity| <= EntriesShown
  {
    TotalSplits(data);
    ActivityLinesAscending(LatestEntries(data), render);
  }

  /** `analyze_data(data)`: the summary loop, the sorts and slices, and the two listing loops. */
  method AnalyzeData(data: seq<Event>, render: Render) returns (r: Option<Report>)
    ensures r == ReportOf(data, render)
  {
    if data == [] {
      return None;
    }
    var sortedData := Sorting.Sort(data, NewerOrEqual);
    var totalDuration := SumDurations(data);
    var summary := SummarizeUrls(data);
    var top := Sorting.Take(Sorting.Sort(Items(summary), LongerOrEqual), SitesShown);
    var sites := ListSites(top);
    var latest := Sorting.Take(sortedData, EntriesShown);
    var activity := ListActivity(latest, render);
    return Some(Report(totalDuration, FormatDuration(totalDuration), sites, activity));
  }

  /** The top-sites loop over `enumerate(sorted_urls[:10], 1)`. */
  method ListSites(top: seq<Item>) returns (sites: seq<SiteLine>)
    ensures sites == seq(|top|, i requires 0 <= i < |top| => SiteLineOf(i + 1, top[i]))
  {
    sites := [];
    for i := 0 to |top|
      invariant sites == seq(i, k requires 0 <= k < i => SiteLineOf(k + 1, top[k]))
    {
      sites := sites + [SiteLineOf(i + 1, top[i])];
    }
  }

  /** The recent-activity loop over `enumerate(sorted_data[:20], 1)`. */
  method ListActivity(latest: seq<Event>, render: Render) returns (activity: seq<ActivityLine>)
    ensures activity == ActivityLines(latest, render)
  {
    activity := [];
    for i := 0 to |latest|
      invariant activity == ActivityLines(latest[..i], render)
    {
      assert latest[..i + 1][..i] == latest[..i];
      var entry := latest[i];
      if entry.data.Some? {
        activity := activity + [ActivityLineOf(i + 1, entry, render)];
      }
    }
    assert latest[..|latest|] == latest;
  }

  //
  // main
  //

  /** Where `main` saves the extracted entries. */
  const OutputFile: string := "output/activitywatch_last_7_days.json"

  /**
   * `main` once the input file has been loaded: the extracted entries are
   * summarised and saved when there are any; nothing is printed or saved
   * otherwise.
   */
  method Run(allData: seq<Event>, lenient: Lenient, render: Render)
    returns (report: Option<Report>, saved: Option<(string, seq<Event>)>)
    ensures var recent := Last7Days(allData, Today, lenient);
      && (report.Some? <==> recent != []) && report == ReportOf(recent, render)
      && saved == if recent == [] then None else Some((OutputFile, recent))
  {
    var recent := ExtractLast7DaysData(allData, lenient);
    report, saved := None, None;
    if recent != [] {
      report := AnalyzeData(recent, render);
      saved := Some((OutputFile, recent));
    }
  }
}
