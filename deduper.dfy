/**
 * The stateful cleaner of json_tools/aw_deduper.py: an `ActivityWatchCleaner`
 * holds a configuration (defaults updated by the caller's keys), flattens the
 * buckets of an export while tagging each event with its bucket and a device
 * name, runs the cleaning passes of json_tools/aw_clean.py while logging how
 * many events each pass removed, and summarises the result.
 */
module Deduper {
  import opened Wrappers
  import opened Events
  import opened Tallies
  import Clean
  import Dedup
  import Merge
  import Analyze

  //
  // Configuration
  //

  /** `self.config`. */
  datatype Config = Config(
    removeZero: bool,
    dedup: bool,
    merge: bool,
    maxGap: int,
    minDuration: int,
    excludeApps: seq<string>,
    excludeTitles: seq<string>,
    verbose: bool)

  const Defaults: Config :=
    Config(true, true, true, 30, 2, ["UserNotificationCenter", "loginwindow", "CoreServicesUIAgent"], ["", " "], true)

  /** The caller's `config` dictionary: the keys it supplies. */
  datatype Overrides = Overrides(
    removeZero: Option<bool>,
    dedup: Option<bool>,
    merge: Option<bool>,
    maxGap: Option<int>,
    minDuration: Option<int>,
    excludeApps: Option<seq<string>>,
    excludeTitles: Option<seq<string>>,
    verbose: Option<bool>)

  const NoOverrides: Overrides := Overrides(None, None, None, None, None, None, None, None)

  function Pick<T>(given: Option<T>, current: T): T
  {
    if given.Some? then given.value else current
  }

  /** `config.update(overrides)`. */
  function Update(c: Config, o: Overrides): Config
  {
    Config(
      Pick(o.removeZero, c.removeZero), Pick(o.dedup, c.dedup), Pick(o.merge, c.merge),
      Pick(o.maxGap, c.maxGap), Pick(o.minDuration, c.minDuration),
      Pick(o.excludeApps, c.excludeApps), Pick(o.excludeTitles, c.excludeTitles),
      Pick(o.verbose, c.verbose))
  }

  /** The keys of `second` win over those of `first`. */
  function Combine(first: Overrides, second: Overrides): Overrides
  {
    Overrides(
      if second.removeZero.Some? then second.removeZero else first.removeZero,
      if second.dedup.Some? then second.dedup else first.dedup,
      if second.merge.Some? then second.merge else first.merge,
      if second.maxGap.Some? then second.maxGap else first.maxGap,
      if second.minDuration.Some? then second.minDuration else first.minDuration,
      if second.excludeApps.Some? then second.excludeApps else first.excludeApps,
      if second.excludeTitles.Some? then second.excludeTitles else first.excludeTitles,
      if second.verbose.Some? then second.verbose else first.verbose)
  }

  /** No keys change nothing; updating twice is updating once with the later keys winning; repeating an update changes nothing. */
  lemma UpdateLaws(c: Config, a: Overrides, b: Overrides)
    ensures Update(c, NoOverrides) == c
    ensures Update(Update(c, a), b) == Update(c, Combine(a, b))
    ensures Update(Update(c, a), a) == Update(c, a)
  {
  }

  /**
   * The configuration `main` builds from its options supplies four keys: the
   * other defaults stay in place.
   */
  lemma MainConfig(minDuration: int, maxGap: int, noMerge: bool, verbose: bool)
    ensures var c := Update(Defaults, Overrides(None, None, Some(!noMerge), Some(maxGap), Some(minDuration), None, None, Some(verbose)));
      && c.removeZero && c.dedup && c.merge == !noMerge
      && c.maxGap == maxGap && c.minDuration == minDuration && c.verbose == verbose
      && c.excludeApps == Defaults.excludeApps && c.excludeTitles == Defaults.excludeTitles
  {
  }

  /** The options of json_tools/aw_clean.py's `filter_events` that a configuration amounts to. */
  function OptionsOf(c: Config): Clean.Options
  {
    Clean.Options(c.minDuration, Some(c.excludeApps), c.removeZero, c.dedup, c.merge, c.maxGap)
  }

  //
  // Device names
  //

  /** `s.split(sep)`. */
  function Split(s: string, sep: char): (r: seq<string>)
    ensures |r| >= 1
  {
    if s == [] then [""]
    else
      var parts := Split(s[..|s| - 1], sep);
      var c := s[|s| - 1];
      if c == sep then parts + [""]
      else parts[..|parts| - 1] + [parts[|parts| - 1] + [c]]
  }

  /** No part holds the separator. */
  lemma {:induction false} SplitParts(s: string, sep: char)
    ensures forall i :: 0 <= i < |Split(s, sep)| ==> sep !in Split(s, sep)[i]
  {
    if s != [] {
      SplitParts(s[..|s| - 1], sep);
      var parts := Split(s[..|s| - 1], sep);
      var c := s[|s| - 1];
      if c != sep {
        assert sep !in parts[|parts| - 1];
      }
    }
  }

  /** `sep.join(parts)`. */
  function Join(parts: seq<string>, sep: char): string
  {
    if parts == [] then ""
    else if |parts| == 1 then parts[0]
    else Join(parts[..|parts| - 1], sep) + [sep] + parts[|parts| - 1]
  }

  /** Joining the parts gives back the string, and there is more than one part exactly when the separator occurs. */
  lemma {:induction false} SplitJoin(s: string, sep: char)
    ensures Join(Split(s, sep), sep) == s
    ensures |Split(s, sep)| > 1 <==> sep in s
  {
    if s != [] {
      var init := s[..|s| - 1];
      var c := s[|s| - 1];
      var parts := Split(init, sep);
      SplitJoin(init, sep);
      assert s == init + [c];
      assert sep in s <==> sep in init || c == sep;
      if c == sep {
        JoinLast(parts, "", sep);
      } else {
        var front, last := parts[..|parts| - 1], parts[|parts| - 1];
        assert parts == front + [last];
        assert Split(s, sep) == front + [last + [c]];
        JoinLast(front, last, sep);
        JoinLast(front, last + [c], sep);
      }
    }
  }

  /** Joining around a last part. */
  lemma JoinLast(init: seq<string>, last: string, sep: char)
    ensures Join(init + [last], sep) == if init == [] then last else Join(init, sep) + [sep] + last
  {
    assert (init + [last])[..|init|] == init;
  }

  /** `s.replace(pat, '')`: occurrences are removed left to right, without overlaps. */
  function RemoveAll(s: string, pat: string): (r: string)
    requires pat != []
    ensures |r| <= |s|
    decreases |s|
  {
    if |s| < |pat| then s
    else if s[..|pat|] == pat then RemoveAll(s[|pat|..], pat)
    else [s[0]] + RemoveAll(s[1..], pat)
  }

  /** A string in which the pattern's first character never occurs comes back unchanged. */
  lemma {:induction false} RemoveAllUntouched(s: string, pat: string)
    requires pat != [] && pat[0] !in s
    ensures RemoveAll(s, pat) == s
    decreases |s|
  {
    if |s| >= |pat| {
      assert s[..|pat|][0] == s[0];
      RemoveAllUntouched(s[1..], pat);
      assert [s[0]] + s[1..] == s;
    }
  }

  /** Text free of the pattern's first character, followed by the pattern, loses only the pattern. */
  lemma {:induction false} RemoveAllTrailing(p: string, pat: string)
    requires pat != [] && pat[0] !in p
    ensures RemoveAll(p + pat, pat) == p
    decreases |p|
  {
    var s := p + pat;
    if p == [] {
      assert s[..|pat|] == pat && s[|pat|..] == [];
    } else {
      assert s[..|pat|][0] == p[0];
      assert s[1..] == p[1..] + pat;
      RemoveAllTrailing(p[1..], pat);
      assert [p[0]] + p[1..] == p;
    }
  }

  /** `_extract_device_name(bucket_name)`. */
  function ExtractDeviceName(bucketName: string): string
  {
    var parts := Split(bucketName, '_');
    if |parts| > 1 then RemoveAll(parts[|parts| - 1], ".local") else "unknown"
  }

  /** A name without an underscore has device `unknown`; otherwise the device comes from the text after the last underscore. */
  lemma DeviceNameRule(bucketName: string)
    ensures '_' !in bucketName ==> ExtractDeviceName(bucketName) == "unknown"
    ensures '_' in bucketName ==>
      exists tail :: '_' !in tail && |tail| < |bucketName| && bucketName[|bucketName| - |tail|..] == tail
                  && bucketName[|bucketName| - |tail| - 1] == '_'
                  && ExtractDeviceName(bucketName) == RemoveAll(tail, ".local")
  {
    SplitJoin(bucketName, '_');
    SplitParts(bucketName, '_');
    var parts := Split(bucketName, '_');
    if |parts| > 1 {
      var tail := parts[|parts| - 1];
      JoinLast(parts[..|parts| - 1], tail, '_');
      assert parts == parts[..|parts| - 1] + [tail];
      assert bucketName == Join(parts[..|parts| - 1], '_') + ['_'] + tail;
    }
  }

  /** A watcher bucket on a Mac host names the host without `.local`. */
  lemma DeviceNameExample()
    ensures ExtractDeviceName("aw-watcher-window_MacBook-Pro.local") == "MacBook-Pro"
  {
    var tail := "MacBook-Pro.local";
    assert "aw-watcher-window_MacBook-Pro.local" == "aw-watcher-window" + ['_'] + tail;
    SplitAppend("aw-watcher-window", tail, '_');
    assert tail == "MacBook-Pro" + ".local";
    RemoveAllTrailing("MacBook-Pro", ".local");
  }

  /** A bucket name without an underscore names no device. */
  lemma DeviceNameUnknownExample()
    ensures ExtractDeviceName("aw-watcher-afk") == "unknown"
  {
    SplitJoin("aw-watcher-afk", '_');
  }

  /** The removal is one left-to-right pass: an occurrence that the removal itself joins up survives. */
  lemma RemoveAllRejoinsExample()
    ensures RemoveAll(".lo.localcal", ".local") == ".local"
  {
    var t := ".lo.localcal";
    assert t[..6][3] != ".local"[3];
    assert t[1..][..6][0] != ".local"[0];
    assert t[2..][..6][0] != ".local"[0];
    assert t[3..][..6] == ".local";
    assert t[3..][6..] == "cal";
    assert RemoveAll("cal", ".local") == "cal";
  }

  /** Splitting `a + [sep] + b`, where `b` has no separator, ends with the part `b`. */
  lemma {:induction false} SplitAppend(a: string, b: string, sep: char)
    requires sep !in b
    ensures var parts := Split(a + [sep] + b, sep);
      |parts| > 1 && parts[|parts| - 1] == b
    decreases |b|
  {
    var s := a + [sep] + b;
    if b == [] {
      assert s[..|s| - 1] == a;
    } else {
      var b' := b[..|b| - 1];
      var c := b[|b| - 1];
      assert s[..|s| - 1] == a + [sep] + b';
      assert s[|s| - 1] == c && c != sep;
      SplitAppend(a, b', sep);
      var parts := Split(a + [sep] + b', sep);
      assert Split(s, sep) == parts[..|parts| - 1] + [parts[|parts| - 1] + [c]];
      assert b' + [c] == b;
    }
  }

  //
  // Loading
  //

  /** The in-place tags `load_aw_file` writes: the bucket's name and the device it names. */
  function LoadTag(e: Event, name: string): Event
  {
    e.(bucket := Some(name), device := Some(ExtractDeviceName(name)))
  }

  /** The events `load_aw_file` returns for a loaded document: every bucket's events, tagged, bucket by bucket. */
  function LoadedEvents(d: Doc): seq<Event>
  {
    if d.Object? && d.buckets.Some? then Flatten(d.buckets.value, LoadTag) else []
  }

  /**
   * Loading keeps every bucket event and nothing else, each tagged with its
   * bucket's name and device; a document without `buckets` gives no events.
   */
  lemma LoadedEventsFacts(d: Doc, e: Event)
    ensures !(d.Object? && d.buckets.Some?) ==> LoadedEvents(d) == []
    ensures d.Object? && d.buckets.Some? ==>
      var bs := d.buckets.value;
      && |LoadedEvents(d)| == BucketEventCount(bs)
      && (e in LoadedEvents(d) <==>
            exists i, j :: 0 <= i < |bs| && bs[i].bucket.events.Some? && 0 <= j < |bs[i].bucket.events.value|
                        && e == bs[i].bucket.events.value[j].(bucket := Some(bs[i].name), device := Some(ExtractDeviceName(bs[i].name))))
  {
    if d.Object? && d.buckets.Some? {
      FlattenMembers(d.buckets.value, LoadTag, e);
      FlattenLength(d.buckets.value, LoadTag);
    }
  }

  /** The bucket loop of `load_aw_file`. */
  method LoadAwFile(d: Doc) returns (events: seq<Event>)
    ensures events == LoadedEvents(d)
  {
    events := [];
    if d.EventList? || d.buckets.None? {
      return;
    }
    var bs := d.buckets.value;
    var i := 0;
    while i < |bs|
      invariant 0 <= i <= |bs|
      invariant events == Flatten(bs[..i], LoadTag)
    {
      assert bs[..i + 1][..i] == bs[..i];
      var nb := bs[i];
      if nb.bucket.events.Some? {
        var es := nb.bucket.events.value;
        ghost var before := events;
        var j := 0;
        while j < |es|
          invariant 0 <= j <= |es|
          invariant events == before + Tagged(nb, LoadTag)[..j]
        {
          assert Tagged(nb, LoadTag)[..j + 1] == Tagged(nb, LoadTag)[..j] + [LoadTag(es[j], nb.name)];
          events := events + [LoadTag(es[j], nb.name)];
          j := j + 1;
        }
        assert Tagged(nb, LoadTag)[..j] == Tagged(nb, LoadTag);
      }
      i := i + 1;
    }
    assert bs[..i] == bs;
  }

  //
  // filter_events and its step log
  //

  /** One line of the step log, with the numbers it prints. */
  datatype Step =
    | ZeroDuration(removed: int)
    | ShortEvents(removed: int, minDuration: int)
    | ExcludedApps(removed: int)
    | Simultaneous(removed: int)
    | Consecutive(removed: int)
    | TotalReduction(removed: int, percent: real)

  /** The result of `filter_events`: the cleaned events and the step log. */
  datatype Cleaning = Cleaning(events: seq<Event>, steps: seq<Step>)

  /** `(total_removed / original_count * 100) if original_count > 0 else 0` */
  function ReductionPercent(removed: int, original: int): real
  {
    if original > 0 then removed as real / original as real * 100.0 else 0.0
  }

  /** Pass 1 as configured. */
  function AfterZero(s: seq<Event>, c: Config): (r: seq<Event>)
    ensures |r| <= |s|
  {
    if c.removeZero then Clean.DropNonPositive(s) else s
  }

  /** Passes 1 and 2 as configured. */
  function AfterShort(s: seq<Event>, c: Config): (r: seq<Event>)
    ensures |r| <= |AfterZero(s, c)|
  {
    if c.minDuration > 0 then Clean.DropShort(AfterZero(s, c), c.minDuration) else AfterZero(s, c)
  }

  /** The three screening passes as configured; an empty exclusion list skips the third. */
  function AfterExcluded(s: seq<Event>, c: Config): (r: seq<Event>)
    ensures |r| <= |AfterShort(s, c)|
  {
    if |c.excludeApps| > 0 then Clean.DropExcluded(AfterShort(s, c), c.excludeApps) else AfterShort(s, c)
  }

  /** Pass 4 as configured. */
  function AfterDedup(s: seq<Event>, c: Config): (r: Result<seq<Event>, Error>)
    ensures r.Ok? ==> |r.value| <= |AfterExcluded(s, c)|
  {
    Dedup.KeysLength(AfterExcluded(s, c));
    if c.dedup then Clean.DedupPass(AfterExcluded(s, c)) else Ok(AfterExcluded(s, c))
  }

  /** The line a pass prints when it took the count from `before` down to `after`; none when it removed nothing. */
  function Line(before: int, after: int, step: Step): Option<Step>
  {
    if after < before then Some(step) else None
  }

  /** What a line prints: nothing for a pass that removed nothing. */
  function Shown(line: Option<Step>): seq<Step>
  {
    if line.Some? then [line.value] else []
  }

  /** The lines of the five passes that were printed, in pass order. */
  function Printed(zero: Option<Step>, short: Option<Step>, excluded: Option<Step>, simultaneous: Option<Step>, consecutive: Option<Step>): seq<Step>
  {
    Shown(zero) + Shown(short) + Shown(excluded) + Shown(simultaneous) + Shown(consecutive)
  }

  /** The log for the counts after each of the five passes. */
  function StepLog(n0: int, n1: int, n2: int, n3: int, n4: int, n5: int, minDuration: int): seq<Step>
  {
    Printed(
      Line(n0, n1, ZeroDuration(n0 - n1)),
      Line(n1, n2, ShortEvents(n1 - n2, minDuration)),
      Line(n2, n3, ExcludedApps(n2 - n3)),
      Line(n3, n4, Simultaneous(n3 - n4)),
      Line(n4, n5, Consecutive(n4 - n5)))
    + [TotalLine(n0, n5)]
  }

  /** The closing line: the events removed in all and their share of the original count. */
  function TotalLine(original: int, remaining: int): Step
  {
    TotalReduction(original - remaining, ReductionPercent(original - remaining, original))
  }

  /** `filter_events(events)` under configuration `c`. */
  function Pipeline(s: seq<Event>, c: Config, instant: Merge.Clock): Result<Cleaning, Error>
  {
    var deduped := AfterDedup(s, c);
    if deduped.Err? then Err(deduped.error)
    else
      var d := deduped.value;
      var merged := if c.merge then Merge.Merged(d, c.maxGap as real, instant) else Ok(d);
      if merged.Err? then Err(merged.error)
      else
        var m := merged.value;
        Ok(Cleaning(m, StepLog(|s|, |AfterZero(s, c)|, |AfterShort(s, c)|, |AfterExcluded(s, c)|, |d|, |m|, c.minDuration)))
  }

  /** The events `filter_events` keeps are those of json_tools/aw_clean.py's `filter_events` with the same options. */
  lemma PipelineAgrees(s: seq<Event>, c: Config, instant: Merge.Clock)
    ensures Pipeline(s, c, instant).Ok? <==> Clean.FilterEvents(s, OptionsOf(c), instant).Ok?
    ensures Pipeline(s, c, instant).Ok? ==> Pipeline(s, c, instant).value.events == Clean.FilterEvents(s, OptionsOf(c), instant).value
  {
    assert Clean.Screened(s, OptionsOf(c)) == AfterExcluded(s, c);
  }

  /** With its defaults, the cleaner keeps what json_tools/aw_clean.py keeps with its own defaults. */
  lemma DefaultsAgree(s: seq<Event>, instant: Merge.Clock)
    ensures Pipeline(s, Defaults, instant).Ok? <==> Clean.FilterEvents(s, Clean.Defaults, instant).Ok?
    ensures Pipeline(s, Defaults, instant).Ok? ==> Pipeline(s, Defaults, instant).value.events == Clean.FilterEvents(s, Clean.Defaults, instant).value
  {
    PipelineAgrees(s, Defaults, instant);
    assert Clean.Screened(s, OptionsOf(Defaults)) == Clean.Screened(s, Clean.Defaults);
  }

  /** The numbers the step log reports, summed. */
  function SumRemoved(steps: seq<Step>): int
  {
    if steps == [] then 0 else SumRemoved(steps[..|steps| - 1]) + steps[|steps| - 1].removed
  }

  lemma {:induction false} SumRemovedAppend(a: seq<Step>, b: seq<Step>)
    ensures SumRemoved(a + b) == SumRemoved(a) + SumRemoved(b)
    decreases |b|
  {
    if b == [] {
      assert a + b == a;
    } else {
      assert (a + b)[..|a + b| - 1] == a + b[..|b| - 1];
      SumRemovedAppend(a, b[..|b| - 1]);
    }
  }

  /** A pass line reports a positive count and is not the total line. */
  predicate PassLine(st: Step)
  {
    st.removed > 0 && !st.TotalReduction?
  }

  /** Appending the line of a pass that took the count from `before` to `after` adds what the pass removed. */
  lemma ShownFacts(before: int, after: int, step: Step, prior: seq<Step>)
    requires after <= before && step.removed == before - after && !step.TotalReduction?
    requires forall i :: 0 <= i < |prior| ==> PassLine(prior[i])
    ensures var log := prior + Shown(Line(before, after, step));
      && SumRemoved(log) == SumRemoved(prior) + (before - after)
      && (forall i :: 0 <= i < |log| ==> PassLine(log[i]))
      && |log| <= |prior| + 1
  {
    if after < before {
      assert [step][..0] == [];
      SumRemovedAppend(prior, [step]);
    } else {
      assert prior + [] == prior;
    }
  }

  /**
   * For counts that never grow, the log has a line for each pass that
   * removed events, in pass order, each reporting a positive count, then the
   * total line; the counts add up to the total removed.
   */
  lemma StepLogFacts(n0: int, n1: int, n2: int, n3: int, n4: int, n5: int, minDuration: int)
    requires n0 >= n1 >= n2 >= n3 >= n4 >= n5
    ensures var log := StepLog(n0, n1, n2, n3, n4, n5, minDuration);
      && 1 <= |log| <= 6
      && log[|log| - 1] == TotalReduction(n0 - n5, ReductionPercent(n0 - n5, n0))
      && (forall i :: 0 <= i < |log| - 1 ==> PassLine(log[i]))
      && SumRemoved(log[..|log| - 1]) == n0 - n5
  {
    var l1 := Shown(Line(n0, n1, ZeroDuration(n0 - n1)));
    ShownFacts(n0, n1, ZeroDuration(n0 - n1), []);
    assert [] + l1 == l1;
    var l2 := l1 + Shown(Line(n1, n2, ShortEvents(n1 - n2, minDuration)));
    ShownFacts(n1, n2, ShortEvents(n1 - n2, minDuration), l1);
    var l3 := l2 + Shown(Line(n2, n3, ExcludedApps(n2 - n3)));
    ShownFacts(n2, n3, ExcludedApps(n2 - n3), l2);
    var l4 := l3 + Shown(Line(n3, n4, Simultaneous(n3 - n4)));
    ShownFacts(n3, n4, Simultaneous(n3 - n4), l3);
    var l5 := l4 + Shown(Line(n4, n5, Consecutive(n4 - n5)));
    ShownFacts(n4, n5, Consecutive(n4 - n5), l4);
    var log := StepLog(n0, n1, n2, n3, n4, n5, minDuration);
    assert log == l5 + [TotalReduction(n0 - n5, ReductionPercent(n0 - n5, n0))];
    assert log[..|log| - 1] == l5;
  }

  /**
   * The step log of `filter_events`: a line for each pass that removed
   * events, each reporting a positive count, then always the total line; the
   * counts add up to the total removed, which is the original count less the
   * final one, and its percentage is 0 for an empty input.
   */
  lemma PipelineSteps(s: seq<Event>, c: Config, instant: Merge.Clock)
    requires Pipeline(s, c, instant).Ok?
    ensures var r := Pipeline(s, c, instant).value;
      var n := |r.steps|;
      && 1 <= n <= 6
      && |r.events| <= |s|
      && r.steps[n - 1] == TotalReduction(|s| - |r.events|, ReductionPercent(|s| - |r.events|, |s|))
      && (|s| == 0 ==> r.steps[n - 1].percent == 0.0)
      && (forall i :: 0 <= i < n - 1 ==> PassLine(r.steps[i]))
      && SumRemoved(r.steps[..n - 1]) == |s| - |r.events|
  {
    var n1, n2, n3, n4 := PipelineCounts(s, c, instant);
    CleaningSteps(Pipeline(s, c, instant).value, |s|, n1, n2, n3, n4, c.minDuration);
  }

  /** A successful pipeline's log is the step log of its pass counts, which never grow. */
  lemma PipelineCounts(s: seq<Event>, c: Config, instant: Merge.Clock) returns (n1: int, n2: int, n3: int, n4: int)
    requires Pipeline(s, c, instant).Ok?
    ensures var r := Pipeline(s, c, instant).value;
      && |s| >= n1 >= n2 >= n3 >= n4 >= |r.events|
      && r.steps == StepLog(|s|, n1, n2, n3, n4, |r.events|, c.minDuration)
  {
    var d := AfterDedup(s, c).value;
    var merged := if c.merge then Merge.Merged(d, c.maxGap as real, instant) else Ok(d);
    var m := merged.value;
    n1, n2, n3, n4 := |AfterZero(s, c)|, |AfterShort(s, c)|, |AfterExcluded(s, c)|, |d|;
    assert |s| >= n1 >= n2 >= n3 >= n4 >= |m|;
    assert Pipeline(s, c, instant).value == Cleaning(m, StepLog(|s|, n1, n2, n3, n4, |m|, c.minDuration));
  }

  /** The facts of `StepLogFacts`, read off a result whose log is the step log of its counts. */
  lemma CleaningSteps(r: Cleaning, n0: int, n1: int, n2: int, n3: int, n4: int, minDuration: int)
    requires n0 >= n1 >= n2 >= n3 >= n4 >= |r.events|
    requires r.steps == StepLog(n0, n1, n2, n3, n4, |r.events|, minDuration)
    ensures var n := |r.steps|;
      && 1 <= n <= 6
      && r.steps[n - 1] == TotalReduction(n0 - |r.events|, ReductionPercent(n0 - |r.events|, n0))
      && (n0 == 0 ==> r.steps[n - 1].percent == 0.0)
      && (forall i :: 0 <= i < n - 1 ==> PassLine(r.steps[i]))
      && SumRemoved(r.steps[..n - 1]) == n0 - |r.events|
  {
    StepLogFacts(n0, n1, n2, n3, n4, |r.events|, minDuration);
  }

  //
  // generate_summary
  //

  /** `event.get('device', 'Unknown')`: the summary does not fall back on the hostname. */
  function DeviceOnly(e: Event): string
  {
    if e.device.Some? then e.device.value else "Unknown"
  }

  datatype Summary = Summary(totalEvents: nat, totalHours: real, apps: Tally, devices: Tally, daily: Tally)

  /** `generate_summary(events)`: `{}` (here `None`) for no events; the daily loop raises KeyError on an event without a timestamp. */
  function Summarize(s: seq<Event>): Result<Option<Summary>, Error>
  {
    if s == [] then Ok(None)
    else if !AllTimestamped(s) then Err(MissingTimestamp)
    else Ok(Some(Summary(|s|, SumDurations(s) / 3600.0, TallyBy(s, Analyze.AppKey), TallyBy(s, DeviceOnly), TallyBy(s, Analyze.DayKey))))
  }

  /**
   * The summary is empty exactly for no events and fails exactly when an
   * event has no timestamp; otherwise its hours are the summed seconds over
   * 3600 and every tally files each event once.
   */
  lemma SummarizeFacts(s: seq<Event>)
    ensures Summarize(s) == Ok(None) <==> s == []
    ensures Summarize(s).Err? <==> s != [] && !AllTimestamped(s)
    ensures Summarize(s).Ok? && Summarize(s).value.Some? ==>
      var m := Summarize(s).value.value;
      && m.totalEvents == |s| && m.totalHours * 3600.0 == SumDurations(s)
      && Analyze.Partitions(m.apps, SumDurations(s), |s|)
      && Analyze.Partitions(m.devices, SumDurations(s), |s|)
      && Analyze.Partitions(m.daily, SumDurations(s), |s|)
  {
    Analyze.TallyPartitions(s, Analyze.AppKey);
    Analyze.TallyPartitions(s, DeviceOnly);
    Analyze.TallyPartitions(s, Analyze.DayKey);
  }

  /** An event's summary device is its `device` tag or `Unknown`, whatever its `data` holds. */
  lemma SummaryDeviceIgnoresHostname(e: Event, data: Option<Data>)
    ensures DeviceOnly(e.(data := data)) == DeviceOnly(e)
    ensures e.device.None? ==> DeviceOnly(e) == "Unknown"
  {
  }

  //
  // The cleaner object
  //

  /** `filter_events` stage by stage: the result once the deduplication and merge passes succeeded. */
  lemma PipelineStages(s: seq<Event>, c: Config, instant: Merge.Clock, deduped: seq<Event>, merged: seq<Event>)
    requires AfterDedup(s, c) == Ok(deduped)
    requires (if c.merge then Merge.Merged(deduped, c.maxGap as real, instant) else Ok(deduped)) == Ok(merged)
    ensures Pipeline(s, c, instant) == Ok(Cleaning(merged, StepLog(|s|, |AfterZero(s, c)|, |AfterShort(s, c)|, |AfterExcluded(s, c)|, |deduped|, |merged|, c.minDuration)))
  {
  }

  /** The deduplication pass run on the screened list is pass 4 as configured. */
  lemma DedupStageAgrees(s: seq<Event>, c: Config, filtered: seq<Event>, deduped: Result<seq<Event>, Error>)
    requires filtered == AfterExcluded(s, c)
    requires deduped == if c.dedup then Clean.DedupPass(filtered) else Ok(filtered)
    ensures AfterDedup(s, c) == deduped
  {
  }

  /** A failing deduplication pass fails `filter_events`. */
  lemma PipelineDedupFails(s: seq<Event>, c: Config, instant: Merge.Clock, error: Error)
    requires AfterDedup(s, c) == Err(error)
    ensures Pipeline(s, c, instant) == Err(error)
  {
  }

  /** A failing merge pass fails `filter_events`. */
  lemma PipelineMergeFails(s: seq<Event>, c: Config, instant: Merge.Clock, deduped: seq<Event>, error: Error)
    requires AfterDedup(s, c) == Ok(deduped)
    requires (if c.merge then Merge.Merged(deduped, c.maxGap as real, instant) else Ok(deduped)) == Err(error)
    ensures Pipeline(s, c, instant) == Err(error)
  {
  }

  /** The lines the passes printed, followed by the total line, are the log of their counts. */
  lemma PrintedLog(zero: Option<Step>, short: Option<Step>, excluded: Option<Step>, simultaneous: Option<Step>, consecutive: Option<Step>,
                   n0: int, n1: int, n2: int, n3: int, n4: int, n5: int, minDuration: int)
    requires zero == Line(n0, n1, ZeroDuration(n0 - n1))
    requires short == Line(n1, n2, ShortEvents(n1 - n2, minDuration))
    requires excluded == Line(n2, n3, ExcludedApps(n2 - n3))
    requires simultaneous == Line(n3, n4, Simultaneous(n3 - n4))
    requires consecutive == Line(n4, n5, Consecutive(n4 - n5))
    ensures Printed(zero, short, excluded, simultaneous, consecutive) + [TotalLine(n0, n5)] == StepLog(n0, n1, n2, n3, n4, n5, minDuration)
  {
  }

  /** One pass of `filter_events`: applied when enabled, with the line it prints. */
  method RunPass(s: seq<Event>, enabled: bool, pass: seq<Event> -> seq<Event>, step: int -> Step)
    returns (filtered: seq<Event>, line: Option<Step>)
    ensures filtered == if enabled then pass(s) else s
    ensures line == Line(|s|, |filtered|, step(|s| - |filtered|))
  {
    filtered := s;
    if enabled {
      filtered := pass(s);
    }
    line := None;
    var removed := |s| - |filtered|;
    if removed > 0 {
      line := Some(step(removed));
    }
  }

  /** Passes 1 to 3 of `filter_events`, with the lines they print. */
  method ScreenEvents(events: seq<Event>, c: Config) returns (filtered: seq<Event>, zero: Option<Step>, short: Option<Step>, excluded: Option<Step>)
    ensures filtered == AfterExcluded(events, c)
    ensures zero == Line(|events|, |AfterZero(events, c)|, ZeroDuration(|events| - |AfterZero(events, c)|))
    ensures short == Line(|AfterZero(events, c)|, |AfterShort(events, c)|, ShortEvents(|AfterZero(events, c)| - |AfterShort(events, c)|, c.minDuration))
    ensures excluded == Line(|AfterShort(events, c)|, |filtered|, ExcludedApps(|AfterShort(events, c)| - |filtered|))
  {
    filtered, zero := RunPass(events, c.removeZero, Clean.DropNonPositive, n => ZeroDuration(n));
    assert filtered == AfterZero(events, c);
    filtered, short := RunPass(filtered, c.minDuration > 0, s => Clean.DropShort(s, c.minDuration), n => ShortEvents(n, c.minDuration));
    assert filtered == AfterShort(events, c);
    filtered, excluded := RunPass(filtered, |c.excludeApps| > 0, s => Clean.DropExcluded(s, c.excludeApps), n => ExcludedApps(n));
  }

  /** Pass 4 of `filter_events`, when enabled. */
  method DedupStage(s: seq<Event>, c: Config) returns (r: Result<seq<Event>, Error>)
    ensures r == if c.dedup then Clean.DedupPass(s) else Ok(s)
  {
    r := Ok(s);
    if c.dedup {
      r := Dedup.DeduplicateSimultaneousEvents(s);
    }
  }

  /** Pass 5 of `filter_events`, when enabled. */
  method MergeStage(s: seq<Event>, c: Config, instant: Merge.Clock) returns (r: Result<seq<Event>, Error>)
    ensures r == if c.merge then Merge.Merged(s, c.maxGap as real, instant) else Ok(s)
  {
    r := Ok(s);
    if c.merge {
      r := Merge.MergeConsecutiveEvents(s, c.maxGap as real, instant);
    }
  }

  /** Passes 4 and 5 of `filter_events` and its log, after the screening passes. */
  method ReduceEvents(events: seq<Event>, c: Config, instant: Merge.Clock, filtered: seq<Event>, zero: Option<Step>, short: Option<Step>, excluded: Option<Step>)
    returns (r: Result<Cleaning, Error>)
    requires filtered == AfterExcluded(events, c)
    requires zero == Line(|events|, |AfterZero(events, c)|, ZeroDuration(|events| - |AfterZero(events, c)|))
    requires short == Line(|AfterZero(events, c)|, |AfterShort(events, c)|, ShortEvents(|AfterZero(events, c)| - |AfterShort(events, c)|, c.minDuration))
    requires excluded == Line(|AfterShort(events, c)|, |filtered|, ExcludedApps(|AfterShort(events, c)| - |filtered|))
    ensures r == Pipeline(events, c, instant)
  {
    var deduped := DedupStage(filtered, c);
    DedupStageAgrees(events, c, filtered, deduped);
    if deduped.Err? {
      PipelineDedupFails(events, c, instant, deduped.error);
      return Err(deduped.error);
    }
    var simultaneous := Line(|filtered|, |deduped.value|, Simultaneous(|filtered| - |deduped.value|));
    r := MergeEvents(events, c, instant, deduped.value, zero, short, excluded, simultaneous);
  }

  /** Pass 5 of `filter_events` and the rest of its log, once the deduplication pass gave `kept`. */
  method MergeEvents(events: seq<Event>, c: Config, instant: Merge.Clock, kept: seq<Event>,
                     zero: Option<Step>, short: Option<Step>, excluded: Option<Step>, simultaneous: Option<Step>)
    returns (r: Result<Cleaning, Error>)
    requires AfterDedup(events, c) == Ok(kept)
    requires zero == Line(|events|, |AfterZero(events, c)|, ZeroDuration(|events| - |AfterZero(events, c)|))
    requires short == Line(|AfterZero(events, c)|, |AfterShort(events, c)|, ShortEvents(|AfterZero(events, c)| - |AfterShort(events, c)|, c.minDuration))
    requires excluded == Line(|AfterShort(events, c)|, |AfterExcluded(events, c)|, ExcludedApps(|AfterShort(events, c)| - |AfterExcluded(events, c)|))
    requires simultaneous == Line(|AfterExcluded(events, c)|, |kept|, Simultaneous(|AfterExcluded(events, c)| - |kept|))
    ensures r == Pipeline(events, c, instant)
  {
    var merged := MergeStage(kept, c, instant);
    if merged.Err? {
      PipelineMergeFails(events, c, instant, kept, merged.error);
      return Err(merged.error);
    }
    var result := merged.value;
    var consecutive := Line(|kept|, |result|, Consecutive(|kept| - |result|));
    var log := Printed(zero, short, excluded, simultaneous, consecutive) + [TotalLine(|events|, |result|)];
    PrintedLog(zero, short, excluded, simultaneous, consecutive,
      |events|, |AfterZero(events, c)|, |AfterShort(events, c)|, |AfterExcluded(events, c)|, |kept|, |result|, c.minDuration);
    PipelineStages(events, c, instant, kept, result);
    return Ok(Cleaning(result, log));
  }

  class ActivityWatchCleaner {
    var config: Config

    /** `__init__(config)`: the defaults, updated by the caller's keys. */
    constructor(overrides: Overrides)
      ensures config == Update(Defaults, overrides)
    {
      var c := Defaults;
      if overrides != NoOverrides {
        c := Update(c, overrides);
      }
      config := c;
    }

    /** `_extract_device_name`. */
    method DeviceName(bucketName: string) returns (device: string)
      ensures device == ExtractDeviceName(bucketName)
    {
      var parts := Split(bucketName, '_');
      if |parts| > 1 {
        return RemoveAll(parts[|parts| - 1], ".local");
      }
      return "unknown";
    }

    /** `_deduplicate_simultaneous_events`. */
    method DeduplicateSimultaneousEvents(events: seq<Event>) returns (r: Result<seq<Event>, Error>)
      ensures r == Clean.DedupPass(events)
    {
      r := Dedup.DeduplicateSimultaneousEvents(events);
    }

    /** `_merge_consecutive_events`, with the gap limit read from the configuration. */
    method MergeConsecutiveEvents(events: seq<Event>, instant: Merge.Clock) returns (r: Result<seq<Event>, Error>)
      ensures r == Merge.Merged(events, config.maxGap as real, instant)
    {
      r := Merge.MergeConsecutiveEvents(events, config.maxGap as real, instant);
    }

    /**
     * `filter_events`: the passes the configuration enables, each printing a
     * line when it removed events (a pass that does not run removes none),
     * then the total line.
     */
    method FilterEvents(events: seq<Event>, instant: Merge.Clock) returns (r: Result<Cleaning, Error>)
      ensures r == Pipeline(events, config, instant)
    {
      var c := config;
      var filtered, zero, short, excluded := ScreenEvents(events, c);
      r := ReduceEvents(events, c, instant, filtered, zero, short, excluded);
    }

    /** `generate_summary`, with its three tally loops. */
    method GenerateSummary(events: seq<Event>) returns (r: Result<Option<Summary>, Error>)
      ensures r == Summarize(events)
    {
      if events == [] {
        return Ok(None);
      }
      var apps := Accumulate(events, Analyze.AppKey);
      var devices := Accumulate(events, DeviceOnly);
      var daily := AccumulateStamped(events, Analyze.DayKey);
      if daily.Err? {
        return Err(daily.error);
      }
      return Ok(Some(Summary(|events|, SumDurations(events) / 3600.0, apps, devices, daily.value)));
    }
  }
}
