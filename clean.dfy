/**
 * `filter_events` and `clean_activitywatch_data` (json_tools/aw_clean.py):
 * three screening passes, then deduplication, then merging, applied to a
 * bare event list, to the `events` of an object, or to the `events` of every
 * bucket of a `buckets` object.
 */
module Clean {
  import opened Wrappers
  import opened Events
  import Dedup
  import Merge
  import Sorting

  /** The keyword options of `filter_events`; `excludeApps == None` is the default list. */
  datatype Options = Options(
    minDuration: int,
    excludeApps: Option<seq<string>>,
    removeZero: bool,
    dedup: bool,
    merge: bool,
    maxGap: int)

  /** The system apps excluded when no list is given. */
  const DefaultExcludedApps: seq<string> := ["UserNotificationCenter", "loginwindow", "CoreServicesUIAgent"]

  /** The defaults of `filter_events`. */
  const Defaults: Options := Options(2, None, true, true, true, 30)

  /** The exclusion list in force. */
  function ExcludedApps(o: Options): seq<string>
  {
    if o.excludeApps.None? then DefaultExcludedApps else o.excludeApps.value
  }

  /** The event's app is on the list (an event without an app never is). */
  predicate Excluded(e: Event, apps: seq<string>)
  {
    App(e).Some? && App(e).value in apps
  }

  /** Pass 1: keep positive durations (missing counts as 0). */
  function DropNonPositive(s: seq<Event>): seq<Event>
  {
    Filter(s, (e: Event) => Dur(e) > 0.0)
  }

  /** Pass 2: keep durations of at least `min` seconds. */
  function DropShort(s: seq<Event>, min: int): seq<Event>
  {
    Filter(s, (e: Event) => Dur(e) >= min as real)
  }

  /** Pass 3: drop events of the listed apps. */
  function DropExcluded(s: seq<Event>, apps: seq<string>): seq<Event>
  {
    Filter(s, (e: Event) => !Excluded(e, apps))
  }

  /** The three screening passes, each applied only when its option asks for it. */
  function Screened(s: seq<Event>, o: Options): seq<Event>
  {
    var a := if o.removeZero then DropNonPositive(s) else s;
    var b := if o.minDuration > 0 then DropShort(a, o.minDuration) else a;
    if |ExcludedApps(o)| > 0 then DropExcluded(b, ExcludedApps(o)) else b
  }

  /** The event passes all three screens. */
  predicate Passes(e: Event, o: Options)
  {
    && (o.removeZero ==> Dur(e) > 0.0)
    && (o.minDuration > 0 ==> Dur(e) >= o.minDuration as real)
    && !Excluded(e, ExcludedApps(o))
  }

  /** `deduplicate_simultaneous_events`, which raises KeyError on an event without a timestamp. */
  function DedupPass(s: seq<Event>): Result<seq<Event>, Error>
  {
    if AllTimestamped(s) then Ok(Dedup.Deduplicated(s)) else Err(MissingTimestamp)
  }

  /** The list that reaches the merge pass: the screened list, deduplicated when asked. */
  function Prepared(s: seq<Event>, o: Options): Result<seq<Event>, Error>
  {
    if o.dedup then DedupPass(Screened(s, o)) else Ok(Screened(s, o))
  }

  /** `filter_events(events, **options)`. */
  function FilterEvents(s: seq<Event>, o: Options, instant: Merge.Clock): Result<seq<Event>, Error>
  {
    var prepared := Prepared(s, o);
    if prepared.Err? || !o.merge then prepared
    else Merge.Merged(prepared.value, o.maxGap as real, instant)
  }

  /** The screened list is the input's events that pass every screen, in order. */
  lemma ScreenedMembers(s: seq<Event>, o: Options)
    ensures forall e :: e in Screened(s, o) <==> e in s && Passes(e, o)
    ensures |Screened(s, o)| <= |s|
  {
    FilterFactsAll();
  }

  /** Before merging, the list holds only input events that pass every screen. */
  lemma PreparedMembers(s: seq<Event>, o: Options)
    requires Prepared(s, o).Ok?
    ensures forall x :: x in Prepared(s, o).value ==> x in s && Passes(x, o)
    ensures |Prepared(s, o).value| <= |s|
  {
    ScreenedMembers(s, o);
    if o.dedup {
      Dedup.DedupSubset(Screened(s, o));
    }
  }

  /**
   * What survives `filter_events`: descendants of input events that pass every
   * screen; without merging they are such input events themselves; with
   * merging they are in start order.
   */
  lemma FilterEventsSurvivors(s: seq<Event>, o: Options, instant: Merge.Clock)
    requires FilterEvents(s, o, instant).Ok?
    ensures forall x :: x in FilterEvents(s, o, instant).value ==>
      exists e :: e in s && Passes(e, o) && Merge.Descends(x, e, o.removeZero || o.minDuration > 0)
    ensures !o.merge ==> forall x :: x in FilterEvents(s, o, instant).value ==> x in s && Passes(x, o)
    ensures o.merge ==> Sorting.Chained(FilterEvents(s, o, instant).value, Merge.StartLe(instant))
    ensures |FilterEvents(s, o, instant).value| <= |s|
  {
    var out := FilterEvents(s, o, instant).value;
    var grow := o.removeZero || o.minDuration > 0;
    var prepared := Prepared(s, o).value;
    PreparedMembers(s, o);
    if o.merge {
      assert grow ==> Merge.NonNegative(prepared);
      Merge.MergeOrigins(prepared, o.maxGap as real, instant, grow);
      Merge.MergeOutputShape(prepared, o.maxGap as real, instant);
      forall x | x in out
        ensures exists e :: e in s && Passes(e, o) && Merge.Descends(x, e, grow)
      {
        var e :| e in prepared && Merge.Descends(x, e, grow);
      }
    } else {
      forall x | x in out
        ensures exists e :: e in s && Passes(e, o) && Merge.Descends(x, e, grow)
      {
        assert Merge.Descends(x, x, grow);
      }
    }
  }

  /**
   * No surviving event has a non-positive duration (when zero-removal is on),
   * a duration below the minimum (when it is positive), or an excluded app.
   */
  lemma FilterEventsScreens(s: seq<Event>, o: Options, instant: Merge.Clock)
    requires FilterEvents(s, o, instant).Ok?
    ensures forall x :: x in FilterEvents(s, o, instant).value ==> !Excluded(x, ExcludedApps(o))
    ensures o.removeZero ==> forall x :: x in FilterEvents(s, o, instant).value ==> Dur(x) > 0.0
    ensures o.minDuration > 0 ==> forall x :: x in FilterEvents(s, o, instant).value ==> Dur(x) >= o.minDuration as real
  {
    var grow := o.removeZero || o.minDuration > 0;
    FilterEventsSurvivors(s, o, instant);
    forall x | x in FilterEvents(s, o, instant).value
      ensures !Excluded(x, ExcludedApps(o))
      ensures o.removeZero ==> Dur(x) > 0.0
      ensures o.minDuration > 0 ==> Dur(x) >= o.minDuration as real
    {
      var e :| e in s && Passes(e, o) && Merge.Descends(x, e, grow);
    }
  }

  /** With every timestamp parseable and every `data` present, `filter_events` does not raise. */
  lemma FilterEventsSucceeds(s: seq<Event>, o: Options, instant: Merge.Clock)
    requires forall e :: e in s ==> Merge.Timed(e, instant) && e.data.Some?
    ensures FilterEvents(s, o, instant).Ok?
  {
    ScreenedMembers(s, o);
    assert Prepared(s, o).Ok?;
    PreparedMembers(s, o);
    if o.merge {
      Merge.MergeSucceeds(Prepared(s, o).value, o.maxGap as real, instant);
    }
  }

  /** With every option off but the exclusion, an empty list excludes nothing: the input comes back. */
  lemma FilterEventsAllOff(s: seq<Event>, instant: Merge.Clock)
    ensures FilterEvents(s, Options(0, Some([]), false, false, false, 30), instant) == Ok(s)
  {
  }

  //
  // Documents
  //

  /** One bucket: its `events`, when present, replaced by the filtered list. */
  function CleanBucket(nb: Named, o: Options, instant: Merge.Clock): Result<Named, Error>
  {
    match nb.bucket.events
    case None => Ok(nb)
    case Some(es) =>
      match FilterEvents(es, o, instant)
      case Err(err) => Err(err)
      case Ok(f) => Ok(nb.(bucket := nb.bucket.(events := Some(f))))
  }

  /** `after` is `before` with only its events filtered. */
  predicate CleanedBucket(before: Named, after: Named, o: Options, instant: Merge.Clock)
  {
    && after.name == before.name
    && after.bucket.fields == before.bucket.fields
    && after.bucket.events.Some? == before.bucket.events.Some?
    && (before.bucket.events.Some? ==> FilterEvents(before.bucket.events.value, o, instant) == Ok(after.bucket.events.value))
  }

  /** Every bucket cleaned, in order; the first bucket whose filtering raises decides the error. */
  function CleanBuckets(bs: seq<Named>, o: Options, instant: Merge.Clock): (r: Result<seq<Named>, Error>)
    ensures r.Ok? ==> |r.value| == |bs| && forall i :: 0 <= i < |bs| ==> CleanBucket(bs[i], o, instant) == Ok(r.value[i])
    ensures r.Err? ==> exists i :: 0 <= i < |bs| && CleanBucket(bs[i], o, instant) == Err(r.error)
                          && forall j :: 0 <= j < i ==> CleanBucket(bs[j], o, instant).Ok?
    ensures r.Ok? <==> forall i :: 0 <= i < |bs| ==> CleanBucket(bs[i], o, instant).Ok?
  {
    if bs == [] then Ok([])
    else
      var init := bs[..|bs| - 1];
      assert forall i :: 0 <= i < |init| ==> init[i] == bs[i];
      match CleanBuckets(init, o, instant)
      case Err(err) => Err(err)
      case Ok(done) =>
        match CleanBucket(bs[|bs| - 1], o, instant)
        case Err(err) => Err(err)
        case Ok(b) => Ok(done + [b])
  }

  /** Cleaning one more bucket after a clean prefix. */
  lemma CleanBucketsSnoc(bs: seq<Named>, nb: Named, o: Options, instant: Merge.Clock)
    requires CleanBuckets(bs, o, instant).Ok?
    ensures CleanBuckets(bs + [nb], o, instant)
         == if CleanBucket(nb, o, instant).Err? then Err(CleanBucket(nb, o, instant).error)
            else Ok(CleanBuckets(bs, o, instant).value + [CleanBucket(nb, o, instant).value])
  {
    assert (bs + [nb])[..|bs|] == bs;
  }

  /** Once a prefix of the buckets fails, the whole list fails the same way. */
  lemma {:induction false} CleanBucketsFailedPrefix(bs: seq<Named>, n: nat, o: Options, instant: Merge.Clock)
    requires n <= |bs| && CleanBuckets(bs[..n], o, instant).Err?
    ensures CleanBuckets(bs, o, instant) == CleanBuckets(bs[..n], o, instant)
    decreases |bs| - n
  {
    if n < |bs| {
      var m := |bs| - 1;
      if n == m {
        assert bs[..n] == bs[..|bs| - 1];
      } else {
        assert bs[..m][..n] == bs[..n];
        CleanBucketsFailedPrefix(bs[..m], n, o, instant);
        assert bs[..m] == bs[..|bs| - 1];
      }
    } else {
      assert bs[..n] == bs;
    }
  }

  /** `clean_activitywatch_data(data, **options)`. */
  function CleanDoc(d: Doc, o: Options, instant: Merge.Clock): Result<Doc, Error>
  {
    match d
    case EventList(items) =>
      (match FilterEvents(items, o, instant)
       case Err(err) => Err(err)
       case Ok(f) => Ok(EventList(f)))
    case Object(events, buckets, envelope, fields) =>
      if buckets.Some? then
        match CleanBuckets(buckets.value, o, instant)
        case Err(err) => Err(err)
        case Ok(bs) => Ok(Object(None, Some(bs), None, map[]))
      else if events.Some? then
        match FilterEvents(events.value, o, instant)
        case Err(err) => Err(err)
        case Ok(f) => Ok(d.(events := Some(f)))
      else Ok(d)
  }

  /**
   * What cleaning does to each shape: a list becomes the filtered list; a
   * bucket object becomes an object with only `buckets`, holding the same bucket
   * names in order, each keeping its other fields; an `events` object keeps
   * every other key; anything else comes back unchanged.
   */
  lemma CleanDocShapes(d: Doc, o: Options, instant: Merge.Clock)
    requires CleanDoc(d, o, instant).Ok?
    ensures var r := CleanDoc(d, o, instant).value;
      && (d.EventList? ==> r.EventList? && FilterEvents(d.items, o, instant) == Ok(r.items))
      && (d.Object? && d.buckets.Some? ==>
            && r.Object? && r.events.None? && r.envelope.None? && r.fields == map[] && r.buckets.Some?
            && Names(r.buckets.value) == Names(d.buckets.value)
            && forall i :: 0 <= i < |d.buckets.value| ==> CleanedBucket(d.buckets.value[i], r.buckets.value[i], o, instant))
      && (d.Object? && d.buckets.None? && d.events.Some? ==>
            && r.Object? && r.buckets.None? && r.envelope == d.envelope && r.fields == d.fields
            && r.events.Some? && FilterEvents(d.events.value, o, instant) == Ok(r.events.value))
      && (d.Object? && d.buckets.None? && d.events.None? ==> r == d)
  {
    if d.Object? && d.buckets.Some? {
      var bs := d.buckets.value;
      var cleaned := CleanBuckets(bs, o, instant).value;
      forall i | 0 <= i < |bs| ensures CleanedBucket(bs[i], cleaned[i], o, instant) {
        assert CleanBucket(bs[i], o, instant) == Ok(cleaned[i]);
      }
      assert Names(cleaned) == Names(bs);
    }
  }

  /** Cleaning fails exactly when filtering one of the event lists it touches fails. */
  lemma CleanDocFails(d: Doc, o: Options, instant: Merge.Clock)
    ensures CleanDoc(d, o, instant).Err? <==>
      match d
      case EventList(items) => FilterEvents(items, o, instant).Err?
      case Object(events, buckets, _, _) =>
        if buckets.Some? then
          exists i :: 0 <= i < |buckets.value| && buckets.value[i].bucket.events.Some?
                   && FilterEvents(buckets.value[i].bucket.events.value, o, instant).Err?
        else events.Some? && FilterEvents(events.value, o, instant).Err?
  {
  }

  //
  // The imperative code
  //

  /** `filter_events`, running the two loop-based passes as methods. */
  method ApplyFilters(events: seq<Event>, o: Options, instant: Merge.Clock) returns (r: Result<seq<Event>, Error>)
    ensures r == FilterEvents(events, o, instant)
  {
    var filtered := events;
    if o.removeZero {
      filtered := DropNonPositive(filtered);
    }
    if o.minDuration > 0 {
      filtered := DropShort(filtered, o.minDuration);
    }
    var apps := ExcludedApps(o);
    if |apps| > 0 {
      filtered := DropExcluded(filtered, apps);
    }
    if o.dedup {
      var deduped := Dedup.DeduplicateSimultaneousEvents(filtered);
      if deduped.Err? {
        return deduped;
      }
      filtered := deduped.value;
    }
    if o.merge {
      r := Merge.MergeConsecutiveEvents(filtered, o.maxGap as real, instant);
    } else {
      r := Ok(filtered);
    }
  }

  /** `clean_activitywatch_data`, with its loop over the buckets. */
  method CleanActivityWatchData(d: Doc, o: Options, instant: Merge.Clock) returns (r: Result<Doc, Error>)
    ensures r == CleanDoc(d, o, instant)
  {
    if d.EventList? {
      var f := ApplyFilters(d.items, o, instant);
      if f.Err? {
        return Err(f.error);
      }
      return Ok(EventList(f.value));
    }
    if d.buckets.None? {
      if d.events.Some? {
        var f := ApplyFilters(d.events.value, o, instant);
        if f.Err? {
          return Err(f.error);
        }
        return Ok(d.(events := Some(f.value)));
      }
      return Ok(d);
    }
    var buckets := d.buckets.value;
    var cleaned: seq<Named> := [];
    var i := 0;
    while i < |buckets|
      invariant 0 <= i <= |buckets|
      invariant CleanBuckets(buckets[..i], o, instant) == Ok(cleaned)
    {
      var nb := buckets[i];
      assert buckets[..i + 1] == buckets[..i] + [nb];
      CleanBucketsSnoc(buckets[..i], nb, o, instant);
      var cleanedBucket := nb;
      if nb.bucket.events.Some? {
        var f := ApplyFilters(nb.bucket.events.value, o, instant);
        if f.Err? {
          CleanBucketsFailedPrefix(buckets, i + 1, o, instant);
          return Err(f.error);
        }
        cleanedBucket := nb.(bucket := nb.bucket.(events := Some(f.value)));
      }
      assert CleanBucket(nb, o, instant) == Ok(cleanedBucket);
      cleaned := cleaned + [cleanedBucket];
      i := i + 1;
    }
    assert buckets[..i] == buckets;
    return Ok(Object(None, Some(cleaned), None, map[]));
  }
}
