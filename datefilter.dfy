/**
 * Date-range selection of events (json_tools/aw_filter.py): an event is kept
 * when it has a `timestamp` whose leniently parsed date lies in an inclusive
 * `[start, end]`; documents keep their shape, as the cleaner's do.
 */
module DateFilter {
  import opened Wrappers
  import opened Events
  import opened Dates

  /** `'timestamp' in event and is_within_date_range(event['timestamp'], start, end)` */
  predicate InRange(e: Event, start: Date, end: Date, lenient: Lenient)
  {
    e.timestamp.Some? && IsWithinDateRange(e.timestamp.value, start, end, lenient)
  }

  /** `filter_events_by_date(events, start, end)`. */
  function EventsInRange(s: seq<Event>, start: Date, end: Date, lenient: Lenient): (r: seq<Event>)
    ensures Subsequence(r, s)
    ensures forall e :: e in r <==> e in s && e.timestamp.Some? && IsWithinDateRange(e.timestamp.value, start, end, lenient)
    ensures forall e :: e in r ==> multiset(r)[e] == multiset(s)[e]
  {
    var r := Filter(s, e => InRange(e, start, end, lenient));
    FilterFacts(s, e => InRange(e, start, end, lenient));
    r
  }

  /** Widening the range never drops an event the narrower range kept, and keeps their order. */
  lemma WidenedRangeKeeps(s: seq<Event>, start: Date, end: Date, start': Date, end': Date, lenient: Lenient)
    requires DateLe(start', start) && DateLe(end, end')
    ensures Subsequence(EventsInRange(s, start, end, lenient), EventsInRange(s, start', end', lenient))
  {
    forall e ensures InRange(e, start, end, lenient) ==> InRange(e, start', end', lenient) {
      if e.timestamp.Some? {
        WidenRange(e.timestamp.value, start, end, start', end', lenient);
      }
    }
    FilterWeaker(s, e => InRange(e, start, end, lenient), e => InRange(e, start', end', lenient));
  }

  /** Filtering by one range and then another is filtering by their intersection. */
  lemma FilterTwiceIntersects(s: seq<Event>, s1: Date, e1: Date, s2: Date, e2: Date, lenient: Lenient)
    ensures EventsInRange(EventsInRange(s, s1, e1, lenient), s2, e2, lenient)
         == EventsInRange(s, LaterDate(s1, s2), EarlierDate(e1, e2), lenient)
  {
    var lo, hi := LaterDate(s1, s2), EarlierDate(e1, e2);
    forall e ensures InRange(e, lo, hi, lenient) == (InRange(e, s1, e1, lenient) && InRange(e, s2, e2, lenient)) {
      if e.timestamp.Some? {
        IntersectRanges(e.timestamp.value, s1, e1, s2, e2, lenient);
      }
    }
    FilterTwice(s, e => InRange(e, s1, e1, lenient), e => InRange(e, s2, e2, lenient), e => InRange(e, lo, hi, lenient));
  }

  /** Filtering a second time by the same range changes nothing. */
  lemma EventsInRangeIdempotent(s: seq<Event>, start: Date, end: Date, lenient: Lenient)
    ensures EventsInRange(EventsInRange(s, start, end, lenient), start, end, lenient) == EventsInRange(s, start, end, lenient)
  {
    var p := e => InRange(e, start, end, lenient);
    FilterTwice(s, p, p, p);
  }

  /** The loop of `filter_events_by_date`. */
  method FilterEventsByDate(events: seq<Event>, start: Date, end: Date, lenient: Lenient) returns (filtered: seq<Event>)
    ensures filtered == EventsInRange(events, start, end, lenient)
  {
    filtered := [];
    var i := 0;
    while i < |events|
      invariant 0 <= i <= |events|
      invariant filtered == EventsInRange(events[..i], start, end, lenient)
    {
      var event := events[i];
      assert events[..i + 1][..i] == events[..i];
      if event.timestamp.Some? && IsWithinDateRange(event.timestamp.value, start, end, lenient) {
        filtered := filtered + [event];
      }
      i := i + 1;
    }
    assert events[..i] == events;
  }

  //
  // Documents
  //

  /** One bucket: its `events`, when present, replaced by the filtered list. */
  function FilterBucket(nb: Named, start: Date, end: Date, lenient: Lenient): (r: Named)
    ensures r.name == nb.name && r.bucket.fields == nb.bucket.fields
    ensures r.bucket.events.Some? == nb.bucket.events.Some?
    ensures nb.bucket.events.Some? ==> Subsequence(r.bucket.events.value, nb.bucket.events.value)
  {
    match nb.bucket.events
    case None => nb
    case Some(es) => nb.(bucket := nb.bucket.(events := Some(EventsInRange(es, start, end, lenient))))
  }

  function FilterBuckets(bs: seq<Named>, start: Date, end: Date, lenient: Lenient): (r: seq<Named>)
    ensures |r| == |bs| && forall i :: 0 <= i < |bs| ==> r[i] == FilterBucket(bs[i], start, end, lenient)
  {
    if bs == [] then [] else FilterBuckets(bs[..|bs| - 1], start, end, lenient) + [FilterBucket(bs[|bs| - 1], start, end, lenient)]
  }

  /** `filter_activitywatch_data(data, start, end)`. */
  function FilterDoc(d: Doc, start: Date, end: Date, lenient: Lenient): Doc
  {
    match d
    case EventList(items) => EventList(EventsInRange(items, start, end, lenient))
    case Object(events, buckets, _, _) =>
      if buckets.Some? then Object(None, Some(FilterBuckets(buckets.value, start, end, lenient)), None, map[])
      else if events.Some? then d.(events := Some(EventsInRange(events.value, start, end, lenient)))
      else d
  }

  /**
   * What filtering does to each shape: a list becomes the filtered list; a
   * bucket object becomes an object with only `buckets`, the same bucket names
   * in order and each bucket's other fields kept; an `events` object keeps
   * every other key; anything else comes back unchanged.
   */
  lemma FilterDocShapes(d: Doc, start: Date, end: Date, lenient: Lenient)
    ensures var r := FilterDoc(d, start, end, lenient);
      && (d.EventList? ==> r == EventList(EventsInRange(d.items, start, end, lenient)))
      && (d.Object? && d.buckets.Some? ==>
            && r.Object? && r.events.None? && r.envelope.None? && r.fields == map[] && r.buckets.Some?
            && Names(r.buckets.value) == Names(d.buckets.value)
            && forall i :: 0 <= i < |d.buckets.value| ==> r.buckets.value[i].bucket.fields == d.buckets.value[i].bucket.fields)
      && (d.Object? && d.buckets.None? && d.events.Some? ==>
            r == d.(events := Some(EventsInRange(d.events.value, start, end, lenient))))
      && (d.Object? && d.buckets.None? && d.events.None? ==> r == d)
  {
    if d.Object? && d.buckets.Some? {
      var bs := d.buckets.value;
      assert Names(FilterBuckets(bs, start, end, lenient)) == Names(bs);
    }
  }

  /** Filtering a filtered document again by the same range changes nothing. */
  lemma FilterDocIdempotent(d: Doc, start: Date, end: Date, lenient: Lenient)
    ensures FilterDoc(FilterDoc(d, start, end, lenient), start, end, lenient) == FilterDoc(d, start, end, lenient)
  {
    match d
    case EventList(items) =>
      EventsInRangeIdempotent(items, start, end, lenient);
    case Object(events, buckets, _, _) =>
      if buckets.Some? {
        var bs := FilterBuckets(buckets.value, start, end, lenient);
        forall i | 0 <= i < |bs| ensures FilterBucket(bs[i], start, end, lenient) == bs[i] {
          var b := buckets.value[i];
          if b.bucket.events.Some? {
            EventsInRangeIdempotent(b.bucket.events.value, start, end, lenient);
          }
        }
        assert FilterBuckets(bs, start, end, lenient) == bs;
      } else if events.Some? {
        EventsInRangeIdempotent(events.value, start, end, lenient);
      }
  }

  /** `filter_activitywatch_data`, with its loop over the buckets. */
  method FilterActivityWatchData(d: Doc, start: Date, end: Date, lenient: Lenient) returns (r: Doc)
    ensures r == FilterDoc(d, start, end, lenient)
  {
    if d.EventList? {
      var f := FilterEventsByDate(d.items, start, end, lenient);
      return EventList(f);
    }
    if d.buckets.None? {
      if d.events.Some? {
        var f := FilterEventsByDate(d.events.value, start, end, lenient);
        return d.(events := Some(f));
      }
      return d;
    }
    var buckets := d.buckets.value;
    var filtered: seq<Named> := [];
    var i := 0;
    while i < |buckets|
      invariant 0 <= i <= |buckets|
      invariant filtered == FilterBuckets(buckets[..i], start, end, lenient)
    {
      var nb := buckets[i];
      assert buckets[..i + 1][..i] == buckets[..i];
      var filteredBucket := nb;
      if nb.bucket.events.Some? {
        var f := FilterEventsByDate(nb.bucket.events.value, start, end, lenient);
        filteredBucket := nb.(bucket := nb.bucket.(events := Some(f)));
      }
      filtered := filtered + [filteredBucket];
      i := i + 1;
    }
    assert buckets[..i] == buckets;
    return Object(None, Some(filtered), None, map[]);
  }
}
