/**
 * The event records every tool works on, and the JSON shapes they arrive in.
 * An event is a JSON object: `timestamp` (ISO-8601 text), `duration`
 * (seconds, counted as 0 when missing), `data` (a string map holding `app`,
 * `title`, `url`, `hostname`, ...) and the optional provenance tags `device`
 * and `bucket`.
 */
module Events {
  import opened Wrappers

  /** The open `data` mapping of an event. */
  type Data = map<string, string>

  datatype Event = Event(
    timestamp: Option<string>,
    duration: Option<real>,
    data: Option<Data>,
    device: Option<string>,
    bucket: Option<string>)

  /** `e.get('duration', 0)` */
  function Dur(e: Event): real
  {
    if e.duration.Some? then e.duration.value else 0.0
  }

  /** `e.get('data', {}).get(key)` */
  function DataField(e: Event, key: string): Option<string>
  {
    if e.data.Some? && key in e.data.value then Some(e.data.value[key]) else None
  }

  /** `e.get('data', {}).get(key, default)` */
  function DataFieldOr(e: Event, key: string, default: string): string
  {
    if e.data.Some? && key in e.data.value then e.data.value[key] else default
  }

  /** `e.get('data', {}).get('app')` */
  function App(e: Event): Option<string>
  {
    DataField(e, "app")
  }

  /** The sum of `e.get('duration', 0)` over a list. */
  function SumDurations(s: seq<Event>): real
  {
    if s == [] then 0.0 else SumDurations(s[..|s| - 1]) + Dur(s[|s| - 1])
  }

  lemma {:induction false} SumDurationsAppend(s: seq<Event>, t: seq<Event>)
    ensures SumDurations(s + t) == SumDurations(s) + SumDurations(t)
  {
    if t != [] {
      assert (s + t)[..|s + t| - 1] == s + t[..|t| - 1];
      SumDurationsAppend(s, t[..|t| - 1]);
    } else {
      assert s + t == s;
    }
  }

  /** The exceptions the cleaning and aggregation code raises on malformed events. */
  datatype Error =
    | MissingTimestamp  // KeyError: an event without a `timestamp` key
    | InvalidTimestamp  // ValueError: a timestamp that is not an ISO-8601 instant
    | MissingData       // KeyError: a title written into an event without a `data` key

  /** No two elements are equal. */
  predicate Distinct<T(==)>(s: seq<T>)
  {
    forall i, j :: 0 <= i < j < |s| ==> s[i] != s[j]
  }

  /** A list without repeats holds each value at most once. */
  lemma {:induction false} DistinctCount<T>(s: seq<T>, x: T)
    requires Distinct(s)
    ensures multiset(s)[x] <= 1
    decreases |s|
  {
    if s != [] {
      var init := s[..|s| - 1];
      assert Distinct(init) by {
        assert forall k :: 0 <= k < |init| ==> init[k] == s[k];
      }
      DistinctCount(init, x);
      assert s == init + [s[|s| - 1]];
      assert forall k :: 0 <= k < |init| ==> init[k] != s[|s| - 1];
    }
  }

  /** What is drawn from a list without repeats has no repeats. */
  lemma DistinctSubmultiset<T>(r: seq<T>, s: seq<T>)
    requires multiset(r) <= multiset(s) && Distinct(s)
    ensures Distinct(r)
  {
    forall i, j | 0 <= i < j < |r| ensures r[i] != r[j] {
      DistinctCount(s, r[i]);
      assert r == r[..j] + r[j..];
      assert r[..j][i] == r[i] && r[j..][0] == r[j];
    }
  }

  /**
   * `r` is `s` with some elements left out and the rest in their order
   * (matched greedily from the back).
   */
  predicate Subsequence(r: seq<Event>, s: seq<Event>)
    decreases |s|
  {
    if r == [] then true
    else if s == [] then false
    else if r[|r| - 1] == s[|s| - 1] then Subsequence(r[..|r| - 1], s[..|s| - 1])
    else Subsequence(r, s[..|s| - 1])
  }

  /** `[e for e in s if p(e)]` */
  function Filter(s: seq<Event>, p: Event -> bool): (r: seq<Event>)
    ensures |r| <= |s|
  {
    if s == [] then []
    else
      var init := Filter(s[..|s| - 1], p);
      if p(s[|s| - 1]) then init + [s[|s| - 1]] else init
  }

  /**
   * A filter keeps exactly the elements that pass the test, each as often as
   * it occurs, in their order.
   */
  lemma {:induction false} FilterFacts(s: seq<Event>, p: Event -> bool)
    ensures forall e :: e in Filter(s, p) <==> e in s && p(e)
    ensures forall e :: multiset(Filter(s, p))[e] == if p(e) then multiset(s)[e] else 0
    ensures Subsequence(Filter(s, p), s)
  {
    if s != [] {
      var init := s[..|s| - 1];
      var last := s[|s| - 1];
      FilterFacts(init, p);
      assert s == init + [last];
      SubsequenceExtend(Filter(init, p), init, last, p(last));
    }
  }

  /** The facts of `FilterFacts` for every list and test at once. */
  lemma FilterFactsAll()
    ensures forall s: seq<Event>, p: Event -> bool, e: Event :: e in Filter(s, p) <==> e in s && p(e)
    ensures forall s: seq<Event>, p: Event -> bool :: Subsequence(Filter(s, p), s)
  {
    forall s: seq<Event>, p: Event -> bool {
      FilterFacts(s, p);
    }
  }

  /** Filtering with a weaker test keeps everything a stronger test keeps, in order. */
  lemma {:induction false} FilterWeaker(s: seq<Event>, p: Event -> bool, q: Event -> bool)
    requires forall e :: p(e) ==> q(e)
    ensures Subsequence(Filter(s, p), Filter(s, q))
  {
    if s != [] {
      var init := s[..|s| - 1];
      var last := s[|s| - 1];
      FilterWeaker(init, p, q);
      if p(last) {
        SubsequenceExtend(Filter(init, p), Filter(init, q), last, true);
      } else if q(last) {
        SubsequenceExtend(Filter(init, p), Filter(init, q), last, false);
      }
    }
  }

  /** Two filters in a row are one filter by both tests. */
  lemma {:induction false} FilterTwice(s: seq<Event>, p: Event -> bool, q: Event -> bool, both: Event -> bool)
    requires forall e :: both(e) == (p(e) && q(e))
    ensures Filter(Filter(s, p), q) == Filter(s, both)
  {
    if s != [] {
      var init := s[..|s| - 1];
      var last := s[|s| - 1];
      FilterTwice(init, p, q, both);
      if p(last) {
        var f := Filter(init, p) + [last];
        assert f[..|f| - 1] == Filter(init, p);
      }
    }
  }

  /** Appending one element to the longer list keeps a subsequence, whether or not it is also appended to the shorter. */
  lemma SubsequenceExtend(r: seq<Event>, s: seq<Event>, x: Event, both: bool)
    requires Subsequence(r, s)
    ensures Subsequence(if both then r + [x] else r, s + [x])
  {
    assert (s + [x])[..|s|] == s;
    if both {
      assert (r + [x])[..|r|] == r;
    } else {
      SubsequenceGrow(r, s, x);
    }
  }

  /** Dropping the last element of a subsequence keeps a subsequence. */
  lemma {:induction false} SubsequenceDropLast(r: seq<Event>, s: seq<Event>)
    requires r != [] && Subsequence(r, s)
    ensures Subsequence(r[..|r| - 1], s)
    decreases |s|, 0
  {
    var init := s[..|s| - 1];
    if r[|r| - 1] == s[|s| - 1] {
      SubsequenceGrow(r[..|r| - 1], init, s[|s| - 1]);
      assert init + [s[|s| - 1]] == s;
    } else {
      SubsequenceDropLast(r, init);
      SubsequenceGrow(r[..|r| - 1], init, s[|s| - 1]);
      assert init + [s[|s| - 1]] == s;
    }
  }

  /** A subsequence of `s` is one of `s + [x]`. */
  lemma {:induction false} SubsequenceGrow(r: seq<Event>, s: seq<Event>, x: Event)
    requires Subsequence(r, s)
    ensures Subsequence(r, s + [x])
    decreases |s|, 1
  {
    assert (s + [x])[..|s|] == s;
    if r != [] && r[|r| - 1] == x {
      SubsequenceDropLast(r, s);
    }
  }

  /** Every event of the list has a `timestamp` key. */
  predicate AllTimestamped(s: seq<Event>)
  {
    forall i :: 0 <= i < |s| ==> s[i].timestamp.Some?
  }

  /** `e['timestamp']` for an event that has one, the empty string otherwise. */
  function TimestampOf(e: Event): string
  {
    if e.timestamp.Some? then e.timestamp.value else ""
  }

  /** Python's slice `s[i:j]` for non-negative bounds: it never fails, it clips. */
  function Slice(s: string, i: nat, j: nat): (r: string)
    ensures j <= |s| && i <= j ==> r == s[i..j]
    ensures |s| <= i ==> r == ""
  {
    var hi := if j < |s| then j else |s|;
    var lo := if i < hi then i else hi;
    s[lo..hi]
  }

  /** Python's `<=` on `str`: lexicographic by code point. */
  predicate LexLe(a: string, b: string)
  {
    if a == [] then true
    else if b == [] then false
    else if a[0] != b[0] then a[0] < b[0]
    else LexLe(a[1..], b[1..])
  }

  lemma {:induction false} LexLeTotal(a: string, b: string)
    ensures LexLe(a, b) || LexLe(b, a)
  {
    if a != [] && b != [] && a[0] == b[0] {
      LexLeTotal(a[1..], b[1..]);
    }
  }

  lemma {:induction false} LexLeTransitive(a: string, b: string, c: string)
    requires LexLe(a, b) && LexLe(b, c)
    ensures LexLe(a, c)
  {
    if a != [] && b != [] && c != [] && a[0] == b[0] && b[0] == c[0] {
      LexLeTransitive(a[1..], b[1..], c[1..]);
    }
  }

  lemma {:induction false} LexLeAntisymmetric(a: string, b: string)
    requires LexLe(a, b) && LexLe(b, a)
    ensures a == b
  {
    if a != [] && b != [] {
      LexLeAntisymmetric(a[1..], b[1..]);
      assert a == [a[0]] + a[1..] && b == [b[0]] + b[1..];
    }
  }

  /** Every string is at most itself. */
  lemma {:induction false} LexLeReflexive(a: string)
    ensures LexLe(a, a)
  {
    if a != [] {
      LexLeReflexive(a[1..]);
    }
  }

  /** Any JSON value, for the fields the tools pass through untouched. */
  datatype Json =
    | JNull
    | JBool(b: bool)
    | JNum(n: real)
    | JStr(s: string)
    | JArr(items: seq<Json>)
    | JObj(fields: map<string, Json>)

  /** A bucket object: its optional `events` list and every other key. */
  datatype Bucket = Bucket(events: Option<seq<Event>>, fields: map<string, Json>)

  /** One `name: bucket` entry of a `buckets` object, in document order. */
  datatype Named = Named(name: string, bucket: Bucket)

  /**
   * An input document: a bare event list, or an object whose `events`,
   * `buckets` and `data` keys are broken out; `fields` holds every other key.
   */
  datatype Doc =
    | EventList(items: seq<Event>)
    | Object(events: Option<seq<Event>>, buckets: Option<seq<Named>>, envelope: Option<Doc>, fields: map<string, Json>)

  /** The bucket names of a `buckets` object, in order. */
  function Names(bs: seq<Named>): (r: seq<string>)
    ensures |r| == |bs|
    ensures forall i :: 0 <= i < |bs| ==> r[i] == bs[i].name
  {
    if bs == [] then [] else [bs[0].name] + Names(bs[1..])
  }

  /** The events of one bucket, each a copy passed through `tag` with the bucket's name. */
  function Tagged(nb: Named, tag: (Event, string) -> Event): (r: seq<Event>)
    ensures nb.bucket.events.None? ==> r == []
    ensures nb.bucket.events.Some? ==>
      && |r| == |nb.bucket.events.value|
      && forall j :: 0 <= j < |r| ==> r[j] == tag(nb.bucket.events.value[j], nb.name)
  {
    match nb.bucket.events
    case None => []
    case Some(es) => seq(|es|, j requires 0 <= j < |es| => tag(es[j], nb.name))
  }

  /** The tagged events of every bucket, bucket by bucket. */
  function Flatten(bs: seq<Named>, tag: (Event, string) -> Event): seq<Event>
  {
    if bs == [] then [] else Flatten(bs[..|bs| - 1], tag) + Tagged(bs[|bs| - 1], tag)
  }

  /** The number of events the buckets hold. */
  function BucketEventCount(bs: seq<Named>): nat
  {
    if bs == [] then 0
    else BucketEventCount(bs[..|bs| - 1]) + (if bs[|bs| - 1].bucket.events.Some? then |bs[|bs| - 1].bucket.events.value| else 0)
  }

  /**
   * The flattened events are exactly the buckets' events, each tagged with
   * the name of its bucket.
   */
  lemma FlattenMembers(bs: seq<Named>, tag: (Event, string) -> Event, e: Event)
    ensures e in Flatten(bs, tag) <==>
      exists i, j :: 0 <= i < |bs| && bs[i].bucket.events.Some? && 0 <= j < |bs[i].bucket.events.value|
                  && e == tag(bs[i].bucket.events.value[j], bs[i].name)
  {
    if e in Flatten(bs, tag) {
      var i, j := FlattenSource(bs, tag, e);
    }
    if exists i, j :: 0 <= i < |bs| && bs[i].bucket.events.Some? && 0 <= j < |bs[i].bucket.events.value|
                && e == tag(bs[i].bucket.events.value[j], bs[i].name) {
      var i, j :| 0 <= i < |bs| && bs[i].bucket.events.Some? && 0 <= j < |bs[i].bucket.events.value|
                && e == tag(bs[i].bucket.events.value[j], bs[i].name);
      FlattenHas(bs, tag, i, j);
    }
  }

  /** Every flattened event is event `j` of bucket `i`, tagged with that bucket's name. */
  lemma {:induction false} FlattenSource(bs: seq<Named>, tag: (Event, string) -> Event, e: Event) returns (i: nat, j: nat)
    requires e in Flatten(bs, tag)
    ensures i < |bs| && bs[i].bucket.events.Some? && j < |bs[i].bucket.events.value|
    ensures e == tag(bs[i].bucket.events.value[j], bs[i].name)
  {
    var init := bs[..|bs| - 1];
    var last := bs[|bs| - 1];
    if e in Tagged(last, tag) {
      i := |bs| - 1;
      j :| 0 <= j < |Tagged(last, tag)| && Tagged(last, tag)[j] == e;
    } else {
      i, j := FlattenSource(init, tag, e);
      assert init[i] == bs[i];
    }
  }

  /** Event `j` of bucket `i`, tagged with that bucket's name, is flattened. */
  lemma {:induction false} FlattenHas(bs: seq<Named>, tag: (Event, string) -> Event, i: nat, j: nat)
    requires i < |bs| && bs[i].bucket.events.Some? && j < |bs[i].bucket.events.value|
    ensures tag(bs[i].bucket.events.value[j], bs[i].name) in Flatten(bs, tag)
  {
    var init := bs[..|bs| - 1];
    if i < |init| {
      assert init[i] == bs[i];
      FlattenHas(init, tag, i, j);
    } else {
      assert Tagged(bs[|bs| - 1], tag)[j] == tag(bs[i].bucket.events.value[j], bs[i].name);
    }
  }

  /** Flattening neither drops nor adds events. */
  lemma {:induction false} FlattenLength(bs: seq<Named>, tag: (Event, string) -> Event)
    ensures |Flatten(bs, tag)| == BucketEventCount(bs)
  {
    if bs != [] {
      FlattenLength(bs[..|bs| - 1], tag);
    }
  }
}
