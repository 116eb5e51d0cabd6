/**
 * `deduplicate_simultaneous_events` (json_tools/aw_clean.py): events whose
 * `timestamp` strings are equal are grouped in a dictionary, and each group
 * is replaced by its longest event, in first-occurrence order of the
 * timestamps.
 */
module Dedup {
  import opened Wrappers
  import opened Events

  /** The dictionary's keys: the distinct timestamps in first-occurrence order. */
  function Keys(s: seq<Event>): seq<Option<string>>
  {
    if s == [] then []
    else
      var p := Keys(s[..|s| - 1]);
      var k := s[|s| - 1].timestamp;
      if k in p then p else p + [k]
  }

  /** The dictionary's value for key `k`: the events stamped `k`, in order. */
  function Group(s: seq<Event>, k: Option<string>): seq<Event>
  {
    if s == [] then []
    else Group(s[..|s| - 1], k) + (if s[|s| - 1].timestamp == k then [s[|s| - 1]] else [])
  }

  /** Some event of `s` is stamped `k`. */
  predicate Stamped(s: seq<Event>, k: Option<string>)
  {
    exists i :: 0 <= i < |s| && s[i].timestamp == k
  }

  /** The index of the first event stamped `k`. */
  function FirstIndex(s: seq<Event>, k: Option<string>): (r: nat)
    requires Stamped(s, k)
    ensures r < |s| && s[r].timestamp == k
    ensures forall j :: 0 <= j < r ==> s[j].timestamp != k
  {
    var n := |s| - 1;
    if Stamped(s[..n], k) then
      var r := FirstIndex(s[..n], k);
      assert s[..n][r] == s[r];
      r
    else
      assert forall j :: 0 <= j < n ==> s[..n][j] == s[j];
      assert s[n].timestamp == k;
      n
  }

  /**
   * `max(group, key=lambda e: e.get('duration', 0))`: the longest event; on a
   * tie the first of the longest, since `max` replaces its pick only on a
   * strictly greater key.
   */
  function FirstLongest(g: seq<Event>): (r: Event)
    requires g != []
    ensures r in g
  {
    if |g| == 1 then g[0]
    else
      var init := g[..|g| - 1];
      var b := FirstLongest(init);
      assert b in g by {
        assert g == init + [g[|g| - 1]];
      }
      if Dur(g[|g| - 1]) > Dur(b) then g[|g| - 1] else b
  }

  /** The pick is one of the longest events, and every event before it is strictly shorter. */
  lemma {:induction false} FirstLongestFacts(g: seq<Event>)
    requires g != []
    ensures forall e :: e in g ==> Dur(e) <= Dur(FirstLongest(g))
    ensures exists i :: 0 <= i < |g| && g[i] == FirstLongest(g) && forall j :: 0 <= j < i ==> Dur(g[j]) < Dur(g[i])
  {
    if |g| == 1 {
      assert g[0] == FirstLongest(g);
    } else {
      var n := |g| - 1;
      var init := g[..n];
      var b := FirstLongest(init);
      FirstLongestFacts(init);
      var i :| 0 <= i < |init| && init[i] == b && forall j :: 0 <= j < i ==> Dur(init[j]) < Dur(init[i]);
      assert g[i] == b;
      var r := FirstLongest(g);
      forall e | e in g ensures Dur(e) <= Dur(r) {
        var k :| 0 <= k < |g| && g[k] == e;
        if k < n {
          assert init[k] == e;
        }
      }
      if Dur(g[n]) > Dur(b) {
        forall j | 0 <= j < n ensures Dur(g[j]) < Dur(g[n]) {
          assert init[j] == g[j];
        }
        assert g[n] == r;
      } else {
        forall j | 0 <= j < i ensures Dur(g[j]) < Dur(g[i]) {
          assert init[j] == g[j];
        }
      }
    }
  }

  /** Whether a group is non-empty is whether its key was seen. */
  lemma {:induction false} GroupNonEmpty(s: seq<Event>, k: Option<string>)
    ensures Group(s, k) != [] <==> k in Keys(s)
    ensures k in Keys(s) <==> Stamped(s, k)
  {
    if s != [] {
      var n := |s| - 1;
      GroupNonEmpty(s[..n], k);
      assert forall j :: 0 <= j < n ==> s[..n][j] == s[j];
      if Stamped(s, k) && !Stamped(s[..n], k) {
        assert s[n].timestamp == k;
      }
    }
  }

  /** The per-key pick for each of `ks`, in order. */
  function PickAll(s: seq<Event>, ks: seq<Option<string>>): (r: seq<Event>)
    requires forall k :: k in ks ==> Group(s, k) != []
    ensures |r| == |ks|
  {
    if ks == [] then []
    else PickAll(s, ks[..|ks| - 1]) + [FirstLongest(Group(s, ks[|ks| - 1]))]
  }

  lemma KeysGrouped(s: seq<Event>)
    ensures forall k :: k in Keys(s) ==> Group(s, k) != []
  {
    forall k | k in Keys(s) ensures Group(s, k) != [] {
      GroupNonEmpty(s, k);
    }
  }

  /** The deduplicated list: one pick per distinct timestamp, in first-occurrence order. */
  function Deduplicated(s: seq<Event>): seq<Event>
  {
    KeysGrouped(s);
    PickAll(s, Keys(s))
  }

  /** The distinct timestamps are distinct, and each first occurs after the previous one. */
  lemma {:induction false} KeysOrdered(s: seq<Event>)
    ensures Distinct(Keys(s))
    ensures forall k :: k in Keys(s) ==> Stamped(s, k)
    ensures forall i, j :: 0 <= i < j < |Keys(s)| ==> FirstIndex(s, Keys(s)[i]) < FirstIndex(s, Keys(s)[j])
  {
    if s != [] {
      var n := |s| - 1;
      var init := s[..n];
      KeysOrdered(init);
      assert forall j :: 0 <= j < n ==> init[j] == s[j];
      var p := Keys(init);
      forall k | Stamped(init, k) ensures Stamped(s, k) && FirstIndex(s, k) == FirstIndex(init, k) {
        var r := FirstIndex(init, k);
        assert s[r].timestamp == k;
        var q := FirstIndex(s, k);
        assert q < n ==> init[q].timestamp == k;
      }
      var last := s[n].timestamp;
      if last !in p {
        GroupNonEmpty(init, last);
        assert Stamped(s, last);
        assert FirstIndex(s, last) == n;
      }
    }
  }

  /** A pick depends only on the groups of the keys it is asked for. */
  lemma {:induction false} PickAllSameGroups(s: seq<Event>, t: seq<Event>, ks: seq<Option<string>>)
    requires forall k :: k in ks ==> Group(s, k) != [] && Group(s, k) == Group(t, k)
    ensures PickAll(s, ks) == PickAll(t, ks)
  {
    if ks != [] {
      PickAllSameGroups(s, t, ks[..|ks| - 1]);
    }
  }

  /** Each pick is an event of its group. */
  lemma {:induction false} PickAllIndex(s: seq<Event>, ks: seq<Option<string>>, i: nat)
    requires forall k :: k in ks ==> Group(s, k) != []
    requires i < |ks|
    ensures PickAll(s, ks)[i] == FirstLongest(Group(s, ks[i]))
  {
    if i < |ks| - 1 {
      PickAllIndex(s, ks[..|ks| - 1], i);
    }
  }

  /** Every event of a group carries the group's key and belongs to the list. */
  lemma {:induction false} GroupMembers(s: seq<Event>, k: Option<string>)
    ensures forall e :: e in Group(s, k) ==> e in s && e.timestamp == k
  {
    if s != [] {
      var n := |s| - 1;
      GroupMembers(s[..n], k);
      assert forall e :: e in s[..n] ==> e in s;
    }
  }

  /** No event of `s` with timestamp `k` is longer than the group's pick. */
  lemma {:induction false} GroupLongestBound(s: seq<Event>, k: Option<string>, j: nat)
    requires Group(s, k) != []
    requires j < |s| && s[j].timestamp == k
    ensures Dur(s[j]) <= Dur(FirstLongest(Group(s, k)))
  {
    var n := |s| - 1;
    var init := s[..n];
    if j < n {
      assert init[j] == s[j];
      GroupNonEmpty(init, k);
      assert Stamped(init, k);
      GroupLongestBound(init, k, j);
      var b := FirstLongest(Group(init, k));
      var g := Group(s, k);
      if s[n].timestamp == k {
        assert g[..|g| - 1] == Group(init, k);
      } else {
        assert g == Group(init, k);
      }
    }
  }

  /** The group's pick is an input event before which every event with its timestamp is shorter. */
  lemma {:induction false} GroupLongestFirst(s: seq<Event>, k: Option<string>) returns (p: nat)
    requires Group(s, k) != []
    ensures p < |s| && s[p] == FirstLongest(Group(s, k)) && s[p].timestamp == k
    ensures forall j :: 0 <= j < p && s[j].timestamp == k ==> Dur(s[j]) < Dur(s[p])
  {
    var n := |s| - 1;
    var init := s[..n];
    assert forall j :: 0 <= j < n ==> init[j] == s[j];
    var x := s[n];
    var g := Group(s, k);
    if Group(init, k) == [] {
      GroupNonEmpty(init, k);
      assert g == [x];
      p := n;
      forall j | 0 <= j < n ensures s[j].timestamp != k {
        if s[j].timestamp == k { assert Stamped(init, k); }
      }
    } else {
      var q := GroupLongestFirst(init, k);
      var b := FirstLongest(Group(init, k));
      if x.timestamp == k {
        assert g[..|g| - 1] == Group(init, k);
        if Dur(x) > Dur(b) {
          p := n;
          forall j | 0 <= j < n && s[j].timestamp == k ensures Dur(s[j]) < Dur(x) {
            GroupLongestBound(init, k, j);
          }
        } else {
          p := q;
        }
      } else {
        assert g == Group(init, k);
        p := q;
      }
    }
  }

  /** Each kept event is the longest event with its timestamp, from the input, in key order. */
  lemma DeduplicatedIndex(s: seq<Event>, i: nat)
    requires i < |Keys(s)|
    ensures |Deduplicated(s)| == |Keys(s)|
    ensures Deduplicated(s)[i] in s
    ensures Deduplicated(s)[i].timestamp == Keys(s)[i]
    ensures Group(s, Keys(s)[i]) != []
    ensures Deduplicated(s)[i] == FirstLongest(Group(s, Keys(s)[i]))
  {
    KeysGrouped(s);
    PickAllIndex(s, Keys(s), i);
    GroupMembers(s, Keys(s)[i]);
    var g := Group(s, Keys(s)[i]);
    assert FirstLongest(g) in g;
  }

  //
  // Properties of the deduplicated list
  //

  /** There are no more distinct timestamps than events. */
  lemma {:induction false} KeysLength(s: seq<Event>)
    ensures |Keys(s)| <= |s|
  {
    if s != [] {
      KeysLength(s[..|s| - 1]);
    }
  }

  /** Deduplication only keeps input events, never more of them than there are. */
  lemma DedupSubset(s: seq<Event>)
    ensures |Deduplicated(s)| <= |s|
    ensures forall x :: x in Deduplicated(s) ==> x in s
  {
    forall x | x in Deduplicated(s) ensures x in s {
      var i :| 0 <= i < |Deduplicated(s)| && Deduplicated(s)[i] == x;
      DeduplicatedIndex(s, i);
    }
    KeysLength(s);
  }

  /** The output's timestamps are pairwise distinct. */
  lemma DedupDistinct(s: seq<Event>)
    ensures forall i, j :: 0 <= i < j < |Deduplicated(s)| ==> Deduplicated(s)[i].timestamp != Deduplicated(s)[j].timestamp
  {
    KeysOrdered(s);
    forall i, j | 0 <= i < j < |Deduplicated(s)|
      ensures Deduplicated(s)[i].timestamp != Deduplicated(s)[j].timestamp
    {
      DeduplicatedIndex(s, i);
      DeduplicatedIndex(s, j);
    }
  }

  /** Exactly the input's timestamps occur in the output. */
  lemma DedupSameTimestamps(s: seq<Event>, k: Option<string>)
    ensures Stamped(Deduplicated(s), k) <==> Stamped(s, k)
  {
    GroupNonEmpty(s, k);
    KeysOrdered(s);
    if Stamped(s, k) {
      var i :| 0 <= i < |Keys(s)| && Keys(s)[i] == k;
      DeduplicatedIndex(s, i);
    }
    if Stamped(Deduplicated(s), k) {
      var i :| 0 <= i < |Deduplicated(s)| && Deduplicated(s)[i].timestamp == k;
      DeduplicatedIndex(s, i);
    }
  }

  /** Output events come in the order their timestamps first occur in the input. */
  lemma DedupFirstOccurrenceOrder(s: seq<Event>, i: nat, j: nat)
    requires i < j < |Deduplicated(s)|
    ensures Stamped(s, Deduplicated(s)[i].timestamp) && Stamped(s, Deduplicated(s)[j].timestamp)
    ensures FirstIndex(s, Deduplicated(s)[i].timestamp) < FirstIndex(s, Deduplicated(s)[j].timestamp)
  {
    KeysOrdered(s);
    DeduplicatedIndex(s, i);
    DeduplicatedIndex(s, j);
  }

  /**
   * Each kept event is, among the input events with its timestamp, one of the
   * longest, and the first such: every earlier one is strictly shorter.
   */
  lemma DedupKeepsFirstLongest(s: seq<Event>, i: nat)
    requires i < |Deduplicated(s)|
    ensures var r := Deduplicated(s)[i];
      && (forall j :: 0 <= j < |s| && s[j].timestamp == r.timestamp ==> Dur(s[j]) <= Dur(r))
      && exists p :: 0 <= p < |s| && s[p] == r && forall j :: 0 <= j < p && s[j].timestamp == r.timestamp ==> Dur(s[j]) < Dur(r)
  {
    DeduplicatedIndex(s, i);
    var k := Keys(s)[i];
    forall j | 0 <= j < |s| && s[j].timestamp == k ensures Dur(s[j]) <= Dur(Deduplicated(s)[i]) {
      GroupLongestBound(s, k, j);
    }
    var p := GroupLongestFirst(s, k);
  }

  /** Input without a repeated timestamp comes back unchanged. */
  lemma {:induction false} DedupNoRepeats(s: seq<Event>)
    requires forall i, j :: 0 <= i < j < |s| ==> s[i].timestamp != s[j].timestamp
    ensures Deduplicated(s) == s
  {
    if s != [] {
      var n := |s| - 1;
      NoRepeatsSplit(s);
      DedupNoRepeats(s[..n]);
      NewKeyAppended(s);
      assert s == s[..n] + [s[n]];
    }
  }

  /** No two events share a timestamp. */
  predicate Unrepeated(s: seq<Event>)
  {
    forall i, j :: 0 <= i < j < |s| ==> s[i].timestamp != s[j].timestamp
  }

  lemma NoRepeatsSplit(s: seq<Event>)
    requires s != [] && Unrepeated(s)
    ensures Unrepeated(s[..|s| - 1])
    ensures forall j :: 0 <= j < |s| - 1 ==> s[j].timestamp != s[|s| - 1].timestamp
  {
  }

  /** Appending an event with a new timestamp appends it to the deduplicated list. */
  lemma NewKeyAppended(s: seq<Event>)
    requires s != []
    requires forall j :: 0 <= j < |s| - 1 ==> s[j].timestamp != s[|s| - 1].timestamp
    ensures Deduplicated(s) == Deduplicated(s[..|s| - 1]) + [s[|s| - 1]]
  {
    var n := |s| - 1;
    var init := s[..n];
    var x := s[n];
    assert forall j :: 0 <= j < n ==> init[j] == s[j];
    GroupNonEmpty(init, x.timestamp);
    assert !Stamped(init, x.timestamp);
    var ks := Keys(init);
    assert Keys(s) == ks + [x.timestamp];
    KeysGrouped(init);
    KeysGrouped(s);
    forall k | k in ks ensures Group(s, k) != [] && Group(s, k) == Group(init, k) {
      assert k != x.timestamp;
    }
    PickAllSameGroups(s, init, ks);
    assert (ks + [x.timestamp])[..|ks|] == ks;
    assert Group(s, x.timestamp) == [x];
    calc {
      Deduplicated(s);
      PickAll(s, ks + [x.timestamp]);
      PickAll(s, ks) + [FirstLongest(Group(s, x.timestamp))];
      PickAll(init, ks) + [x];
    }
  }

  /** Deduplicating twice is deduplicating once. */
  lemma DedupIdempotent(s: seq<Event>)
    ensures Deduplicated(Deduplicated(s)) == Deduplicated(s)
  {
    DedupDistinct(s);
    DedupNoRepeats(Deduplicated(s));
  }

  /**
   * The first loop of `deduplicate_simultaneous_events`: the dictionary from
   * timestamps to their events, keys in order of first appearance; it stops
   * (KeyError) at an event without a timestamp.
   */
  method GroupByTimestamp(events: seq<Event>) returns (ok: bool, grouped: map<Option<string>, seq<Event>>, order: seq<Option<string>>)
    ensures ok <==> AllTimestamped(events)
    ensures ok ==> order == Keys(events)
    ensures ok ==> forall k :: k in grouped <==> k in order
    ensures ok ==> forall k :: k in grouped ==> grouped[k] == Group(events, k)
  {
    grouped, order := map[], [];
    var i := 0;
    while i < |events|
      invariant 0 <= i <= |events|
      invariant AllTimestamped(events[..i])
      invariant order == Keys(events[..i])
      invariant forall k :: k in grouped <==> k in order
      invariant forall k :: k in grouped ==> grouped[k] == Group(events[..i], k)
    {
      var e := events[i];
      if e.timestamp.None? {
        return false, grouped, order;
      }
      assert events[..i + 1][..i] == events[..i];
      assert events[..i + 1][i] == e;
      var k := e.timestamp;
      if k in grouped {
        grouped := grouped[k := grouped[k] + [e]];
      } else {
        GroupNonEmpty(events[..i], k);
        grouped := grouped[k := [e]];
        order := order + [k];
      }
      i := i + 1;
    }
    assert events[..i] == events;
    return true, grouped, order;
  }

  /**
   * `deduplicate_simultaneous_events`: after grouping, the second loop
   * appends each group's single event or its longest one.
   */
  method DeduplicateSimultaneousEvents(events: seq<Event>) returns (r: Result<seq<Event>, Error>)
    ensures r == if AllTimestamped(events) then Ok(Deduplicated(events)) else Err(MissingTimestamp)
  {
    var ok, grouped, order := GroupByTimestamp(events);
    if !ok {
      return Err(MissingTimestamp);
    }
    KeysGrouped(events);
    var deduplicated: seq<Event> := [];
    var j := 0;
    while j < |order|
      invariant 0 <= j <= |order|
      invariant deduplicated == PickAll(events, order[..j])
    {
      var group := grouped[order[j]];
      assert order[..j + 1][..j] == order[..j];
      if |group| == 1 {
        deduplicated := deduplicated + [group[0]];
      } else {
        var longest := FirstLongest(group);
        deduplicated := deduplicated + [longest];
      }
      j := j + 1;
    }
    assert order[..j] == order;
    return Ok(deduplicated);
  }
}
