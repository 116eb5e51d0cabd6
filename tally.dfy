/**
 * The `defaultdict(lambda: {'duration': 0, 'events': 0})` tallies of the
 * analyzer and the cleaner's summary: per key, the summed duration and the
 * number of events, with keys in the order they first appeared (the order
 * `dict` keeps).
 */
module Tallies {
  import opened Wrappers
  import opened Events

  datatype Usage = Usage(duration: real, events: nat)

  /** An insertion-ordered dictionary from keys to usage. */
  datatype Tally = Tally(order: seq<string>, usage: map<string, Usage>)

  const EmptyTally: Tally := Tally([], map[])

  /** Each key once in `order`, and `order` lists exactly the keys of `usage`. */
  ghost predicate WellFormed(t: Tally)
  {
    Distinct(t.order) && forall k :: k in t.usage <==> k in t.order
  }

  /** `t[key]['duration'] += d; t[key]['events'] += 1`. */
  function Bump(t: Tally, key: string, d: real): Tally
  {
    if key in t.usage then
      t.(usage := t.usage[key := Usage(t.usage[key].duration + d, t.usage[key].events + 1)])
    else
      Tally(t.order + [key], t.usage[key := Usage(d, 1)])
  }

  /** The loop `for e in s: t[key(e)] += ...` from an empty dictionary. */
  function TallyBy(s: seq<Event>, key: Event -> string): Tally
  {
    if s == [] then EmptyTally
    else Bump(TallyBy(s[..|s| - 1], key), key(s[|s| - 1]), Dur(s[|s| - 1]))
  }

  /** The events filed under `k`. */
  function Matching(s: seq<Event>, key: Event -> string, k: string): seq<Event>
  {
    Filter(s, e => key(e) == k)
  }

  /** The summed durations of the keys of `order`. */
  function SumUsage(order: seq<string>, usage: map<string, Usage>): real
  {
    if order == [] then 0.0
    else SumUsage(order[..|order| - 1], usage) + (if order[|order| - 1] in usage then usage[order[|order| - 1]].duration else 0.0)
  }

  /** The summed event counts of the keys of `order`. */
  function CountUsage(order: seq<string>, usage: map<string, Usage>): int
  {
    if order == [] then 0
    else CountUsage(order[..|order| - 1], usage) + (if order[|order| - 1] in usage then usage[order[|order| - 1]].events else 0)
  }

  lemma BumpWellFormed(t: Tally, key: string, d: real)
    requires WellFormed(t)
    ensures WellFormed(Bump(t, key, d))
  {
    if key !in t.usage {
      var o := t.order + [key];
      forall i, j | 0 <= i < j < |o| ensures o[i] != o[j] {
        if j == |t.order| {
          assert o[i] == t.order[i];
        }
      }
    }
  }

  /** A tally is a well-formed dictionary. */
  lemma {:induction false} TallyWellFormed(s: seq<Event>, key: Event -> string)
    ensures WellFormed(TallyBy(s, key))
  {
    if s != [] {
      TallyWellFormed(s[..|s| - 1], key);
      BumpWellFormed(TallyBy(s[..|s| - 1], key), key(s[|s| - 1]), Dur(s[|s| - 1]));
    }
  }

  /** The keys of a tally are the keys of the events. */
  lemma {:induction false} TallyKeys(s: seq<Event>, key: Event -> string, k: string)
    ensures k in TallyBy(s, key).usage <==> exists i :: 0 <= i < |s| && key(s[i]) == k
  {
    if s != [] {
      var init := s[..|s| - 1];
      TallyKeys(init, key, k);
      if exists i :: 0 <= i < |init| && key(init[i]) == k {
        var i :| 0 <= i < |init| && key(init[i]) == k;
        assert s[i] == init[i];
      }
      if exists i :: 0 <= i < |s| && key(s[i]) == k {
        var i :| 0 <= i < |s| && key(s[i]) == k;
        if i < |init| {
          assert init[i] == s[i];
        }
      }
    }
  }

  /**
   * Each key's entry is the summed duration and the number of the events
   * filed under it.
   */
  lemma {:induction false} TallyLookup(s: seq<Event>, key: Event -> string, k: string)
    requires k in TallyBy(s, key).usage
    ensures TallyBy(s, key).usage[k] == Usage(SumDurations(Matching(s, key, k)), |Matching(s, key, k)|)
  {
    var init := s[..|s| - 1];
    var last := s[|s| - 1];
    var t := TallyBy(init, key);
    assert Matching(s, key, k) == Matching(init, key, k) + (if key(last) == k then [last] else []);
    if key(last) == k {
      SumDurationsAppend(Matching(init, key, k), [last]);
      assert SumDurations([last]) == Dur(last) by {
        assert [last][..0] == [];
      }
      if k in t.usage {
        TallyLookup(init, key, k);
      } else {
        TallyKeys(init, key, k);
        MatchingNone(init, key, k);
      }
    } else {
      TallyLookup(init, key, k);
    }
  }

  /** No event has the key: none is filed under it. */
  lemma {:induction false} MatchingNone(s: seq<Event>, key: Event -> string, k: string)
    requires forall i :: 0 <= i < |s| ==> key(s[i]) != k
    ensures Matching(s, key, k) == []
  {
    if s != [] {
      MatchingNone(s[..|s| - 1], key, k);
    }
  }

  lemma {:induction false} SumUsageAbsent(order: seq<string>, usage: map<string, Usage>, k: string, u: Usage)
    requires k !in order
    ensures SumUsage(order, usage[k := u]) == SumUsage(order, usage)
    ensures CountUsage(order, usage[k := u]) == CountUsage(order, usage)
  {
    if order != [] {
      SumUsageAbsent(order[..|order| - 1], usage, k, u);
    }
  }

  lemma {:induction false} SumUsageUpdate(order: seq<string>, usage: map<string, Usage>, k: string, u: Usage)
    requires Distinct(order) && k in order && k in usage
    ensures SumUsage(order, usage[k := u]) == SumUsage(order, usage) + (u.duration - usage[k].duration)
    ensures CountUsage(order, usage[k := u]) == CountUsage(order, usage) + (u.events - usage[k].events)
  {
    var init := order[..|order| - 1];
    assert Distinct(init);
    if order[|order| - 1] == k {
      assert k !in init;
      SumUsageAbsent(init, usage, k, u);
    } else {
      assert k in init;
      SumUsageUpdate(init, usage, k, u);
    }
  }

  lemma BumpTotals(t: Tally, key: string, d: real)
    requires WellFormed(t)
    ensures var r := Bump(t, key, d);
      SumUsage(r.order, r.usage) == SumUsage(t.order, t.usage) + d && CountUsage(r.order, r.usage) == CountUsage(t.order, t.usage) + 1
  {
    if key in t.usage {
      SumUsageUpdate(t.order, t.usage, key, Usage(t.usage[key].duration + d, t.usage[key].events + 1));
    } else {
      var u := t.usage[key := Usage(d, 1)];
      assert (t.order + [key])[..|t.order|] == t.order;
      SumUsageAbsent(t.order, t.usage, key, Usage(d, 1));
    }
  }

  /** Partition: the entries' durations add up to the total duration and their counts to the number of events. */
  lemma {:induction false} TallyTotals(s: seq<Event>, key: Event -> string)
    ensures SumUsage(TallyBy(s, key).order, TallyBy(s, key).usage) == SumDurations(s)
    ensures CountUsage(TallyBy(s, key).order, TallyBy(s, key).usage) == |s|
  {
    if s != [] {
      TallyTotals(s[..|s| - 1], key);
      TallyWellFormed(s[..|s| - 1], key);
      BumpTotals(TallyBy(s[..|s| - 1], key), key(s[|s| - 1]), Dur(s[|s| - 1]));
    }
  }

  /** A new key goes after every key seen before it: keys are in order of first appearance. */
  lemma TallyOrderExtends(s: seq<Event>, key: Event -> string)
    requires s != []
    ensures var before := TallyBy(s[..|s| - 1], key).order;
      TallyBy(s, key).order == (if key(s[|s| - 1]) in before then before else before + [key(s[|s| - 1])])
  {
    TallyWellFormed(s[..|s| - 1], key);
  }

  /** One dictionary entry as `dict.items()` yields it. */
  datatype Entry = Entry(key: string, usage: Usage)

  /** `t.items()`, in insertion order. */
  function Entries(t: Tally): (r: seq<Entry>)
    ensures |r| == |t.order|
    ensures forall i :: 0 <= i < |r| ==> r[i].key == t.order[i]
    ensures forall i :: 0 <= i < |r| && t.order[i] in t.usage ==> r[i].usage == t.usage[t.order[i]]
  {
    seq(|t.order|, i requires 0 <= i < |t.order| =>
      Entry(t.order[i], if t.order[i] in t.usage then t.usage[t.order[i]] else Usage(0.0, 0)))
  }

  //
  // The loops
  //

  /** The loop filling one tally. */
  method Accumulate(events: seq<Event>, key: Event -> string) returns (t: Tally)
    ensures t == TallyBy(events, key)
  {
    t := EmptyTally;
    var i := 0;
    while i < |events|
      invariant 0 <= i <= |events|
      invariant t == TallyBy(events[..i], key)
    {
      assert events[..i + 1][..i] == events[..i];
      var k := key(events[i]);
      if k in t.usage {
        t := t.(usage := t.usage[k := Usage(t.usage[k].duration + Dur(events[i]), t.usage[k].events + 1)]);
      } else {
        t := Tally(t.order + [k], t.usage[k := Usage(Dur(events[i]), 1)]);
      }
      i := i + 1;
    }
    assert events[..i] == events;
  }

  /** A tally loop whose key reads `event['timestamp']`, which raises KeyError on an event without one. */
  method AccumulateStamped(events: seq<Event>, key: Event -> string) returns (r: Result<Tally, Error>)
    ensures r == if AllTimestamped(events) then Ok(TallyBy(events, key)) else Err(MissingTimestamp)
  {
    var t := EmptyTally;
    var i := 0;
    while i < |events|
      invariant 0 <= i <= |events|
      invariant AllTimestamped(events[..i])
      invariant t == TallyBy(events[..i], key)
    {
      if events[i].timestamp.None? {
        return Err(MissingTimestamp);
      }
      assert events[..i + 1][..i] == events[..i];
      t := Bump(t, key(events[i]), Dur(events[i]));
      i := i + 1;
    }
    assert events[..i] == events;
    return Ok(t);
  }
}
