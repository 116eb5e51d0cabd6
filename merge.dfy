/**
 * `merge_consecutive_events` (json_tools/aw_clean.py): the events are sorted
 * by start instant, then walked with an accumulator `current`; a next event
 * of the same app whose gap after `current` lies in `[0, max_gap]` is
 * absorbed into `current`, any other next event flushes `current` and takes
 * its place.
 */
module Merge {
  import opened Wrappers
  import opened Events
  import Sorting

  /**
   * `datetime.fromisoformat(ts.replace('Z', '+00:00'))` as microseconds since
   * a fixed epoch, or None where it raises ValueError.
   */
  type Clock = string -> Option<int>

  /** The event has a timestamp that parses to an instant. */
  predicate Timed(e: Event, instant: Clock)
  {
    e.timestamp.Some? && instant(e.timestamp.value).Some?
  }

  /** The event's start instant (0 for an event that is not `Timed`). */
  function Start(e: Event, instant: Clock): int
  {
    if Timed(e, instant) then instant(e.timestamp.value).value else 0
  }

  /** A span of microseconds in seconds. */
  function Seconds(us: int): real
  {
    us as real / 1000000.0
  }

  /** Seconds between the end of `cur` and the start of `nxt` (negative when they overlap). */
  function Gap(cur: Event, nxt: Event, instant: Clock): real
  {
    Seconds(Start(nxt, instant) - Start(cur, instant)) - Dur(cur)
  }

  /** The merge condition: same app and `0 <= gap <= maxGap`. */
  predicate Mergeable(cur: Event, nxt: Event, maxGap: real, instant: Clock)
  {
    App(cur) == App(nxt) && 0.0 <= Gap(cur, nxt, instant) <= maxGap
  }

  /** `e.get('data', {}).get('title', '')` */
  function Title(e: Event): string
  {
    DataFieldOr(e, "title", "")
  }

  /**
   * `cur` after absorbing `nxt`: its duration reaches the end of `nxt`, and
   * its title is replaced by the title of `nxt` only when that is strictly
   * longer.
   */
  function Absorb(cur: Event, nxt: Event, instant: Clock): Event
  {
    var title := Title(nxt);
    cur.(duration := Some(Seconds(Start(nxt, instant) - Start(cur, instant)) + Dur(nxt)),
         data := if |title| > |Title(cur)| && cur.data.Some? then Some(cur.data.value["title" := title]) else cur.data)
  }

  /** The title write of a merge raises KeyError: `cur` has no `data` key. */
  predicate AbsorbRaises(cur: Event, nxt: Event)
  {
    |Title(nxt)| > |Title(cur)| && cur.data.None?
  }

  /** The accumulator walk: what is emitted from `current = cur` onwards. */
  function Walk(cur: Event, rest: seq<Event>, maxGap: real, instant: Clock): (r: seq<Event>)
    ensures 1 <= |r| <= |rest| + 1
    decreases |rest|
  {
    if rest == [] then [cur]
    else if Mergeable(cur, rest[0], maxGap, instant) then Walk(Absorb(cur, rest[0], instant), rest[1..], maxGap, instant)
    else [cur] + Walk(rest[0], rest[1..], maxGap, instant)
  }

  /** Some merge step of the walk raises KeyError. */
  predicate WalkRaises(cur: Event, rest: seq<Event>, maxGap: real, instant: Clock)
    decreases |rest|
  {
    if rest == [] then false
    else if Mergeable(cur, rest[0], maxGap, instant) then
      AbsorbRaises(cur, rest[0]) || WalkRaises(Absorb(cur, rest[0], instant), rest[1..], maxGap, instant)
    else WalkRaises(rest[0], rest[1..], maxGap, instant)
  }

  /** The sort key order: by start instant. */
  function StartLe(instant: Clock): (Event, Event) -> bool
  {
    (a: Event, b: Event) => Start(a, instant) <= Start(b, instant)
  }

  /** `sorted(events, key=start)`: stable. */
  function SortByStart(s: seq<Event>, instant: Clock): seq<Event>
  {
    Sorting.Sort(s, StartLe(instant))
  }

  /** The exception the sort key raises at the first event it cannot parse, if any. */
  function KeyFailure(s: seq<Event>, instant: Clock): (r: Option<Error>)
    ensures r.None? <==> forall e :: e in s ==> Timed(e, instant)
  {
    if s == [] then None
    else if s[0].timestamp.None? then assert s[0] in s; Some(MissingTimestamp)
    else if instant(s[0].timestamp.value).None? then assert s[0] in s; Some(InvalidTimestamp)
    else
      assert forall e :: e in s ==> e == s[0] || e in s[1..];
      KeyFailure(s[1..], instant)
  }

  /** `merge_consecutive_events(events, maxGap)`. */
  function Merged(s: seq<Event>, maxGap: real, instant: Clock): (r: Result<seq<Event>, Error>)
    ensures r.Ok? ==> (|r.value| == 0 <==> |s| == 0) && |r.value| <= |s|
  {
    if s == [] then Ok([])
    else if KeyFailure(s, instant).Some? then Err(KeyFailure(s, instant).value)
    else
      var sorted := SortByStart(s, instant);
      if WalkRaises(sorted[0], sorted[1..], maxGap, instant) then Err(MissingData)
      else
        Ok(Walk(sorted[0], sorted[1..], maxGap, instant))
  }

  //
  // The walk
  //

  /** Two events that share timestamp, app and tags (only duration or title differ). */
  predicate SameOrigin(a: Event, b: Event)
  {
    a.timestamp == b.timestamp && a.device == b.device && a.bucket == b.bucket && App(a) == App(b)
  }

  /** Absorbing changes only duration and title; the duration grows by the gap and the next duration. */
  lemma AbsorbFacts(cur: Event, nxt: Event, instant: Clock)
    ensures SameOrigin(Absorb(cur, nxt, instant), cur)
    ensures Start(Absorb(cur, nxt, instant), instant) == Start(cur, instant)
    ensures Dur(Absorb(cur, nxt, instant)) == Dur(cur) + Gap(cur, nxt, instant) + Dur(nxt)
    ensures Seconds(Start(Absorb(cur, nxt, instant), instant)) + Dur(Absorb(cur, nxt, instant))
         == Seconds(Start(nxt, instant)) + Dur(nxt)
    ensures Absorb(cur, nxt, instant).data.Some? == cur.data.Some?
  {
    assert "title" != "app";
  }

  /** The merge condition depends on the second event only through its origin. */
  lemma MergeableByOrigin(cur: Event, a: Event, b: Event, maxGap: real, instant: Clock)
    requires SameOrigin(a, b)
    ensures Mergeable(cur, a, maxGap, instant) == Mergeable(cur, b, maxGap, instant)
  {
  }

  /** The first emitted event has the origin of the first accumulator. */
  lemma {:induction false} WalkHeadOrigin(cur: Event, rest: seq<Event>, maxGap: real, instant: Clock)
    ensures SameOrigin(Walk(cur, rest, maxGap, instant)[0], cur)
    decreases |rest|
  {
    if rest != [] && Mergeable(cur, rest[0], maxGap, instant) {
      AbsorbFacts(cur, rest[0], instant);
      WalkHeadOrigin(Absorb(cur, rest[0], instant), rest[1..], maxGap, instant);
    }
  }

  /** No two adjacent events of `w` satisfy the merge condition. */
  predicate Unmergeable(w: seq<Event>, maxGap: real, instant: Clock)
  {
    forall i :: 0 <= i < |w| - 1 ==> !Mergeable(w[i], w[i + 1], maxGap, instant)
  }

  /** No two adjacent emitted events satisfy the merge condition. */
  lemma {:induction false} WalkNoMergeablePair(cur: Event, rest: seq<Event>, maxGap: real, instant: Clock)
    ensures Unmergeable(Walk(cur, rest, maxGap, instant), maxGap, instant)
    decreases |rest|
  {
    if rest != [] {
      if Mergeable(cur, rest[0], maxGap, instant) {
        assert Walk(cur, rest, maxGap, instant) == Walk(Absorb(cur, rest[0], instant), rest[1..], maxGap, instant);
        WalkNoMergeablePair(Absorb(cur, rest[0], instant), rest[1..], maxGap, instant);
      } else {
        var tail := Walk(rest[0], rest[1..], maxGap, instant);
        WalkNoMergeablePair(rest[0], rest[1..], maxGap, instant);
        WalkHeadOrigin(rest[0], rest[1..], maxGap, instant);
        MergeableByOrigin(cur, tail[0], rest[0], maxGap, instant);
        var w := [cur] + tail;
        assert Walk(cur, rest, maxGap, instant) == w;
        forall i | 0 <= i < |w| - 1 ensures !Mergeable(w[i], w[i + 1], maxGap, instant) {
          if i == 0 {
            assert w[0] == cur && w[1] == tail[0];
            assert !Mergeable(cur, rest[0], maxGap, instant);
            assert !Mergeable(cur, tail[0], maxGap, instant);
          } else {
            var j := i - 1;
            assert !Mergeable(tail[j], tail[j + 1], maxGap, instant);
            assert w[i] == tail[j] && w[i + 1] == tail[j + 1];
          }
        }
      }
    }
  }

  /** A walk over events in start order emits events in start order. */
  lemma {:induction false} WalkChained(cur: Event, rest: seq<Event>, maxGap: real, instant: Clock)
    requires Sorting.Chained(rest, StartLe(instant))
    requires rest != [] ==> Start(cur, instant) <= Start(rest[0], instant)
    ensures Sorting.Chained(Walk(cur, rest, maxGap, instant), StartLe(instant))
    decreases |rest|
  {
    var le := StartLe(instant);
    if rest != [] {
      assert Sorting.Chained(rest[1..], le) by {
        forall i | 0 <= i < |rest[1..]| - 1 ensures le(rest[1..][i], rest[1..][i + 1]) {
          assert le(rest[i + 1], rest[i + 2]);
        }
      }
      if |rest| > 1 { assert le(rest[0], rest[1]); }
      if Mergeable(cur, rest[0], maxGap, instant) {
        AbsorbFacts(cur, rest[0], instant);
        WalkChained(Absorb(cur, rest[0], instant), rest[1..], maxGap, instant);
      } else {
        var tail := Walk(rest[0], rest[1..], maxGap, instant);
        WalkChained(rest[0], rest[1..], maxGap, instant);
        WalkHeadOrigin(rest[0], rest[1..], maxGap, instant);
        var w := [cur] + tail;
        forall i | 0 <= i < |w| - 1 ensures le(w[i], w[i + 1]) {
          if i > 0 { assert w[i] == tail[i - 1] && w[i + 1] == tail[i]; }
        }
      }
    }
  }

  /** All durations are non-negative. */
  predicate NonNegative(s: seq<Event>)
  {
    forall e :: e in s ==> Dur(e) >= 0.0
  }

  /** `o` has the origin of `e` and, when `grow` holds, at least its duration. */
  predicate Descends(o: Event, e: Event, grow: bool)
  {
    SameOrigin(o, e) && (grow ==> Dur(o) >= Dur(e))
  }

  /** Every event of `w` descends from an event of `src`. */
  predicate DescendsFrom(w: seq<Event>, src: seq<Event>, grow: bool)
  {
    forall o :: o in w ==> exists e :: e in src && Descends(o, e, grow)
  }

  /**
   * Every emitted event has the origin of one of the walked events and, when
   * durations are non-negative, at least its duration.
   */
  lemma {:induction false} WalkOrigins(cur: Event, rest: seq<Event>, maxGap: real, instant: Clock, grow: bool)
    requires grow ==> NonNegative(rest)
    ensures DescendsFrom(Walk(cur, rest, maxGap, instant), [cur] + rest, grow)
    decreases |rest|
  {
    if rest != [] {
      var src := [cur] + rest;
      assert grow ==> NonNegative(rest[1..]) by {
        assert forall e :: e in rest[1..] ==> e in rest;
      }
      if Mergeable(cur, rest[0], maxGap, instant) {
        var a := Absorb(cur, rest[0], instant);
        AbsorbFacts(cur, rest[0], instant);
        assert rest[0] in rest;
        assert Descends(a, cur, grow);
        assert Walk(cur, rest, maxGap, instant) == Walk(a, rest[1..], maxGap, instant);
        WalkOrigins(a, rest[1..], maxGap, instant, grow);
        forall o | o in Walk(a, rest[1..], maxGap, instant)
          ensures exists e :: e in src && Descends(o, e, grow)
        {
          var e :| e in [a] + rest[1..] && Descends(o, e, grow);
          if e == a {
            assert cur in src && Descends(o, cur, grow);
          } else {
            assert e in src;
          }
        }
        assert DescendsFrom(Walk(a, rest[1..], maxGap, instant), src, grow);
      } else {
        var tail := Walk(rest[0], rest[1..], maxGap, instant);
        assert rest == [rest[0]] + rest[1..];
        assert Walk(cur, rest, maxGap, instant) == [cur] + tail;
        WalkOrigins(rest[0], rest[1..], maxGap, instant, grow);
        forall o | o in [cur] + tail
          ensures exists e :: e in src && Descends(o, e, grow)
        {
          if o == cur {
            assert cur in src && Descends(cur, cur, grow);
          } else {
            assert o in tail;
            var e :| e in rest && Descends(o, e, grow);
            assert e in src;
          }
        }
        assert DescendsFrom([cur] + tail, src, grow);
      }
    } else {
      assert cur in [cur] + rest && Descends(cur, cur, grow);
    }
  }

  /** With every `data` present, no merge step raises. */
  lemma {:induction false} WalkSucceeds(cur: Event, rest: seq<Event>, maxGap: real, instant: Clock)
    requires cur.data.Some? && forall e :: e in rest ==> e.data.Some?
    ensures !WalkRaises(cur, rest, maxGap, instant)
    decreases |rest|
  {
    if rest != [] {
      assert forall e :: e in rest[1..] ==> e in rest;
      AbsorbFacts(cur, rest[0], instant);
      WalkSucceeds(Absorb(cur, rest[0], instant), rest[1..], maxGap, instant);
      WalkSucceeds(rest[0], rest[1..], maxGap, instant);
    }
  }

  /** A walk over events no two adjacent of which may merge emits them unchanged. */
  lemma {:induction false} WalkOfUnmergeable(s: seq<Event>, maxGap: real, instant: Clock)
    requires s != []
    requires Unmergeable(s, maxGap, instant)
    ensures Walk(s[0], s[1..], maxGap, instant) == s
    ensures !WalkRaises(s[0], s[1..], maxGap, instant)
    decreases |s|
  {
    if |s| > 1 {
      var t := s[1..];
      forall i | 0 <= i < |t| - 1 ensures !Mergeable(t[i], t[i + 1], maxGap, instant) {
        var j := i + 1;
        assert !Mergeable(s[j], s[j + 1], maxGap, instant);
        assert t[i] == s[j] && t[i + 1] == s[j + 1];
      }
      WalkOfUnmergeable(t, maxGap, instant);
      assert t[1..] == s[2..];
      assert s == [s[0]] + t;
    }
  }

  /** A prefix-by-prefix absorption: what `current` becomes after absorbing `ns` one by one. */
  function AbsorbAll(cur: Event, ns: seq<Event>, instant: Clock): Event
    decreases |ns|
  {
    if ns == [] then cur else AbsorbAll(Absorb(cur, ns[0], instant), ns[1..], instant)
  }

  /** The first emitted event is the first accumulator after absorbing a prefix of the rest. */
  lemma {:induction false} WalkHead(cur: Event, rest: seq<Event>, maxGap: real, instant: Clock) returns (k: nat)
    ensures k <= |rest|
    ensures Walk(cur, rest, maxGap, instant)[0] == AbsorbAll(cur, rest[..k], instant)
    decreases |rest|
  {
    if rest == [] {
      k := 0;
    } else if Mergeable(cur, rest[0], maxGap, instant) {
      var k' := WalkHead(Absorb(cur, rest[0], instant), rest[1..], maxGap, instant);
      k := k' + 1;
      assert rest[..k][0] == rest[0] && rest[..k][1..] == rest[1..][..k'];
    } else {
      k := 0;
    }
  }

  /** A merge replaces the title of `cur` exactly when the next title is strictly longer. */
  lemma AbsorbTitle(cur: Event, nxt: Event, instant: Clock)
    requires cur.data.Some?
    ensures Absorb(cur, nxt, instant).data.Some?
    ensures Title(Absorb(cur, nxt, instant)) == if |Title(nxt)| > |Title(cur)| then Title(nxt) else Title(cur)
  {
  }

  /** `all[p]` has a title no shorter than any other and strictly longer than every earlier one. */
  predicate FirstLongestTitle(all: seq<Event>, p: nat)
  {
    && p < |all|
    && (forall j :: 0 <= j < p ==> |Title(all[j])| < |Title(all[p])|)
    && (forall j :: 0 <= j < |all| ==> |Title(all[j])| <= |Title(all[p])|)
  }

  /**
   * The title after a run of merges is the first of the longest titles in the
   * run: a title is only ever replaced by a strictly longer one.
   */
  lemma {:induction false} AbsorbAllTitle(cur: Event, ns: seq<Event>, instant: Clock) returns (p: nat)
    requires cur.data.Some?
    ensures FirstLongestTitle([cur] + ns, p)
    ensures Title(AbsorbAll(cur, ns, instant)) == Title(([cur] + ns)[p])
    decreases |ns|
  {
    var all := [cur] + ns;
    if ns == [] {
      p := 0;
    } else {
      var a := Absorb(cur, ns[0], instant);
      AbsorbTitle(cur, ns[0], instant);
      var rest := [a] + ns[1..];
      var q := AbsorbAllTitle(a, ns[1..], instant);
      assert AbsorbAll(cur, ns, instant) == AbsorbAll(a, ns[1..], instant);
      assert all[0] == cur && all[1] == ns[0];
      var t := Title(rest[q]);
      if q == 0 {
        p := if |Title(ns[0])| > |Title(cur)| then 1 else 0;
        assert Title(all[p]) == t;
      } else {
        p := q + 1;
        assert all[p] == rest[q];
        assert |Title(cur)| <= |Title(a)| && |Title(ns[0])| <= |Title(a)|;
      }
      assert FirstLongestTitle(rest, q);
      assert |Title(a)| <= |t| by { assert rest[0] == a; }
      assert forall j :: 2 <= j < |all| ==> all[j] == rest[j - 1];
      forall j | 2 <= j < |all| ensures |Title(all[j])| <= |t| {
        assert all[j] == rest[j - 1];
      }
      forall j | 2 <= j < p ensures |Title(all[j])| < |t| {
        assert all[j] == rest[j - 1];
      }
    }
  }

  /**
   * `c` cuts `all` into the runs the walk merged: emitted event `i` is
   * `all[c[i]]` after absorbing `all[c[i]+1..c[i+1]]`, and the runs cover
   * `all` in order.
   */
  predicate Runs(w: seq<Event>, all: seq<Event>, c: seq<nat>, instant: Clock)
  {
    && Cuts(c, |w|, |all|)
    && (forall i :: 0 <= i < |w| ==> w[i] == AbsorbAll(all[c[i]], all[c[i] + 1..c[i + 1]], instant))
  }

  /** `c` is `n + 1` strictly increasing cut points from 0 to `m`. */
  predicate Cuts(c: seq<nat>, n: nat, m: nat)
  {
    && |c| == n + 1
    && c[0] == 0
    && c[n] == m
    && (forall i, j :: 0 <= i < j < |c| ==> c[i] < c[j])
    && (forall i :: 0 <= i < |c| ==> c[i] <= m)
  }

  /** Cut points read over a list that has one more event inside its first run. */
  lemma CutsWiden(c: seq<nat>, n: nat, m: nat)
    requires Cuts(c, n, m) && n >= 1
    ensures Cuts([0] + Shifted(c[1..]), n, m + 1)
  {
    var d := [0] + Shifted(c[1..]);
    assert forall k :: 1 <= k < |d| ==> d[k] == c[k] + 1;
  }

  /** Cut points read over a list that has one more run in front. */
  lemma CutsPrepend(c: seq<nat>, n: nat, m: nat)
    requires Cuts(c, n, m)
    ensures Cuts([0] + Shifted(c), n + 1, m + 1)
  {
    var d := [0] + Shifted(c);
    assert forall k :: 1 <= k < |d| ==> d[k] == c[k - 1] + 1;
  }

  /** Every cut point moved one place to the right. */
  function Shifted(c: seq<nat>): (r: seq<nat>)
    ensures |r| == |c| && forall k :: 0 <= k < |c| ==> r[k] == c[k] + 1
  {
    seq(|c|, k requires 0 <= k < |c| => c[k] + 1)
  }

  /** Absorbing a list starting with `nxt` is absorbing `nxt` first. */
  lemma AbsorbAllCons(cur: Event, nxt: Event, ns: seq<Event>, instant: Clock)
    ensures AbsorbAll(cur, [nxt] + ns, instant) == AbsorbAll(Absorb(cur, nxt, instant), ns, instant)
  {
    assert ([nxt] + ns)[0] == nxt && ([nxt] + ns)[1..] == ns;
  }

  /** The runs after the first one, when the list has one more event before its second run. */
  lemma RunsTailShifted(w: seq<Event>, all: seq<Event>, all': seq<Event>, c: seq<nat>, d: seq<nat>, instant: Clock)
    requires Runs(w, all', c, instant) && d == [0] + Shifted(c[1..])
    requires 1 <= |all'| && |all| == |all'| + 1 && all[2..] == all'[1..]
    ensures forall i :: 1 <= i < |w| ==> w[i] == AbsorbAll(all[d[i]], all[d[i] + 1..d[i + 1]], instant)
  {
    forall i | 1 <= i < |w| ensures w[i] == AbsorbAll(all[d[i]], all[d[i] + 1..d[i + 1]], instant)
    {
      assert d[i] == c[i] + 1 && d[i + 1] == c[i + 1] + 1;
      assert c[0] < c[i] < c[i + 1] <= |all'|;
      SliceShift(all, all', c[i], c[i + 1]);
    }
  }

  /** Slices past the head of two lists that agree after it. */
  lemma SliceShift(all: seq<Event>, all': seq<Event>, lo: nat, hi: nat)
    requires 1 <= |all'| && |all| == |all'| + 1 && all[2..] == all'[1..]
    requires 1 <= lo < hi <= |all'|
    ensures all[lo + 1] == all'[lo]
    ensures all[lo + 2..hi + 1] == all'[lo + 1..hi]
  {
    assert all[lo + 1] == all[2..][lo - 1];
    SliceOfSlice(all, 2, lo, hi - 1);
    SliceOfSlice(all', 1, lo, hi - 1);
  }

  /** A slice of a suffix is a slice of the whole. */
  lemma SliceOfSlice(s: seq<Event>, a: nat, lo: nat, hi: nat)
    requires a <= |s| && lo <= hi <= |s| - a
    ensures s[a..][lo..hi] == s[a + lo..a + hi]
  {
    assert forall k :: 0 <= k < hi - lo ==> s[a..][lo..hi][k] == s[a + lo + k] == s[a + lo..a + hi][k];
  }

  /** Runs over the list after a merge step, read back over the list before it. */
  lemma RunsAfterAbsorb(cur: Event, nxt: Event, a: Event, more: seq<Event>, w: seq<Event>, c: seq<nat>, instant: Clock)
    requires a == Absorb(cur, nxt, instant)
    requires Runs(w, [a] + more, c, instant)
    ensures Runs(w, [cur, nxt] + more, [0] + Shifted(c[1..]), instant)
  {
    var all := [cur, nxt] + more;
    var all' := [a] + more;
    var d := [0] + Shifted(c[1..]);
    assert all[2..] == more == all'[1..];
    assert |w| >= 1 by { assert c[|w|] == |all'| >= 1; }
    CutsWiden(c, |w|, |all'|);
    RunsTailShifted(w, all, all', c, d, instant);
    assert d[1] == c[1] + 1;
    assert all[1..d[1]] == [nxt] + all'[1..c[1]];
    AbsorbAllCons(cur, nxt, all'[1..c[1]], instant);
    assert w[0] == AbsorbAll(all'[0], all'[1..c[1]], instant);
  }

  /** Runs over the list after an emitted event, with that event as a run of its own. */
  lemma RunsAfterEmit(cur: Event, w: seq<Event>, all: seq<Event>, c: seq<nat>, instant: Clock)
    requires Runs(w, all, c, instant)
    ensures Runs([cur] + w, [cur] + all, [0] + Shifted(c), instant)
  {
    var all' := [cur] + all;
    var w' := [cur] + w;
    var d := [0] + Shifted(c);
    CutsPrepend(c, |w|, |all|);
    assert all'[1..1] == [];
    forall i | 1 <= i < |w'| ensures w'[i] == AbsorbAll(all'[d[i]], all'[d[i] + 1..d[i + 1]], instant)
    {
      assert all'[d[i]] == all[c[i - 1]];
      assert all'[d[i] + 1..d[i + 1]] == all[c[i - 1] + 1..c[i]];
    }
  }

  /** Every event the walk emits is one run of consecutive input events merged together. */
  lemma {:induction false} WalkRuns(cur: Event, rest: seq<Event>, maxGap: real, instant: Clock) returns (c: seq<nat>)
    ensures Runs(Walk(cur, rest, maxGap, instant), [cur] + rest, c, instant)
    decreases |rest|
  {
    if rest == [] {
      c := [0, 1];
      assert ([cur] + rest)[1..1] == [];
    } else if Mergeable(cur, rest[0], maxGap, instant) {
      var a := Absorb(cur, rest[0], instant);
      var c' := WalkRuns(a, rest[1..], maxGap, instant);
      RunsAfterAbsorb(cur, rest[0], a, rest[1..], Walk(a, rest[1..], maxGap, instant), c', instant);
      assert [cur, rest[0]] + rest[1..] == [cur] + rest;
      c := [0] + Shifted(c'[1..]);
    } else {
      var c' := WalkRuns(rest[0], rest[1..], maxGap, instant);
      assert [rest[0]] + rest[1..] == rest;
      RunsAfterEmit(cur, Walk(rest[0], rest[1..], maxGap, instant), rest, c', instant);
      c := [0] + Shifted(c');
    }
  }

  /** A successful merge emits one event per run of the start-sorted input. */
  lemma MergedRuns(s: seq<Event>, maxGap: real, instant: Clock) returns (c: seq<nat>)
    requires Merged(s, maxGap, instant).Ok?
    ensures Runs(Merged(s, maxGap, instant).value, SortByStart(s, instant), c, instant)
  {
    var sorted := SortByStart(s, instant);
    if s == [] {
      c := [0];
    } else {
      c := WalkRuns(sorted[0], sorted[1..], maxGap, instant);
      assert [sorted[0]] + sorted[1..] == sorted;
    }
  }

  /** The title of run `i` is the first of its longest titles, when its first event has data. */
  lemma RunTitle(w: seq<Event>, all: seq<Event>, c: seq<nat>, i: nat, instant: Clock) returns (p: nat)
    requires Runs(w, all, c, instant) && i < |w| && all[c[i]].data.Some?
    ensures c[i] <= p < c[i + 1]
    ensures FirstLongestTitle(all[c[i]..c[i + 1]], p - c[i])
    ensures Title(w[i]) == Title(all[p])
  {
    var run := all[c[i] + 1..c[i + 1]];
    var q := AbsorbAllTitle(all[c[i]], run, instant);
    assert [all[c[i]]] + run == all[c[i]..c[i + 1]];
    p := c[i] + q;
    assert all[c[i]..c[i + 1]][q] == all[p];
  }

  /** `ps[i]` is where the title of emitted event `i` comes from, for every run whose first event has data. */
  predicate TitleSources(w: seq<Event>, all: seq<Event>, c: seq<nat>, ps: seq<nat>, instant: Clock)
    requires Runs(w, all, c, instant) && |ps| == |w|
  {
    forall i :: 0 <= i < |ps| && all[c[i]].data.Some? ==>
      && c[i] <= ps[i] < c[i + 1]
      && FirstLongestTitle(all[c[i]..c[i + 1]], ps[i] - c[i])
      && Title(w[i]) == Title(all[ps[i]])
  }

  /** The title sources of all runs. */
  lemma RunTitles(w: seq<Event>, all: seq<Event>, c: seq<nat>, instant: Clock) returns (ps: seq<nat>)
    requires Runs(w, all, c, instant)
    ensures |ps| == |w| && TitleSources(w, all, c, ps, instant)
  {
    ps := [];
    var i := 0;
    while i < |w|
      invariant i <= |w| && |ps| == i
      invariant forall k :: 0 <= k < i && all[c[k]].data.Some? ==>
        && c[k] <= ps[k] < c[k + 1]
        && FirstLongestTitle(all[c[k]..c[k + 1]], ps[k] - c[k])
        && Title(w[k]) == Title(all[ps[k]])
    {
      var p := c[i];
      if all[c[i]].data.Some? {
        p := RunTitle(w, all, c, i, instant);
      }
      var ps' := ps + [p];
      forall k | 0 <= k <= i && all[c[k]].data.Some?
        ensures c[k] <= ps'[k] < c[k + 1]
        ensures FirstLongestTitle(all[c[k]..c[k + 1]], ps'[k] - c[k])
        ensures Title(w[k]) == Title(all[ps'[k]])
      {
        if k < i {
          assert ps'[k] == ps[k];
        }
      }
      ps := ps';
      i := i + 1;
    }
  }

  /**
   * The title of each event a successful merge emits whose run starts with
   * an event that has data is the first of the longest titles in that run of
   * the start-sorted input.
   */
  lemma MergedTitles(s: seq<Event>, maxGap: real, instant: Clock) returns (c: seq<nat>, ps: seq<nat>)
    requires Merged(s, maxGap, instant).Ok?
    ensures Runs(Merged(s, maxGap, instant).value, SortByStart(s, instant), c, instant)
    ensures |ps| == |Merged(s, maxGap, instant).value|
    ensures TitleSources(Merged(s, maxGap, instant).value, SortByStart(s, instant), c, ps, instant)
  {
    c := MergedRuns(s, maxGap, instant);
    ps := RunTitles(Merged(s, maxGap, instant).value, SortByStart(s, instant), c, instant);
  }

  //
  // The merge pass
  //

  /** Merging one event gives that event back. */
  lemma MergeSingle(e: Event, maxGap: real, instant: Clock)
    requires Timed(e, instant)
    ensures Merged([e], maxGap, instant) == Ok([e])
  {
    assert [e][1..] == [];
  }

  /** The events the sort puts first are the input events. */
  lemma SortedMembers(s: seq<Event>, instant: Clock)
    ensures forall e :: e in SortByStart(s, instant) <==> e in s
  {
    var sorted := SortByStart(s, instant);
    Sorting.SortPermutes(s, StartLe(instant));
    forall e ensures e in sorted <==> e in s {
      assert e in sorted <==> e in multiset(sorted);
      assert e in s <==> e in multiset(s);
    }
  }

  /**
   * Each merged event keeps the origin of an input event and, for
   * non-negative durations, at least its duration.
   */
  lemma MergeOrigins(s: seq<Event>, maxGap: real, instant: Clock, grow: bool)
    requires grow ==> NonNegative(s)
    requires Merged(s, maxGap, instant).Ok?
    ensures DescendsFrom(Merged(s, maxGap, instant).value, s, grow)
  {
    if s != [] {
      var sorted := SortByStart(s, instant);
      SortedMembers(s, instant);
      assert sorted == [sorted[0]] + sorted[1..];
      assert forall e :: e in sorted[1..] ==> e in sorted;
      WalkOrigins(sorted[0], sorted[1..], maxGap, instant, grow);
    }
  }

  /** Merging fails only on a missing or unparseable timestamp, or a title write into a missing `data`. */
  lemma MergeSucceeds(s: seq<Event>, maxGap: real, instant: Clock)
    requires forall e :: e in s ==> Timed(e, instant) && e.data.Some?
    ensures Merged(s, maxGap, instant).Ok?
  {
    if s != [] {
      var sorted := SortByStart(s, instant);
      SortedMembers(s, instant);
      assert sorted[0] in sorted;
      assert forall e :: e in sorted[1..] ==> e in sorted;
      WalkSucceeds(sorted[0], sorted[1..], maxGap, instant);
    }
  }

  /** The merged list is in start order, and no two adjacent events may merge. */
  lemma MergeOutputShape(s: seq<Event>, maxGap: real, instant: Clock)
    requires Merged(s, maxGap, instant).Ok?
    ensures var w := Merged(s, maxGap, instant).value;
      && Sorting.Chained(w, StartLe(instant))
      && forall i :: 0 <= i < |w| - 1 ==>
           App(w[i]) != App(w[i + 1]) || Gap(w[i], w[i + 1], instant) < 0.0 || Gap(w[i], w[i + 1], instant) > maxGap
  {
    if s != [] {
      var le := StartLe(instant);
      var sorted := SortByStart(s, instant);
      assert Sorting.TotalPreorder(le);
      Sorting.SortSorted(s, le);
      assert Sorting.Chained(sorted[1..], le) by {
        forall i | 0 <= i < |sorted[1..]| - 1 ensures le(sorted[1..][i], sorted[1..][i + 1]) {
          assert le(sorted[i + 1], sorted[i + 2]);
        }
      }
      if |sorted| > 1 { assert le(sorted[0], sorted[1]); }
      WalkChained(sorted[0], sorted[1..], maxGap, instant);
      WalkNoMergeablePair(sorted[0], sorted[1..], maxGap, instant);
    }
  }

  /** Merging an already merged list with the same maximum gap changes nothing. */
  lemma MergeFixedPoint(s: seq<Event>, maxGap: real, instant: Clock)
    requires Merged(s, maxGap, instant).Ok?
    ensures Merged(Merged(s, maxGap, instant).value, maxGap, instant) == Merged(s, maxGap, instant)
  {
    var w := Merged(s, maxGap, instant).value;
    if s != [] {
      MergeOutputShape(s, maxGap, instant);
      var sorted := SortByStart(s, instant);
      Sorting.SortPermutes(s, StartLe(instant));
      assert w == Walk(sorted[0], sorted[1..], maxGap, instant);
      assert sorted == [sorted[0]] + sorted[1..];
      assert forall e :: e in sorted ==> e in s by {
        forall e | e in sorted ensures e in s {
          assert e in multiset(sorted);
        }
      }
      WalkOriginsTimed(sorted[0], sorted[1..], maxGap, instant);
      assert KeyFailure(w, instant).None?;
      Sorting.SortOfChained(w, StartLe(instant));
      WalkOfUnmergeable(w, maxGap, instant);
    }
  }

  /** Every emitted event has the timestamp of a walked event. */
  lemma {:induction false} WalkOriginsTimed(cur: Event, rest: seq<Event>, maxGap: real, instant: Clock)
    requires Timed(cur, instant) && forall e :: e in rest ==> Timed(e, instant)
    ensures forall o :: o in Walk(cur, rest, maxGap, instant) ==> Timed(o, instant)
    decreases |rest|
  {
    if rest != [] {
      assert forall e :: e in rest[1..] ==> e in rest;
      if Mergeable(cur, rest[0], maxGap, instant) {
        AbsorbFacts(cur, rest[0], instant);
        WalkOriginsTimed(Absorb(cur, rest[0], instant), rest[1..], maxGap, instant);
      } else {
        WalkOriginsTimed(rest[0], rest[1..], maxGap, instant);
      }
    }
  }

  /** One merge step of the walk: `cur` absorbs the next event, and the walk goes on from there. */
  lemma WalkAbsorbs(cur: Event, rest: seq<Event>, maxGap: real, instant: Clock)
    requires rest != [] && Mergeable(cur, rest[0], maxGap, instant) && !AbsorbRaises(cur, rest[0])
    ensures Walk(cur, rest, maxGap, instant) == Walk(Absorb(cur, rest[0], instant), rest[1..], maxGap, instant)
    ensures WalkRaises(cur, rest, maxGap, instant) == WalkRaises(Absorb(cur, rest[0], instant), rest[1..], maxGap, instant)
  {
  }

  /** A merge step whose title write raises makes the walk raise. */
  lemma WalkAbsorbRaises(cur: Event, rest: seq<Event>, maxGap: real, instant: Clock)
    requires rest != [] && Mergeable(cur, rest[0], maxGap, instant) && AbsorbRaises(cur, rest[0])
    ensures WalkRaises(cur, rest, maxGap, instant)
  {
  }

  /** One emitting step of the walk: `cur` is emitted and the walk goes on from the next event. */
  lemma WalkEmits(cur: Event, rest: seq<Event>, maxGap: real, instant: Clock)
    requires rest != [] && !Mergeable(cur, rest[0], maxGap, instant)
    ensures Walk(cur, rest, maxGap, instant) == [cur] + Walk(rest[0], rest[1..], maxGap, instant)
    ensures WalkRaises(cur, rest, maxGap, instant) == WalkRaises(rest[0], rest[1..], maxGap, instant)
  {
  }

  /** The gap and the merged duration as the loop computes them, from ends and starts in seconds. */
  lemma EndpointArithmetic(cur: Event, nxt: Event, instant: Clock)
    ensures Seconds(Start(nxt, instant)) - (Seconds(Start(cur, instant)) + Dur(cur)) == Gap(cur, nxt, instant)
    ensures Seconds(Start(nxt, instant)) + Dur(nxt) - Seconds(Start(cur, instant))
         == Seconds(Start(nxt, instant) - Start(cur, instant)) + Dur(nxt)
  {
  }

  /** The merge step of the loop: `current` takes the end of `next` and, when it is longer, its title. */
  method AbsorbNext(current: Event, next: Event, instant: Clock) returns (r: Result<Event, Error>)
    ensures r == if AbsorbRaises(current, next) then Err(MissingData) else Ok(Absorb(current, next, instant))
  {
    EndpointArithmetic(current, next, instant);
    var currentStart := Seconds(Start(current, instant));
    var nextEnd := Seconds(Start(next, instant)) + Dur(next);
    var absorbed := current.(duration := Some(nextEnd - currentStart));
    var nextTitle := Title(next);
    if |nextTitle| > |Title(current)| {
      if current.data.None? {
        return Err(MissingData);
      }
      absorbed := absorbed.(data := Some(current.data.value["title" := nextTitle]));
    }
    return Ok(absorbed);
  }

  /**
   * The loop of `merge_consecutive_events`. The sort raises at the first event
   * whose timestamp is missing or not an instant; the title write raises when
   * `current` has no `data`.
   */
  method MergeConsecutiveEvents(events: seq<Event>, maxGap: real, instant: Clock) returns (r: Result<seq<Event>, Error>)
    ensures r == Merged(events, maxGap, instant)
  {
    if events == [] {
      return Ok([]);
    }
    var failure := KeyFailure(events, instant);
    if failure.Some? {
      return Err(failure.value);
    }
    var sorted := SortByStart(events, instant);
    ghost var walk := Walk(sorted[0], sorted[1..], maxGap, instant);
    ghost var raises := WalkRaises(sorted[0], sorted[1..], maxGap, instant);
    var merged: seq<Event> := [];
    var current := sorted[0];
    var i := 1;
    while i < |sorted|
      invariant 1 <= i <= |sorted|
      invariant merged + Walk(current, sorted[i..], maxGap, instant) == walk
      invariant WalkRaises(current, sorted[i..], maxGap, instant) == raises
    {
      var next := sorted[i];
      ghost var rest := sorted[i..];
      assert rest[0] == next && rest[1..] == sorted[i + 1..];
      var currentStart := Seconds(Start(current, instant));
      var currentEnd := currentStart + Dur(current);
      var nextStart := Seconds(Start(next, instant));
      var gap := nextStart - currentEnd;
      EndpointArithmetic(current, next, instant);
      if App(current) == App(next) && 0.0 <= gap <= maxGap {
        assert Mergeable(current, next, maxGap, instant);
        var absorbed := AbsorbNext(current, next, instant);
        if absorbed.Err? {
          WalkAbsorbRaises(current, rest, maxGap, instant);
          return Err(MissingData);
        }
        WalkAbsorbs(current, rest, maxGap, instant);
        current := absorbed.value;
      } else {
        assert !Mergeable(current, next, maxGap, instant);
        WalkEmits(current, rest, maxGap, instant);
        assert merged + [current] + Walk(next, rest[1..], maxGap, instant) == merged + ([current] + Walk(next, rest[1..], maxGap, instant));
        merged := merged + [current];
        current := next;
      }
      i := i + 1;
    }
    assert sorted[i..] == [];
    return Ok(merged + [current]);
  }

  //
  // The cases the tests in tests/test_aw_clean.py pin down
  //

  /** 60 s, a 15 s gap and 45 s of the same app merge into 120 s; the equally long title stays. */
  lemma ExampleGapAbsorbed(e1: Event, e2: Event, instant: Clock)
    requires e1.timestamp == Some("2025-06-01T10:00:00.000000+00:00") && e1.duration == Some(60.0)
    requires e2.timestamp == Some("2025-06-01T10:01:15.000000+00:00") && e2.duration == Some(45.0)
    requires e1.data == Some(map["app" := "TestApp", "title" := "Window 1"])
    requires e2.data == Some(map["app" := "TestApp", "title" := "Window 2"])
    requires instant("2025-06-01T10:00:00.000000+00:00") == Some(0)
    requires instant("2025-06-01T10:01:15.000000+00:00") == Some(75000000)
    ensures Merged([e1, e2], 30.0, instant) == Ok([e1.(duration := Some(120.0))])
  {
    var le := StartLe(instant);
    assert Start(e1, instant) == 0 && Start(e2, instant) == 75000000;
    assert Sorting.Insert(e2, [], le) == [e2];
    assert Sorting.Sort([e2], le) == [e2] by { assert [e2][1..] == []; }
    assert SortByStart([e1, e2], instant) == [e1, e2] by {
      assert [e1, e2][1..] == [e2];
      assert le(e1, e2);
    }
    assert KeyFailure([e1, e2], instant) == None;
    assert App(e1) == App(e2);
    assert Gap(e1, e2, instant) == 15.0;
    assert [e1, e2][1..] == [e2] && [e2][1..] == [];
    assert !AbsorbRaises(e1, e2);
    assert Absorb(e1, e2, instant) == e1.(duration := Some(120.0));
    assert Walk(e1, [e2], 30.0, instant) == [e1.(duration := Some(120.0))];
    assert !WalkRaises(e1, [e2], 30.0, instant);
  }

  /** 300 s, a 0.5 s gap and 25 s merge into 325.5 s. */
  lemma ExampleHalfSecondGap(e1: Event, e2: Event, instant: Clock)
    requires e1.timestamp == Some("2025-06-01T09:00:00.000000+00:00") && e1.duration == Some(300.0)
    requires e2.timestamp == Some("2025-06-01T09:05:00.500000+00:00") && e2.duration == Some(25.0)
    requires e1.data == Some(map["app" := "Code", "title" := "main.py"])
    requires e2.data == Some(map["app" := "Code", "title" := "main.py"])
    requires instant("2025-06-01T09:00:00.000000+00:00") == Some(0)
    requires instant("2025-06-01T09:05:00.500000+00:00") == Some(300500000)
    ensures Merged([e1, e2], 30.0, instant) == Ok([e1.(duration := Some(325.5))])
  {
    var le := StartLe(instant);
    assert Start(e1, instant) == 0 && Start(e2, instant) == 300500000;
    assert Sorting.Sort([e2], le) == [e2] by { assert [e2][1..] == []; }
    assert SortByStart([e1, e2], instant) == [e1, e2] by {
      assert [e1, e2][1..] == [e2];
      assert le(e1, e2);
    }
    assert KeyFailure([e1, e2], instant) == None;
    assert App(e1) == App(e2);
    assert Gap(e1, e2, instant) == 0.5;
    assert [e1, e2][1..] == [e2] && [e2][1..] == [];
    assert !AbsorbRaises(e1, e2);
    assert Absorb(e1, e2, instant) == e1.(duration := Some(325.5));
    assert Walk(e1, [e2], 30.0, instant) == [e1.(duration := Some(325.5))];
    assert !WalkRaises(e1, [e2], 30.0, instant);
  }

  /** Overlapping events of the same app (a negative gap) are not merged. */
  lemma OverlapNotMerged(e1: Event, e2: Event, maxGap: real, instant: Clock)
    requires Start(e1, instant) <= Start(e2, instant)
    requires Gap(e1, e2, instant) < 0.0
    ensures !Mergeable(e1, e2, maxGap, instant)
    ensures Walk(e1, [e2], maxGap, instant) == [e1, e2]
  {
    assert [e2][1..] == [];
  }
}
