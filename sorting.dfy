/**
 * Python's `sorted` (and `sorted(..., reverse=True)`) as a stable insertion
 * sort over an ordering relation `le`: an element that comes earlier in the
 * input stays before every later element it ties with.
 */
module Sorting {

  /** `le` is total and transitive: the ordering a sort key induces. */
  ghost predicate TotalPreorder<T(!new)>(le: (T, T) -> bool)
  {
    && (forall a, b :: le(a, b) || le(b, a))
    && (forall a, b, c :: le(a, b) && le(b, c) ==> le(a, c))
  }

  /** Every element is `le` every later element. */
  predicate Sorted<T>(s: seq<T>, le: (T, T) -> bool)
  {
    forall i, j :: 0 <= i < j < |s| ==> le(s[i], s[j])
  }

  /** Every element is `le` its successor. */
  predicate Chained<T>(s: seq<T>, le: (T, T) -> bool)
  {
    forall i :: 0 <= i < |s| - 1 ==> le(s[i], s[i + 1])
  }

  /** Puts `x` in front of the first element it is `le`. */
  function Insert<T>(x: T, s: seq<T>, le: (T, T) -> bool): (r: seq<T>)
    ensures |r| == |s| + 1
  {
    if s == [] || le(x, s[0]) then [x] + s
    else
      assert s == [s[0]] + s[1..];
      [s[0]] + Insert(x, s[1..], le)
  }

  /** The stable sort: each element is inserted into the sorted rest of the input. */
  function Sort<T>(s: seq<T>, le: (T, T) -> bool): (r: seq<T>)
    ensures |r| == |s|
  {
    if s == [] then []
    else
      assert s == [s[0]] + s[1..];
      Insert(s[0], Sort(s[1..], le), le)
  }

  /** Inserting adds `x` and loses nothing. */
  lemma {:induction false} InsertPermutes<T>(x: T, s: seq<T>, le: (T, T) -> bool)
    ensures multiset(Insert(x, s, le)) == multiset(s) + multiset{x}
  {
    if s != [] && !le(x, s[0]) {
      InsertPermutes(x, s[1..], le);
      assert s == [s[0]] + s[1..];
    }
  }

  /** The sort's output is a permutation of its input. */
  lemma {:induction false} SortPermutes<T>(s: seq<T>, le: (T, T) -> bool)
    ensures multiset(Sort(s, le)) == multiset(s)
  {
    if s != [] {
      SortPermutes(s[1..], le);
      InsertPermutes(s[0], Sort(s[1..], le), le);
      assert s == [s[0]] + s[1..];
    }
  }

  lemma {:induction false} InsertSorted<T(!new)>(x: T, s: seq<T>, le: (T, T) -> bool)
    requires TotalPreorder(le)
    requires Sorted(s, le)
    ensures Sorted(Insert(x, s, le), le)
  {
    if s == [] || le(x, s[0]) {
    } else {
      var t := Insert(x, s[1..], le);
      InsertSorted(x, s[1..], le);
      InsertPermutes(x, s[1..], le);
      forall j | 0 <= j < |t| ensures le(s[0], t[j]) {
        assert t[j] in multiset(t);
        assert t[j] in multiset(s[1..]) + multiset{x};
        if t[j] in multiset(s[1..]) {
          var k :| 0 <= k < |s[1..]| && s[1..][k] == t[j];
          assert s[k + 1] == t[j];
        }
      }
    }
  }

  /** The sort's output is ordered. */
  lemma {:induction false} SortSorted<T(!new)>(s: seq<T>, le: (T, T) -> bool)
    requires TotalPreorder(le)
    ensures Sorted(Sort(s, le), le)
  {
    if s != [] {
      SortSorted(s[1..], le);
      InsertSorted(s[0], Sort(s[1..], le), le);
    }
  }

  /** Sorting an ordered sequence changes nothing (stability on ties). */
  lemma {:induction false} SortOfChained<T>(s: seq<T>, le: (T, T) -> bool)
    requires Chained(s, le)
    ensures Sort(s, le) == s
  {
    if s != [] {
      assert Chained(s[1..], le);
      SortOfChained(s[1..], le);
      assert s == [s[0]] + s[1..];
    }
  }

  /**
   * The first `n` elements of the sorted sequence (`sorted(s)[:n]`): in
   * order, drawn from the input, and no element left out goes before one kept.
   */
  lemma TakeSorted<T(!new)>(s: seq<T>, le: (T, T) -> bool, n: int)
    requires TotalPreorder(le)
    ensures var r := Take(Sort(s, le), n);
      && Sorted(r, le)
      && multiset(r) <= multiset(s)
      && forall x :: multiset(r)[x] < multiset(s)[x] ==> forall i :: 0 <= i < |r| ==> le(r[i], x)
  {
    var sorted := Sort(s, le);
    SortSorted(s, le);
    SortPermutes(s, le);
    PrefixOfSorted(sorted, le, |Take(sorted, n)|);
  }

  /** A prefix of an ordered sequence is ordered, and goes before every element after it. */
  lemma PrefixOfSorted<T>(s: seq<T>, le: (T, T) -> bool, k: nat)
    requires Sorted(s, le) && k <= |s|
    ensures Sorted(s[..k], le)
    ensures multiset(s[..k]) <= multiset(s)
    ensures forall x :: multiset(s[..k])[x] < multiset(s)[x] ==> forall i :: 0 <= i < k ==> le(s[i], x)
  {
    assert s == s[..k] + s[k..];
    forall x | multiset(s[..k])[x] < multiset(s)[x] ensures forall i :: 0 <= i < k ==> le(s[i], x) {
      assert x in multiset(s[k..]);
      var j :| 0 <= j < |s[k..]| && s[k..][j] == x;
      assert s[k + j] == x;
    }
  }

  /** Python's slice `s[:n]`; a negative `n` drops `-n` elements from the end. */
  function Take<T>(s: seq<T>, n: int): (r: seq<T>)
    ensures n >= 0 ==> |r| == (if n < |s| then n else |s|)
    ensures n < 0 ==> |r| == (if |s| + n < 0 then 0 else |s| + n)
    ensures r == s[..|r|]
  {
    if n >= 0 then (if n < |s| then s[..n] else s)
    else if |s| + n < 0 then [] else s[..|s| + n]
  }
}
