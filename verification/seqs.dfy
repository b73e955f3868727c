/** Order-preserving filtering and first-match search over sequences: the
    Kotlin collection operations `filter`, `find` and `any` used throughout
    the app, with their meaning stated once. */
module Seqs {
  import opened Wrappers

  /** Kotlin `s.filter(p)`: the elements satisfying `p`, in their original order. */
  function Filter<T>(s: seq<T>, p: T -> bool): (r: seq<T>)
    ensures |r| <= |s|
    ensures forall i :: 0 <= i < |r| ==> r[i] in s && p(r[i])
    ensures forall i :: 0 <= i < |s| && p(s[i]) ==> s[i] in r
  {
    if |s| == 0 then []
    else if p(s[0]) then [s[0]] + Filter(s[1..], p)
    else Filter(s[1..], p)
  }

  /** `Filter` keeps every occurrence of a satisfying element and no other:
      each element occurs in the result as often as in the input when it
      satisfies `p`, and not at all otherwise. */
  lemma {:induction false} FilterCounts<T>(s: seq<T>, p: T -> bool)
    ensures multiset(Filter(s, p)) <= multiset(s)
    ensures forall i :: 0 <= i < |s| ==> multiset(Filter(s, p))[s[i]] == (if p(s[i]) then multiset(s)[s[i]] else 0)
  {
    if |s| > 0 {
      FilterCounts(s[1..], p);
      assert s == [s[0]] + s[1..];
      forall i | 0 <= i < |s|
        ensures multiset(Filter(s, p))[s[i]] == (if p(s[i]) then multiset(s)[s[i]] else 0)
      {
        if s[i] !in s[1..] {
          assert multiset(s[1..])[s[i]] == 0;
          assert multiset(Filter(s[1..], p))[s[i]] == 0;
        } else {
          var k :| 0 <= k < |s[1..]| && s[1..][k] == s[i];
        }
      }
    }
  }

  /** Kotlin `s.any(p)`. */
  function Any<T>(s: seq<T>, p: T -> bool): (r: bool)
    ensures r <==> exists i :: 0 <= i < |s| && p(s[i])
  {
    if |s| == 0 then false
    else p(s[0]) || Any(s[1..], p)
  }

  /** Kotlin `indexOfFirst(p)`, with `None` for -1. */
  function FindIndex<T>(s: seq<T>, p: T -> bool): (r: Option<nat>)
    ensures r.Some? ==> r.value < |s| && p(s[r.value])
    ensures r.Some? ==> forall j :: 0 <= j < r.value ==> !p(s[j])
    ensures r.None? ==> forall j :: 0 <= j < |s| ==> !p(s[j])
  {
    if |s| == 0 then None
    else if p(s[0]) then Some(0)
    else
      match FindIndex(s[1..], p)
      case None => None
      case Some(k) => Some(k + 1)
  }

  /** Kotlin `s.find(p)`: the first element satisfying `p`, if any. */
  function Find<T>(s: seq<T>, p: T -> bool): (r: Option<T>)
    ensures r.Some? ==> exists i :: (0 <= i < |s| && s[i] == r.value && p(s[i])
                                     && forall j :: 0 <= j < i ==> !p(s[j]))
    ensures r.None? ==> forall i :: 0 <= i < |s| ==> !p(s[i])
  {
    match FindIndex(s, p)
    case None => None
    case Some(i) => Some(s[i])
  }

  /** The element at the first index satisfying `p` is what `Find` returns. */
  lemma FindIsFirst<T>(s: seq<T>, p: T -> bool, i: nat)
    requires i < |s| && p(s[i])
    requires forall j :: 0 <= j < i ==> !p(s[j])
    ensures Find(s, p) == Some(s[i])
  {
  }

  /** Appending never changes a match already found in the prefix. */
  lemma {:induction false} FindAppend<T>(a: seq<T>, b: seq<T>, p: T -> bool)
    ensures Find(a, p).Some? ==> Find(a + b, p) == Find(a, p)
    ensures Find(a, p).None? ==> Find(a + b, p) == Find(b, p)
  {
    if Find(a, p).Some? {
      var i :| 0 <= i < |a| && a[i] == Find(a, p).value && p(a[i]) && forall j :: 0 <= j < i ==> !p(a[j]);
      assert (a + b)[i] == a[i];
      FindIsFirst(a + b, p, i);
    } else if Find(b, p).Some? {
      var i :| 0 <= i < |b| && b[i] == Find(b, p).value && p(b[i]) && forall j :: 0 <= j < i ==> !p(b[j]);
      assert (a + b)[|a| + i] == b[i];
      assert forall j :: 0 <= j < |a| + i ==> !p((a + b)[j]) by {
        forall j | 0 <= j < |a| + i ensures !p((a + b)[j]) {
          if j < |a| { assert (a + b)[j] == a[j]; } else { assert (a + b)[j] == b[j - |a|]; }
        }
      }
      FindIsFirst(a + b, p, |a| + i);
    } else {
      assert forall j :: 0 <= j < |a + b| ==> !p((a + b)[j]) by {
        forall j | 0 <= j < |a + b| ensures !p((a + b)[j]) {
          if j < |a| { assert (a + b)[j] == a[j]; } else { assert (a + b)[j] == b[j - |a|]; }
        }
      }
    }
  }

  /** `a` can be obtained from `b` by deleting elements (order is kept). */
  ghost predicate IsSubsequence<T>(a: seq<T>, b: seq<T>)
    decreases |b|
  {
    if |a| == 0 then true
    else if |b| == 0 then false
    else (a[0] == b[0] && IsSubsequence(a[1..], b[1..])) || IsSubsequence(a, b[1..])
  }

  /** Filtering keeps the original relative order. */
  lemma {:induction false} FilterIsSubsequence<T>(s: seq<T>, p: T -> bool)
    ensures IsSubsequence(Filter(s, p), s)
  {
    if |s| > 0 {
      FilterIsSubsequence(s[1..], p);
      var r := Filter(s, p);
      if p(s[0]) {
        assert r[0] == s[0] && r[1..] == Filter(s[1..], p);
      }
    }
  }

  /** A filter every element passes returns the sequence unchanged. */
  lemma {:induction false} FilterAll<T>(s: seq<T>, p: T -> bool)
    requires forall i :: 0 <= i < |s| ==> p(s[i])
    ensures Filter(s, p) == s
  {
    if |s| > 0 {
      FilterAll(s[1..], p);
      assert [s[0]] + s[1..] == s;
    }
  }

  /** Two filters that agree on the elements of `s` select the same elements. */
  lemma {:induction false} FilterExtensional<T>(s: seq<T>, p: T -> bool, q: T -> bool)
    requires forall i :: 0 <= i < |s| ==> (p(s[i]) <==> q(s[i]))
    ensures Filter(s, p) == Filter(s, q)
  {
    if |s| > 0 {
      FilterExtensional(s[1..], p, q);
    }
  }

  /** A stronger filter selects a subsequence of what a weaker one selects. */
  lemma {:induction false} FilterNarrows<T>(s: seq<T>, p: T -> bool, q: T -> bool)
    requires forall i :: 0 <= i < |s| ==> (p(s[i]) ==> q(s[i]))
    ensures IsSubsequence(Filter(s, p), Filter(s, q))
  {
    if |s| > 0 {
      FilterNarrows(s[1..], p, q);
      var a, b := Filter(s, p), Filter(s, q);
      if p(s[0]) {
        assert a[0] == s[0] && a[1..] == Filter(s[1..], p);
        assert b[0] == s[0] && b[1..] == Filter(s[1..], q);
      } else if q(s[0]) {
        assert b[1..] == Filter(s[1..], q);
      }
    }
  }
}
