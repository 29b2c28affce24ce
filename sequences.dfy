/**
 * The array operations the selectors use (`filter`, `find`) over Dafny
 * sequences, with what they promise proved once.
 */
module Sequences {
  import opened Wrappers

  /** `a` is `b` with some elements removed, order kept. */
  predicate IsSubsequence<T(==)>(a: seq<T>, b: seq<T>)
    decreases |b|
  {
    if a == [] then true
    else if b == [] then false
    else (a[0] == b[0] && IsSubsequence(a[1..], b[1..])) || IsSubsequence(a, b[1..])
  }

  /** Removing elements twice is removing elements once. */
  lemma {:induction false} SubsequenceTransitive<T>(a: seq<T>, b: seq<T>, c: seq<T>)
    requires IsSubsequence(a, b) && IsSubsequence(b, c)
    ensures IsSubsequence(a, c)
    decreases |c|
  {
    if a == [] {
    } else if a[0] == b[0] && IsSubsequence(a[1..], b[1..]) {
      if b[0] == c[0] && IsSubsequence(b[1..], c[1..]) {
        SubsequenceTransitive(a[1..], b[1..], c[1..]);
      } else {
        SubsequenceTransitive(a, b, c[1..]);
      }
    } else {
      if b[0] == c[0] && IsSubsequence(b[1..], c[1..]) {
        SubsequenceTransitive(a, b[1..], c[1..]);
      } else {
        SubsequenceTransitive(a, b, c[1..]);
      }
    }
  }

  /** A subsequence is never longer than the sequence. */
  lemma {:induction false} SubsequenceLength<T>(a: seq<T>, b: seq<T>)
    requires IsSubsequence(a, b)
    ensures |a| <= |b|
    decreases |b|
  {
    if a != [] {
      if a[0] == b[0] && IsSubsequence(a[1..], b[1..]) {
        SubsequenceLength(a[1..], b[1..]);
      } else {
        SubsequenceLength(a, b[1..]);
      }
    }
  }

  /**
   * `Array.prototype.filter`: the elements of `s` that satisfy `p`, in order.
   * The first element kept is the first element of `s` that satisfies `p`.
   */
  function Filter<T(!new)>(s: seq<T>, p: T -> bool): (r: seq<T>)
    ensures IsSubsequence(r, s)
    ensures forall k :: 0 <= k < |r| ==> p(r[k])
    ensures forall k :: 0 <= k < |s| && p(s[k]) ==> s[k] in r
    ensures forall x {:trigger multiset(r)[x]} :: multiset(r)[x] == if p(x) then multiset(s)[x] else 0
    ensures |r| == 0 <==> forall k :: 0 <= k < |s| ==> !p(s[k])
    ensures |r| > 0 ==> exists k :: 0 <= k < |s| && s[k] == r[0] && p(s[k]) && forall j :: 0 <= j < k ==> !p(s[j])
  {
    if s == [] then []
    else
      var rest := Filter(s[1..], p);
      var r := if p(s[0]) then [s[0]] + rest else rest;
      FilterCountsStep(s, p, rest, r);
      CountsGiveMembers(s, p, r);
      if p(s[0]) then
        assert r[1..] == rest;
        assert IsSubsequence(r, s);
        assert forall k :: 0 <= k < |r| ==> p(r[k]) by {
          forall k | 0 <= k < |r| ensures p(r[k]) {
            if k > 0 { assert r[k] == rest[k - 1]; }
          }
        }
        assert s[0] == r[0];
        r
      else
        assert |rest| > 0 ==> exists k :: 0 <= k < |s| && s[k] == rest[0] && p(s[k]) && forall j :: 0 <= j < k ==> !p(s[j]) by {
          if |rest| > 0 {
            var k :| 0 <= k < |s[1..]| && s[1..][k] == rest[0] && p(s[1..][k]) && forall j :: 0 <= j < k ==> !p(s[1..][j]);
            assert s[k + 1] == rest[0] && forall j :: 0 <= j < k + 1 ==> !p(s[j]);
          }
        }
        r
  }

  /** A sequence holding every passing element as often as `s` does holds each passing element of `s`, and is empty only when none passes. */
  lemma CountsGiveMembers<T(!new)>(s: seq<T>, p: T -> bool, r: seq<T>)
    requires forall x {:trigger multiset(r)[x]} :: multiset(r)[x] == if p(x) then multiset(s)[x] else 0
    ensures forall k :: 0 <= k < |s| && p(s[k]) ==> s[k] in r
    ensures |r| == 0 <==> forall k :: 0 <= k < |s| ==> !p(s[k])
  {
    forall k | 0 <= k < |s| && p(s[k]) ensures s[k] in r {
      assert s[k] in multiset(s);
      assert multiset(r)[s[k]] == multiset(s)[s[k]];
    }
    if |r| > 0 {
      assert r[0] in multiset(r);
      assert multiset(r)[r[0]] > 0;
      assert p(r[0]) && r[0] in multiset(s);
      var k :| 0 <= k < |s| && s[k] == r[0];
    }
  }

  /** One step of filtering keeps the count of every element that passes and drops the rest. */
  lemma FilterCountsStep<T(!new)>(s: seq<T>, p: T -> bool, rest: seq<T>, r: seq<T>)
    requires s != []
    requires forall x {:trigger multiset(rest)[x]} :: multiset(rest)[x] == if p(x) then multiset(s[1..])[x] else 0
    requires r == if p(s[0]) then [s[0]] + rest else rest
    ensures forall x {:trigger multiset(r)[x]} :: multiset(r)[x] == if p(x) then multiset(s)[x] else 0
  {
    assert s == [s[0]] + s[1..];
    forall x ensures multiset(r)[x] == if p(x) then multiset(s)[x] else 0 {
      assert multiset(rest)[x] == if p(x) then multiset(s[1..])[x] else 0;
    }
  }

  /** Filtering a filtered sequence is filtering by both predicates at once. */
  lemma {:induction false} FilterFilter<T(!new)>(s: seq<T>, p: T -> bool, q: T -> bool, both: T -> bool)
    requires forall x :: both(x) == (p(x) && q(x))
    ensures Filter(Filter(s, p), q) == Filter(s, both)
  {
    if s != [] {
      FilterFilter(s[1..], p, q, both);
      if p(s[0]) {
        assert Filter(s, p) == [s[0]] + Filter(s[1..], p);
        assert Filter(s, p)[1..] == Filter(s[1..], p);
      }
    }
  }

  /** `Array.prototype.findIndex`: the first index whose element satisfies `p`. */
  function FindFirst<T>(s: seq<T>, p: T -> bool): (r: Option<nat>)
    ensures r.Some? ==> r.value < |s| && p(s[r.value]) && forall j :: 0 <= j < r.value ==> !p(s[j])
    ensures r.None? ==> forall j :: 0 <= j < |s| ==> !p(s[j])
  {
    if s == [] then None
    else if p(s[0]) then Some(0)
    else match FindFirst(s[1..], p)
      case None => None
      case Some(i) => Some(i + 1)
  }
}
