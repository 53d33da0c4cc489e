/** Order-preserving filtering over sequences, the shape of every Python list
    comprehension `[r for r in xs if p(r)]` in the service. */
module Seqs {

  /** `a` is obtained from `b` by deleting elements, keeping the order of the rest. */
  ghost predicate IsSubsequence<T>(a: seq<T>, b: seq<T>)
    decreases |b|
  {
    if |a| == 0 then true
    else if |b| == 0 then false
    else (a[0] == b[0] && IsSubsequence(a[1..], b[1..])) || IsSubsequence(a, b[1..])
  }

  /** Every sequence is a subsequence of itself. */
  lemma {:induction false} SubsequenceReflexive<T>(s: seq<T>)
    ensures IsSubsequence(s, s)
    decreases |s|
  {
    if |s| > 0 {
      SubsequenceReflexive(s[1..]);
    }
  }

  /** Whatever a subsequence holds, the whole sequence holds. */
  lemma {:induction false} SubsequenceMembers<T>(a: seq<T>, b: seq<T>)
    requires IsSubsequence(a, b)
    ensures forall x :: x in a ==> x in b
    decreases |b|
  {
    if |a| > 0 {
      if a[0] == b[0] && IsSubsequence(a[1..], b[1..]) {
        SubsequenceMembers(a[1..], b[1..]);
        assert forall x :: x in a ==> x == a[0] || x in a[1..];
      } else {
        SubsequenceMembers(a, b[1..]);
      }
    }
  }

  /** `[x for x in s if p(x)]`. */
  function Filter<T>(s: seq<T>, p: T -> bool): (r: seq<T>)
    ensures IsSubsequence(r, s)
    ensures forall i :: 0 <= i < |r| ==> p(r[i])
    ensures forall i :: 0 <= i < |s| && p(s[i]) ==> s[i] in r
    ensures |r| == 0 <==> forall i :: 0 <= i < |s| ==> !p(s[i])
    ensures |r| <= |s|
    ensures |r| == |s| <==> forall i :: 0 <= i < |s| ==> p(s[i])
    decreases |s|
  {
    if |s| == 0 then []
    else
      var rest := Filter(s[1..], p);
      var r := if p(s[0]) then [s[0]] + rest else rest;
      FilterOrderStep(s, p, rest, r);
      FilterMembersStep(s, p, rest, r);
      FilterLengthStep(s, p, rest, r);
      r
  }

  /** `Filter` keeps each passing element as many times as `s` holds it, and no other. */
  lemma {:induction false} FilterCounts<T(!new)>(s: seq<T>, p: T -> bool)
    ensures forall x :: multiset(Filter(s, p))[x] == (if p(x) then multiset(s)[x] else 0)
    decreases |s|
  {
    if |s| > 0 {
      FilterCounts(s[1..], p);
      FilterCountStep(s, p, Filter(s[1..], p), Filter(s, p));
    }
  }

  /** One step of `Filter` keeps the order: prepending the head of `s` when it passes keeps
      a subsequence of the tail a subsequence of the whole. */
  lemma FilterOrderStep<T>(s: seq<T>, p: T -> bool, rest: seq<T>, r: seq<T>)
    requires |s| > 0 && IsSubsequence(rest, s[1..])
    requires r == if p(s[0]) then [s[0]] + rest else rest
    ensures IsSubsequence(r, s)
  {
    if p(s[0]) {
      assert r[0] == s[0] && r[1..] == rest;
    }
  }

  /** One step of `Filter` keeps exactly the passing elements. */
  lemma FilterMembersStep<T>(s: seq<T>, p: T -> bool, rest: seq<T>, r: seq<T>)
    requires |s| > 0
    requires forall i :: 0 <= i < |rest| ==> p(rest[i])
    requires forall i :: 0 <= i < |s| - 1 && p(s[1..][i]) ==> s[1..][i] in rest
    requires r == if p(s[0]) then [s[0]] + rest else rest
    ensures forall i :: 0 <= i < |r| ==> p(r[i])
    ensures forall i :: 0 <= i < |s| && p(s[i]) ==> s[i] in r
  {
    assert forall i :: 0 < i < |s| ==> s[i] == s[1..][i - 1];
  }

  /** One step of `Filter` keeps its length right: the result is empty exactly when nothing
      passes, and nothing is dropped exactly when everything passes. */
  lemma FilterLengthStep<T>(s: seq<T>, p: T -> bool, rest: seq<T>, r: seq<T>)
    requires |s| > 0 && |rest| <= |s| - 1
    requires |rest| == 0 <==> forall i :: 0 <= i < |s| - 1 ==> !p(s[1..][i])
    requires |rest| == |s| - 1 <==> forall i :: 0 <= i < |s| - 1 ==> p(s[1..][i])
    requires r == if p(s[0]) then [s[0]] + rest else rest
    ensures |r| <= |s|
    ensures |r| == 0 <==> forall i :: 0 <= i < |s| ==> !p(s[i])
    ensures |r| == |s| <==> forall i :: 0 <= i < |s| ==> p(s[i])
  {
    assert forall i :: 0 < i < |s| ==> s[i] == s[1..][i - 1];
  }

  /** One step of `Filter` keeps the multiplicities right: if `rest` holds each element of
      `s[1..]` satisfying `p` as often as `s[1..]` does, then so does `r` for `s`. */
  lemma FilterCountStep<T(!new)>(s: seq<T>, p: T -> bool, rest: seq<T>, r: seq<T>)
    requires |s| > 0
    requires forall x :: multiset(rest)[x] == (if p(x) then multiset(s[1..])[x] else 0)
    requires r == if p(s[0]) then [s[0]] + rest else rest
    ensures forall x :: multiset(r)[x] == (if p(x) then multiset(s)[x] else 0)
  {
    assert s == [s[0]] + s[1..];
    assert multiset(s) == multiset{s[0]} + multiset(s[1..]);
    if p(s[0]) {
      assert multiset(r) == multiset{s[0]} + multiset(rest);
    }
  }

  /** Two filters in a row keep exactly what one filter on the conjunction keeps. */
  lemma {:induction false} FilterFuse<T>(s: seq<T>, p: T -> bool, q: T -> bool, pq: T -> bool)
    requires forall i :: 0 <= i < |s| ==> pq(s[i]) == (p(s[i]) && q(s[i]))
    ensures Filter(Filter(s, p), q) == Filter(s, pq)
    decreases |s|
  {
    if |s| > 0 {
      FilterFuse(s[1..], p, q, pq);
      if p(s[0]) {
        assert Filter(s, p) == [s[0]] + Filter(s[1..], p);
        assert ([s[0]] + Filter(s[1..], p))[1..] == Filter(s[1..], p);
      }
    }
  }

  /** Filtering a sequence with a given first element. */
  lemma FilterCons<T>(x: T, s: seq<T>, p: T -> bool)
    ensures Filter([x] + s, p) == (if p(x) then [x] else []) + Filter(s, p)
  {
    assert ([x] + s)[1..] == s;
  }

  /** A filter whose condition holds of every element returns its input unchanged. */
  lemma {:induction false} FilterAll<T>(s: seq<T>, p: T -> bool)
    requires forall i :: 0 <= i < |s| ==> p(s[i])
    ensures Filter(s, p) == s
    decreases |s|
  {
    if |s| > 0 {
      FilterAll(s[1..], p);
      assert [s[0]] + s[1..] == s;
    }
  }

  /** Filters with conditions that agree on every element of `s` give the same result. */
  lemma {:induction false} FilterCongruent<T>(s: seq<T>, p: T -> bool, q: T -> bool)
    requires forall i :: 0 <= i < |s| ==> p(s[i]) == q(s[i])
    ensures Filter(s, p) == Filter(s, q)
    decreases |s|
  {
    if |s| > 0 {
      FilterCongruent(s[1..], p, q);
    }
  }

  /** The set of distinct elements of `s`, Python's `set(s)`. */
  function Elements<T>(s: seq<T>): (e: set<T>)
    ensures forall i :: 0 <= i < |s| ==> s[i] in e
    ensures forall x :: x in e ==> x in s
  {
    if |s| == 0 then {}
    else
      assert forall i :: 0 < i < |s| ==> s[i] == s[1..][i - 1];
      {s[0]} + Elements(s[1..])
  }

  /** `len(set(s)) <= len(s)`: there are never more distinct elements than elements. */
  lemma {:induction false} ElementsBound<T>(s: seq<T>)
    ensures |Elements(s)| <= |s|
    decreases |s|
  {
    if |s| > 0 {
      ElementsBound(s[1..]);
      assert |{s[0]} + Elements(s[1..])| <= |{s[0]}| + |Elements(s[1..])|;
    }
  }

  /** The distinct elements of a concatenation are those of either part. */
  lemma ElementsConcat<T>(a: seq<T>, b: seq<T>)
    ensures Elements(a + b) == Elements(a) + Elements(b)
  {
    var e := Elements(a + b);
    forall x | x in Elements(a) ensures x in e {
      var i :| 0 <= i < |a| && a[i] == x;
      assert (a + b)[i] == x;
    }
    forall x | x in Elements(b) ensures x in e {
      var i :| 0 <= i < |b| && b[i] == x;
      assert (a + b)[|a| + i] == x;
    }
  }
}
