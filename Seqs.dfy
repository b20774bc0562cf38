/** The array methods of JavaScript that the core relies on (`filter`,
    `findIndex`, `find`, `slice(0, n)`), stated once over sequences. */
module Seqs {

  datatype Option<+T> = None | Some(value: T)

  /** `s.filter(p)`: the elements satisfying `p`, in their original order. */
  function Filter<T>(p: T -> bool, s: seq<T>): (r: seq<T>)
    ensures |r| <= |s|
    ensures forall i :: 0 <= i < |r| ==> r[i] in s && p(r[i])
    ensures forall i :: 0 <= i < |s| && p(s[i]) ==> s[i] in r
  {
    if s == [] then [] else
      var rest := Filter(p, s[..|s| - 1]);
      assert s == s[..|s| - 1] + [s[|s| - 1]];
      if p(s[|s| - 1]) then rest + [s[|s| - 1]] else rest
  }

  lemma {:induction false} FilterMultiset<T>(p: T -> bool, s: seq<T>, x: T)
    ensures multiset(Filter(p, s))[x] == if p(x) then multiset(s)[x] else 0
  {
    if s != [] {
      FilterMultiset(p, s[..|s| - 1], x);
      assert s == s[..|s| - 1] + [s[|s| - 1]];
    }
  }

  /** Filtering a sequence extended by one element. */
  lemma FilterSnoc<T>(p: T -> bool, s: seq<T>, x: T)
    ensures Filter(p, s + [x]) == Filter(p, s) + (if p(x) then [x] else [])
  {
    assert (s + [x])[..|s|] == s;
  }

  lemma {:induction false} FilterAppend<T>(p: T -> bool, s: seq<T>, t: seq<T>)
    ensures Filter(p, s + t) == Filter(p, s) + Filter(p, t)
    decreases |t|
  {
    if t != [] {
      assert (s + t)[..|s + t| - 1] == s + t[..|t| - 1];
      FilterAppend(p, s, t[..|t| - 1]);
    } else {
      assert s + t == s;
    }
  }

  /** Filtering by a predicate that holds of every element changes nothing. */
  lemma {:induction false} FilterAll<T>(p: T -> bool, s: seq<T>)
    requires forall i :: 0 <= i < |s| ==> p(s[i])
    ensures Filter(p, s) == s
  {
    if s != [] {
      FilterAll(p, s[..|s| - 1]);
      assert s == s[..|s| - 1] + [s[|s| - 1]];
    }
  }

  /** Filtering by a predicate that holds of no element leaves nothing. */
  lemma {:induction false} FilterNone<T>(p: T -> bool, s: seq<T>)
    requires forall i :: 0 <= i < |s| ==> !p(s[i])
    ensures Filter(p, s) == []
  {
    if s != [] {
      FilterNone(p, s[..|s| - 1]);
    }
  }

  /** Filters by predicates that exclude one another take at most `|s|`
      elements between them. */
  lemma {:induction false} DisjointFiltersFit<T>(p: T -> bool, q: T -> bool, r: T -> bool, s: seq<T>)
    requires forall i :: 0 <= i < |s| ==> (p(s[i]) ==> !q(s[i]) && !r(s[i])) && (q(s[i]) ==> !r(s[i]))
    ensures |Filter(p, s)| + |Filter(q, s)| + |Filter(r, s)| <= |s|
  {
    if s != [] {
      DisjointFiltersFit(p, q, r, s[..|s| - 1]);
    }
  }

  /** `s.findIndex(p)`: the first index whose element satisfies `p`, or -1. */
  function FindIndex<T>(p: T -> bool, s: seq<T>): (i: int)
    ensures -1 <= i < |s|
    ensures i == -1 <==> forall j :: 0 <= j < |s| ==> !p(s[j])
    ensures 0 <= i ==> p(s[i]) && forall j :: 0 <= j < i ==> !p(s[j])
  {
    if s == [] then -1
    else if p(s[0]) then 0
    else
      var k := FindIndex(p, s[1..]);
      if k == -1 then -1 else k + 1
  }

  /** Two sequences whose elements agree on `p` position by position have
      the same first match. */
  lemma FindIndexSame<T>(p: T -> bool, s: seq<T>, t: seq<T>)
    requires |s| == |t| && forall j :: 0 <= j < |s| ==> p(s[j]) == p(t[j])
    ensures FindIndex(p, t) == FindIndex(p, s)
  {
    var i, k := FindIndex(p, s), FindIndex(p, t);
    if i == -1 {
      assert forall j :: 0 <= j < |t| ==> !p(t[j]);
    } else {
      assert p(t[i]);
    }
  }

  /** Extending a sequence keeps its first match; without one, the new
      element is the first match if it satisfies `p`. */
  lemma FindIndexSnoc<T>(p: T -> bool, s: seq<T>, x: T)
    ensures FindIndex(p, s + [x]) ==
              if FindIndex(p, s) != -1 then FindIndex(p, s) else if p(x) then |s| else -1
  {
    var i, k := FindIndex(p, s), FindIndex(p, s + [x]);
    if i == -1 {
      assert forall j :: 0 <= j < |s| ==> (s + [x])[j] == s[j];
      if p(x) {
        assert p((s + [x])[|s|]);
      } else {
        assert forall j :: 0 <= j < |s + [x]| ==> !p((s + [x])[j]);
      }
    } else {
      assert p((s + [x])[i]);
    }
  }

  /** `s.find(p)`: the first element satisfying `p`, if any. */
  function Find<T>(p: T -> bool, s: seq<T>): (r: Option<T>)
    ensures r.None? <==> forall j :: 0 <= j < |s| ==> !p(s[j])
    ensures r.Some? ==> exists j :: 0 <= j < |s| && s[j] == r.value && p(s[j]) && forall k :: 0 <= k < j ==> !p(s[k])
  {
    var i := FindIndex(p, s);
    if i == -1 then None else Some(s[i])
  }

  /** `s.slice(0, n)`. */
  function Take<T>(s: seq<T>, n: nat): (r: seq<T>)
    ensures |r| == if n < |s| then n else |s|
    ensures r <= s
  {
    if n < |s| then s[..n] else s
  }

  /** A prefix holds each element at most as often as the whole. */
  lemma TakeMultiset<T>(s: seq<T>, n: nat)
    ensures multiset(Take(s, n)) <= multiset(s)
    ensures |s| <= n ==> Take(s, n) == s
  {
    if n < |s| {
      assert s == s[..n] + s[n..];
    }
  }
}
