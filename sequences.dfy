/** Order-preserving filtering, de-duplication and first-match lookup over sequences. */
module Sequences {
  import opened Wrappers

  /** `r` is `s` with zero or more elements deleted and the rest kept in order. */
  ghost predicate Subsequence<T>(r: seq<T>, s: seq<T>)
    decreases |s|
  {
    r == [] || (|s| > 0 && ((r[0] == s[0] && Subsequence(r[1..], s[1..])) || Subsequence(r, s[1..])))
  }

  /** `r` keeps exactly the elements of `s` that satisfy `p`, each as often as in `s`, in `s`'s order. */
  ghost predicate KeepsExactly<T(!new)>(r: seq<T>, s: seq<T>, p: T -> bool) {
    Subsequence(r, s) && forall x :: multiset(r)[x] == if p(x) then multiset(s)[x] else 0
  }

  /** No element occurs twice. */
  predicate NoDuplicates<T(==)>(s: seq<T>) {
    forall i, j :: 0 <= i < j < |s| ==> s[i] != s[j]
  }

  /** LINQ's `Where`: the elements satisfying `p`, in order. */
  function Filter<T(==,!new)>(s: seq<T>, p: T -> bool): (r: seq<T>)
    ensures forall x :: x in r <==> x in s && p(x)
    ensures KeepsExactly(r, s, p)
    ensures |r| <= |s|
  {
    if s == [] then []
    else
      var rest := Filter(s[1..], p);
      assert s == [s[0]] + s[1..];
      if p(s[0]) then
        assert ([s[0]] + rest)[1..] == rest;
        [s[0]] + rest
      else rest
  }

  /** Filtering twice is filtering once by the conjunction: filters compose in any order. */
  lemma {:induction false} FilterConjunction<T(!new)>(s: seq<T>, p: T -> bool, q: T -> bool)
    ensures Filter(Filter(s, p), q) == Filter(s, x => p(x) && q(x))
    ensures Filter(Filter(s, p), q) == Filter(Filter(s, q), p)
  {
    if s != [] {
      FilterConjunction(s[1..], p, q);
    }
  }

  /** A filter whose predicate holds everywhere on `s` leaves `s` unchanged. */
  lemma {:induction false} FilterAll<T(!new)>(s: seq<T>, p: T -> bool)
    requires forall x :: x in s ==> p(x)
    ensures Filter(s, p) == s
  {
    if s != [] {
      assert forall x :: x in s[1..] ==> x in s;
      FilterAll(s[1..], p);
    }
  }

  /** LINQ's `Distinct`: every element of `s` once, at the place of its first occurrence. */
  function Distinct<T(==,!new)>(s: seq<T>): (r: seq<T>)
    ensures forall x :: x in r <==> x in s
    ensures NoDuplicates(r)
  {
    if s == [] then []
    else
      var init := s[..|s| - 1];
      assert s == init + [s[|s| - 1]];
      var d := Distinct(init);
      if s[|s| - 1] in d then d else d + [s[|s| - 1]]
  }

  /** The length of `Distinct(s)` is the number of different elements of `s`. */
  lemma {:induction false} DistinctLength<T(!new)>(s: seq<T>)
    ensures |Distinct(s)| == |set x | x in s|
  {
    if s == [] {
      assert (set x | x in s) == {};
    } else {
      var init, last := s[..|s| - 1], s[|s| - 1];
      assert s == init + [last];
      DistinctLength(init);
      assert (set x | x in s) == (set x | x in init) + {last};
      if last !in init {
        assert last !in (set x | x in init);
      }
    }
  }

  /** A sequence in which no element is counted twice has no duplicates. */
  lemma NoDuplicatesByCount<T>(s: seq<T>)
    requires forall x :: multiset(s)[x] <= 1
    ensures NoDuplicates(s)
  {
    forall i, j | 0 <= i < j < |s|
      ensures s[i] != s[j]
    {
      assert s == s[..j] + s[j..];
      assert s[..j][i] == s[i] && s[j..][0] == s[j];
      assert multiset(s)[s[i]] == multiset(s[..j])[s[i]] + multiset(s[j..])[s[i]];
      assert multiset(s)[s[j]] == multiset(s[..j])[s[j]] + multiset(s[j..])[s[j]];
    }
  }

  /** LINQ's `FirstOrDefault(p)`: the first element satisfying `p`, or `None`. */
  function FirstWhere<T>(s: seq<T>, p: T -> bool): (r: Option<T>)
    ensures r.None? <==> forall i :: 0 <= i < |s| ==> !p(s[i])
    ensures r.Some? ==> exists i :: 0 <= i < |s| && s[i] == r.value && p(s[i]) && forall j :: 0 <= j < i ==> !p(s[j])
  {
    if s == [] then None
    else if p(s[0]) then Some(s[0])
    else
      var r := FirstWhere(s[1..], p);
      assert forall i :: 1 <= i < |s| ==> s[i] == s[1..][i - 1];
      r
  }
}
