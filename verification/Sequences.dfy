/** Facts about sequences shared by the modules that model queues and lists. */
module Sequences {
  ghost predicate NoDup<T(!new)>(s: seq<T>) {
    forall i, j :: 0 <= i < j < |s| ==> s[i] != s[j]
  }

  lemma RepeatCounts<T(!new)>(s: seq<T>, i: int, j: int)
    requires 0 <= i < j < |s| && s[i] == s[j]
    ensures multiset(s)[s[i]] >= 2
  {
    assert s == s[..i] + [s[i]] + s[i + 1..];
    assert s[j] == s[i + 1..][j - i - 1];
    assert multiset(s) == multiset(s[..i]) + multiset{s[i]} + multiset(s[i + 1..]);
  }

  lemma NoDupCounts<T(!new)>(s: seq<T>, x: T)
    requires NoDup(s)
    ensures multiset(s)[x] <= 1
  {
    if s != [] {
      assert s == [s[0]] + s[1..];
      assert multiset(s) == multiset{s[0]} + multiset(s[1..]);
      NoDupCounts(s[1..], x);
      if x == s[0] {
        assert forall k :: 0 <= k < |s[1..]| ==> s[1..][k] == s[k + 1];
        assert x !in s[1..];
      }
    }
  }

  lemma SameMembers<T(!new)>(s: seq<T>, p: seq<T>)
    requires multiset(p) == multiset(s)
    ensures |p| == |s|
    ensures forall x :: x in p <==> x in s
  {
    assert |multiset(p)| == |multiset(s)|;
    forall x ensures x in p <==> x in s {
      assert x in multiset(p) <==> x in multiset(s);
    }
  }

  /** A permutation has the same length and members, and repeats nothing that was not repeated. */
  lemma PermutationKeeps<T(!new)>(s: seq<T>, p: seq<T>)
    requires multiset(p) == multiset(s)
    ensures |p| == |s|
    ensures forall x :: x in p <==> x in s
    ensures NoDup(s) ==> NoDup(p)
  {
    SameMembers(s, p);
    if NoDup(s) {
      forall i, j | 0 <= i < j < |p| ensures p[i] != p[j] {
        if p[i] == p[j] {
          RepeatCounts(p, i, j);
          NoDupCounts(s, p[i]);
        }
      }
    }
  }

  lemma Member<T>(xs: set<T>) returns (x: T)
    requires |xs| > 0
    ensures x in xs
  {
    assert xs != {};
    x :| x in xs;
  }

  /** The elements that satisfy `p`, in order. */
  function Filter<T>(s: seq<T>, p: T -> bool): seq<T> {
    if s == [] then []
    else Filter(s[..|s| - 1], p) + (if p(s[|s| - 1]) then [s[|s| - 1]] else [])
  }

  lemma FilterStep<T>(s: seq<T>, i: nat, p: T -> bool)
    requires i < |s|
    ensures Filter(s[..i + 1], p) == Filter(s[..i], p) + (if p(s[i]) then [s[i]] else [])
  {
    assert s[..i + 1][..i] == s[..i];
  }

  lemma {:induction false} FilterKeeps<T(!new)>(s: seq<T>, p: T -> bool)
    ensures forall x :: x in Filter(s, p) <==> x in s && p(x)
    ensures NoDup(s) ==> NoDup(Filter(s, p))
  {
    if s != [] {
      var init, last := s[..|s| - 1], s[|s| - 1];
      assert s == init + [last];
      FilterKeeps(init, p);
      if NoDup(s) {
        assert NoDup(init) && last !in init;
      }
    }
  }

  lemma {:induction false} FilterAppends<T>(a: seq<T>, b: seq<T>, p: T -> bool)
    ensures Filter(a + b, p) == Filter(a, p) + Filter(b, p)
  {
    if b == [] {
      assert a + b == a;
    } else {
      assert (a + b)[..|a + b| - 1] == a + b[..|b| - 1];
      FilterAppends(a, b[..|b| - 1], p);
    }
  }

  lemma {:induction false} FilterAll<T>(list: seq<T>, p: T -> bool)
    requires forall x :: x in list ==> p(x)
    ensures Filter(list, p) == list
  {
    if list != [] {
      var init, last := list[..|list| - 1], list[|list| - 1];
      assert list == init + [last] && last in list && p(last);
      assert forall x :: x in init ==> x in list && p(x);
      FilterAll(list[..|list| - 1], p);
    }
  }

  /** How four pieces are put together does not matter. */
  lemma Regroup<T>(a: seq<T>, b: seq<T>, c: seq<T>, d: seq<T>)
    ensures a + b + c + d == a + (b + (c + d)) == a + (b + c + d)
    ensures [] + d == d
  {
  }

  function Except(t: int): int -> bool {
    x => x != t
  }

  /** The sequence after `t` has been removed. */
  function Without(s: seq<int>, t: int): (r: seq<int>)
    ensures forall x :: x in r <==> x in s && x != t
    ensures NoDup(s) ==> NoDup(r)
  {
    FilterKeeps(s, Except(t));
    Filter(s, Except(t))
  }
}
