/** The kernel's doubly linked list. An element carries its own links, and keeps them when it is removed:
  * the loops that remove the element they stand on rely on that. */
module IntrusiveList {
  import opened Sequences

  const HEAD := -1
  const TAIL := -2

  /** Each element of the chain and the one after it point at each other, and no element occurs twice. */
  ghost predicate Links(next: map<int, int>, prev: map<int, int>, c: seq<int>) {
    |c| > 1 ==>
      && c[0] in next && next[c[0]] == c[1]
      && c[1] in prev && prev[c[1]] == c[0]
      && c[0] !in c[1..]
      && Links(next, prev, c[1..])
  }

  lemma {:induction false} LinksAt(next: map<int, int>, prev: map<int, int>, c: seq<int>, i: nat)
    requires Links(next, prev, c) && i < |c| - 1
    ensures c[i] in next && next[c[i]] == c[i + 1]
    ensures c[i + 1] in prev && prev[c[i + 1]] == c[i]
  {
    if i > 0 {
      LinksAt(next, prev, c[1..], i - 1);
    }
  }

  lemma {:induction false} LinksAreDistinct(next: map<int, int>, prev: map<int, int>, c: seq<int>)
    requires Links(next, prev, c)
    ensures NoDup(c)
  {
    if |c| > 1 {
      LinksAreDistinct(next, prev, c[1..]);
      assert c == [c[0]] + c[1..];
    }
  }

  /** The links of a chain depend on its elements only, and not on what points at its first. */
  lemma {:induction false} LinksFrame(
      next: map<int, int>, prev: map<int, int>, next': map<int, int>, prev': map<int, int>, c: seq<int>)
    requires Links(next, prev, c)
    requires forall x :: x in next && x in c ==> x in next' && next'[x] == next[x]
    requires c != [] ==> forall x :: x in prev && x in c[1..] ==> x in prev' && prev'[x] == prev[x]
    ensures Links(next', prev', c)
  {
    if |c| > 1 {
      LinksFrame(next, prev, next', prev', c[1..]);
    }
  }

  lemma {:induction false} RemoveLinks(next: map<int, int>, prev: map<int, int>, c: seq<int>, i: nat)
    requires Links(next, prev, c) && 0 < i < |c| - 1
    ensures Links(next[c[i - 1] := c[i + 1]], prev[c[i + 1] := c[i - 1]], c[..i] + c[i + 1..])
  {
    var next', prev' := next[c[i - 1] := c[i + 1]], prev[c[i + 1] := c[i - 1]];
    var c' := c[..i] + c[i + 1..];
    if i == 1 {
      assert c'[1..] == c[2..] == c[1..][1..];
      LinksFrame(next, prev, next', prev', c[2..]);
    } else {
      assert c'[1..] == c[1..][..i - 1] + c[1..][i..];
      RemoveLinks(next, prev, c[1..], i - 1);
    }
  }

  lemma {:induction false} InsertLinks(next: map<int, int>, prev: map<int, int>, c: seq<int>, i: nat, e: int)
    requires Links(next, prev, c) && 0 < i < |c| && e !in c
    ensures Links(next[e := c[i]][c[i - 1] := e], prev[e := c[i - 1]][c[i] := e], c[..i] + [e] + c[i..])
  {
    var next', prev' := next[e := c[i]][c[i - 1] := e], prev[e := c[i - 1]][c[i] := e];
    var c' := c[..i] + [e] + c[i..];
    if i == 1 {
      assert c'[1..] == [e] + c[1..] && c'[1..][1..] == c[1..];
      LinksFrame(next, prev, next', prev', c[1..]);
    } else {
      assert c'[1..] == c[1..][..i - 1] + [e] + c[1..][i - 1..];
      InsertLinks(next, prev, c[1..], i - 1, e);
    }
  }

  /** `d` is a list with these links on which all of `c` can be found. */
  ghost predicate HasAll(next: map<int, int>, prev: map<int, int>, d: seq<int>, c: seq<int>) {
    && Links(next, prev, Enclose(d))
    && forall k :: 0 < k < |c| - 1 ==> c[k] in d
  }

  /** Both neighbours of an element of a list. */
  lemma Neighbours(next: map<int, int>, prev: map<int, int>, d: seq<int>, x: int)
    requires Links(next, prev, Enclose(d)) && x in d
    ensures x in next && next[x] in prev && prev[next[x]] == x && next[x] != x
    ensures x in prev && prev[x] in next && next[prev[x]] == x
  {
    var k :| 0 <= k < |d| && d[k] == x;
    var e := Enclose(d);
    assert e[k + 1] == x;
    LinksAt(next, prev, e, k);
    LinksAt(next, prev, e, k + 1);
    LinksAreDistinct(next, prev, e);
  }

  /** The links after list_insert of an element that is already on the list, before another one, or before
    * itself: there is no list with these links and all the elements. */
  lemma ReinsertBreaks(next: map<int, int>, prev: map<int, int>, c: seq<int>, i: nat, j: nat, d: seq<int>)
    requires Links(next, prev, c) && 0 < i < |c| && 0 < j < |c| - 1
    ensures !HasAll(next[c[j] := c[i]][c[i - 1] := c[j]], prev[c[j] := c[i - 1]][c[i] := c[j]], d, c)
  {
    var e, before := c[j], c[i];
    var next', prev' := next[e := before][c[i - 1] := e], prev[e := c[i - 1]][before := e];
    LinksAreDistinct(next, prev, c);
    if HasAll(next', prev', d, c) {
      Neighbours(next', prev', d, e);
      if i > j + 1 {
        LinksAt(next, prev, c, j);
        Neighbours(next', prev', d, c[j + 1]);
      } else if i < j {
        LinksAt(next, prev, c, j - 1);
        Neighbours(next', prev', d, c[j - 1]);
      }
    }
  }

  /** The elements between the two sentinels. */
  function Enclose(elems: seq<int>): seq<int> {
    [HEAD] + elems + [TAIL]
  }

  lemma ChainWithout(elems: seq<int>, i: nat)
    requires i < |elems|
    ensures Enclose(elems[..i] + elems[i + 1..]) == Enclose(elems)[..i + 1] + Enclose(elems)[i + 2..]
  {
  }

  lemma NotOnChain(elems: seq<int>, e: int)
    requires e !in elems && e != HEAD && e != TAIL
    ensures e !in Enclose(elems)
  {
  }

  lemma ChainWith(elems: seq<int>, i: nat, e: int)
    requires i <= |elems|
    ensures Enclose(elems[..i] + [e] + elems[i..]) == Enclose(elems)[..i + 1] + [e] + Enclose(elems)[i + 1..]
  {
  }

  /** Where a walk stands: at the first element after those it has kept. */
  lemma Standing(kept: seq<int>, all: seq<int>, i: nat)
    requires i < |all|
    ensures
      var now := kept + all[i..];
      && now[|kept|] == all[i]
      && now[..|kept|] + now[|kept| + 1..] == kept + all[i + 1..]
      && now == (kept + [all[i]]) + all[i + 1..]
      && (i + 1 < |all| ==> now[|kept| + 1] == all[i + 1])
  {
  }

  /** What a walk over `walked` has removed and kept. */
  predicate Walked(walked: seq<int>, gone: int -> bool, removed: seq<int>, kept: seq<int>) {
    removed == Filter(walked, gone) && kept == Filter(walked, x => !gone(x))
  }

  lemma WalkStep(all: seq<int>, i: nat, gone: int -> bool, removed: seq<int>, kept: seq<int>)
    requires i < |all| && Walked(all[..i], gone, removed, kept)
    ensures
      if gone(all[i]) then Walked(all[..i + 1], gone, removed + [all[i]], kept)
      else Walked(all[..i + 1], gone, removed, kept + [all[i]])
  {
    FilterStep(all, i, gone);
    FilterStep(all, i, x => !gone(x));
  }

  class List {
    /** The links of every element that is or has been on the list. */
    var next: map<int, int>
    var prev: map<int, int>
    ghost var elems: seq<int>

    ghost function Chain(): seq<int>
      reads this
    {
      Enclose(elems)
    }

    ghost predicate Valid()
      reads this
    {
      Links(next, prev, Chain())
    }

    constructor ()
      ensures Valid() && elems == []
    {
      next, prev, elems := map[HEAD := TAIL], map[TAIL := HEAD], [];
    }

    /** The element at position `i`, or the end of the list. */
    ghost function At(i: nat): int
      requires i <= |elems|
      reads this
    {
      if i == |elems| then TAIL else elems[i]
    }

    lemma ElementsAreDistinct()
      requires Valid()
      ensures NoDup(elems) && TAIL !in elems
    {
      LinksAreDistinct(next, prev, Chain());
      assert Chain()[|elems| + 1] == TAIL;
      assert forall i :: 0 <= i < |elems| ==> Chain()[i + 1] == elems[i];
    }

    /** list_begin. */
    method Begin() returns (e: int)
      requires Valid()
      ensures e == At(0)
    {
      LinksAt(next, prev, Chain(), 0);
      e := next[HEAD];
    }

    /** list_remove: the removed element still points at its successor. */
    method Remove(ghost i: nat, e: int)
      requires Valid() && i < |elems| && elems[i] == e
      modifies this
      ensures Valid()
      ensures elems == old(elems)[..i] + old(elems)[i + 1..]
      ensures e in next && next[e] == old(At(i + 1))
    {
      ghost var c := Chain();
      LinksAreDistinct(next, prev, c);
      LinksAt(next, prev, c, i);
      LinksAt(next, prev, c, i + 1);
      RemoveLinks(next, prev, c, i + 1);
      assert c[i + 1] == e;
      var p, n := prev[e], next[e];
      next := next[p := n];
      prev := prev[n := p];
      elems := elems[..i] + elems[i + 1..];
      ChainWithout(old(elems), i);
    }

    /** list_insert before the element at position `i`, which is `before`. An element that is on the list
      * already breaks it: no list has the new links and all the elements. */
    method Insert(ghost i: nat, before: int, e: int)
      requires Valid() && i <= |elems| && before == At(i)
      requires e != HEAD && e != TAIL
      modifies this
      ensures e !in old(elems) ==> Valid() && elems == old(elems)[..i] + [e] + old(elems)[i..]
      ensures e in old(elems) ==> forall d :: !HasAll(next, prev, d, old(Chain()))
    {
      ghost var c := Chain();
      LinksAt(next, prev, c, i);
      assert c[i + 1] == before;
      ghost var next0, prev0 := next, prev;
      var p := prev[before];
      prev := prev[e := p];
      next := next[e := before];
      next := next[p := e];
      prev := prev[before := e];
      if e in elems {
        ghost var j: nat :| j < |elems| && elems[j] == e;
        assert c[j + 1] == e;
        forall d ensures !HasAll(next, prev, d, c) {
          ReinsertBreaks(next0, prev0, c, i + 1, j + 1, d);
        }
      } else {
        NotOnChain(elems, e);
        InsertLinks(next0, prev0, c, i + 1, e);
        ChainWith(elems, i, e);
        elems := elems[..i] + [e] + elems[i..];
      }
    }

    lemma NoSentinels()
      requires Valid()
      ensures HEAD !in elems && TAIL !in elems
    {
      var c := Chain();
      LinksAreDistinct(next, prev, c);
      assert c[0] == HEAD && c[|elems| + 1] == TAIL;
      assert forall i :: 0 <= i < |elems| ==> c[i + 1] == elems[i];
    }

    /** list_next. */
    method Next(ghost i: nat, e: int) returns (n: int)
      requires Valid() && i < |elems| && elems[i] == e
      ensures n == At(i + 1)
    {
      LinksAt(next, prev, Chain(), i + 1);
      n := next[e];
    }

    /** One element of a walk: list_next is taken of it even when it has just been removed. */
    method Visit(ghost i: nat, e: int, remove: bool) returns (n: int)
      requires Valid() && i < |elems| && elems[i] == e
      modifies this
      ensures Valid()
      ensures elems == if remove then old(elems)[..i] + old(elems)[i + 1..] else old(elems)
      ensures n == old(At(i + 1))
    {
      if remove {
        Remove(i, e);
      } else {
        LinksAt(next, prev, Chain(), i + 1);
      }
      n := next[e];
    }

    /** The loop of timer_interrupt and of lock_release: from list_begin to list_end by list_next, removing
      * the element it stands on when `gone` says so. */
    method RemoveWhere(gone: int -> bool) returns (removed: seq<int>)
      requires Valid()
      modifies this
      ensures Valid()
      ensures elems == Filter(old(elems), x => !gone(x))
      ensures removed == Filter(old(elems), gone) && NoDup(removed)
    {
      ghost var all := elems;
      ghost var kept: seq<int> := [];
      ghost var i: nat := 0;
      ElementsAreDistinct();
      assert all[..|all|] == all;
      removed := [];
      var e := Begin();
      while e != TAIL
        invariant i <= |all| && Valid()
        invariant elems == kept + all[i..]
        invariant Walked(all[..i], gone, removed, kept)
        invariant e == if i == |all| then TAIL else all[i]
        decreases |all| - i
      {
        Standing(kept, all, i);
        WalkStep(all, i, gone, removed, kept);
        var remove := gone(e);
        ghost var k := |kept|;
        if remove {
          removed := removed + [e];
        } else {
          kept := kept + [e];
        }
        e := Visit(k, e, remove);
        i := i + 1;
      }
      FilterKeeps(all, gone);
    }
  }
}
