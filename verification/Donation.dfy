/** Priority donation in lock.c: what an acquire gives and what a release takes back. */
module Donation {
  import opened Options
  import opened Sequences
  import opened KernelModel
  import opened IntrusiveList

  /** The donation of lock_acquire: the holder gets the acquirer's priority whatever it had, and so does the
    * thread the holder itself has donated to, if that is an increase. */
  function Donated(priority: map<int, int>, cur: int, holder: int, donee: Option<int>): map<int, int>
    requires cur in priority
  {
    var given := priority[holder := priority[cur]];
    if donee.Some? && donee.value in given && given[holder] > given[donee.value] then
      given[donee.value := given[holder]]
    else given
  }

  /** Remark: the assignment is unconditional, so the holder may end up lower than it was. */
  lemma DonationIsMaximumIff(priority: map<int, int>, cur: int, holder: int, donee: Option<int>)
    requires cur in priority && holder in priority && donee != Some(holder)
    ensures Donated(priority, cur, holder, donee)[holder] == Max(priority[holder], priority[cur]) <==>
            priority[cur] >= priority[holder]
  {
  }

  /** Scanning past those that are at least as high finds where list_insert_ordered inserts. */
  lemma {:induction false} InsertsAt(list: seq<int>, t: int, priority: map<int, int>, i: nat)
    requires t in priority && Known(list, priority) && i <= |list|
    requires forall j :: 0 <= j < i ==> priority[t] <= priority[list[j]]
    requires i < |list| ==> priority[t] > priority[list[i]]
    ensures InsertOrdered(list, t, priority) == list[..i] + [t] + list[i..]
  {
    if i > 0 {
      InsertsAt(list[1..], t, priority, i - 1);
      assert list[..i] == [list[0]] + list[1..][..i - 1] && list[i..] == list[1..][i - 1..];
    }
  }

  /** The front of what remains of a descending donor list is the highest donor that remains. */
  lemma {:induction false} FrontIsMaximum(donors: seq<int>, priority: map<int, int>, stays: int -> bool)
    requires Descending(donors, priority)
    ensures Known(Filter(donors, stays), priority)
    ensures forall x :: x in Filter(donors, stays) ==>
      Filter(donors, stays)[0] in priority && x in priority && priority[Filter(donors, stays)[0]] >= priority[x]
  {
    var kept := Filter(donors, stays);
    FilterKeeps(donors, stays);
    assert forall i :: 0 <= i < |kept| ==> kept[i] in kept;
    if donors != [] {
      var init := donors[..|donors| - 1];
      FrontIsMaximum(init, priority, stays);
      forall x | x in kept ensures kept[0] in priority && x in priority && priority[kept[0]] >= priority[x] {
        var rest := Filter(init, stays);
        if rest != [] {
          assert kept[0] == rest[0] && rest[0] in rest;
          FilterKeeps(init, stays);
        }
      }
    }
  }

  /** The threads that wait for a lock: those whose lock_temp it is. */
  function WaitingFor(lockTemp: map<int, Option<int>>, l: int): int -> bool {
    x => x in lockTemp && lockTemp[x] == Some(l)
  }

  function WaitingForOthers(lockTemp: map<int, Option<int>>, l: int): int -> bool {
    x => !WaitingFor(lockTemp, l)(x)
  }

  lemma {:induction false} SameFilter(list: seq<int>, lockTemp: map<int, Option<int>>, l: int)
    ensures Filter(list, WaitingForOthers(lockTemp, l)) == Filter(list, x => !WaitingFor(lockTemp, l)(x))
    ensures forall x :: x in Filter(list, WaitingFor(lockTemp, l)) ==> x in list
  {
    FilterKeeps(list, WaitingFor(lockTemp, l));
    if list != [] {
      SameFilter(list[..|list| - 1], lockTemp, l);
    }
  }

  lemma {:induction false} FilterKnown(list: seq<int>, p: int -> bool, priority: map<int, int>)
    requires Known(list, priority)
    ensures Known(Filter(list, p), priority)
  {
    FilterKeeps(list, p);
    var kept := Filter(list, p);
    assert forall i :: 0 <= i < |kept| ==> kept[i] in kept;
  }

  /** The holder has the priority of the front donor, or its own if there is none. */
  function Restored(priority: map<int, int>, holder: int, donors: seq<int>, base: int): map<int, int>
    requires Known(donors, priority)
  {
    priority[holder := if donors != [] then priority[donors[0]] else base]
  }

  lemma {:induction false} InsertedIsFilteredOut(list: seq<int>, t: int, priority: map<int, int>, p: int -> bool)
    requires t in priority && Known(list, priority) && !p(t)
    ensures Filter(InsertOrdered(list, t, priority), p) == Filter(list, p)
  {
    if list == [] || priority[t] > priority[list[0]] {
      FilterAppends([t], list, p);
      assert Filter([t], p) == [];
    } else {
      FilterAppends([list[0]], InsertOrdered(list[1..], t, priority), p);
      FilterAppends([list[0]], list[1..], p);
      assert [list[0]] + list[1..] == list;
      InsertedIsFilteredOut(list[1..], t, priority, p);
    }
  }

  lemma {:induction false} InsertedIsThere(list: seq<int>, t: int, priority: map<int, int>)
    requires t in priority && Known(list, priority)
    ensures t in InsertOrdered(list, t, priority)
  {
    if list != [] && priority[t] <= priority[list[0]] {
      InsertedIsThere(list[1..], t, priority);
    }
  }

  /** What lock_release does to priorities and donor list: nothing if the holder's priority is its own. */
  ghost predicate Releases(priority: map<int, int>, donors: seq<int>, lockTemp: map<int, Option<int>>,
                           holder: int, l: int, base: int, priority': map<int, int>, donors': seq<int>)
    requires holder in priority && Known(donors, priority)
  {
    if priority[holder] == base then priority' == priority && donors' == donors
    else
      && donors' == Filter(donors, WaitingForOthers(lockTemp, l))
      && Known(donors', priority)
      && priority' == Restored(priority, holder, donors', base)
  }

  /** The priority lists of `gone` after list_sort has made `orders` of them. */
  function Resorted(lists: map<int, seq<int>>, gone: seq<int>, orders: map<int, seq<int>>): map<int, seq<int>>
    requires lists.Keys <= orders.Keys
  {
    map t | t in lists :: if t in gone then orders[t] else lists[t]
  }

  /** After the clean-up exactly the removed donors' own lists have been sorted. */
  lemma SortedAreTheRemoved(
      lists: map<int, seq<int>>, donors: seq<int>, lockTemp: map<int, Option<int>>, l: int,
      orders: map<int, seq<int>>, t: int)
    requires lists.Keys <= orders.Keys && t in lists
    ensures
      Resorted(lists, Filter(donors, WaitingFor(lockTemp, l)), orders)[t] ==
      if t in donors && t in lockTemp && lockTemp[t] == Some(l) then orders[t] else lists[t]
  {
    FilterKeeps(donors, WaitingFor(lockTemp, l));
  }

  lemma ResortedStep(lists: map<int, seq<int>>, gone: seq<int>, orders: map<int, seq<int>>, i: nat)
    requires lists.Keys <= orders.Keys && i < |gone| && gone[i] in lists
    ensures
      Resorted(lists, gone[..i + 1], orders) == Resorted(lists, gone[..i], orders)[gone[i] := orders[gone[i]]]
  {
    assert gone[..i + 1] == gone[..i] + [gone[i]];
  }

  method Resort(lists: map<int, seq<int>>, removed: seq<int>, orders: map<int, seq<int>>)
    returns (after: map<int, seq<int>>)
    requires lists.Keys <= orders.Keys && forall i :: 0 <= i < |removed| ==> removed[i] in lists
    ensures after == Resorted(lists, removed, orders)
  {
    after := lists;
    for i := 0 to |removed|
      invariant after == Resorted(lists, removed[..i], orders)
    {
      assert removed[i] in lists.Keys;
      after := after[removed[i] := orders[removed[i]]];
      ResortedStep(lists, removed, orders, i);
    }
    assert removed[..|removed|] == removed;
  }

  /** The fields of all threads, and the priority list of the thread that holds a lock. */
  class LockCode {
    var priority: map<int, int>
    var prevPriority: map<int, int>
    var lockTemp: map<int, Option<int>>
    var donee: map<int, Option<int>>
    var holder: Option<int>
    /** The holder's priority_list. */
    const donors: List
    /** The other threads'. */
    var lists: map<int, seq<int>>

    ghost predicate ThreadOk(t: int)
      reads this`priority, this`prevPriority, this`lockTemp, this`donee
    {
      && t >= 0 && t in prevPriority && t in lockTemp && t in donee
      && (donee[t].Some? ==> donee[t].value in priority)
    }

    ghost predicate Valid()
      reads this, donors
    {
      && (forall t :: t in priority ==> ThreadOk(t))
      && priority.Keys <= lists.Keys
      && (holder.Some? ==> holder.value in priority)
      && donors.Valid() && Known(donors.elems, priority)
    }

    /** init_thread and lock_init: nobody has donated and nobody holds the lock. */
    constructor (base: map<int, int>)
      requires forall t :: t in base ==> t >= 0
      ensures Valid() && fresh(donors)
      ensures priority == base && prevPriority == base && holder.None? && donors.elems == []
    {
      priority, prevPriority, holder := base, base, None;
      lockTemp := map t | t in base :: None;
      donee := map t | t in base :: None;
      lists := map t | t in base :: [];
      donors := new List();
    }

    /** list_insert_ordered into the holder's priority list. A thread that is still on it from an earlier
      * acquire breaks the list. */
    method InsertDonor(t: int)
      requires donors.Valid() && Known(donors.elems, priority)
      requires t >= 0 && t in priority
      modifies donors
      ensures t !in old(donors.elems) ==>
        donors.Valid() && donors.elems == InsertOrdered(old(donors.elems), t, priority)
      ensures t in old(donors.elems) ==> forall d :: !HasAll(donors.next, donors.prev, d, old(donors.Chain()))
    {
      ghost var all := donors.elems;
      ghost var i: nat := 0;
      var e := donors.Begin();
      donors.NoSentinels();
      while e != TAIL && priority[t] <= priority[e]
        invariant i <= |all| && e == donors.At(i)
        invariant forall j :: 0 <= j < i ==> priority[t] <= priority[all[j]]
        decreases |all| - i
        modifies {}
      {
        e := donors.Next(i, e);
        i := i + 1;
      }
      InsertsAt(all, t, priority, i);
      donors.Insert(i, e, t);
    }

    /** lock_acquire before its semaphore_down. The donor list stays a list if and only if the current thread
      * is not on it yet, from an acquire that the release did not clean up after. */
    method AcquireDonates(l: int, current: int)
      requires Valid() && current in priority && holder != Some(current)
      modifies this`lockTemp, this`priority, this`donee, donors
      ensures holder.None? || current !in old(donors.elems) ==> Valid()
      ensures holder.None? ==>
        && priority == old(priority) && lockTemp == old(lockTemp) && donee == old(donee)
        && donors.elems == old(donors.elems)
      ensures holder.Some? ==>
        && priority == Donated(old(priority), current, holder.value, old(donee)[holder.value])
        && lockTemp == old(lockTemp)[current := Some(l)] && donee == old(donee)[current := holder]
      ensures holder.Some? && current !in old(donors.elems) ==>
        donors.elems == InsertOrdered(old(donors.elems), current, old(priority))
      ensures holder.Some? && current in old(donors.elems) ==>
        forall d :: !HasAll(donors.next, donors.prev, d, old(donors.Chain()))
    {
      if holder.Some? {
        var h := holder.value;
        InsertDonor(current);
        var given := priority[h := priority[current]];
        if donee[h].Some? && given[h] > given[donee[h].value] {
          given := given[donee[h].value := given[h]];
        }
        assert given.Keys == priority.Keys;
        lockTemp, priority, donee := lockTemp[current := Some(l)], given, donee[current := holder];
      }
    }

    /** The loop of lock_release: the donors that wait for this lock are removed from the list it walks, and
      * list_sort makes `orders` of their own lists. (Those lists are not the one that is walked, so they are
      * sorted here after the walk.) */
    method RemoveDonors(l: int, orders: map<int, seq<int>>)
      requires donors.Valid() && lists.Keys <= orders.Keys
      requires forall t :: t in donors.elems ==> t in lists
      modifies donors, this`lists
      ensures donors.Valid() && donors.elems == Filter(old(donors.elems), WaitingForOthers(lockTemp, l))
      ensures lists == Resorted(old(lists), Filter(old(donors.elems), WaitingFor(lockTemp, l)), orders)
    {
      var front := donors.Begin();
      donors.NoSentinels();
      if front != TAIL {
        var waiting := WaitingFor(lockTemp, l);
        ghost var all := donors.elems;
        assert forall t :: t in all ==> t in lists;
        var removed := donors.RemoveWhere(waiting);
        SameFilter(all, lockTemp, l);
        FilterKeeps(all, waiting);
        assert removed == Filter(all, waiting);
        forall i | 0 <= i < |removed| ensures removed[i] in lists {
          assert removed[i] in Filter(all, waiting) && removed[i] in all;
        }
        lists := Resort(lists, removed, orders);
      }
    }

    /** Lines 115 to 133 of lock_release. */
    method TakeBack(l: int, current: int, orders: map<int, seq<int>>)
      requires donors.Valid() && Known(donors.elems, priority) && current in prevPriority
      requires priority.Keys <= lists.Keys <= orders.Keys
      modifies this`priority, this`lists, donors
      ensures donors.Valid() && Known(donors.elems, old(priority)) && Known(donors.elems, priority)
      ensures donors.elems == Filter(old(donors.elems), WaitingForOthers(lockTemp, l))
      ensures lists == Resorted(old(lists), Filter(old(donors.elems), WaitingFor(lockTemp, l)), orders)
      ensures priority == Restored(old(priority), current, donors.elems, prevPriority[current])
    {
      assert forall t :: t in donors.elems ==> t in priority;
      FilterKnown(donors.elems, WaitingForOthers(lockTemp, l), priority);
      RemoveDonors(l, orders);
      var front := donors.Begin();
      donors.NoSentinels();
      priority := priority[current := if front != TAIL then priority[front] else prevPriority[current]];
    }

    /** lock_release before its semaphore_up: if the holder's priority is not its own, the donors for this
      * lock go, and the priority is the front donor's that remains, or the holder's own if none does. */
    method ReleaseRestores(l: int, current: int, orders: map<int, seq<int>>)
      requires Valid() && holder == Some(current) && lists.Keys <= orders.Keys
      modifies this`priority, this`holder, this`lists, donors
      ensures Valid() && holder == None
      ensures Releases(old(priority), old(donors.elems), lockTemp, current, l, prevPriority[current],
                       priority, donors.elems)
      ensures lists ==
        if old(priority)[current] == prevPriority[current] then old(lists)
        else Resorted(old(lists), Filter(old(donors.elems), WaitingFor(lockTemp, l)), orders)
    {
      if holder.Some? && prevPriority[current] != priority[current] {
        TakeBack(l, current, orders);
        assert priority.Keys == old(priority.Keys);
      }
      holder := None;
    }
  }
}
