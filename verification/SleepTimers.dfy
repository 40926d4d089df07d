/** Three implementations of the sleep service, each proved to be it.
  * `ticks` does not overflow its 64 bits. */
module SleepTimers {
  import opened Sequences
  import opened IntrusiveList
  import opened SleepModel

  /** What an interrupt did: it unblocked the due threads, each once. */
  ghost predicate WokeDue(was: Service, exact: bool, woken: seq<int>) {
    && NoDup(woken)
    && forall t :: t in woken <==> t in Due(was, exact)
  }

  /** timer.c: every interrupt scans all threads, asleep or not, and compares for equality. */
  class TimerScan {
    var ticks: int
    var waitingTime: map<int, int>
    var allList: seq<int>
    var blocked: set<int>

    ghost predicate Valid()
      reads this
    {
      && NoDup(allList)
      && (forall t :: t in allList <==> t in waitingTime)
      && (forall t :: t in blocked ==> t in waitingTime)
    }

    ghost function Asleep(): Service
      requires Valid()
      reads this
    {
      Service(ticks, map t | t in blocked :: waitingTime[t])
    }

    constructor (threads: seq<int>)
      requires NoDup(threads)
      ensures Valid() && Asleep() == Service(0, map[])
    {
      ticks, allList, blocked := 0, threads, {};
      waitingTime := map t | t in threads :: 0;
    }

    /** init_thread puts a new thread on the list of all, with every field zero. */
    method ThreadCreated(t: int)
      requires Valid() && t !in allList
      modifies this`allList, this`waitingTime
      ensures Valid() && allList == old(allList) + [t] && Asleep() == old(Asleep())
    {
      allList := allList + [t];
      waitingTime := waitingTime[t := 0];
    }

    /** thread_exit takes the running thread off it. */
    method ThreadExited(t: int)
      requires Valid() && t in allList && t !in blocked
      modifies this`allList, this`waitingTime
      ensures Valid() && allList == Without(old(allList), t) && Asleep() == old(Asleep())
    {
      allList := Without(allList, t);
      waitingTime := waitingTime - {t};
      assert forall x :: x in blocked ==> x in waitingTime && waitingTime[x] == old(waitingTime)[x];
      assert Asleep().sleepers == old(Asleep()).sleepers;
    }

    /** timer_sleep up to the moment interrupts are disabled; an interrupt may come right after. */
    method StoreDeadline(current: int, start: int, n: int) returns (sleeps: bool)
      requires Valid() && current in allList && current !in blocked
      modifies this`waitingTime
      ensures Valid() && Asleep() == old(Asleep()) && (sleeps <==> n > 0)
      ensures waitingTime == if sleeps then old(waitingTime)[current := start + n] else old(waitingTime)
    {
      sleeps := n > 0;
      if sleeps {
        waitingTime := waitingTime[current := start + n];
      }
    }

    /** The rest of timer_sleep, with interrupts off. */
    method BlockCurrent(current: int, ghost start: int, ghost n: int)
      requires Valid() && current in allList && current !in blocked
      requires n > 0 && waitingTime[current] == start + n
      modifies this`blocked
      ensures Valid() && Asleep() == Sleep(old(Asleep()), current, start, n)
    {
      blocked := blocked + {current};
    }

    /** `ok` is false if thread_unblock finds a thread that is not blocked. */
    method TimerInterrupt() returns (ok: bool, woken: seq<int>)
      requires Valid()
      modifies this`ticks, this`blocked
      ensures ok <==> forall t :: t in allList && t !in old(blocked) ==> waitingTime[t] != old(ticks) + 1
      ensures ok ==> Valid() && Asleep() == Interrupt(old(Asleep()), true)
      ensures ok ==> WokeDue(old(Asleep()), true, woken)
    {
      woken := [];
      ok := true;
      ghost var was := blocked;
      ticks := ticks + 1;
      for i := 0 to |allList|
        invariant ticks == old(ticks) + 1
        invariant NoDup(woken)
        invariant forall t :: t in woken <==> t in allList[..i] && waitingTime[t] == ticks
        invariant forall t :: t in woken ==> t in was
        invariant blocked == was - (set t | t in woken)
      {
        var t := allList[i];
        assert t in allList && t !in allList[..i];
        if waitingTime[t] == ticks {
          if t !in blocked {
            assert t !in was;
            ok := false;
            return;
          }
          blocked := blocked - {t};
          woken := woken + [t];
        }
      }
      assert allList[..|allList|] == allList;
      forall t ensures t in Asleep().sleepers <==> t in Interrupt(old(Asleep()), true).sleepers {
        assert t in was ==> t in allList;
      }
      assert Asleep().sleepers == Interrupt(old(Asleep()), true).sleepers;
    }
  }

  /** timer_list.c and timer_sorted_list.c: a list of sleepers, walked while elements are removed from it.
    * They differ in where a sleeper is inserted; the second one's comparator reads the wrong memory, so
    * the position is arbitrary here. */
  class TimerQueue {
    var ticks: int
    var waitingTime: map<int, int>
    const threadList: List

    ghost predicate Valid()
      reads this, threadList
    {
      && threadList.Valid()
      && (forall i :: 0 <= i < |threadList.elems| ==> Sleeping(threadList.elems[i]))
    }

    ghost predicate Sleeping(t: int)
      reads this
    {
      t >= 0 && t in waitingTime
    }

    ghost function Asleep(): Service
      requires Valid()
      reads this, threadList
    {
      Service(ticks, map t | t in threadList.elems && t in waitingTime :: waitingTime[t])
    }

    constructor ()
      ensures Valid() && fresh(threadList) && Asleep() == Service(0, map[])
    {
      ticks, waitingTime := 0, map[];
      threadList := new List();
    }

    /** timer_sleep up to the moment interrupts are disabled. */
    method StoreDeadline(current: int, start: int, n: int) returns (sleeps: bool)
      requires Valid() && current >= 0 && current !in threadList.elems
      modifies this`waitingTime
      ensures Valid() && Asleep() == old(Asleep()) && (sleeps <==> n > 0)
      ensures waitingTime == if sleeps then old(waitingTime)[current := start + n] else old(waitingTime)
    {
      sleeps := n > 0;
      if sleeps {
        waitingTime := waitingTime[current := start + n];
        assert Asleep().sleepers == old(Asleep()).sleepers;
      }
    }

    /** The rest of timer_sleep. `before` is where the list function inserts: list_end for the plain list. */
    method BlockCurrent(current: int, ghost start: int, ghost n: int, ghost i: nat, before: int)
      requires Valid() && current >= 0 && current !in threadList.elems
      requires n > 0 && current in waitingTime && waitingTime[current] == start + n
      requires i <= |threadList.elems| && before == threadList.At(i)
      modifies threadList
      ensures Valid()
      ensures Asleep() == Sleep(old(Asleep()), current, start, n)
    {
      ghost var was := threadList.elems;
      threadList.Insert(i, before, current);
      assert forall t :: t in threadList.elems <==> t in was || t == current;
      assert Asleep().sleepers == Sleep(old(Asleep()), current, start, n).sleepers;
    }

    method TimerInterrupt() returns (woken: seq<int>)
      requires Valid()
      modifies this`ticks, threadList
      ensures Valid()
      ensures Asleep() == Interrupt(old(Asleep()), false)
      ensures WokeDue(old(Asleep()), false, woken)
    {
      ghost var was := Asleep();
      ghost var all := threadList.elems;
      assert forall i :: 0 <= i < |all| ==> Sleeping(all[i]);
      ticks := ticks + 1;
      var now, deadline := ticks, waitingTime;
      var due := t => t in deadline && deadline[t] <= now;
      woken := threadList.RemoveWhere(due);
      Woke(was, all, deadline, due, woken, threadList.elems);
    }
  }

  /** Removing those whose deadline is at most the new time removes exactly the due. */
  lemma Woke(
      was: Service, all: seq<int>, deadline: map<int, int>, due: int -> bool, woken: seq<int>, rest: seq<int>)
    requires forall i :: 0 <= i < |all| ==> all[i] >= 0 && all[i] in deadline
    requires was.sleepers == map t | t in all && t in deadline :: deadline[t]
    requires forall t :: due(t) <==> t in deadline && deadline[t] <= was.ticks + 1
    requires woken == Filter(all, due) && NoDup(woken) && rest == Filter(all, t => !due(t))
    ensures WokeDue(was, false, woken)
    ensures forall i :: 0 <= i < |rest| ==> rest[i] >= 0 && rest[i] in deadline && deadline[rest[i]] > was.ticks + 1
    ensures (map t | t in rest && t in deadline :: deadline[t]) == Interrupt(was, false).sleepers
  {
    FilterKeeps(all, due);
    FilterKeeps(all, t => !due(t));
    WokeMembers(was, all, deadline, woken, rest);
  }

  lemma WokeMembers(was: Service, all: seq<int>, deadline: map<int, int>, woken: seq<int>, rest: seq<int>)
    requires forall i :: 0 <= i < |all| ==> all[i] >= 0 && all[i] in deadline
    requires was.sleepers == map t | t in all && t in deadline :: deadline[t]
    requires forall t :: t in woken <==> t in all && t in deadline && deadline[t] <= was.ticks + 1
    requires forall t :: t in rest <==> t in all && !(t in deadline && deadline[t] <= was.ticks + 1)
    ensures forall t :: t in woken <==> t in Due(was, false)
    ensures forall i :: 0 <= i < |rest| ==> rest[i] >= 0 && rest[i] in deadline && deadline[rest[i]] > was.ticks + 1
    ensures (map t | t in rest && t in deadline :: deadline[t]) == Interrupt(was, false).sleepers
  {
    forall t ensures t in woken <==> t in Due(was, false) {
      assert t in was.sleepers <==> t in all;
    }
    forall t ensures t in rest <==> t in Interrupt(was, false).sleepers {
      assert t in was.sleepers <==> t in all;
    }
    forall i | 0 <= i < |rest| ensures rest[i] in all && deadline[rest[i]] > was.ticks + 1 {
      assert rest[i] in rest;
    }
  }
}
