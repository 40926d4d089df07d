/** thread.c and semaphore.c on the kernel's own variables. */
module ThreadSystem {
  import opened Options
  import opened Sequences
  import opened KernelModel
  import opened KernelTheorems
  import opened Priorities
  import opened KernelEffects
  import opened DownDonation

  lemma UpKeepsForm(k: Kernel, s: int, sorted: seq<int>)
    requires WellFormed(k) && s in k.sems && Known(sorted, k.priority)
    ensures WellFormed(Up(k, s, sorted))
  {
  }

  lemma PrioritiesKeepForm(k: Kernel, p: map<int, int>)
    requires WellFormed(k) && p.Keys == k.priority.Keys
    ensures WellFormed(k.(priority := p))
  {
  }

  lemma BornKeepsForm(k: Kernel, t: int, p: int)
    requires WellFormed(k)
    ensures WellFormed(k.(status := k.status[t := Blocked], priority := k.priority[t := p], pc := k.pc[t := Free]))
  {
  }

  /** One test of the loop in semaphore_down. */
  datatype Tested = Taken | Slept | NullDereference

  class ThreadSystem {
    var status: map<int, Status>
    var priority: map<int, int>
    var prevPriority: map<int, int>
    var donors: map<int, seq<int>>
    /** Each thread's lock_temp, and each lock's holder. */
    var lockTemp: map<int, Option<int>>
    var holder: map<int, Option<int>>
    var allList: seq<int>
    var pc: map<int, Pc>
    var ready: seq<int>
    var current: int
    const idle: int
    var sems: map<int, Semaphore>

    function State(): Kernel
      reads this
    {
      Kernel(status, priority, pc, ready, current, idle, sems)
    }

    method NextThreadToRun() returns (next: int)
      modifies this`ready
      ensures next == if old(ready) == [] then idle else old(ready)[0]
      ensures ready == if old(ready) == [] then [] else old(ready)[1..]
    {
      if ready == [] {
        next := idle;
      } else {
        next := ready[0];
        ready := ready[1..];
      }
    }

    method Schedule()
      modifies this`ready, this`current, this`status
      ensures State() == KernelModel.Schedule(old(State()))
    {
      var next := NextThreadToRun();
      current := next;
      status := status[next := Running];
    }

    method ThreadBlock()
      modifies this`ready, this`current, this`status
      ensures State() == Block(old(State()))
    {
      status := status[current := Blocked];
      Schedule();
    }

    method ThreadUnblock(t: int)
      requires WellFormed(State()) && t in status && status[t] == Blocked
      modifies this`ready, this`status
      ensures State() == Unblock(old(State()), t)
    {
      ready := InsertOrdered(ready, t, priority);
      status := status[t := Ready];
    }

    method ThreadYield()
      requires WellFormed(State())
      modifies this`ready, this`current, this`status
      ensures State() == Yield(old(State()))
      ensures old(current) != idle && old(ready) != [] && priority[old(ready)[0]] >= priority[old(current)] ==>
        && current == old(ready)[0]
        && status == old(status)[old(current) := Ready][current := Running]
        && exists i :: PutInPlace(old(ready)[1..], old(current), priority, ready, i)
      ensures old(current) != idle && (old(ready) == [] || priority[old(ready)[0]] < priority[old(current)]) ==>
        current == old(current) && ready == old(ready)
    {
      if current != idle {
        ghost var i := YieldRotates(State());
      }
      if current != idle {
        ready := InsertOrdered(ready, current, priority);
      }
      status := status[current := Ready];
      Schedule();
    }

    method ThreadExit()
      modifies this`ready, this`current, this`status, this`allList
      ensures State() == Exit(old(State()))
      ensures allList == Without(old(allList), old(current))
    {
      allList := Without(allList, current);
      status := status[current := Dying];
      Schedule();
    }

    /** The new thread's page, if there is one. */
    method ThreadCreate(page: Option<int>, initial: int) returns (ok: bool)
      requires WellFormed(State()) && (page.Some? ==> page.value !in status)
      modifies this
      ensures ok <==> page.Some?
      ensures !ok ==>
        && State() == old(State()) && prevPriority == old(prevPriority) && donors == old(donors)
        && lockTemp == old(lockTemp) && allList == old(allList) && holder == old(holder)
      ensures ok ==>
        var t := page.value;
        && State() == CreateAndYield(old(State()), t, initial)
        && prevPriority == old(prevPriority)[t := initial] && donors == old(donors)[t := []]
        && lockTemp == old(lockTemp)[t := None] && allList == old(allList) + [t] && holder == old(holder)
    {
      if page.None? {
        return false;
      }
      var t := page.value;
      BornKeepsForm(State(), t, initial);
      InitThread(t, initial);
      ThreadUnblock(t);
      if priority[t] > priority[current] {
        ThreadYield();
      }
      ok := true;
    }

    method InitThread(t: int, initial: int)
      modifies this`status, this`priority, this`donors, this`lockTemp, this`prevPriority, this`pc, this`allList
      ensures State() == old(State()).(status := old(status)[t := Blocked],
                                       priority := old(priority)[t := initial], pc := old(pc)[t := Free])
      ensures prevPriority == old(prevPriority)[t := initial] && donors == old(donors)[t := []]
      ensures lockTemp == old(lockTemp)[t := None] && allList == old(allList) + [t]
    {
      status := status[t := Blocked];
      priority := priority[t := initial];
      donors := donors[t := []];
      lockTemp := lockTemp[t := None];
      prevPriority := prevPriority[t := initial];
      pc := pc[t := Free];
      allList := allList + [t];
    }

    /** A thread with donors only remembers the new priority. */
    method ThreadSetPriority(newPriority: int)
      requires WellFormed(State()) && current in donors
      modifies this`prevPriority, this`priority, this`ready, this`current, this`status
      ensures prevPriority == old(prevPriority)[old(current) := newPriority] && donors == old(donors)
      ensures State() == if donors[old(current)] != [] then old(State()) else SetPriority(old(State()), newPriority)
    {
      prevPriority := prevPriority[current := newPriority];
      if donors[current] != [] {
        return;
      }
      priority := priority[current := newPriority];
      for i := 0 to |ready|
        invariant prevPriority == old(prevPriority)[old(current) := newPriority] && donors == old(donors)
        invariant State() == old(State()).(priority := old(priority)[old(current) := newPriority])
        invariant forall j :: 0 <= j < i ==> priority[ready[j]] <= newPriority
      {
        if priority[ready[i]] > priority[current] {
          ThreadYield();
          return;
        }
      }
    }

    method SemaphoreInit(s: int, value: nat)
      modifies this`sems
      ensures State() == old(State()).(sems := old(sems)[s := Semaphore(value, [])])
    {
      sems := sems[s := Semaphore(value, [])];
    }

    /** One test of the loop in semaphore_down, with the donation before a sleep: the holder of the lock that
      * the thread last found held is dereferenced whether there is one or not. */
    method SemaphoreDownTest(s: int) returns (tested: Tested)
      requires WellFormed(State()) && s in sems
      requires LinksOk(lockTemp, holder, priority) && current in lockTemp
      modifies this`priority, this`sems, this`pc, this`status, this`ready, this`current
      ensures tested.Taken? <==> old(sems)[s].value > 0
      ensures tested.NullDereference? <==>
        old(sems)[s].value == 0 && NullHolder(lockTemp, holder, old(current))
      ensures tested.NullDereference? ==> State() == old(State())
      ensures tested.Taken? ==> State() == Down(old(State()), s)
      ensures tested.Slept? ==>
        && !NullHolder(lockTemp, holder, old(current))
        && var given := DonatedBySleeper(old(priority), lockTemp, holder, old(current));
           && WellFormed(old(State()).(priority := given))
           && State() == Down(old(State()).(priority := given), s)
      ensures tested.Slept? ==>
        priority == if lockTemp[old(current)].None? then old(priority)
                    else
                      var h := holder[lockTemp[old(current)].value].value;
                      old(priority)[h := Max(old(priority)[h], old(priority)[old(current)])]
    {
      if sems[s].value == 0 {
        var fault := DonateBeforeSleep();
        if fault {
          return NullDereference;
        }
        PrioritiesKeepForm(old(State()), priority);
        FallAsleep(s);
        return Slept;
      }
      var sem := sems[s];
      sems := sems[s := sem.(value := sem.value - 1)];
      pc := pc[current := Free];
      return Taken;
    }

    method DonateBeforeSleep() returns (fault: bool)
      requires current in priority && LinksOk(lockTemp, holder, priority) && current in lockTemp
      modifies this`priority
      ensures fault <==> NullHolder(lockTemp, holder, current)
      ensures priority == if fault then old(priority) else DonatedBySleeper(old(priority), lockTemp, holder, current)
      ensures !fault ==>
        priority == if lockTemp[current].None? then old(priority)
                    else
                      var h := holder[lockTemp[current].value].value;
                      old(priority)[h := Max(old(priority)[h], old(priority)[current])]
    {
      if !NullHolder(lockTemp, holder, current) {
        SleeperRaisesHolder(priority, lockTemp, holder, current);
      }
      var l := lockTemp[current];
      if l.Some? {
        assert TempOk(lockTemp, holder, current);
        var h := holder[l.value];
        if h.None? {
          return true;
        }
        assert HolderOk(holder, priority, l.value);
        if priority[h.value] < priority[current] {
          priority := priority[h.value := priority[current]];
        }
      }
      fault := false;
    }

    method FallAsleep(s: int)
      requires WellFormed(State()) && s in sems && sems[s].value == 0
      modifies this`sems, this`pc, this`status, this`ready, this`current
      ensures State() == Down(old(State()), s)
    {
      var sem := sems[s];
      sems := sems[s := sem.(waiters := InsertOrdered(sem.waiters, current, priority))];
      pc := pc[current := InDown(s)];
      ThreadBlock();
    }

    /** The atomic region of semaphore_up; `sorted` is what list_sort leaves of the waiters. The result is
      * the thread whose priority decides about the first yield. */
    method UpRegion(s: int, sorted: seq<int>) returns (t: int)
      requires WellFormed(State()) && s in sems && SortOf(sems[s].waiters, sorted, priority)
      requires sorted != [] ==> status[sorted[0]] == Blocked
      modifies this`sems, this`ready, this`status
      ensures State() == Up(old(State()), s, sorted)
      ensures t == if sorted == [] then current else sorted[0]
      ensures s in sems && sems[s].value == old(sems)[s].value + 1
      ensures
        if old(sems)[s].waiters == [] then status == old(status) && ready == old(ready) && sems[s].waiters == []
        else WokeHighest(priority, old(sems)[s].waiters, sems[s].waiters, old(status), status, old(ready), ready, t)
    {
      ghost var woken := UpWakesHighest(State(), s, sorted);
      PermutationKeeps(sems[s].waiters, sorted);
      t := current;
      var waiters := sorted;
      if waiters != [] {
        t := waiters[0];
        waiters := waiters[1..];
        ThreadUnblock(t);
      }
      sems := sems[s := Semaphore(sems[s].value + 1, waiters)];
    }

    /** semaphore_up as far as its first yield. */
    method SemaphoreUp(s: int, sorted: seq<int>)
      requires WellFormed(State()) && s in sems && SortOf(sems[s].waiters, sorted, priority)
      requires sorted != [] ==> status[sorted[0]] == Blocked
      modifies this`sems, this`ready, this`status, this`current
      ensures State() == UpAndYield(old(State()), s, sorted)
      ensures Inv(old(State())) && Descending(old(ready), priority) ==>
        (current != old(current) <==> exists t :: t in old(sems)[s].waiters && priority[t] > priority[old(current)])
    {
      if Inv(State()) && Descending(ready, priority) {
        UpSwitchesIff(State(), s, sorted);
      }
      var t := UpRegion(s, sorted);
      if priority[current] < priority[t] {
        UpKeepsForm(old(State()), s, sorted);
        ThreadYield();
      }
    }

    /** What semaphore_up does when its thread runs again: it yields once more if a waiter is at least as
      * high. (Going back to the old priority and the last yield are calls of their own.) */
    method SemaphoreUpRest(s: int)
      requires WellFormed(State()) && s in sems
      modifies this`ready, this`current, this`status
      ensures State() ==
        if SomeHigher(old(State()), sems[s].waiters, old(priority)[old(current)] - 1) then Yield(old(State()))
        else old(State())
    {
      var waiters := sems[s].waiters;
      for i := 0 to |waiters|
        invariant State() == old(State())
        invariant forall j :: 0 <= j < i ==> priority[waiters[j]] < priority[current]
      {
        if priority[waiters[i]] >= priority[current] {
          ThreadYield();
          return;
        }
      }
    }
  }
}
