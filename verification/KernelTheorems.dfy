/** What every run of the kernel keeps, whatever priorities donation writes. */
module KernelTheorems {
  import opened Sequences
  import opened KernelModel

  // ---- ordered insertion ---------------------------------------------------------------------------------

  lemma {:induction false} InsertKeeps(list: seq<int>, t: int, priority: map<int, int>)
    requires t in priority && Known(list, priority)
    ensures forall u :: u in InsertOrdered(list, t, priority) <==> u in list || u == t
    ensures NoDup(list) && t !in list ==> NoDup(InsertOrdered(list, t, priority))
  {
    if list != [] && priority[t] <= priority[list[0]] {
      InsertKeeps(list[1..], t, priority);
      assert list == [list[0]] + list[1..];
      if NoDup(list) && t !in list {
        assert list[0] !in list[1..];
        var rest := InsertOrdered(list[1..], t, priority);
        assert NoDup(rest) && list[0] !in rest;
      }
    }
  }

  // ---- the shared list element -----------------------------------------------------------------------------

  /** A thread's status, its place in the semaphore code and the ready list agree. */
  ghost predicate ThreadOk(k: Kernel, t: int)
    requires WellFormed(k) && t in k.status
  {
    && (k.status[t] == Running <==> t == k.current)
    && (k.status[t] == Ready && t != k.idle <==> t in k.ready)
    && (k.pc[t].InDown? ==> k.pc[t].sem in k.sems && t != k.idle && k.status[t] != Dying)
    && (t == k.idle ==> k.status[t] != Dying)
  }

  /** The waiters of a semaphore are exactly the threads asleep in its down, once each. */
  ghost predicate SemOk(k: Kernel, s: int)
    requires WellFormed(k) && s in k.sems
  {
    && NoDup(k.sems[s].waiters)
    && forall t :: t in k.status ==>
         (t in k.sems[s].waiters <==> k.pc[t] == InDown(s) && k.status[t] == Blocked)
  }

  /** Threads woken from a semaphore that have not tested it again. */
  function Woken(k: Kernel, s: int): set<int>
    requires WellFormed(k)
  {
    set t | t in k.status && k.pc[t] == InDown(s) && k.status[t] != Blocked
  }

  /** A positive value never goes with sleeping waiters alone: somebody woken for each unit is on the way. */
  ghost predicate WakeOk(k: Kernel, s: int)
    requires WellFormed(k) && s in k.sems
  {
    k.sems[s].waiters != [] ==> |Woken(k, s)| >= k.sems[s].value
  }

  ghost predicate Inv(k: Kernel) {
    && WellFormed(k)
    && NoDup(k.ready)
    && (forall t :: t in k.status ==> ThreadOk(k, t))
    && (forall s :: s in k.sems ==> SemOk(k, s))
    && (forall s :: s in k.sems ==> WakeOk(k, s))
  }

  // ---- each region keeps the invariant -----------------------------------------------------------------

  /** Handing over the CPU: the running thread has already got another status and its place on a list. */
  ghost predicate Leaving(k: Kernel) {
    && WellFormed(k)
    && NoDup(k.ready)
    && (forall t :: t in k.status ==>
          && k.status[t] != Running
          && (k.status[t] == Ready && t != k.idle <==> t in k.ready)
          && (k.pc[t].InDown? ==> k.pc[t].sem in k.sems && t != k.idle && k.status[t] != Dying)
          && (t == k.idle ==> k.status[t] != Dying))
    && (forall s :: s in k.sems ==> SemOk(k, s))
    && (forall s :: s in k.sems ==> WakeOk(k, s))
  }

  lemma SameWoken(k: Kernel, k': Kernel)
    requires WellFormed(k) && WellFormed(k') && k.status.Keys == k'.status.Keys && k.sems == k'.sems
    requires forall t :: t in k.status ==> k'.pc[t] == k.pc[t]
    requires forall t :: t in k.status && k.pc[t].InDown? ==> (k'.status[t] == Blocked <==> k.status[t] == Blocked)
    requires forall s :: s in k.sems ==> SemOk(k, s) && WakeOk(k, s)
    ensures forall s :: s in k'.sems ==> SemOk(k', s) && WakeOk(k', s)
  {
    forall s | s in k'.sems ensures SemOk(k', s) && WakeOk(k', s) {
      assert SemOk(k, s) && WakeOk(k, s);
      forall t ensures t in Woken(k', s) <==> t in Woken(k, s) {
        assert t in k.status <==> t in k'.status;
        if t in k.status {
          assert k'.pc[t] == k.pc[t];
          if k.pc[t] == InDown(s) {
            assert k.pc[t].InDown?;
            assert k'.status[t] == Blocked <==> k.status[t] == Blocked;
          }
        }
      }
      assert Woken(k', s) == Woken(k, s);
    }
  }

  lemma ScheduleRuns(k: Kernel)
    requires Leaving(k)
    ensures Inv(Schedule(k))
  {
    var k' := Schedule(k);
    var next := if k.ready == [] then k.idle else k.ready[0];
    assert next in k.status;
    assert forall u :: u in k'.ready <==> u in k.ready && u != next;
    forall t | t in k'.status ensures ThreadOk(k', t) {
    }
    assert k.status[next] == Blocked ==> next == k.idle && !k.pc[next].InDown?;
    SameWoken(k, k');
  }

  lemma BlockKeeps(k: Kernel)
    requires Inv(k) && k.pc[k.current] == Free
    ensures Inv(Block(k))
  {
    var l := k.(status := k.status[k.current := Blocked]);
    assert ThreadOk(k, k.current);
    SameWoken(k, l);
    LeavingAfter(k, l);
    ScheduleRuns(l);
  }

  /** The running thread's status changes to one that keeps it off the ready list. */
  lemma LeavingAfter(k: Kernel, l: Kernel)
    requires Inv(k) && WellFormed(l) && k.current in l.status
    requires l.status == k.status[k.current := l.status[k.current]]
    requires l.status[k.current] == Blocked || (l.status[k.current] == Dying && k.current != k.idle)
    requires l.ready == k.ready && l.idle == k.idle
    requires forall s :: s in l.sems ==> SemOk(l, s) && WakeOk(l, s)
    requires k.sems.Keys <= l.sems.Keys
    requires forall t :: t in k.status && t != k.current ==> l.pc[t] == k.pc[t]
    requires l.pc[k.current].InDown? ==>
      l.pc[k.current].sem in l.sems && k.current != k.idle && l.status[k.current] == Blocked
    ensures Leaving(l)
  {
    forall t | t in l.status
      ensures l.status[t] != Running
      ensures l.status[t] == Ready && t != l.idle <==> t in l.ready
      ensures l.pc[t].InDown? ==> l.pc[t].sem in l.sems && t != l.idle && l.status[t] != Dying
      ensures t == l.idle ==> l.status[t] != Dying
    {
      assert ThreadOk(k, t);
    }
  }

  lemma ExitKeeps(k: Kernel)
    requires Inv(k) && k.pc[k.current] == Free && k.current != k.idle
    ensures Inv(Exit(k))
  {
    var l := k.(status := k.status[k.current := Dying]);
    assert ThreadOk(k, k.current);
    SameWoken(k, l);
    LeavingAfter(k, l);
    ScheduleRuns(l);
  }

  lemma YieldKeeps(k: Kernel)
    requires Inv(k)
    ensures Inv(Yield(k))
  {
    var l := k.(
      ready := if k.current != k.idle then InsertOrdered(k.ready, k.current, k.priority) else k.ready,
      status := k.status[k.current := Ready]);
    assert ThreadOk(k, k.current);
    InsertKeeps(k.ready, k.current, k.priority);
    SameWoken(k, l);
    forall t | t in l.status
      ensures l.status[t] != Running
      ensures l.status[t] == Ready && t != l.idle <==> t in l.ready
      ensures l.pc[t].InDown? ==> l.pc[t].sem in l.sems && t != l.idle && l.status[t] != Dying
      ensures t == l.idle ==> l.status[t] != Dying
    {
      assert ThreadOk(k, t);
    }
    ScheduleRuns(l);
  }

  lemma UnblockKeeps(k: Kernel, t: int)
    requires Inv(k) && t in k.status && t != k.idle && k.status[t] == Blocked && k.pc[t] == Free
    ensures Inv(Unblock(k, t))
  {
    var l := Unblock(k, t);
    assert ThreadOk(k, t);
    InsertKeeps(k.ready, t, k.priority);
    forall u | u in l.status ensures ThreadOk(l, u) {
      assert ThreadOk(k, u);
    }
    SameWoken(k, l);
  }

  lemma CreateKeeps(k: Kernel, t: int, p: int)
    requires Inv(k) && t !in k.status
    ensures Inv(Create(k, t, p))
  {
    var born := k.(status := k.status[t := Blocked], priority := k.priority[t := p], pc := k.pc[t := Free]);
    assert WellFormed(born);
    forall u | u in born.status ensures ThreadOk(born, u) {
      assert u != t ==> ThreadOk(k, u);
    }
    forall s | s in born.sems ensures SemOk(born, s) && WakeOk(born, s) {
      assert SemOk(k, s) && WakeOk(k, s);
      assert Woken(born, s) == Woken(k, s);
    }
    UnblockKeeps(born, t);
  }

  /** Sleeping on a semaphore whose value is zero. */
  lemma SleepKeeps(k: Kernel, s: int)
    requires Inv(k) && Enabled(k, EDown(s)) && k.sems[s].value == 0
    ensures Inv(Down(k, s))
  {
    var sem := k.sems[s];
    var l := k.(sems := k.sems[s := sem.(waiters := InsertOrdered(sem.waiters, k.current, k.priority))],
                pc := k.pc[k.current := InDown(s)], status := k.status[k.current := Blocked]);
    assert ThreadOk(k, k.current);
    InsertKeeps(sem.waiters, k.current, k.priority);
    forall r | r in l.sems ensures SemOk(l, r) && WakeOk(l, r) {
      assert SemOk(k, r) && WakeOk(k, r);
      if r != s {
        assert Woken(l, r) == Woken(k, r);
      }
    }
    LeavingAfter(k, l);
    ScheduleRuns(l);
  }

  lemma TakeKeepsSem(k: Kernel, s: int, r: int)
    requires Inv(k) && Enabled(k, EDown(s)) && k.sems[s].value > 0 && r in k.sems
    requires WellFormed(Down(k, s))
    ensures SemOk(Down(k, s), r) && WakeOk(Down(k, s), r)
  {
    var l := Down(k, s);
    assert ThreadOk(k, k.current);
    assert SemOk(k, r) && WakeOk(k, r);
    if r == s && k.current in Woken(k, s) {
      assert Woken(l, s) == Woken(k, s) - {k.current};
    } else {
      assert Woken(l, r) == Woken(k, r);
    }
  }

  /** Taking a unit of a semaphore. */
  lemma TakeKeeps(k: Kernel, s: int)
    requires Inv(k) && Enabled(k, EDown(s)) && k.sems[s].value > 0
    ensures Inv(Down(k, s))
  {
    var l := Down(k, s);
    forall t | t in l.status ensures ThreadOk(l, t) {
      assert ThreadOk(k, t);
    }
    forall r | r in l.sems ensures SemOk(l, r) && WakeOk(l, r) {
      TakeKeepsSem(k, s, r);
    }
  }

  lemma WakeKeepsThreads(k: Kernel, s: int, sorted: seq<int>)
    requires Inv(k) && Enabled(k, EUp(s, sorted)) && sorted != []
    ensures
      var l := Up(k, s, sorted);
      WellFormed(l) && NoDup(l.ready) && forall u :: u in l.status ==> ThreadOk(l, u)
  {
    var l, t := Up(k, s, sorted), sorted[0];
    PermutationKeeps(k.sems[s].waiters, sorted);
    assert SemOk(k, s) && t in sorted;
    assert ThreadOk(k, t);
    InsertKeeps(k.ready, t, k.priority);
    forall u | u in l.status ensures ThreadOk(l, u) {
      assert ThreadOk(k, u);
    }
  }

  lemma WakeKeepsSem(k: Kernel, s: int, sorted: seq<int>, r: int)
    requires Inv(k) && Enabled(k, EUp(s, sorted)) && sorted != [] && r in k.sems
    requires WellFormed(Up(k, s, sorted))
    ensures SemOk(Up(k, s, sorted), r) && WakeOk(Up(k, s, sorted), r)
  {
    var l, t := Up(k, s, sorted), sorted[0];
    PermutationKeeps(k.sems[s].waiters, sorted);
    assert t in sorted && SemOk(k, s) && SemOk(k, r) && WakeOk(k, r);
    if r == s {
      assert sorted == [t] + sorted[1..];
      assert forall u :: u in sorted[1..] <==> u in sorted && u != t;
      assert Woken(l, s) == Woken(k, s) + {t};
      assert t !in Woken(k, s);
    } else {
      assert Woken(l, r) == Woken(k, r);
    }
  }

  /** Waking the front of the sorted waiters and incrementing. */
  lemma WakeKeeps(k: Kernel, s: int, sorted: seq<int>)
    requires Inv(k) && Enabled(k, EUp(s, sorted)) && sorted != []
    ensures Inv(Up(k, s, sorted))
  {
    WakeKeepsThreads(k, s, sorted);
    forall r | r in k.sems ensures SemOk(Up(k, s, sorted), r) && WakeOk(Up(k, s, sorted), r) {
      WakeKeepsSem(k, s, sorted, r);
    }
  }

  lemma IncrementKeeps(k: Kernel, s: int)
    requires Inv(k) && Enabled(k, EUp(s, []))
    ensures Inv(Up(k, s, []))
  {
    var l := Up(k, s, []);
    PermutationKeeps(k.sems[s].waiters, []);
    assert k.sems[s].waiters == [];
    forall u | u in l.status ensures ThreadOk(l, u) {
      assert ThreadOk(k, u);
    }
    forall r | r in l.sems ensures SemOk(l, r) && WakeOk(l, r) {
      assert SemOk(k, r) && WakeOk(k, r);
      assert Woken(l, r) == Woken(k, r);
    }
  }

  lemma NewSemKeeps(k: Kernel, s: int, value: nat)
    requires Inv(k) && s !in k.sems
    ensures Inv(Step(k, ENewSem(s, value)))
  {
    var l := Step(k, ENewSem(s, value));
    forall u | u in l.status ensures ThreadOk(l, u) {
      assert ThreadOk(k, u);
    }
    forall r | r in l.sems ensures SemOk(l, r) && WakeOk(l, r) {
      if r != s {
        assert SemOk(k, r) && WakeOk(k, r);
        assert Woken(l, r) == Woken(k, r);
      } else {
        assert forall t :: t in l.status ==> ThreadOk(k, t);
      }
    }
  }

  lemma PrioritiesKeep(k: Kernel, p: map<int, int>)
    requires Inv(k) && p.Keys == k.priority.Keys
    ensures Inv(k.(priority := p))
  {
    var l := k.(priority := p);
    assert WellFormed(l);
    SameWoken(k, l);
    forall u | u in l.status ensures ThreadOk(l, u) {
      assert ThreadOk(k, u);
    }
  }

  lemma StepKeepsInv(k: Kernel, e: Event)
    requires Inv(k) && Enabled(k, e)
    ensures Inv(Step(k, e))
  {
    match e
    case ECreate(t, p) => CreateKeeps(k, t, p);
    case EBlock => BlockKeeps(k);
    case EUnblock(t) => UnblockKeeps(k, t);
    case EYield => YieldKeeps(k);
    case EExit => ExitKeeps(k);
    case ENewSem(s, value) => NewSemKeeps(k, s, value);
    case EDown(s) => if k.sems[s].value == 0 { SleepKeeps(k, s); } else { TakeKeeps(k, s); }
    case EUp(s, sorted) => if sorted == [] { IncrementKeeps(k, s); } else { WakeKeeps(k, s, sorted); }
    case EPriorities(p) => PrioritiesKeep(k, p);
  }

  // ---- runs --------------------------------------------------------------------------------------------

  ghost predicate Legal(k: Kernel, es: seq<Event>)
    requires Inv(k)
    decreases |es|
  {
    es == [] || (Enabled(k, es[0]) && (StepKeepsInv(k, es[0]); Legal(Step(k, es[0]), es[1..])))
  }

  ghost function Final(k: Kernel, es: seq<Event>): (r: Kernel)
    requires Inv(k) && Legal(k, es)
    ensures Inv(r)
    decreases |es|
  {
    if es == [] then k else (StepKeepsInv(k, es[0]); Final(Step(k, es[0]), es[1..]))
  }

  /** The kernel once idle_thread is set: the first thread runs and the idle thread has blocked. */
  function Booted(main: int, mainPriority: int, idle: int): Kernel {
    Kernel(map[main := Running, idle := Blocked], map[main := mainPriority, idle := 0],
           map[main := Free, idle := Free], [], main, idle, map[])
  }

  lemma BootedIsOk(main: int, mainPriority: int, idle: int)
    requires main != idle
    ensures Inv(Booted(main, mainPriority, idle))
  {
  }

  /** In every run: exactly one thread is running; the ready list holds exactly the ready threads but for
    * idle, once each; and no thread is on two of the ready list and the semaphores' lists. */
  lemma SharedElementIsSound(main: int, p: int, idle: int, es: seq<Event>, t: int, s: int, r: int)
    requires main != idle
    requires (BootedIsOk(main, p, idle); Legal(Booted(main, p, idle), es))
    ensures
      var k := (BootedIsOk(main, p, idle); Final(Booted(main, p, idle), es));
      && NoDup(k.ready)
      && (t in k.status ==>
            && (k.status[t] == Running <==> t == k.current)
            && (t in k.ready <==> k.status[t] == Ready && t != k.idle))
      && (s in k.sems ==> NoDup(k.sems[s].waiters))
      && (s in k.sems && t in k.sems[s].waiters ==>
            && t in k.status && k.status[t] == Blocked && t !in k.ready
            && (r in k.sems && t in k.sems[r].waiters ==> r == s))
  {
    BootedIsOk(main, p, idle);
    var k := Final(Booted(main, p, idle), es);
    if t in k.status {
      assert ThreadOk(k, t);
    }
    if s in k.sems {
      assert SemOk(k, s);
      assert r in k.sems ==> SemOk(k, r);
    }
  }

  /** In every run, whoever barges in: while a semaphore is positive and threads sleep on it, at least as
    * many woken threads have yet to test it as its value. */
  lemma NoLostWakeUp(main: int, p: int, idle: int, es: seq<Event>, s: int)
    requires main != idle
    requires (BootedIsOk(main, p, idle); Legal(Booted(main, p, idle), es))
    ensures
      var k := (BootedIsOk(main, p, idle); Final(Booted(main, p, idle), es));
      s in k.sems && k.sems[s].value > 0 && k.sems[s].waiters != [] ==>
        && |Woken(k, s)| >= k.sems[s].value
        && exists t :: t in k.status && k.pc[t] == InDown(s) && (k.status[t] == Ready || k.status[t] == Running)
  {
    BootedIsOk(main, p, idle);
    var k := Final(Booted(main, p, idle), es);
    if s in k.sems && k.sems[s].value > 0 && k.sems[s].waiters != [] {
      assert WakeOk(k, s);
      var t := Member(Woken(k, s));
      assert ThreadOk(k, t);
    }
  }

  // ---- counting --------------------------------------------------------------------------------------

  predicate IsUp(e: Event, s: int) { e.EUp? && e.s == s }

  /** A down that takes the semaphore, rather than goes to sleep. */
  predicate IsTake(k: Kernel, e: Event, s: int) { e.EDown? && e.s == s && s in k.sems && k.sems[s].value > 0 }

  function Ups(es: seq<Event>, s: int): nat {
    if es == [] then 0 else (if IsUp(es[0], s) then 1 else 0) + Ups(es[1..], s)
  }

  ghost function Takes(k: Kernel, es: seq<Event>, s: int): nat
    requires Inv(k) && Legal(k, es)
    decreases |es|
  {
    if es == [] then 0
    else
      (if IsTake(k, es[0], s) then 1 else 0) +
      (StepKeepsInv(k, es[0]); Takes(Step(k, es[0]), es[1..], s))
  }

  lemma StepCounts(k: Kernel, e: Event, s: int)
    requires Inv(k) && Enabled(k, e) && s in k.sems
    ensures s in Step(k, e).sems
    ensures Step(k, e).sems[s].value ==
            k.sems[s].value + (if IsUp(e, s) then 1 else 0) - (if IsTake(k, e, s) then 1 else 0)
  {
  }

  /** In every run: value == initial value + ups - completed downs. */
  lemma {:induction false} CountIsConserved(k: Kernel, es: seq<Event>, s: int)
    requires Inv(k) && Legal(k, es) && s in k.sems
    ensures s in Final(k, es).sems
    ensures Final(k, es).sems[s].value == k.sems[s].value + Ups(es, s) - Takes(k, es, s)
    decreases |es|
  {
    if es != [] {
      StepKeepsInv(k, es[0]);
      StepCounts(k, es[0], s);
      CountIsConserved(Step(k, es[0]), es[1..], s);
    }
  }
}
