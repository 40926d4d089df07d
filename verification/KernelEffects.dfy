/** What each kernel region does to status, ready list, current thread and waiters, stated on those alone. */
module KernelEffects {
  import opened Sequences
  import opened KernelModel
  import opened KernelTheorems
  import opened Priorities

  /** `t` has been put into the list behind those at its front that are at least as high, before a lower one. */
  ghost predicate PutInPlace(list: seq<int>, t: int, priority: map<int, int>, list': seq<int>, i: nat) {
    && t in priority && Known(list, priority) && i <= |list|
    && list' == list[..i] + [t] + list[i..]
    && (forall j :: 0 <= j < i ==> priority[list[j]] >= priority[t])
    && (i < |list| ==> priority[list[i]] < priority[t])
  }

  lemma {:induction false} InsertPuts(list: seq<int>, t: int, priority: map<int, int>) returns (i: nat)
    requires t in priority && Known(list, priority)
    ensures PutInPlace(list, t, priority, InsertOrdered(list, t, priority), i)
  {
    if list == [] || priority[t] > priority[list[0]] {
      i := 0;
      assert list[..0] + [t] + list[0..] == [t] + list;
    } else {
      var k := InsertPuts(list[1..], t, priority);
      PutOneFurther(list, t, priority, InsertOrdered(list[1..], t, priority), k);
      i := k + 1;
    }
  }

  lemma PutOneFurther(list: seq<int>, t: int, priority: map<int, int>, rest: seq<int>, k: nat)
    requires list != [] && Known(list, priority) && t in priority && priority[list[0]] >= priority[t]
    requires PutInPlace(list[1..], t, priority, rest, k)
    ensures PutInPlace(list, t, priority, [list[0]] + rest, k + 1)
  {
    assert list[..k + 1] == [list[0]] + list[1..][..k] && list[k + 1..] == list[1..][k..];
    forall j | 0 <= j < k + 1 ensures priority[list[j]] >= priority[t] {
      assert j > 0 ==> list[j] == list[1..][j - 1];
    }
  }

  /** The front of the ready list, or idle. */
  function FrontOf(ready: seq<int>, idle: int): int {
    if ready == [] then idle else ready[0]
  }

  /** The CPU goes to the front of `ready`, and the thread that had it gets the status `left`. */
  predicate HandsOver(k: Kernel, k': Kernel, left: Status, ready: seq<int>) {
    && k'.current == FrontOf(ready, k.idle)
    && k'.status == k.status[k.current := left][k'.current := Running]
    && k'.ready == (if ready == [] then [] else ready[1..])
  }

  lemma BlockHandsOver(k: Kernel)
    ensures HandsOver(k, Block(k), Blocked, k.ready)
  {
  }

  lemma ExitHandsOver(k: Kernel)
    ensures HandsOver(k, Exit(k), Dying, k.ready)
  {
  }

  /** thread_yield: if the front of the ready list is at least as high, it runs, and the yielding thread is
    * ready, behind all at the front that are at least as high as itself. Otherwise it runs on. */
  lemma YieldRotates(k: Kernel) returns (i: nat)
    requires WellFormed(k) && k.current != k.idle
    ensures
      var k', cur := Yield(k), k.current;
      if k.ready != [] && k.priority[k.ready[0]] >= k.priority[cur] then
        && k'.current == k.ready[0]
        && k'.status == k.status[cur := Ready][k.ready[0] := Running]
        && PutInPlace(k.ready[1..], cur, k.priority, k'.ready, i)
      else k'.current == cur && k'.status == k.status[cur := Running] && k'.ready == k.ready
  {
    var cur := k.current;
    var n := InsertPuts(k.ready, cur, k.priority);
    i := 0;
    if n > 0 {
      i := n - 1;
      FrontGoes(k.ready, cur, k.priority, n);
    } else {
      assert k.ready[..0] + [cur] + k.ready[0..] == [cur] + k.ready;
    }
  }

  lemma FrontGoes(list: seq<int>, t: int, priority: map<int, int>, n: nat)
    requires 0 < n <= |list| && PutInPlace(list, t, priority, list[..n] + [t] + list[n..], n)
    ensures
      var list' := list[..n] + [t] + list[n..];
      list'[0] == list[0] && PutInPlace(list[1..], t, priority, list'[1..], n - 1)
  {
    var list' := list[..n] + [t] + list[n..];
    assert list'[1..] == list[1..][..n - 1] + [t] + list[1..][n - 1..];
  }

  /** idle is on no list: when it yields, the front runs, or idle itself. */
  lemma IdleYields(k: Kernel)
    requires WellFormed(k) && k.current == k.idle
    ensures HandsOver(k, Yield(k), Ready, k.ready)
  {
  }

  /** thread_unblock: the thread is ready, in its place; nobody is preempted. */
  lemma UnblockPuts(k: Kernel, t: int) returns (i: nat)
    requires WellFormed(k) && t in k.status
    ensures
      var k' := Unblock(k, t);
      && k'.status == k.status[t := Ready] && k'.current == k.current
      && PutInPlace(k.ready, t, k.priority, k'.ready, i)
  {
    i := InsertPuts(k.ready, t, k.priority);
  }

  /** thread_create: a new thread of that priority is ready, in its place. */
  lemma CreatePuts(k: Kernel, t: int, p: int) returns (i: nat)
    requires WellFormed(k) && t !in k.status
    ensures
      var k' := Create(k, t, p);
      && k'.status == k.status[t := Ready] && k'.priority == k.priority[t := p] && k'.current == k.current
      && PutInPlace(k.ready, t, k'.priority, k'.ready, i)
  {
    var born := k.(status := k.status[t := Blocked], priority := k.priority[t := p], pc := k.pc[t := Free]);
    i := InsertPuts(k.ready, t, born.priority);
    assert Known(k.ready, born.priority);
  }

  // ---- semaphores ----------------------------------------------------------------------------------------

  /** One of the waiters, as high as every other, has become ready; the others still wait. */
  ghost predicate WokeHighest(
      priority: map<int, int>, waiters: seq<int>, waiters': seq<int>,
      status: map<int, Status>, status': map<int, Status>, ready: seq<int>, ready': seq<int>, t: int)
  {
    && t in waiters && t in priority
    && multiset(waiters') == multiset(waiters) - multiset{t}
    && (forall u :: u in waiters' ==> u in priority && priority[t] >= priority[u])
    && status' == status[t := Ready]
    && (forall u :: u in ready' <==> u in ready || u == t)
  }

  /** semaphore_up: with no waiters nobody's status changes; otherwise the highest waiter, and nobody else, is
    * woken. The value is one more. */
  lemma UpWakesHighest(k: Kernel, s: int, sorted: seq<int>) returns (t: int)
    requires WellFormed(k) && s in k.sems && SortOf(k.sems[s].waiters, sorted, k.priority)
    ensures sorted != [] ==> t == sorted[0]
    ensures
      var k' := Up(k, s, sorted);
      && s in k'.sems && k'.sems[s].value == k.sems[s].value + 1 && k'.current == k.current
      && (forall r :: r in k.sems && r != s ==> r in k'.sems && k'.sems[r] == k.sems[r])
      && if k.sems[s].waiters == [] then k'.status == k.status && k'.ready == k.ready && k'.sems[s].waiters == []
         else WokeHighest(k.priority, k.sems[s].waiters, k'.sems[s].waiters, k.status, k'.status, k.ready, k'.ready, t)
  {
    var waiters := k.sems[s].waiters;
    PermutationKeeps(waiters, sorted);
    t := 0;
    if waiters != [] {
      t := sorted[0];
      assert sorted == [t] + sorted[1..] && t in sorted;
      InsertKeeps(k.ready, t, k.priority);
      forall u | u in sorted[1..] ensures u in k.priority && k.priority[t] >= k.priority[u] {
        var j :| 0 <= j < |sorted[1..]| && sorted[1..][j] == u;
        assert sorted[j + 1] == u;
      }
    }
  }

  /** and as far as its first yield, the CPU changes hands if and only if a waiter was higher. */
  lemma UpSwitchesIff(k: Kernel, s: int, sorted: seq<int>)
    requires Inv(k) && Descending(k.ready, k.priority) && Enabled(k, EUp(s, sorted))
    ensures UpAndYield(k, s, sorted).current != k.current <==>
            exists t :: t in k.sems[s].waiters && k.priority[t] > k.priority[k.current]
  {
    var t := UpWakesHighest(k, s, sorted);
    PermutationKeeps(k.sems[s].waiters, sorted);
    assert ThreadOk(k, k.current);
    if sorted != [] {
      assert sorted[0] in sorted;
      HighestOf(sorted, k.priority);
      if k.priority[sorted[0]] > k.priority[k.current] {
        var up := Up(k, s, sorted);
        var i := InsertsBehindEquals(k.ready, sorted[0], k.priority);
        assert up.ready == InsertOrdered(k.ready, sorted[0], k.priority);
        YieldLeaves(up, sorted[0]);
      }
    }
  }

  lemma HighestOf(sorted: seq<int>, priority: map<int, int>)
    requires sorted != [] && Descending(sorted, priority)
    ensures forall t :: t in sorted ==> t in priority && priority[sorted[0]] >= priority[t]
  {
    forall t | t in sorted ensures t in priority && priority[sorted[0]] >= priority[t] {
      var j :| 0 <= j < |sorted| && sorted[j] == t;
    }
  }

  /** A yield with somebody higher ready gives the CPU away. */
  lemma YieldLeaves(k: Kernel, t: int)
    requires WellFormed(k) && Descending(k.ready, k.priority) && k.current !in k.ready
    requires t in k.ready && k.priority[t] > k.priority[k.current]
    ensures Yield(k).current == k.ready[0] && Yield(k).current != k.current
    ensures k.priority[k.ready[0]] >= k.priority[t]
  {
    HighestOf(k.ready, k.priority);
    assert k.ready[0] in k.ready;
    if k.current == k.idle {
      IdleYields(k);
    } else {
      var i := YieldRotates(k);
    }
  }

  /** thread_create gives the CPU to the new thread if and only if that is higher. */
  lemma CreateSwitchesIff(k: Kernel, t: int, p: int)
    requires Inv(k) && HighestRuns(k) && t !in k.status
    ensures CreateAndYield(k, t, p).current == if p > k.priority[k.current] then t else k.current
    ensures CreateAndYield(k, t, p).priority == k.priority[t := p]
  {
    if p > k.priority[k.current] {
      var born := Create(k, t, p);
      var i := CreatePuts(k, t, p);
      assert ThreadOk(k, k.current);
      if i > 0 {
        assert false;
      }
      assert born.ready == [t] + k.ready;
      assert Descending(born.ready, born.priority);
      YieldLeaves(born, t);
    }
  }

  /** thread_set_priority sets it, and gives up the CPU if and only if a ready thread is now higher. */
  lemma SetSwitchesIff(k: Kernel, p: int)
    requires Inv(k) && Descending(k.ready, k.priority)
    ensures SetPriority(k, p).priority == k.priority[k.current := p]
    ensures SetPriority(k, p).current != k.current <==> exists t :: t in k.ready && k.priority[t] > p
  {
    var k1 := k.(priority := k.priority[k.current := p]);
    AfterSet(k, p);
    if SomeHigher(k1, k1.ready, p) {
      var j :| 0 <= j < |k.ready| && k1.priority[k.ready[j]] > p;
      assert k.ready[j] in k.ready && k.priority[k.ready[j]] > p;
      YieldLeaves(k1, k.ready[j]);
    } else {
      forall t | t in k.ready ensures k.priority[t] <= p {
        var j :| 0 <= j < |k.ready| && k.ready[j] == t;
        assert k1.priority[k.ready[j]] <= p;
      }
    }
  }

  lemma AfterSet(k: Kernel, p: int)
    requires Inv(k) && Descending(k.ready, k.priority)
    ensures
      var k1 := k.(priority := k.priority[k.current := p]);
      && WellFormed(k1) && Descending(k1.ready, k1.priority) && k.current !in k.ready
      && forall j :: 0 <= j < |k.ready| ==> k.ready[j] in k.ready && k1.priority[k.ready[j]] == k.priority[k.ready[j]]
  {
    assert ThreadOk(k, k.current);
    assert forall j :: 0 <= j < |k.ready| ==> k.ready[j] in k.ready && k.ready[j] != k.current;
  }

  /** semaphore_down of a positive semaphore takes one and changes nothing else; of another, the thread is
    * blocked, in its place among the waiters, and hands over. */
  lemma DownTakesOrSleeps(k: Kernel, s: int) returns (i: nat)
    requires WellFormed(k) && s in k.sems
    ensures
      var k', sem := Down(k, s), k.sems[s];
      && s in k'.sems
      && (forall r :: r in k.sems && r != s ==> r in k'.sems && k'.sems[r] == k.sems[r])
      && if sem.value > 0 then
           && k'.sems[s].value == sem.value - 1 && k'.sems[s].waiters == sem.waiters
           && k'.status == k.status && k'.ready == k.ready && k'.current == k.current
         else
           && k'.sems[s].value == 0
           && PutInPlace(sem.waiters, k.current, k.priority, k'.sems[s].waiters, i)
           && HandsOver(k, k', Blocked, k.ready)
  {
    i := InsertPuts(k.sems[s].waiters, k.current, k.priority);
  }

  // ---- over runs ------------------------------------------------------------------------------------------

  /** A thread that has exited never runs or becomes ready again. */
  lemma {:induction false} ExitIsFinal(k: Kernel, es: seq<Event>, t: int)
    requires Inv(k) && Legal(k, es) && t in k.status && k.status[t] == Dying
    ensures t in Final(k, es).status && Final(k, es).status[t] == Dying
    ensures t != Final(k, es).current && t !in Final(k, es).ready
    decreases |es|
  {
    assert ThreadOk(k, t);
    if es != [] {
      StaysDying(k, es[0], t);
      StepKeepsInv(k, es[0]);
      ExitIsFinal(Step(k, es[0]), es[1..], t);
    }
  }

  lemma StaysDying(k: Kernel, e: Event, t: int)
    requires Inv(k) && Enabled(k, e) && t in k.status && k.status[t] == Dying
    ensures t in Step(k, e).status && Step(k, e).status[t] == Dying
  {
    assert ThreadOk(k, t) && ThreadOk(k, k.current) && ThreadOk(k, k.idle);
    assert k.ready != [] ==> k.ready[0] in k.ready;
    if e.EUp? {
      assert SemOk(k, e.s);
      PermutationKeeps(k.sems[e.s].waiters, e.sorted);
      assert e.sorted != [] ==> e.sorted[0] in e.sorted;
    }
    StaysAsIs(k, e, t);
  }

  /** The event wakes the thread. */
  predicate Wakes(e: Event, t: int) {
    e == EUnblock(t) || (e.EUp? && e.sorted != [] && e.sorted[0] == t)
  }

  /** A thread that is neither running, ready nor woken keeps its status. */
  lemma StaysAsIs(k: Kernel, e: Event, t: int)
    requires Inv(k) && Enabled(k, e) && t in k.status && t != k.current && t !in k.ready && t != k.idle
    requires !Wakes(e, t)
    ensures t in Step(k, e).status && Step(k, e).status[t] == k.status[t]
  {
    assert k.ready != [] ==> k.ready[0] in k.ready;
    if e.EYield? && k.current != k.idle {
      InsertKeeps(k.ready, k.current, k.priority);
      var list := InsertOrdered(k.ready, k.current, k.priority);
      assert list[0] in list;
    }
  }

  /** A blocked thread stays blocked until it is unblocked, or is the first of the waiters of a semaphore that is
    * upped. */
  lemma BlockedUntilWoken(k: Kernel, e: Event, t: int)
    requires Inv(k) && Enabled(k, e) && t in k.status && k.status[t] == Blocked && t != k.idle
    ensures t in Step(k, e).status
    ensures Step(k, e).status[t] == if Wakes(e, t) then Ready else Blocked
  {
    assert ThreadOk(k, t);
    if !Wakes(e, t) {
      StaysAsIs(k, e, t);
    }
  }
}
