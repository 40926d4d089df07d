/** What the scheduler guarantees over whole runs. */
module SchedulerTheorems {
  import opened Options
  import opened SchedulerModel
  import opened SchedulerRuns

  // ---- conservation of time ----------------------------------------------------------------------------

  lemma {:induction false} RunKeepsInv(w: World, es: seq<Event>)
    requires Inv(w) && Legal(w, es)
    ensures Inv(Final(w, es))
    ensures Final(w, es).core.alg == w.core.alg && Final(w, es).core.quantum == w.core.quantum
    decreases |es|
  {
    if es != [] {
      StepKeepsInv(w, es[0]);
      RunKeepsInv(Step(w, es[0]), es[1..]);
    }
  }

  /** For every algorithm and every run: a finished thread's turnaround is its recorded waiting time plus
    * the units it was on the CPU plus the units it was on the device, and the recorded waiting time is the
    * units it waited, exactly when it was never moved on within a unit already charged. */
  lemma TimeIsConserved(alg: Algorithm, quantum: int, start: int, es: seq<Event>, tid: int)
    requires Legal(Initial(alg, quantum, start), es)
    requires tid in Final(Initial(alg, quantum, start), es).lives
    requires Final(Initial(alg, quantum, start), es).lives[tid].place == Finished
    ensures
      var w := Final(Initial(alg, quantum, start), es);
      var l := w.lives[tid].ledger;
      && tid in w.core.extras
      && var x := w.core.extras[tid];
         && x.finish - x.arrive == x.waiting + l.cpu + l.io
         && x.waiting == l.waited - l.early
         && (x.waiting == l.waited <==> l.early == 0)
  {
    RunKeepsInv(Initial(alg, quantum, start), es);
    assert AccountOk(Final(Initial(alg, quantum, start), es), tid);
  }

  /** In every reachable state each thread is in exactly one place and the globals say which. */
  lemma ThreadsArePartitioned(alg: Algorithm, quantum: int, start: int, es: seq<Event>, t: Thread)
    requires Legal(Initial(alg, quantum, start), es)
    ensures
      var w := Final(Initial(alg, quantum, start), es);
      && Distinct(w.core.ready)
      && (t in w.core.ready <==> IsPlaced(w, t, Ready))
      && (w.core.current == Some(t) <==> IsPlaced(w, t, OnCpu))
  {
    RunKeepsInv(Initial(alg, quantum, start), es);
    var w := Final(Initial(alg, quantum, start), es);
    if t.tid in w.lives {
      assert Located(w, t.tid);
    }
  }

  function Spent(order: seq<int>, lives: map<int, Life>): int
    requires forall k :: 0 <= k < |order| ==> order[k] in lives
  {
    if order == [] then 0
    else
      var l := lives[order[|order| - 1]].ledger;
      Spent(order[..|order| - 1], lives) + l.cpu + l.io
  }

  /** The totals behind the two averages of the report differ by the CPU and device units of all threads. */
  lemma {:induction false} ReportBalances(w: World, order: seq<int>)
    requires Inv(w)
    requires forall k :: 0 <= k < |order| ==> order[k] in w.lives && w.lives[order[k]].place == Finished
    ensures
      var r := Report(order, w.core.extras);
      TotalTurnaround(r) == TotalWaiting(r) + Spent(order, w.lives)
  {
    if order != [] {
      var n := |order| - 1;
      var r := Report(order, w.core.extras);
      assert r[..n] == Report(order[..n], w.core.extras);
      ReportBalances(w, order[..n]);
      assert AccountOk(w, order[n]);
    }
  }

  /** When the simulation is over, the report has one line for every thread and it balances. */
  lemma FinalReport(alg: Algorithm, quantum: int, start: int, es: seq<Event>)
    requires Legal(Initial(alg, quantum, start), es)
    requires
      var w := Final(Initial(alg, quantum, start), es);
      forall tid :: tid in w.lives ==> w.lives[tid].place == Finished
    ensures
      var w := Final(Initial(alg, quantum, start), es);
      && w.lives.Keys == w.core.extras.Keys
      && (forall tid :: tid in w.lives <==> tid in w.core.order)
      && (forall i, j :: 0 <= i < j < |w.core.order| ==> w.core.order[i] != w.core.order[j])
      && (forall k :: 0 <= k < |w.core.order| ==> w.core.order[k] in w.core.extras)
      && var r := Report(w.core.order, w.core.extras);
         TotalTurnaround(r) == TotalWaiting(r) + Spent(w.core.order, w.lives)
  {
    RunKeepsInv(Initial(alg, quantum, start), es);
    var w := Final(Initial(alg, quantum, start), es);
    forall tid | tid in w.lives ensures tid in w.core.order {
      assert Located(w, tid);
    }
    ReportBalances(w, w.core.order);
  }

  // ---- choice --------------------------------------------------------------------------------------------

  /** After a tick the CPU is idle only if nobody is ready. */
  lemma NoIdling(w: World, q: seq<Thread>)
    requires Inv(w) && Enabled(w, Tick(q))
    ensures
      var c := Step(w, Tick(q)).core;
      c.current.None? ==> c.ready == [] && w.core.current.None? && w.core.ready == []
  {
    SortKeepsThreads(w, q);
  }

  /** After a tick the running thread's key is least among the ready keys: always under preemptive priority
    * and shortest job, and whenever a free CPU was given away under their non-preemptive forms. */
  lemma RunsTheLeastKey(w: World, q: seq<Thread>, t: Thread)
    requires Inv(w) && Enabled(w, Tick(q))
    requires w.core.alg.ByPriority() || w.core.alg.ByLength()
    requires w.core.alg.Preemptive() || w.core.current.None?
    requires t in Step(w, Tick(q)).core.ready
    ensures
      var c := Step(w, Tick(q)).core;
      && c.current.Some?
      && (c.alg.ByPriority() ==> c.current.value.priority <= t.priority)
      && (c.alg.ByLength() ==> c.current.value.length <= t.length)
  {
    SortKeepsThreads(w, q);
    HeadIsLeast(w, q);
    TickRearranges(w, q, t);
  }

  /** A tick gives the CPU to the head of the sorted queue. */
  predicate TakesHead(c: Core, q: seq<Thread>) {
    && q != [] && q[0].tid in c.extras
    && (c.current.Some? ==> c.current.value.tid in c.extras && Preempts(c, q))
  }

  lemma HeadIsLeast(w: World, q: seq<Thread>)
    requires Inv(w) && Sorted(w.core, q) && w.core.alg.Sorts()
    ensures forall t :: t in q ==>
      q[0].tid in w.core.extras && t.tid in w.core.extras &&
      Key(w.core.alg, w.core.extras, q[0]) <= Key(w.core.alg, w.core.extras, t)
  {
    SortKeepsThreads(w, q);
    forall t | t in q
      ensures q[0].tid in w.core.extras && t.tid in w.core.extras
      ensures Key(w.core.alg, w.core.extras, q[0]) <= Key(w.core.alg, w.core.extras, t)
    {
      assert q[0] in q && IsPlaced(w, q[0], Ready) && IsPlaced(w, t, Ready);
      var k :| 0 <= k < |q| && q[k] == t;
    }
  }

  /** A thread that is ready after a tick was ready before it or was the running thread. */
  lemma TickRearranges(w: World, q: seq<Thread>, t: Thread)
    requires Inv(w) && Enabled(w, Tick(q))
    requires t in Step(w, Tick(q)).core.ready
    ensures t in q || w.core.current == Some(t)
    ensures w.core.current == Some(t) ==>
      TakesHead(w.core, q) && Preempts(w.core, q) && Step(w, Tick(q)).core.current == Some(q[0])
  {
    SortKeepsThreads(w, q);
    var w' := Step(w, Tick(q));
    TickKeepsPartition(w, q);
    if w.core.current.Some? && q != [] {
      assert q[0] in q;
      assert forall u :: u in q[1..] ==> u in q;
    }
  }

  /** Preemptive SRTF: after every tick the running thread has strictly less time left than every ready
    * thread. The same holds under the non-preemptive form whenever a free CPU was given away. */
  lemma RunsTheShortestRemaining(w: World, q: seq<Thread>, t: Thread)
    requires Inv(w) && Enabled(w, Tick(q))
    requires w.core.alg.ByRemaining() && (w.core.alg.Preemptive() || w.core.current.None?)
    requires t in Step(w, Tick(q)).core.ready
    ensures
      var c := Step(w, Tick(q)).core;
      && c.current.Some?
      && c.current.value.tid in c.extras && t.tid in c.extras
      && c.extras[c.current.value.tid].remaining < c.extras[t.tid].remaining
  {
    SortKeepsThreads(w, q);
    HeadIsLeast(w, q);
    TickRearranges(w, q, t);
    StepKeepsInv(w, Tick(q));
    assert IsPlaced(Step(w, Tick(q)), t, Ready);
    if q != [] {
      assert q[0] in q;
    }
  }

  /** Over every run of either remaining-time algorithm: remaining time is length minus CPU units. */
  lemma RemainingIsLengthMinusCpu(alg: Algorithm, quantum: int, start: int, es: seq<Event>, tid: int)
    requires alg.ByRemaining()
    requires Legal(Initial(alg, quantum, start), es)
    requires tid in Final(Initial(alg, quantum, start), es).lives
    ensures
      var w := Final(Initial(alg, quantum, start), es);
      && tid in w.core.extras
      && w.core.extras[tid].remaining == w.lives[tid].thread.length - w.lives[tid].ledger.cpu
  {
    RunKeepsInv(Initial(alg, quantum, start), es);
    assert AccountOk(Final(Initial(alg, quantum, start), es), tid);
  }

  /** A tick takes exactly one unit of remaining time, from the thread that is running after it. */
  lemma BusyTickCostsOne(w: World, q: seq<Thread>, tid: int)
    requires Inv(w) && Enabled(w, Tick(q)) && w.core.alg.ByRemaining() && tid in w.core.extras
    ensures
      var c := Step(w, Tick(q)).core;
      && tid in c.extras
      && c.extras[tid].remaining == w.core.extras[tid].remaining -
           (if c.current.Some? && c.current.value.tid == tid then 1 else 0)
  {
    SortKeepsThreads(w, q);
    assert q != [] ==> q[0] in q;
  }

  /** A non-preemptive algorithm takes the CPU from nobody: only an exit or a request frees it. */
  lemma NonPreemptiveKeepsTheCpu(w: World, e: Event)
    requires Inv(w) && Enabled(w, e) && w.core.current.Some? && !w.core.alg.Preemptive()
    ensures
      var c := Step(w, e).core;
      c.current == if e.Exit? || e.Request? then None else w.core.current
  {
  }

  // ---- order and starvation ----------------------------------------------------------------------------

  predicate Fifo(alg: Algorithm) { alg.FirstComeFirstServed? || alg.RoundRobin? }

  /** Under first come first served and round robin nobody is overtaken: whatever happens, the thread at
    * index p stays at p, or the head leaves for the CPU and it moves to p - 1, or it is that head. */
  lemma NobodyOvertakes(w: World, e: Event, p: nat)
    requires Inv(w) && Enabled(w, e) && Fifo(w.core.alg) && p < |w.core.ready|
    ensures
      var c := Step(w, e).core;
      var t := w.core.ready[p];
      if e.Tick? && TakesHead(w.core, w.core.ready) then
        && c.current == Some(w.core.ready[0])
        && (p > 0 ==> p - 1 < |c.ready| && c.ready[p - 1] == t)
      else
        && (e.Tick? ==> c.current == w.core.current)
        && p < |c.ready| && c.ready[p] == t
  {
    assert IsPlaced(w, w.core.ready[0], Ready);
    if w.core.current.Some? {
      assert IsPlaced(w, w.core.current.value, OnCpu);
    }
  }

  predicate IsTick(e: Event) { e.Tick? }

  function TickCount(es: seq<Event>): nat {
    if es == [] then 0 else (if IsTick(es[0]) then 1 else 0) + TickCount(es[1..])
  }

  /** Some tick of the run leaves the CPU to `t`. */
  ghost predicate ReachesCpu(w: World, es: seq<Event>, t: Thread)
    requires Inv(w) && Legal(w, es)
    decreases |es|
  {
    es != [] &&
    (StepKeepsInv(w, es[0]);
     var w' := Step(w, es[0]);
     (es[0].Tick? && w'.core.current == Some(t)) || ReachesCpu(w', es[1..], t))
  }

  /** An upper bound on the ticks until the thread at index p runs. */
  function Bound(w: World, p: nat): int
    requires WellFormed(w.core)
  {
    p * w.core.quantum +
    if w.core.current.Some? then w.core.quantum - w.core.extras[w.core.current.value.tid].ticks else 1
  }

  lemma BoundFalls(w: World, e: Event, p: nat)
    requires Inv(w) && Enabled(w, e) && w.core.alg.RoundRobin? && w.core.quantum >= 1 && p < |w.core.ready|
    ensures
      var w', t := Step(w, e), w.core.ready[p];
      || (e.Tick? && w'.core.current == Some(t))
      || exists p': nat :: p' <= p && p' < |w'.core.ready| && w'.core.ready[p'] == t &&
           WellFormed(w'.core) && Bound(w', p') <= Bound(w, p) - (if IsTick(e) then 1 else 0)
  {
    var w', t := Step(w, e), w.core.ready[p];
    StepKeepsInv(w, e);
    NobodyOvertakes(w, e, p);
    if w.core.current.Some? {
      assert AccountOk(w, w.core.current.value.tid) && IsPlaced(w, w.core.current.value, OnCpu);
    }
    assert IsPlaced(w, w.core.ready[0], Ready) && IsPlaced(w, t, Ready);
    if e.Tick? && TakesHead(w.core, w.core.ready) {
      if p > 0 {
        assert (p - 1) * w.core.quantum == p * w.core.quantum - w.core.quantum;
        assert Bound(w', p - 1) <= Bound(w, p) - 1;
      }
    } else {
      assert Bound(w', p) <= Bound(w, p) - (if IsTick(e) then 1 else 0);
    }
  }

  lemma {:induction false} ReachesWithinBound(w: World, es: seq<Event>, p: nat)
    requires Inv(w) && Legal(w, es)
    requires w.core.alg.RoundRobin? && w.core.quantum >= 1 && p < |w.core.ready|
    requires TickCount(es) >= Bound(w, p)
    ensures ReachesCpu(w, es, w.core.ready[p])
    decreases |es|
  {
    var t := w.core.ready[p];
    if w.core.current.Some? {
      assert AccountOk(w, w.core.current.value.tid) && IsPlaced(w, w.core.current.value, OnCpu);
    }
    assert p * w.core.quantum >= 0;
    assert es != [];
    var w' := Step(w, es[0]);
    StepKeepsInv(w, es[0]);
    BoundFalls(w, es[0], p);
    if !(es[0].Tick? && w'.core.current == Some(t)) {
      var p': nat :| p' <= p && p' < |w'.core.ready| && w'.core.ready[p'] == t &&
        WellFormed(w'.core) && Bound(w', p') <= Bound(w, p) - (if IsTick(es[0]) then 1 else 0);
      ReachesWithinBound(w', es[1..], p');
    }
  }

  /** Round robin with a positive quantum starves nobody: the thread at index p gets the CPU within
    * (p + 1) * quantum ticks, whatever arrives, exits, or starts and completes I/O meanwhile. */
  lemma RoundRobinStarvesNobody(w: World, es: seq<Event>, p: nat)
    requires Inv(w) && Legal(w, es)
    requires w.core.alg.RoundRobin? && w.core.quantum >= 1 && p < |w.core.ready|
    requires TickCount(es) >= (p + 1) * w.core.quantum
    ensures ReachesCpu(w, es, w.core.ready[p])
  {
    if w.core.current.Some? {
      assert AccountOk(w, w.core.current.value.tid) && IsPlaced(w, w.core.current.value, OnCpu);
    }
    assert (p + 1) * w.core.quantum == p * w.core.quantum + w.core.quantum;
    ReachesWithinBound(w, es, p);
  }

  /** A quantum of zero is never used up, so the running thread starves every other until it leaves. */
  lemma {:induction false} ZeroQuantumStarves(w: World, es: seq<Event>, t: Thread)
    requires Inv(w) && Legal(w, es)
    requires w.core.alg.RoundRobin? && w.core.quantum == 0
    requires w.core.current.Some? && w.core.current != Some(t)
    requires forall k :: 0 <= k < |es| ==> !es[k].Exit? && !es[k].Request?
    ensures !ReachesCpu(w, es, t)
    decreases |es|
  {
    if es != [] {
      assert AccountOk(w, w.core.current.value.tid) && IsPlaced(w, w.core.current.value, OnCpu);
      assert !es[0].Exit? && !es[0].Request?;
      StepKeepsInv(w, es[0]);
      ZeroQuantumStarves(Step(w, es[0]), es[1..], t);
    }
  }
}
