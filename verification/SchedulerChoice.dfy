/** When the running thread loses the CPU, for every algorithm that preempts. */
module SchedulerChoice {
  import opened Options
  import opened SchedulerModel
  import opened SchedulerRuns
  import opened SchedulerTheorems

  // ---- round robin: a turn -----------------------------------------------------------------------------

  /** At a tick the running thread loses the CPU to the head of the queue if and only if it has had whole
    * quanta in its turn and somebody is ready. */
  lemma RoundRobinPreemptsIff(w: World, q: seq<Thread>)
    requires Inv(w) && Enabled(w, Tick(q)) && w.core.current.Some?
    requires w.core.alg.RoundRobin? && w.core.quantum >= 1
    ensures w.core.current.value.tid in w.lives
    ensures
      var t, next := w.core.current.value, Step(w, Tick(q)).core.current;
      if w.lives[t.tid].turn % w.core.quantum == 0 && w.core.ready != [] then
        next == Some(w.core.ready[0]) && next != Some(t)
      else next == Some(t)
  {
    var t := w.core.current.value;
    assert AccountOk(w, t.tid) && IsPlaced(w, t, OnCpu);
    NextUnit(w.lives[t.tid].turn, w.core.quantum);
    assert w.core.ready != [] ==> IsPlaced(w, w.core.ready[0], Ready);
  }

  /** A turn begins with the tick that gives a thread the CPU, and grows by one with each that leaves it. */
  lemma TurnCounts(w: World, q: seq<Thread>, t: Thread)
    requires Inv(w) && Enabled(w, Tick(q)) && Step(w, Tick(q)).core.current == Some(t)
    ensures
      var w' := Step(w, Tick(q));
      && t.tid in w.lives && t.tid in w'.lives
      && w'.lives[t.tid].ledger.cpu == w.lives[t.tid].ledger.cpu + 1
      && w'.lives[t.tid].turn == if w.core.current == Some(t) then w.lives[t.tid].turn + 1 else 1
  {
    SortKeepsThreads(w, q);
    StepKeepsInv(w, Tick(q));
    assert IsPlaced(Step(w, Tick(q)), t, OnCpu);
    if w.core.current.Some? {
      assert IsPlaced(w, w.core.current.value, OnCpu);
    }
  }

  /** Nobody exits or requests I/O: that is for the running thread to do. */
  predicate KeepsRunning(es: seq<Event>) {
    forall k :: 0 <= k < |es| ==> !es[k].Exit? && !es[k].Request?
  }

  /** Neither clock nor other threads change the turn of the running thread between ticks. */
  lemma BetweenTicks(w: World, e: Event, t: Thread)
    requires Inv(w) && Enabled(w, e) && w.core.current == Some(t)
    requires !e.Tick? && !e.Exit? && !e.Request?
    ensures
      var w' := Step(w, e);
      && w'.core.current == Some(t) && t.tid in w.lives && t.tid in w'.lives
      && w'.lives[t.tid].turn == w.lives[t.tid].turn
      && w'.lives[t.tid].ledger.cpu == w.lives[t.tid].ledger.cpu
  {
    assert IsPlaced(w, t, OnCpu);
  }

  lemma TickWithinTurn(w: World, q: seq<Thread>, t: Thread)
    requires Inv(w) && Enabled(w, Tick(q)) && w.core.current == Some(t) && t.tid in w.lives
    requires w.core.alg.RoundRobin? && 1 <= w.lives[t.tid].turn < w.core.quantum
    ensures
      var w' := Step(w, Tick(q));
      && w'.core.current == Some(t) && t.tid in w'.lives
      && w'.lives[t.tid].turn == w.lives[t.tid].turn + 1
      && w'.lives[t.tid].ledger.cpu == w.lives[t.tid].ledger.cpu + 1
  {
    RoundRobinPreemptsIff(w, q);
    TurnCounts(w, q, t);
  }

  /** Within its first quantum a thread keeps the CPU through every tick, whatever others do meanwhile. */
  lemma {:induction false} TurnLasts(w: World, es: seq<Event>, t: Thread)
    requires Inv(w) && Legal(w, es) && w.core.current == Some(t) && t.tid in w.lives
    requires w.core.alg.RoundRobin? && KeepsRunning(es)
    requires 1 <= w.lives[t.tid].turn && w.lives[t.tid].turn + TickCount(es) <= w.core.quantum
    ensures
      var r := Final(w, es);
      && r.core.current == Some(t) && t.tid in r.lives
      && r.lives[t.tid].turn == w.lives[t.tid].turn + TickCount(es)
      && r.lives[t.tid].ledger.cpu == w.lives[t.tid].ledger.cpu + TickCount(es)
    decreases |es|
  {
    if es != [] {
      var e, w' := es[0], Step(w, es[0]);
      assert !e.Exit? && !e.Request?;
      StepKeepsInv(w, e);
      if e.Tick? {
        TickWithinTurn(w, e.sorted, t);
      } else {
        BetweenTicks(w, e, t);
      }
      TurnLasts(w', es[1..], t);
    }
  }

  /** Round robin: a thread that has just been dispatched keeps the CPU through every tick until it has had
    * exactly `quantum` units, unless it exits or requests I/O; at that tick it loses the CPU if and only if
    * somebody is ready. */
  lemma {:induction false} TurnIsOneQuantum(w: World, es: seq<Event>, t: Thread, q: seq<Thread>)
    requires Inv(w) && Legal(w, es) && w.core.current == Some(t) && t.tid in w.lives
    requires w.core.alg.RoundRobin? && w.core.quantum >= 1 && KeepsRunning(es)
    requires w.lives[t.tid].turn == 1 && TickCount(es) == w.core.quantum - 1
    requires (RunKeepsInv(w, es); Enabled(Final(w, es), Tick(q)))
    ensures
      var r := (RunKeepsInv(w, es); Final(w, es));
      && r.core.current == Some(t) && t.tid in r.lives
      && r.lives[t.tid].ledger.cpu == w.lives[t.tid].ledger.cpu - 1 + w.core.quantum
      && (Step(r, Tick(q)).core.current == Some(t) <==> r.core.ready == [])
  {
    RunKeepsInv(w, es);
    TurnLasts(w, es, t);
    RoundRobinPreemptsIff(Final(w, es), q);
  }

  // ---- the other preemptive algorithms ---------------------------------------------------------------------

  /** The time a thread has left by the ledger. */
  function Left(w: World, t: Thread): int
    requires t.tid in w.lives
  {
    t.length - w.lives[t.tid].ledger.cpu
  }

  /** Under preemptive priority, shortest job and shortest remaining time a tick takes the CPU from the running
    * thread if and only if some ready thread has a strictly lower priority number, length or time left. */
  lemma PreemptsIff(w: World, q: seq<Thread>)
    requires Inv(w) && Enabled(w, Tick(q)) && w.core.current.Some?
    requires w.core.alg.Sorts() && w.core.alg.Preemptive()
    ensures w.core.current.value.tid in w.lives && forall t :: t in w.core.ready ==> t.tid in w.lives
    ensures
      var cur, lost := w.core.current.value, Step(w, Tick(q)).core.current != w.core.current;
      && (w.core.alg.PreemptivePriority? ==>
            (lost <==> exists t :: t in w.core.ready && t.priority < cur.priority))
      && (w.core.alg.PreemptiveShortestJobFirst? ==>
            (lost <==> exists t :: t in w.core.ready && t.length < cur.length))
      && (w.core.alg.PreemptiveShortestRemainingTimeFirst? ==>
            (lost <==> exists t :: t in w.core.ready && Left(w, t) < Left(w, cur)))
  {
    SortKeepsThreads(w, q);
    HeadIsLeast(w, q);
    var cur := w.core.current.value;
    assert AccountOk(w, cur.tid) && IsPlaced(w, cur, OnCpu);
    forall t | t in w.core.ready
      ensures t in q && IsPlaced(w, t, Ready) && AccountOk(w, t.tid)
    {
    }
    if q != [] {
      assert q[0] in q && q[0] in w.core.ready;
    }
  }
}
