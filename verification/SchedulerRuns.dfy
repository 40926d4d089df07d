/** Runs of the scheduler under the simulator's contract, with bookkeeping that the scheduler does not see.
  *
  * A World adds to the scheduler's globals the clock, the place of every thread, and a ledger that counts
  * time units one by one from where each thread is, never from the scheduler's own time stamps.
  */
module SchedulerRuns {
  import opened Options
  import opened SchedulerModel
  import opened Sequences

  datatype Place = Ready | OnCpu | IoWait | OnDevice | Finished

  /** Time units spent on the CPU, on the device and waiting. `early` counts the moves (dispatches and I/O
    * starts) made in a unit already charged to the CPU or the device. */
  datatype Ledger = Ledger(cpu: nat, io: nat, waited: nat, early: nat)

  /** What the simulator knows of a thread. `busy`: its current unit is already charged. `turn`: the units on
    * the CPU since it was last dispatched. */
  datatype Life = Life(thread: Thread, place: Place, busy: bool, ledger: Ledger, turn: nat)

  /** `ticked` says that this unit's tick has come. */
  datatype World = World(core: Core, now: int, ticked: bool, lives: map<int, Life>)

  datatype Event =
    | Exec(t: Thread, raw: Extra)
    | Tick(sorted: seq<Thread>)
    | Exit
    | Request(write: bool)
    | IoStarting(tid: int)
    | IoComplete(tid: int)
    | Advance

  function Initial(alg: Algorithm, quantum: int, now: int): World {
    World(Core(alg, quantum, [], None, [], map[]), now, false, map[])
  }

  /** The simulator's side of the contract: fresh tids, one tick per time unit, exits and requests by the
    * running thread in the unit it was given, one I/O start and then one completion per request. */
  ghost predicate Enabled(w: World, e: Event)
    requires Partition(w)
  {
    match e
    case Exec(t, raw) => t.tid !in w.lives
    case Tick(sorted) => !w.ticked && Sorted(w.core, sorted)
    case Exit => w.ticked && w.core.current.Some?
    case Request(_) => w.ticked && w.core.current.Some?
    case IoStarting(tid) => tid in w.lives && w.lives[tid].place == IoWait
    case IoComplete(tid) => tid in w.lives && w.lives[tid].place == OnDevice
    case Advance => w.ticked
  }

  /** The CPU is given to the thread for the unit that begins. */
  function Run(l: Life, dispatched: bool): Life {
    var early := if dispatched && l.busy then l.ledger.early + 1 else l.ledger.early;
    l.(place := OnCpu, busy := true, ledger := l.ledger.(cpu := l.ledger.cpu + 1, early := early),
       turn := if dispatched then 1 else l.turn + 1)
  }

  function StartIo(l: Life): Life {
    l.(place := OnDevice, ledger := l.ledger.(early := if l.busy then l.ledger.early + 1 else l.ledger.early))
  }

  /** The unit in which the operation completes belongs to the device. */
  function FinishIo(l: Life): Life {
    l.(place := Ready, busy := true, ledger := l.ledger.(io := l.ledger.io + 1))
  }

  /** The clock moves: a unit nobody has charged yet goes to the device or to waiting. */
  function Elapse(l: Life): Life {
    var ledger := match l.place
      case OnDevice => l.ledger.(io := l.ledger.io + 1)
      case Ready => if l.busy then l.ledger else l.ledger.(waited := l.ledger.waited + 1)
      case IoWait => if l.busy then l.ledger else l.ledger.(waited := l.ledger.waited + 1)
      case _ => l.ledger;
    l.(busy := false, ledger := ledger)
  }

  /** What a tick that leaves the CPU to `next` means for the threads' lives. */
  function RunNext(lives: map<int, Life>, was: Option<Thread>, next: Thread): map<int, Life>
    requires next.tid in lives && (was.Some? ==> was.value.tid in lives)
  {
    if was == Some(next) then lives[next.tid := Run(lives[next.tid], false)]
    else if was.None? then lives[next.tid := Run(lives[next.tid], true)]
    else lives[was.value.tid := lives[was.value.tid].(place := Ready)]
              [next.tid := Run(lives[next.tid], true)]
  }

  ghost function Step(w: World, e: Event): World
    requires Partition(w) && Enabled(w, e)
  {
    match e
    case Exec(t, raw) =>
      w.(core := SysExec(w.core, t, raw, w.now),
         lives := w.lives[t.tid := Life(t, Ready, false, Ledger(0, 0, 0, 0), 0)])
    case Tick(sorted) =>
      SortKeepsThreads(w, sorted);
      var c := SchedulerModel.Tick(w.core, sorted, w.now);
      assert sorted != [] ==> sorted[0] in sorted;
      w.(core := c, ticked := true,
         lives := if c.current.None? then w.lives else RunNext(w.lives, w.core.current, c.current.value))
    case Exit =>
      var tid := w.core.current.value.tid;
      w.(core := SysExit(w.core, tid, w.now), lives := w.lives[tid := w.lives[tid].(place := Finished)])
    case Request(_) =>
      var tid := w.core.current.value.tid;
      w.(core := SysRequest(w.core, tid, w.now), lives := w.lives[tid := w.lives[tid].(place := IoWait)])
    case IoStarting(tid) =>
      w.(core := SchedulerModel.IoStarting(w.core, tid, w.now), lives := w.lives[tid := StartIo(w.lives[tid])])
    case IoComplete(tid) =>
      w.(core := SchedulerModel.IoComplete(w.core, w.lives[tid].thread, w.now),
         lives := w.lives[tid := FinishIo(w.lives[tid])])
    case Advance =>
      w.(now := w.now + 1, ticked := false, lives := map tid | tid in w.lives :: Elapse(w.lives[tid]))
  }

  // ---- the invariant ---------------------------------------------------------------------------------

  ghost predicate Distinct(q: seq<Thread>) {
    forall i, j :: 0 <= i < j < |q| ==> q[i].tid != q[j].tid
  }

  ghost predicate IsPlaced(w: World, t: Thread, place: Place) {
    t.tid in w.lives && w.lives[t.tid].thread == t && w.lives[t.tid].place == place
  }

  /** A thread whose place is Ready or OnCpu is where the scheduler has it. */
  ghost predicate Located(w: World, tid: int)
    requires tid in w.lives
  {
    var l := w.lives[tid];
    && l.thread.tid == tid
    && tid in w.core.order
    && (l.place.Ready? ==> l.thread in w.core.ready)
    && (l.place.OnCpu? ==> w.core.current == Some(l.thread))
  }

  /** Every thread is in exactly one place, and the globals agree: the running thread is the one on the
    * CPU, and the ready queue holds each ready thread once and nothing else. */
  ghost predicate Partition(w: World) {
    && w.core.extras.Keys == w.lives.Keys
    && Distinct(w.core.ready)
    && (forall t :: t in w.core.ready ==> IsPlaced(w, t, Ready))
    && (w.core.current.Some? ==> IsPlaced(w, w.core.current.value, OnCpu))
    && (forall tid :: tid in w.lives ==> Located(w, tid))
    && (forall k :: 0 <= k < |w.core.order| ==> w.core.order[k] in w.lives)
    && (forall i, j :: 0 <= i < j < |w.core.order| ==> w.core.order[i] != w.core.order[j])
  }

  /** The moment up to which a thread's record has accounted for its time. */
  function Upto(place: Place, x: Extra, now: int, ticked: bool): int {
    match place
    case Ready => x.start
    case IoWait => x.start
    case OnCpu => if ticked then now + 1 else now
    case OnDevice => now
    case Finished => x.finish
  }

  /** Since the thread arrived, every unit is recorded waiting, CPU or device time. */
  predicate Conserved(l: Life, x: Extra, now: int, ticked: bool) {
    Upto(l.place, x, now, ticked) - x.arrive == x.waiting + l.ledger.cpu + l.ledger.io
  }

  /** The recorded waiting time, with what a queued thread has yet to be credited, is the units counted
    * less the early moves; `start` is in the future exactly when the current unit is already charged. */
  predicate WaitCounted(l: Life, x: Extra, now: int) {
    if l.place.Ready? || l.place.IoWait? then
      && (x.start == now + 1 <==> l.busy) && x.start <= now + 1
      && x.waiting + (if l.busy then 0 else now - x.start) == l.ledger.waited - l.ledger.early
    else
      x.waiting == l.ledger.waited - l.ledger.early
  }

  /** Under the remaining-time algorithms the remaining time is the length less the CPU units used. */
  predicate RemainingOk(alg: Algorithm, l: Life, x: Extra) {
    alg.ByRemaining() ==> x.remaining == l.thread.length - l.ledger.cpu
  }

  /** The running thread's unit is charged exactly when the tick has come. */
  predicate BusyOk(l: Life, ticked: bool) {
    l.place.OnCpu? ==> (l.busy <==> ticked)
  }

  /** Under round robin the tick count is the units before this one of the running thread's turn, in whole
    * quanta, if the quantum is positive. */
  predicate QuantumOk(alg: Algorithm, quantum: int, l: Life, x: Extra) {
    alg.RoundRobin? && l.place.OnCpu? ==>
      l.turn >= 1 && 0 <= x.ticks && (quantum >= 1 ==> x.ticks == (l.turn - 1) % quantum)
  }

  predicate Account(alg: Algorithm, quantum: int, l: Life, x: Extra, now: int, ticked: bool) {
    && Conserved(l, x, now, ticked)
    && WaitCounted(l, x, now)
    && RemainingOk(alg, l, x)
    && BusyOk(l, ticked)
    && QuantumOk(alg, quantum, l, x)
  }

  predicate AccountOk(w: World, tid: int)
    requires tid in w.lives && tid in w.core.extras
  {
    Account(w.core.alg, w.core.quantum, w.lives[tid], w.core.extras[tid], w.now, w.ticked)
  }

  ghost predicate Inv(w: World) {
    && Partition(w)
    && forall tid :: tid in w.lives ==> AccountOk(w, tid)
  }

  // ---- queue_sort keeps the queue free of repeats -------------------------------------------------

  lemma SortKeepsThreads(w: World, q: seq<Thread>)
    requires Partition(w) && Sorted(w.core, q)
    ensures Distinct(q) && |q| == |w.core.ready|
    ensures forall t :: t in q <==> t in w.core.ready
    ensures forall t :: t in q ==> IsPlaced(w, t, Ready)
  {
    if w.core.alg.Sorts() {
      PermutationKeeps(w.core.ready, q);
      forall i, j | 0 <= i < j < |q| ensures q[i].tid != q[j].tid {
        assert q[i] in w.core.ready && q[j] in w.core.ready;
      }
    }
  }

  // ---- every event keeps the invariant ----------------------------------------------------------------

  lemma DispatchKeepsPartition(w: World, q: seq<Thread>)
    requires Partition(w) && Enabled(w, Tick(q)) && w.core.current.None? && q != []
    ensures Partition(Step(w, Tick(q)))
  {
    SortKeepsThreads(w, q);
    var w' := Step(w, Tick(q));
    var t := q[0];
    assert t in q;
    forall u | u in w'.core.ready ensures IsPlaced(w', u, Ready) {
      var k :| 0 <= k < |q[1..]| && q[1..][k] == u;
      assert q[k + 1] == u && u in q;
    }
    forall tid | tid in w'.lives ensures Located(w', tid) {
      assert Located(w, tid);
      if tid != t.tid && w.lives[tid].place.Ready? {
        var k :| 0 <= k < |q| && q[k] == w.lives[tid].thread;
        assert q[1..][k - 1] == q[k];
      }
    }
  }

  lemma PreemptKeepsPartition(w: World, q: seq<Thread>)
    requires Partition(w) && Enabled(w, Tick(q)) && w.core.current.Some?
    requires q != [] && q[0].tid in w.lives && Preempts(w.core, q)
    ensures Partition(Step(w, Tick(q)))
  {
    SortKeepsThreads(w, q);
    var w' := Step(w, Tick(q));
    var t, cur := q[0], w.core.current.value;
    assert t in q;
    forall u | u in w'.core.ready ensures IsPlaced(w', u, Ready) {
      if u != cur {
        var k :| 0 <= k < |q[1..]| && q[1..][k] == u;
        assert q[k + 1] == u && u in q;
      }
    }
    forall i, j | 0 <= i < j < |w'.core.ready| ensures w'.core.ready[i].tid != w'.core.ready[j].tid {
      assert w'.core.ready[i] == q[i + 1] && q[i + 1] in q;
    }
    assert w'.core.ready[|q| - 1] == cur;
    forall tid | tid in w'.lives ensures Located(w', tid) {
      assert Located(w, tid);
      if tid != t.tid && w.lives[tid].place.Ready? {
        var k :| 0 <= k < |q| && q[k] == w.lives[tid].thread;
        assert w'.core.ready[k - 1] == q[k];
      }
    }
  }

  lemma StayKeepsPartition(w: World, q: seq<Thread>)
    requires Partition(w) && Enabled(w, Tick(q))
    requires q == [] || (q[0].tid in w.lives && w.core.current.Some? && !Preempts(w.core, q))
    ensures Partition(Step(w, Tick(q)))
  {
    SortKeepsThreads(w, q);
    var w' := Step(w, Tick(q));
    forall u | u in w'.core.ready ensures IsPlaced(w', u, Ready) {
      assert u in q;
    }
    forall tid | tid in w'.lives ensures Located(w', tid) {
      assert Located(w, tid);
    }
  }

  lemma TickKeepsPartition(w: World, q: seq<Thread>)
    requires Partition(w) && Enabled(w, Tick(q))
    ensures Partition(Step(w, Tick(q)))
  {
    SortKeepsThreads(w, q);
    if q == [] {
      StayKeepsPartition(w, q);
    } else {
      assert q[0] in q;
      if w.core.current.None? {
        DispatchKeepsPartition(w, q);
      } else if Preempts(w.core, q) {
        PreemptKeepsPartition(w, q);
      } else {
        StayKeepsPartition(w, q);
      }
    }
  }

  /** A thread joins the ready queue. */
  lemma JoinKeepsQueue(w: World, e: Event)
    requires Partition(w) && Enabled(w, e) && (e.Exec? || e.IoComplete?)
    ensures Distinct(Step(w, e).core.ready)
    ensures forall u :: u in Step(w, e).core.ready ==> IsPlaced(Step(w, e), u, Ready)
  {
    assert forall k :: 0 <= k < |w.core.ready| ==> IsPlaced(w, w.core.ready[k], Ready);
  }

  lemma JoinKeepsLocated(w: World, e: Event, tid: int)
    requires Partition(w) && Enabled(w, e) && (e.Exec? || e.IoComplete?)
    requires tid in Step(w, e).lives
    ensures Located(Step(w, e), tid)
  {
    assert tid in w.lives ==> Located(w, tid);
    assert forall u :: u in w.core.ready ==> u in Step(w, e).core.ready;
  }

  lemma JoinKeepsPartition(w: World, e: Event)
    requires Partition(w) && Enabled(w, e) && (e.Exec? || e.IoComplete?)
    ensures Partition(Step(w, e))
  {
    JoinKeepsQueue(w, e);
    forall tid | tid in Step(w, e).lives ensures Located(Step(w, e), tid) {
      JoinKeepsLocated(w, e, tid);
    }
  }

  /** A thread leaves the CPU or starts its I/O. */
  lemma LeaveKeepsPartition(w: World, e: Event)
    requires Partition(w) && Enabled(w, e) && (e.Exit? || e.Request? || e.IoStarting?)
    ensures Partition(Step(w, e))
  {
    var w' := Step(w, e);
    forall u | u in w'.core.ready ensures IsPlaced(w', u, Ready) {
      assert IsPlaced(w, u, Ready);
    }
    forall tid | tid in w'.lives ensures Located(w', tid) {
      assert Located(w, tid);
    }
  }

  lemma AdvanceKeepsPartition(w: World)
    requires Partition(w) && w.ticked
    ensures Partition(Step(w, Advance))
  {
    var w' := Step(w, Advance);
    forall u | u in w'.core.ready ensures IsPlaced(w', u, Ready) {
      assert IsPlaced(w, u, Ready);
    }
    forall tid | tid in w'.lives ensures Located(w', tid) {
      assert Located(w, tid);
    }
  }

  lemma CallbackKeepsPartition(w: World, e: Event)
    requires Partition(w) && Enabled(w, e) && !e.Tick?
    ensures Partition(Step(w, e))
  {
    if e.Exec? || e.IoComplete? {
      JoinKeepsPartition(w, e);
    } else if e.Advance? {
      AdvanceKeepsPartition(w);
    } else {
      LeaveKeepsPartition(w, e);
    }
  }

  lemma DispatchKeepsAccount(alg: Algorithm, quantum: int, l: Life, x: Extra, now: int)
    requires Account(alg, quantum, l, x, now, false) && l.place.Ready?
    ensures Account(alg, quantum, Run(l, true), OnDispatch(alg, x, now), now, true)
  {
  }

  lemma PreemptKeepsAccount(alg: Algorithm, quantum: int, l: Life, x: Extra, now: int)
    requires Account(alg, quantum, l, x, now, false) && l.place.OnCpu?
    ensures Account(alg, quantum, l.(place := Ready), OnPreempt(alg, x, now), now, true)
  {
  }

  lemma NextUnit(turn: int, quantum: int)
    requires turn >= 1 && quantum >= 1
    ensures turn % quantum == if (turn - 1) % quantum + 1 == quantum then 0 else (turn - 1) % quantum + 1
  {
    var d, m := (turn - 1) / quantum, (turn - 1) % quantum;
    assert turn - 1 == quantum * d + m;
    if m + 1 == quantum {
      RemainderIs(turn, quantum, d + 1, 0);
    } else {
      RemainderIs(turn, quantum, d, m + 1);
    }
  }

  lemma RemainderIs(a: int, b: int, d: int, m: int)
    requires b >= 1 && a == b * d + m && 0 <= m < b
    ensures a % b == m
  {
    var e := a / b;
    assert a == b * e + a % b;
    Distance(b, d, e);
  }

  lemma Distance(b: int, d: int, e: int)
    requires b >= 1
    ensures d > e ==> b * d >= b * e + b
    ensures d < e ==> b * d <= b * e - b
  {
    if d > e {
      Scaled(b, e + 1, d);
    } else if d < e {
      Scaled(b, d + 1, e);
    }
  }

  lemma Scaled(b: int, x: int, y: int)
    requires b >= 1 && x <= y
    ensures b * x <= b * y
  {
  }

  lemma StayKeepsQuantum(alg: Algorithm, quantum: int, l: Life, x: Extra, alone: bool)
    requires QuantumOk(alg, quantum, l, x) && l.place.OnCpu?
    requires alg.RoundRobin? && x.ticks + 1 == quantum ==> alone
    ensures QuantumOk(alg, quantum, Run(l, false), OnStay(alg, quantum, alone, x))
  {
    if alg.RoundRobin? && quantum >= 1 {
      NextUnit(l.turn, quantum);
    }
  }

  /** `alone`: no thread is ready. A thread that stays has not used up its quantum, or is alone. */
  lemma StayKeepsAccount(alg: Algorithm, quantum: int, l: Life, x: Extra, now: int, alone: bool)
    requires Account(alg, quantum, l, x, now, false) && l.place.OnCpu?
    requires alg.RoundRobin? && x.ticks + 1 == quantum ==> alone
    ensures Account(alg, quantum, Run(l, false), OnStay(alg, quantum, alone, x), now, true)
  {
    StayKeepsQuantum(alg, quantum, l, x, alone);
  }

  lemma TickKeepsAccounts(w: World, q: seq<Thread>, tid: int)
    requires Inv(w) && Enabled(w, Tick(q)) && tid in w.lives
    requires Partition(Step(w, Tick(q)))
    requires q != [] ==> IsPlaced(w, q[0], Ready)
    ensures AccountOk(Step(w, Tick(q)), tid)
  {
    var c, l, x := w.core, w.lives[tid], w.core.extras[tid];
    assert AccountOk(w, tid) && Located(w, tid);
    if c.current.None? {
      if q != [] && q[0].tid == tid {
        DispatchKeepsAccount(c.alg, c.quantum, l, x, w.now);
      }
    } else if q != [] && Preempts(c, q) {
      if q[0].tid == tid {
        DispatchKeepsAccount(c.alg, c.quantum, l, x, w.now);
      } else if c.current.value.tid == tid {
        PreemptKeepsAccount(c.alg, c.quantum, l, x, w.now);
      }
    } else if c.current.value.tid == tid {
      StayKeepsAccount(c.alg, c.quantum, l, x, w.now, q == []);
    }
  }

  lemma CallbackKeepsAccounts(w: World, e: Event, tid: int)
    requires Inv(w) && Enabled(w, e) && !e.Tick? && tid in Step(w, e).lives
    requires Partition(Step(w, e))
    ensures AccountOk(Step(w, e), tid)
  {
    assert tid in w.lives ==> AccountOk(w, tid) && Located(w, tid);
  }

  lemma StepKeepsInv(w: World, e: Event)
    requires Inv(w) && Enabled(w, e)
    ensures Inv(Step(w, e))
  {
    var w' := Step(w, e);
    if e.Tick? {
      TickKeepsPartition(w, e.sorted);
      forall tid | tid in w'.lives ensures AccountOk(w', tid) {
        SortKeepsThreads(w, e.sorted);
        assert e.sorted != [] ==> e.sorted[0] in e.sorted;
        TickKeepsAccounts(w, e.sorted, tid);
      }
    } else {
      CallbackKeepsPartition(w, e);
      forall tid | tid in w'.lives ensures AccountOk(w', tid) {
        CallbackKeepsAccounts(w, e, tid);
      }
    }
  }

  // ---- runs ------------------------------------------------------------------------------------------

  /** A sequence of events that the simulator may produce from `w`. */
  ghost predicate Legal(w: World, es: seq<Event>)
    requires Inv(w)
    decreases |es|
  {
    es == [] || (Enabled(w, es[0]) && (StepKeepsInv(w, es[0]); Legal(Step(w, es[0]), es[1..])))
  }

  ghost function Final(w: World, es: seq<Event>): World
    requires Inv(w) && Legal(w, es)
    decreases |es|
  {
    if es == [] then w else (StepKeepsInv(w, es[0]); Final(Step(w, es[0]), es[1..]))
  }
}
