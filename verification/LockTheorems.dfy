/** Locks on the kernel's semaphores: mutual exclusion in every interleaving of all kernel calls.
  * A lock is named by its semaphore. What donation writes to priorities is any EPriorities event. */
module LockTheorems {
  import opened Options
  import opened Sequences
  import opened KernelModel
  import opened KernelTheorems
  import LM = LockModel

  datatype LockKernel = LockKernel(k: Kernel, v: LM.Locks)

  /** A kernel region outside the lock code, or an operation of a lock call with its region. */
  datatype LockEvent =
    | LOther(e: Event)
    | LInit(l: int)
    | LAcquire(l: int)
    | LDown(l: int)
    | LSetHolder(l: int)
    | LClearHolder(l: int)
    | LUp(l: int, sorted: seq<int>)

  function OpOf(e: LockEvent): LM.Op {
    match e
    case LOther(e) => if e.ECreate? then LM.Born(e.t) else LM.Skip
    case LInit(l) => LM.Init(l)
    case LAcquire(l) => LM.Acquire(l)
    case LDown(l) => LM.Down(l)
    case LSetHolder(l) => LM.SetHolder(l)
    case LClearHolder(l) => LM.ClearHolder(l)
    case LUp(l, _) => LM.Up(l)
  }

  function Region(e: LockEvent): Option<Event> {
    match e
    case LOther(e) => Some(e)
    case LInit(l) => Some(ENewSem(l, 1))
    case LDown(l) => Some(EDown(l))
    case LUp(l, sorted) => Some(EUp(l, sorted))
    case _ => None
  }

  /** Outside the lock code, a lock's semaphore is not touched; a thread in a lock call makes no other. */
  ghost predicate Foreign(s: LockKernel, e: Event) {
    s.k.current in s.v.stage &&
    match e
    case EDown(r) => r !in s.v.value && s.v.stage[s.k.current] == LM.Out
    case EUp(r, _) => r !in s.v.value
    case EBlock => s.v.stage[s.k.current] == LM.Out
    case EExit => s.v.stage[s.k.current] == LM.Out
    case _ => true
  }

  ghost predicate LEnabled(s: LockKernel, e: LockEvent) {
    && LM.Allowed(s.v, s.k.current, OpOf(e))
    && (e.LOther? ==> Foreign(s, e.e))
    && (e.LAcquire? ==> s.k.current in s.k.pc && s.k.pc[s.k.current] == Free)
    && (Region(e).Some? ==> Enabled(s.k, Region(e).value))
  }

  ghost function KernelAfter(s: LockKernel, e: LockEvent): Kernel
    requires LEnabled(s, e)
  {
    match Region(e)
    case None => s.k
    case Some(region) => Step(s.k, region)
  }

  ghost function LStep(s: LockKernel, e: LockEvent): LockKernel
    requires LEnabled(s, e)
  {
    LockKernel(KernelAfter(s, e), LM.Do(s.v, s.k.current, OpOf(e)))
  }

  /** The kernel's semaphores have the values the locks count on. */
  ghost predicate Coupled(k: Kernel, v: LM.Locks) {
    && v.stage.Keys == k.status.Keys
    && forall l :: l in v.value ==> l in k.sems && k.sems[l].value == v.value[l]
  }

  ghost predicate LInv(s: LockKernel) {
    Inv(s.k) && LM.LocksOk(s.v) && Coupled(s.k, s.v)
  }

  // ---- every event keeps the invariant -----------------------------------------------------------------

  predicate Touches(e: Event, l: int) { (e.EDown? || e.EUp?) && e.s == l }

  /** What the locks need to know of a kernel region. */
  ghost predicate Moved(k: Kernel, e: Event, k': Kernel) {
    && k'.status.Keys == k.status.Keys + (if e.ECreate? then {e.t} else {})
    && (forall l :: l in k.sems ==> l in k'.sems)
    && (forall l :: l in k.sems && !Touches(e, l) ==> k'.sems[l] == k.sems[l])
    && (e.ENewSem? ==> e.s in k'.sems && k'.sems[e.s] == Semaphore(e.value, []))
    && (e.EDown? && e.s in k.sems ==>
          k'.sems[e.s].value == if k.sems[e.s].value == 0 then 0 else k.sems[e.s].value - 1)
    && (e.EUp? && e.s in k.sems ==> k'.sems[e.s].value == k.sems[e.s].value + 1)
  }

  lemma ScheduleMoves(k: Kernel)
    requires WellFormed(k)
    ensures Schedule(k).status.Keys == k.status.Keys && Schedule(k).sems == k.sems
  {
    assert k.ready != [] ==> k.ready[0] in k.priority;
  }

  lemma BlockMoves(k: Kernel)
    requires WellFormed(k)
    ensures Block(k).status.Keys == k.status.Keys && Block(k).sems == k.sems
  {
    ScheduleMoves(k.(status := k.status[k.current := Blocked]));
  }

  lemma DownRegionMoves(k: Kernel, s: int)
    requires Inv(k) && Enabled(k, EDown(s))
    ensures Moved(k, EDown(s), Down(k, s))
  {
    var sem := k.sems[s];
    if sem.value == 0 {
      var asleep := k.(sems := k.sems[s := sem.(waiters := InsertOrdered(sem.waiters, k.current, k.priority))],
                       pc := k.pc[k.current := InDown(s)]);
      BlockMoves(asleep);
      assert Down(k, s) == Block(asleep);
    }
  }

  lemma UpRegionMoves(k: Kernel, s: int, sorted: seq<int>)
    requires Inv(k) && Enabled(k, EUp(s, sorted))
    ensures Moved(k, EUp(s, sorted), Up(k, s, sorted))
  {
    PermutationKeeps(k.sems[s].waiters, sorted);
    assert sorted != [] ==> sorted[0] in sorted && sorted[0] in k.sems[s].waiters;
    assert sorted != [] ==> sorted[0] in k.priority;
  }

  lemma OtherRegionMoves(k: Kernel, e: Event)
    requires Inv(k) && Enabled(k, e) && (e.EBlock? || e.EYield? || e.EExit?)
    ensures Moved(k, e, Step(k, e))
  {
    match e
    case EBlock => BlockMoves(k);
    case EYield =>
      ScheduleMoves(k.(
        ready := if k.current != k.idle then InsertOrdered(k.ready, k.current, k.priority) else k.ready,
        status := k.status[k.current := Ready]));
    case EExit => ScheduleMoves(k.(status := k.status[k.current := Dying]));
  }

  lemma RegionMoves(k: Kernel, e: Event)
    requires Inv(k) && Enabled(k, e)
    ensures Moved(k, e, Step(k, e))
  {
    match e
    case EDown(s) => DownRegionMoves(k, s);
    case EUp(s, sorted) => UpRegionMoves(k, s, sorted);
    case EBlock => OtherRegionMoves(k, e);
    case EYield => OtherRegionMoves(k, e);
    case EExit => OtherRegionMoves(k, e);
    case _ =>
  }

  lemma CoupledAfter(k: Kernel, v: LM.Locks, e: LockEvent, k': Kernel)
    requires Coupled(k, v) && LM.Allowed(v, k.current, OpOf(e))
    requires e.LOther? ==> Foreign(LockKernel(k, v), e.e)
    requires e.LOther? && e.e.ENewSem? ==> e.e.s !in k.sems
    requires if Region(e).Some? then Moved(k, Region(e).value, k') else k' == k
    ensures Coupled(k', LM.Do(v, k.current, OpOf(e)))
  {
    var v' := LM.Do(v, k.current, OpOf(e));
    forall l | l in v'.value ensures l in k'.sems && k'.sems[l].value == v'.value[l] {
      if l in v.value {
        assert l in k.sems && l in k'.sems;
        assert Region(e).Some? && !Touches(Region(e).value, l) ==> k'.sems[l] == k.sems[l];
      }
    }
  }

  lemma LStepKeeps(s: LockKernel, e: LockEvent)
    requires LInv(s) && LEnabled(s, e)
    ensures LInv(LStep(s, e))
  {
    var k' := KernelAfter(s, e);
    if Region(e).Some? {
      StepKeepsInv(s.k, Region(e).value);
      RegionMoves(s.k, Region(e).value);
    }
    CoupledAfter(s.k, s.v, e, k');
    LM.DoKeeps(s.v, s.k.current, OpOf(e));
  }

  // ---- runs --------------------------------------------------------------------------------------------

  ghost predicate LLegal(s: LockKernel, es: seq<LockEvent>)
    requires LInv(s)
    decreases |es|
  {
    es == [] || (LEnabled(s, es[0]) && (LStepKeeps(s, es[0]); LLegal(LStep(s, es[0]), es[1..])))
  }

  ghost function LFinal(s: LockKernel, es: seq<LockEvent>): (r: LockKernel)
    requires LInv(s) && LLegal(s, es)
    ensures LInv(r)
    decreases |es|
  {
    if es == [] then s else (LStepKeeps(s, es[0]); LFinal(LStep(s, es[0]), es[1..]))
  }

  function LBooted(main: int, p: int, idle: int): LockKernel {
    LockKernel(Booted(main, p, idle), LM.Locks(map[], map[], map[main := LM.Out, idle := LM.Out], map[]))
  }

  /** In every interleaving, for arbitrary priority writes: at most one thread is between the completed
    * down and the up of a lock, holder is NULL or that thread, and value + threads inside == 1. */
  lemma MutualExclusion(main: int, p: int, idle: int, es: seq<LockEvent>, l: int, t: int, u: int)
    requires main != idle
    requires (BootedIsOk(main, p, idle); LLegal(LBooted(main, p, idle), es))
    ensures
      var s := (BootedIsOk(main, p, idle); LFinal(LBooted(main, p, idle), es));
      var v := s.v;
      l in v.value ==>
        && l in s.k.sems && l in v.inside && l in v.holder
        && s.k.sems[l].value + |v.inside[l]| == 1
        && (t in v.inside[l] && u in v.inside[l] ==> t == u)
        && (v.holder[l] == Some(t) ==> t in v.inside[l])
        && (t in v.inside[l] && v.holder[l] != Some(t) ==>
              v.holder[l] == None && t in v.stage && LM.InBetween(v.stage[t], l))
  {
    BootedIsOk(main, p, idle);
    var v := LFinal(LBooted(main, p, idle), es).v;
    if l in v.value {
      assert LM.LockOk(v, l);
      if t in v.inside[l] && u in v.inside[l] {
        LM.OneMember(v.inside[l], t, u);
      }
      if t in v.inside[l] && v.holder[l].Some? {
        LM.OneMember(v.inside[l], t, v.holder[l].value);
      }
    }
  }
}
