/** A condition variable with its lock: what a signal and a broadcast guarantee in every interleaving.
  *
  * A waiting thread has a private semaphore. condvar_wait puts it on the list, releases the lock (two lock
  * operations), and downs it; any thread can run in between. list_sort and ordered insertion may leave the
  * list in any order: the comparator reads lists that change under it. A signal is one step, although
  * interrupts are on between its pop and its up; PopMovesToTheUp says why.
  */
module Condvars {
  import opened Options
  import opened Sequences
  import opened KernelModel
  import opened KernelTheorems
  import opened LockTheorems
  import LM = LockModel
  import CM = CondModel

  /** `owner` is the thread that made a private semaphore, `waiting` the private semaphore of a thread that
    * has not got past its down, and `popped` holds the semaphores that a signal took off the list. */
  datatype Cond = Cond(
    s: LockKernel,
    lock: int,
    waiters: seq<int>,
    owner: map<int, int>,
    waiting: map<int, int>,
    popped: set<int>)

  datatype CondEvent =
    | COther(e: LockEvent)
    | CWait(w: int, list: seq<int>)
    | CDown
    | CSignal(order: seq<int>, sorted: seq<int>)

  ghost predicate HoldsLock(c: Cond, t: int) {
    c.lock in c.s.v.holder && c.s.v.holder[c.lock] == Some(t) && t in c.s.v.stage && c.s.v.stage[t] == LM.Out
  }

  /** Outside the condition variable nobody touches a private semaphore, and a thread inside condvar_wait
    * only releases the lock; the rest may be done by interrupt handlers and the timer. */
  ghost predicate Elsewhere(c: Cond, e: LockEvent) {
    && (e.LOther? && (e.e.EDown? || e.e.EUp?) ==> e.e.s !in c.owner)
    && (c.s.k.current in c.waiting ==>
          || e == LClearHolder(c.lock)
          || e.LUp?
          || (e.LOther? && !e.e.EDown? && !e.e.EBlock? && !e.e.EExit?))
  }

  /** The lock event, if any, that the event consists of besides the list operation. */
  function Inner(c: Cond, e: CondEvent): LockEvent
    requires e.CDown? ==> c.s.k.current in c.waiting
    requires e.CSignal? ==> e.order != []
  {
    match e
    case COther(e) => e
    case CWait(w, _) => LOther(ENewSem(w, 0))
    case CDown => LOther(EDown(c.waiting[c.s.k.current]))
    case CSignal(order, sorted) => LOther(EUp(order[0], sorted))
  }

  ghost predicate CEnabled(c: Cond, e: CondEvent) {
    var cur := c.s.k.current;
    && (e.CDown? ==> cur in c.waiting)
    && (e.CSignal? ==> e.order != [])
    && LEnabled(c.s, Inner(c, e))
    && match e
       case COther(e) => Elsewhere(c, e)
       case CWait(w, list) => HoldsLock(c, cur) && cur !in c.waiting && multiset(list) == multiset(c.waiters + [w])
       case CDown => !HoldsLock(c, cur)
       case CSignal(order, _) => HoldsLock(c, cur) && cur !in c.waiting && multiset(order) == multiset(c.waiters)
  }

  ghost function CStep(c: Cond, e: CondEvent): Cond
    requires CEnabled(c, e)
  {
    var cur := c.s.k.current;
    var s' := LStep(c.s, Inner(c, e));
    match e
    case COther(_) => c.(s := s')
    case CWait(w, list) => c.(s := s', waiters := list, owner := c.owner[w := cur], waiting := c.waiting[cur := w])
    case CDown =>
      var w := c.waiting[cur];
      c.(s := s', waiting := if w in c.s.k.sems && c.s.k.sems[w].value > 0 then c.waiting - {cur} else c.waiting)
    case CSignal(order, _) => c.(s := s', waiters := order[1..], popped := c.popped + {order[0]})
  }

  // ---- every event keeps the invariant -----------------------------------------------------------------

  ghost function Values(k: Kernel): map<int, nat> {
    map r | r in k.sems :: k.sems[r].value
  }

  ghost function View(c: Cond): CM.Waits {
    CM.Waits(Values(c.s.k), c.s.k.pc, c.waiters, c.owner, c.waiting, c.popped)
  }

  ghost predicate CInv(c: Cond) {
    && LInv(c.s)
    && c.lock in c.s.v.value
    && (forall w :: w in c.owner ==> w !in c.s.v.value)
    && CM.WaitsOk(View(c))
  }

  /** How a kernel region moves the threads through the semaphore code. */
  ghost predicate PcMoved(k: Kernel, e: Event, k': Kernel) {
    && k'.pc.Keys == k.pc.Keys + (if e.ECreate? then {e.t} else {})
    && (forall t :: t in k.pc && !(e.EDown? && t == k.current) ==> k'.pc[t] == k.pc[t])
    && (e.ECreate? ==> k'.pc[e.t] == Free)
    && (e.EDown? && e.s in k.sems && k.current in k.pc ==>
          k'.pc[k.current] == if k.sems[e.s].value == 0 then InDown(e.s) else Free)
  }

  lemma RegionMovesPc(k: Kernel, e: Event)
    requires Inv(k) && Enabled(k, e)
    ensures PcMoved(k, e, Step(k, e))
  {
  }

  /** What the condition variable needs to know of the kernel after the inner event. */
  ghost predicate KernelMoved(k: Kernel, e: LockEvent, k': Kernel) {
    match Region(e)
    case None => k' == k
    case Some(region) => Moved(k, region, k') && PcMoved(k, region, k')
  }

  lemma InnerMoves(s: LockKernel, e: LockEvent)
    requires LInv(s) && LEnabled(s, e)
    ensures KernelMoved(s.k, e, LStep(s, e).k)
  {
    if Region(e).Some? {
      RegionMoves(s.k, Region(e).value);
      RegionMovesPc(s.k, Region(e).value);
    }
  }

  lemma ThreadsArePlaced(k: Kernel)
    requires Inv(k)
    ensures forall t :: t in k.pc && k.pc[t].InDown? ==> k.pc[t].sem in Values(k)
  {
    forall t | t in k.pc && k.pc[t].InDown? ensures k.pc[t].sem in Values(k) {
      assert ThreadOk(k, t);
    }
  }

  /** A region that downs or ups nothing private. */
  ghost predicate Apart(owner: map<int, int>, k: Kernel, e: LockEvent) {
    && (forall w :: w in owner ==> w in k.sems)
    && (Region(e).Some? && (Region(e).value.EDown? || Region(e).value.EUp?) ==>
          Region(e).value.s !in owner && Region(e).value.s in k.sems)
  }

  /** It leaves the private semaphores alone, */
  lemma ValuesKept(owner: map<int, int>, k: Kernel, e: LockEvent, k': Kernel)
    requires KernelMoved(k, e, k') && Apart(owner, k, e)
    ensures forall r :: r in owner ==> r in k'.sems && k'.sems[r].value == k.sems[r].value
  {
    forall r | r in owner ensures r in k'.sems && k'.sems[r].value == k.sems[r].value {
      assert r in k.sems;
      assert Region(e).Some? ==> !Touches(Region(e).value, r);
    }
  }

  /** and brings nobody into the down of one. */
  lemma PcsKept(owner: map<int, int>, k: Kernel, e: LockEvent, k': Kernel)
    requires KernelMoved(k, e, k') && Apart(owner, k, e) && k.current in k.pc
    ensures forall t :: t in k'.pc ==>
      (t in k.pc && k'.pc[t] == k.pc[t]) || !(k'.pc[t].InDown? && k'.pc[t].sem in owner)
  {
  }

  lemma OtherMoves(v: CM.Waits, k: Kernel, e: LockEvent, k': Kernel)
    requires v.value == Values(k) && v.pc == k.pc && k.current in k.pc
    requires KernelMoved(k, e, k') && Apart(v.owner, k, e)
    requires forall t :: t in k'.pc && k'.pc[t].InDown? ==> k'.pc[t].sem in Values(k')
    ensures CM.Other(v, v.(value := Values(k'), pc := k'.pc))
  {
    var v' := v.(value := Values(k'), pc := k'.pc);
    ValuesKept(v.owner, k, e, k');
    PcsKept(v.owner, k, e, k');
    forall t | t in v'.pc ensures CM.SamePc(v, v', t) || !(v'.pc[t].InDown? && v'.pc[t].sem in v.owner) {
    }
    assert forall r :: r in v.owner ==> r in k.sems;
  }

  lemma OtherIsApart(c: Cond, e: LockEvent)
    requires CInv(c) && CEnabled(c, COther(e))
    ensures Apart(c.owner, c.s.k, e) && c.s.k.current in c.s.k.pc
  {
    SemaphoresExist(c);
  }

  lemma COtherKeeps(c: Cond, e: LockEvent)
    requires CInv(c) && CEnabled(c, COther(e))
    ensures CM.WaitsOk(View(CStep(c, COther(e))))
  {
    var k' := LStep(c.s, e).k;
    InnerMoves(c.s, e);
    OtherIsApart(c, e);
    AfterIsPlaced(c.s, e);
    OtherMoves(View(c), c.s.k, e, k');
    OtherSteps(c, e, k');
  }

  lemma AfterIsPlaced(s: LockKernel, e: LockEvent)
    requires LInv(s) && LEnabled(s, e)
    ensures forall t :: t in LStep(s, e).k.pc && LStep(s, e).k.pc[t].InDown? ==>
      LStep(s, e).k.pc[t].sem in Values(LStep(s, e).k)
  {
    LStepKeeps(s, e);
    ThreadsArePlaced(LStep(s, e).k);
  }

  lemma OtherSteps(c: Cond, e: LockEvent, k': Kernel)
    requires CEnabled(c, COther(e)) && k' == LStep(c.s, e).k && CM.WaitsOk(View(c))
    requires CM.Other(View(c), View(c).(value := Values(k'), pc := k'.pc))
    ensures CM.WaitsOk(View(CStep(c, COther(e))))
  {
    CM.OtherKeeps(View(c), View(c).(value := Values(k'), pc := k'.pc));
  }

  lemma CWaitKeeps(c: Cond, w: int, list: seq<int>)
    requires CInv(c) && CEnabled(c, CWait(w, list))
    ensures CM.WaitsOk(View(CStep(c, CWait(w, list))))
  {
    var v, v' := View(c), View(CStep(c, CWait(w, list)));
    assert v'.value == v.value[w := 0];
    CM.WaitKeeps(v, v', c.s.k.current, w, list);
  }

  lemma CDownKeeps(c: Cond)
    requires CInv(c) && CEnabled(c, CDown)
    ensures CM.WaitsOk(View(CStep(c, CDown)))
  {
    var cur := c.s.k.current;
    var w := c.waiting[cur];
    var e := LOther(EDown(w));
    InnerMoves(c.s, e);
    DownMoves(View(c), c.s.k, w, LStep(c.s, e).k);
    CM.TestKeeps(View(c), View(CStep(c, CDown)), cur);
  }

  lemma DownMoves(v: CM.Waits, k: Kernel, w: int, k': Kernel)
    requires v.value == Values(k) && v.pc == k.pc
    requires w in k.sems && k.current in k.pc && k'.sems.Keys == k.sems.Keys
    requires k.current in v.waiting && v.waiting[k.current] == w
    requires KernelMoved(k, LOther(EDown(w)), k')
    ensures CM.Test(v, v.(value := Values(k'), pc := k'.pc,
                          waiting := if k.sems[w].value > 0 then v.waiting - {k.current} else v.waiting),
                    k.current)
  {
    var region := EDown(w);
    assert Region(LOther(region)) == Some(region);
    assert Moved(k, region, k') && PcMoved(k, region, k');
    forall r | r in k.sems ensures k'.sems[r].value == if r == w && v.value[w] > 0 then v.value[w] - 1 else v.value[r] {
      assert r != w ==> !Touches(region, r);
    }
    assert Values(k') == if v.value[w] == 0 then v.value else v.value[w := v.value[w] - 1];
    forall t | t in k.pc
      ensures k'.pc[t] == if t == k.current then (if v.value[w] == 0 then InDown(w) else Free) else k.pc[t] {
    }
    assert k'.pc == v.pc[k.current := if v.value[w] == 0 then InDown(w) else Free];
  }

  lemma CSignalKeeps(c: Cond, order: seq<int>, sorted: seq<int>)
    requires CInv(c) && CEnabled(c, CSignal(order, sorted))
    ensures CM.WaitsOk(View(CStep(c, CSignal(order, sorted))))
  {
    var e := LOther(EUp(order[0], sorted));
    InnerMoves(c.s, e);
    SignalMoves(View(c), c.s.k, order, sorted, LStep(c.s, e).k);
    CM.SignalKeeps(View(c), View(CStep(c, CSignal(order, sorted))), order);
  }

  lemma SignalMoves(v: CM.Waits, k: Kernel, order: seq<int>, sorted: seq<int>, k': Kernel)
    requires v.value == Values(k) && v.pc == k.pc && k'.sems.Keys == k.sems.Keys
    requires order != [] && order[0] in k.sems && multiset(order) == multiset(v.waiters)
    requires KernelMoved(k, LOther(EUp(order[0], sorted)), k')
    ensures CM.Signal(v, v.(value := Values(k'), pc := k'.pc, waiters := order[1..],
                            popped := v.popped + {order[0]}), order)
  {
    var w, region := order[0], EUp(order[0], sorted);
    assert Region(LOther(region)) == Some(region);
    assert Moved(k, region, k') && PcMoved(k, region, k');
    forall r | r in k.sems ensures k'.sems[r].value == if r == w then v.value[w] + 1 else v.value[r] {
      assert r != w ==> !Touches(region, r);
    }
    assert Values(k') == v.value[w := v.value[w] + 1];
    forall t | t in k.pc ensures k'.pc[t] == k.pc[t] {
    }
    assert k'.pc == v.pc;
  }

  lemma DoKeepsLocks(v: LM.Locks, cur: int, op: LM.Op)
    requires LM.Allowed(v, cur, op)
    ensures LM.Do(v, cur, op).value.Keys == v.value.Keys + (if op.Init? then {op.l} else {})
  {
  }

  lemma SemaphoresExist(c: Cond)
    requires CInv(c)
    ensures forall w :: w in c.owner ==> w in c.s.k.sems
    ensures forall l :: l in c.s.v.value ==> l in c.s.k.sems
  {
    forall w | w in c.owner ensures w in c.s.k.sems {
      assert CM.PrivateOk(View(c), w);
    }
  }

  /** Private semaphores stay apart from the locks: a new semaphore is one or the other. */
  lemma CStepSeparates(c: Cond, e: CondEvent)
    requires CEnabled(c, e)
    requires c.lock in c.s.v.value
    requires forall w :: w in c.owner ==> w in c.s.k.sems && w !in c.s.v.value
    requires forall l :: l in c.s.v.value ==> l in c.s.k.sems
    ensures CStep(c, e).lock in CStep(c, e).s.v.value
    ensures forall w :: w in CStep(c, e).owner ==> w !in CStep(c, e).s.v.value
  {
    var inner := Inner(c, e);
    DoKeepsLocks(c.s.v, c.s.k.current, OpOf(inner));
    assert inner.LInit? ==> inner.l !in c.s.k.sems;
    assert e.CWait? ==> e.w !in c.s.k.sems;
  }

  lemma CStepKeeps(c: Cond, e: CondEvent)
    requires CInv(c) && CEnabled(c, e)
    ensures CInv(CStep(c, e))
  {
    assert LInv(CStep(c, e).s) by { LStepKeeps(c.s, Inner(c, e)); }
    SemaphoresExist(c);
    CStepSeparates(c, e);
    assert CM.WaitsOk(View(CStep(c, e))) by { CStepKeepsWaits(c, e); }
  }

  lemma CStepKeepsWaits(c: Cond, e: CondEvent)
    requires CInv(c) && CEnabled(c, e)
    ensures CM.WaitsOk(View(CStep(c, e)))
  {
    match e
    case COther(inner) => COtherKeeps(c, inner);
    case CWait(w, list) => CWaitKeeps(c, w, list);
    case CDown => CDownKeeps(c);
    case CSignal(order, sorted) => CSignalKeeps(c, order, sorted);
  }

  // ---- runs --------------------------------------------------------------------------------------------

  ghost predicate CLegal(c: Cond, es: seq<CondEvent>)
    requires CInv(c)
    decreases |es|
  {
    es == [] || (CEnabled(c, es[0]) && (CStepKeeps(c, es[0]); CLegal(CStep(c, es[0]), es[1..])))
  }

  ghost function CFinal(c: Cond, es: seq<CondEvent>): (r: Cond)
    requires CInv(c) && CLegal(c, es)
    ensures CInv(r)
    decreases |es|
  {
    if es == [] then c else (CStepKeeps(c, es[0]); CFinal(CStep(c, es[0]), es[1..]))
  }

  /** A condition variable that nobody has waited on yet, in any reachable state of kernel and locks. */
  function Unused(s: LockKernel, lock: int): Cond {
    Cond(s, lock, [], map[], map[], {})
  }

  lemma UnusedIsOk(s: LockKernel, lock: int)
    requires LInv(s) && lock in s.v.value
    ensures CInv(Unused(s, lock))
  {
    ThreadsArePlaced(s.k);
    var v := View(Unused(s, lock));
    assert CM.Placed(v);
    assert forall t :: t in v.pc ==> CM.MakerOnly(v, t);
  }

  /** In every interleaving: a waiting thread gets past its semaphore if and only if it has been signalled;
    * and once signalled it is never asleep, even if the signal came between its lock_release and its
    * semaphore_down. */
  lemma SignalIsNotLost(s: LockKernel, lock: int, es: seq<CondEvent>, t: int)
    requires LInv(s) && lock in s.v.value
    requires (UnusedIsOk(s, lock); CLegal(Unused(s, lock), es))
    requires t in (UnusedIsOk(s, lock); CFinal(Unused(s, lock), es)).waiting
    ensures
      var c := (UnusedIsOk(s, lock); CFinal(Unused(s, lock), es));
      var w := c.waiting[t];
      && w in c.s.k.sems
      && (c.s.k.sems[w].value > 0 <==> w in c.popped)
      && (w in c.popped <==> w !in c.waiters)
      && (w in c.popped ==> c.s.k.sems[w].waiters == [] && !(t in c.s.k.status && AsleepOn(c.s.k, t, w)))
  {
    UnusedIsOk(s, lock);
    var c := CFinal(Unused(s, lock), es);
    var w := c.waiting[t];
    assert CM.PrivateOk(View(c), w);
    if w in c.popped {
      SignalledIsAwake(c, w);
      assert SemOk(c.s.k, w);
    }
  }

  predicate AsleepOn(k: Kernel, t: int, w: int) {
    t in k.pc && t in k.status && k.pc[t] == InDown(w) && k.status[t] == Blocked
  }

  lemma SignalledIsAwake(c: Cond, w: int)
    requires CInv(c) && w in c.owner && w in c.s.k.sems && c.s.k.sems[w].value > 0
    ensures c.s.k.sems[w].waiters == []
  {
    var k, maker := c.s.k, c.owner[w];
    assert SemOk(k, w) && WakeOk(k, w);
    forall t | t in k.status && k.pc[t] == InDown(w) ensures t == maker {
      assert CM.MakerOnly(View(c), t);
    }
    if k.sems[w].waiters != [] {
      MakerAloneIsAsleep(k, w, maker);
    }
  }

  lemma MakerAloneIsAsleep(k: Kernel, w: int, maker: int)
    requires WellFormed(k) && w in k.sems && SemOk(k, w) && k.sems[w].waiters != []
    requires forall t :: t in k.status && k.pc[t] == InDown(w) ==> t == maker
    ensures Woken(k, w) == {}
  {
    var t := k.sems[w].waiters[0];
    assert t in k.sems[w].waiters && t in k.status;
    assert k.pc[t] == InDown(w) && k.status[t] == Blocked && t == maker;
    forall u ensures u !in Woken(k, w) {
      if u in k.status && k.pc[u] == InDown(w) {
        assert u == maker;
      }
    }
  }

  // ---- broadcast ---------------------------------------------------------------------------------------

  /** While `b` is in condvar_broadcast it neither releases the lock nor waits. */
  ghost predicate InBroadcast(c: Cond, e: CondEvent, b: int) {
    c.s.k.current == b ==> !e.CWait? && !(e.COther? && e.e == LClearHolder(c.lock))
  }

  /** A run during which `b` is in the loop, and anybody else may do anything whenever b yields. */
  ghost predicate BroadcastRun(c: Cond, es: seq<CondEvent>, b: int)
    requires CInv(c)
    decreases |es|
  {
    es == [] ||
    (CEnabled(c, es[0]) && InBroadcast(c, es[0], b) &&
     (CStepKeeps(c, es[0]); BroadcastRun(CStep(c, es[0]), es[1..], b)))
  }

  /** The semaphore upped by an event, if it is a signal. */
  function Upped(e: CondEvent): seq<int> {
    if e.CSignal? && e.order != [] then [e.order[0]] else []
  }

  /** The semaphores upped by signals during a run. */
  function Signalled(es: seq<CondEvent>): seq<int> {
    if es == [] then [] else Upped(es[0]) + Signalled(es[1..])
  }

  lemma {:induction false} BroadcastRunIsLegal(c: Cond, es: seq<CondEvent>, b: int)
    requires CInv(c) && BroadcastRun(c, es, b)
    ensures CLegal(c, es)
    decreases |es|
  {
    if es != [] {
      CStepKeeps(c, es[0]);
      BroadcastRunIsLegal(CStep(c, es[0]), es[1..], b);
    }
  }

  ghost predicate Holder(v: LM.Locks, l: int, t: int) {
    l in v.holder && v.holder[l] == Some(t)
  }

  /** Only the holder's own release changes who holds a lock. */
  lemma HolderStays(v: LM.Locks, cur: int, op: LM.Op, l: int, b: int)
    requires LM.LocksOk(v) && LM.Allowed(v, cur, op) && Holder(v, l, b)
    requires !(cur == b && op == LM.ClearHolder(l))
    ensures Holder(LM.Do(v, cur, op), l, b)
  {
    assert LM.LockOk(v, l);
    if op.SetHolder? && op.l == l {
      assert cur in v.inside[l];
      LM.OneMember(v.inside[l], cur, b);
    }
  }

  /** A signal takes one waiter off the list and ups that one. */
  lemma ListAfter(c: Cond, e: CondEvent)
    requires CEnabled(c, e) && !e.CWait?
    ensures multiset(c.waiters) == multiset(CStep(c, e).waiters) + multiset(Upped(e))
    ensures |CStep(c, e).waiters| == |c.waiters| - |Upped(e)|
  {
    if e.CSignal? {
      FirstOf(e.order);
      PermutationKeeps(c.waiters, e.order);
    }
  }

  lemma FirstOf(order: seq<int>)
    requires order != []
    ensures multiset(order) == multiset(order[1..]) + multiset([order[0]])
  {
    assert order == [order[0]] + order[1..];
  }

  /** Nobody but the holder changes the list. */
  lemma BroadcastStep(c: Cond, e: CondEvent, b: int)
    requires CInv(c) && CEnabled(c, e) && InBroadcast(c, e, b) && Holder(c.s.v, c.lock, b)
    ensures Holder(CStep(c, e).s.v, c.lock, b)
    ensures e.CSignal? ==> c.s.k.current == b
    ensures multiset(c.waiters) == multiset(CStep(c, e).waiters) + multiset(Upped(e))
    ensures |CStep(c, e).waiters| == |c.waiters| - |Upped(e)|
  {
    ListAfter(c, e);
    HolderStays(c.s.v, c.s.k.current, OpOf(Inner(c, e)), c.lock, b);
  }

  lemma SignalledSplits(es: seq<CondEvent>)
    requires es != []
    ensures multiset(Signalled(es)) == multiset(Upped(es[0])) + multiset(Signalled(es[1..]))
    ensures |Signalled(es)| == |Upped(es[0])| + |Signalled(es[1..])|
  {
    assert multiset(Upped(es[0]) + Signalled(es[1..])) == multiset(Upped(es[0])) + multiset(Signalled(es[1..]));
  }

  /** The first event of a broadcast run, and the state it leads to. */
  lemma BroadcastUnfolds(c: Cond, es: seq<CondEvent>, b: int) returns (c1: Cond)
    requires CInv(c) && BroadcastRun(c, es, b) && Holder(c.s.v, c.lock, b) && es != []
    ensures CInv(c1) && BroadcastRun(c1, es[1..], b) && c1.lock == c.lock && Holder(c1.s.v, c.lock, b)
    ensures multiset(c.waiters) == multiset(c1.waiters) + multiset(Upped(es[0]))
    ensures |c1.waiters| == |c.waiters| - |Upped(es[0])|
    ensures CLegal(c, es) && CLegal(c1, es[1..]) && CFinal(c, es) == CFinal(c1, es[1..])
  {
    BroadcastRunIsLegal(c, es, b);
    CStepKeeps(c, es[0]);
    BroadcastStep(c, es[0], b);
    c1 := CStep(c, es[0]);
  }

  lemma AccountsAdd(w: seq<int>, w1: seq<int>, w2: seq<int>, es: seq<CondEvent>)
    requires es != []
    requires multiset(w) == multiset(w1) + multiset(Upped(es[0])) && |w1| == |w| - |Upped(es[0])|
    requires multiset(w1) == multiset(w2) + multiset(Signalled(es[1..])) && |w2| == |w1| - |Signalled(es[1..])|
    ensures multiset(w) == multiset(w2) + multiset(Signalled(es)) && |w2| == |w| - |Signalled(es)|
  {
    SignalledSplits(es);
  }

  lemma {:induction false} BroadcastAccounts(c: Cond, es: seq<CondEvent>, b: int)
    requires CInv(c) && BroadcastRun(c, es, b) && Holder(c.s.v, c.lock, b)
    ensures CLegal(c, es)
    ensures multiset(c.waiters) == multiset(CFinal(c, es).waiters) + multiset(Signalled(es))
    ensures |CFinal(c, es).waiters| == |c.waiters| - |Signalled(es)|
    decreases |es|
  {
    if es != [] {
      var c1 := BroadcastUnfolds(c, es, b);
      BroadcastAccounts(c1, es[1..], b);
      AccountsAdd(c.waiters, c1.waiters, CFinal(c1, es[1..]).waiters, es);
    }
  }

  /** condvar_broadcast, although every semaphore_up yields the CPU: the number of waiters falls by one with
    * each signal and by nothing else; and when the loop ends, the waiters present at the call have been
    * upped exactly once each, and nobody else. */
  lemma BroadcastUpsEachOnce(c: Cond, es: seq<CondEvent>, b: int)
    requires CInv(c) && BroadcastRun(c, es, b) && Holder(c.s.v, c.lock, b)
    ensures CLegal(c, es)
    ensures |Signalled(es)| <= |c.waiters|
    ensures CFinal(c, es).waiters == [] <==> |Signalled(es)| == |c.waiters|
    ensures CFinal(c, es).waiters == [] ==>
      NoDup(Signalled(es)) && forall w :: w in Signalled(es) <==> w in c.waiters
  {
    BroadcastAccounts(c, es, b);
    if CFinal(c, es).waiters == [] {
      assert multiset(Signalled(es)) == multiset(c.waiters);
      PermutationKeeps(c.waiters, Signalled(es));
    }
  }
}
