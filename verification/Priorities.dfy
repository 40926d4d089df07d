/** Priority scheduling, without donation and without wake-ups by interrupts: after every kernel call the
  * running thread has the highest priority, and equals are served in order. */
module Priorities {
  import opened Sequences
  import opened KernelModel
  import opened KernelTheorems

  predicate SomeHigher(k: Kernel, list: seq<int>, priority: int)
    requires WellFormed(k) && Known(list, k.priority)
  {
    exists i :: 0 <= i < |list| && k.priority[list[i]] > priority
  }

  /** thread_create with the yield that follows it. */
  function CreateAndYield(k: Kernel, t: int, priority: int): Kernel
    requires WellFormed(k)
  {
    var born := Create(k, t, priority);
    if priority > born.priority[k.current] then Yield(born) else born
  }

  /** thread_set_priority of a thread that nobody has donated to. */
  function SetPriority(k: Kernel, priority: int): Kernel
    requires WellFormed(k)
  {
    var k1 := k.(priority := k.priority[k.current := priority]);
    if SomeHigher(k1, k1.ready, priority) then Yield(k1) else k1
  }

  /** semaphore_up as far as the first yield, which hands over to a woken thread of higher priority. */
  function UpAndYield(k: Kernel, s: int, sorted: seq<int>): Kernel
    requires WellFormed(k) && s in k.sems && Known(sorted, k.priority)
  {
    var up := Up(k, s, sorted);
    if sorted != [] && k.priority[k.current] < k.priority[sorted[0]] then Yield(up) else up
  }

  datatype Call =
    | CCreate(t: int, priority: int)
    | CBlock
    | CYield
    | CExit
    | CSetPriority(priority: int)
    | CNewSem(s: int, value: nat)
    | CDown(s: int)
    | CUp(s: int, sorted: seq<int>)

  /** The atomic region with which a call begins. */
  ghost predicate Callable(k: Kernel, c: Call) {
    WellFormed(k) &&
    match c
    case CCreate(t, p) => Enabled(k, ECreate(t, p))
    case CBlock => Enabled(k, EBlock)
    case CYield => true
    case CExit => Enabled(k, EExit)
    case CSetPriority(p) => true
    case CNewSem(s, value) => Enabled(k, ENewSem(s, value))
    case CDown(s) => Enabled(k, EDown(s))
    case CUp(s, sorted) => Enabled(k, EUp(s, sorted))
  }

  ghost function Apply(k: Kernel, c: Call): Kernel
    requires Callable(k, c)
  {
    match c
    case CCreate(t, p) => CreateAndYield(k, t, p)
    case CBlock => Block(k)
    case CYield => Yield(k)
    case CExit => Exit(k)
    case CSetPriority(p) => SetPriority(k, p)
    case CNewSem(s, value) => Step(k, ENewSem(s, value))
    case CDown(s) => Down(k, s)
    case CUp(s, sorted) => UpAndYield(k, s, sorted)
  }

  // ---- the ready list --------------------------------------------------------------------------------

  /** Where a thread is inserted: behind everyone of its priority or higher, before everyone lower. */
  lemma {:induction false} InsertsBehindEquals(list: seq<int>, t: int, priority: map<int, int>) returns (i: nat)
    requires t in priority && Descending(list, priority)
    ensures i <= |list| && InsertOrdered(list, t, priority) == list[..i] + [t] + list[i..]
    ensures forall j :: 0 <= j < i ==> priority[list[j]] >= priority[t]
    ensures forall j :: i <= j < |list| ==> priority[list[j]] < priority[t]
    ensures Descending(InsertOrdered(list, t, priority), priority)
  {
    i := InsertionPoint(list, t, priority);
    var after := InsertOrdered(list, t, priority);
    assert forall j :: 0 <= j < |after| ==> after[j] == if j < i then list[j] else if j == i then t else list[j - 1];
  }

  lemma {:induction false} InsertionPoint(list: seq<int>, t: int, priority: map<int, int>) returns (i: nat)
    requires t in priority && Descending(list, priority)
    ensures i <= |list| && InsertOrdered(list, t, priority) == list[..i] + [t] + list[i..]
    ensures forall j :: 0 <= j < i ==> priority[list[j]] >= priority[t]
    ensures forall j :: i <= j < |list| ==> priority[list[j]] < priority[t]
  {
    if list == [] || priority[t] > priority[list[0]] {
      i := 0;
      assert list[..0] + [t] + list[0..] == [t] + list;
    } else {
      var k := InsertionPoint(list[1..], t, priority);
      i := k + 1;
      assert list[..i] == [list[0]] + list[1..][..k] && list[i..] == list[1..][k..];
      forall j | 0 <= j < i ensures priority[list[j]] >= priority[t] {
        assert j > 0 ==> list[j] == list[1..][j - 1];
      }
      forall j | i <= j < |list| ensures priority[list[j]] < priority[t] {
        assert list[j] == list[1..][j - 1];
      }
    }
  }

  /** The ready list is sorted, and nobody on it has a higher priority than the running thread. */
  ghost predicate HighestRuns(k: Kernel) {
    && WellFormed(k)
    && Descending(k.ready, k.priority)
    && forall i :: 0 <= i < |k.ready| ==> k.priority[k.ready[i]] <= k.priority[k.current]
  }

  lemma ScheduleRunsHighest(k: Kernel)
    requires WellFormed(k) && Descending(k.ready, k.priority)
    ensures HighestRuns(Schedule(k))
  {
  }

  lemma YieldRunsHighest(k: Kernel)
    requires WellFormed(k) && Descending(k.ready, k.priority)
    ensures HighestRuns(Yield(k))
  {
    var i := InsertsBehindEquals(k.ready, k.current, k.priority);
    ScheduleRunsHighest(k.(
      ready := if k.current != k.idle then InsertOrdered(k.ready, k.current, k.priority) else k.ready,
      status := k.status[k.current := Ready]));
  }

  lemma UnblockKeepsHighest(k: Kernel, t: int)
    requires HighestRuns(k) && t in k.status && k.priority[t] <= k.priority[k.current]
    ensures HighestRuns(Unblock(k, t))
  {
    var i := InsertsBehindEquals(k.ready, t, k.priority);
  }

  lemma BornIsBehind(k: Kernel, t: int, p: int)
    requires Inv(k) && HighestRuns(k) && t !in k.status
    ensures HighestRuns(CreateAndYield(k, t, p))
  {
    var born := k.(status := k.status[t := Blocked], priority := k.priority[t := p], pc := k.pc[t := Free]);
    assert Descending(born.ready, born.priority);
    if p > k.priority[k.current] {
      var i := InsertsBehindEquals(born.ready, t, born.priority);
      YieldRunsHighest(Create(k, t, p));
    } else {
      UnblockKeepsHighest(born, t);
    }
  }

  lemma UpKeepsHighest(k: Kernel, s: int, sorted: seq<int>)
    requires Inv(k) && HighestRuns(k) && Enabled(k, EUp(s, sorted))
    ensures HighestRuns(UpAndYield(k, s, sorted))
  {
    if sorted != [] {
      var t := sorted[0];
      if k.priority[k.current] < k.priority[t] {
        var i := InsertsBehindEquals(k.ready, t, k.priority);
        YieldRunsHighest(Up(k, s, sorted));
      } else {
        UnblockKeepsHighest(k, t);
      }
    }
  }

  lemma SetKeepsHighest(k: Kernel, p: int)
    requires Inv(k) && HighestRuns(k)
    ensures HighestRuns(SetPriority(k, p))
  {
    var k1 := k.(priority := k.priority[k.current := p]);
    assert ThreadOk(k, k.current);
    assert forall i :: 0 <= i < |k.ready| ==> k.ready[i] in k.ready && k.ready[i] != k.current;
    assert Descending(k1.ready, k1.priority);
    if SomeHigher(k1, k1.ready, p) {
      YieldRunsHighest(k1);
    }
  }

  /** Every call keeps: the running thread's priority is at least that of every ready thread. */
  lemma CallKeepsHighest(k: Kernel, c: Call)
    requires Inv(k) && HighestRuns(k) && Callable(k, c)
    ensures HighestRuns(Apply(k, c))
  {
    match c
    case CCreate(t, p) => BornIsBehind(k, t, p);
    case CBlock => ScheduleRunsHighest(k.(status := k.status[k.current := Blocked]));
    case CYield => YieldRunsHighest(k);
    case CExit => ScheduleRunsHighest(k.(status := k.status[k.current := Dying]));
    case CSetPriority(p) => SetKeepsHighest(k, p);
    case CNewSem(s, value) =>
    case CDown(s) =>
      if k.sems[s].value == 0 {
        var sem := k.sems[s];
        ScheduleRunsHighest(
          k.(sems := k.sems[s := sem.(waiters := InsertOrdered(sem.waiters, k.current, k.priority))],
             pc := k.pc[k.current := InDown(s)], status := k.status[k.current := Blocked]));
      }
    case CUp(s, sorted) => UpKeepsHighest(k, s, sorted);
  }

  /** A call is one or two regions, so it keeps everything that every region keeps. */
  lemma CallKeepsInv(k: Kernel, c: Call)
    requires Inv(k) && Callable(k, c)
    ensures Inv(Apply(k, c))
  {
    match c
    case CCreate(t, p) =>
      CreateKeeps(k, t, p);
      if p > Create(k, t, p).priority[k.current] { YieldKeeps(Create(k, t, p)); }
    case CBlock => BlockKeeps(k);
    case CYield => YieldKeeps(k);
    case CExit => ExitKeeps(k);
    case CSetPriority(p) =>
      PrioritiesKeep(k, k.priority[k.current := p]);
      var k1 := k.(priority := k.priority[k.current := p]);
      if SomeHigher(k1, k1.ready, p) { YieldKeeps(k1); }
    case CNewSem(s, value) => NewSemKeeps(k, s, value);
    case CDown(s) => StepKeepsInv(k, EDown(s));
    case CUp(s, sorted) =>
      StepKeepsInv(k, EUp(s, sorted));
      if sorted != [] && k.priority[k.current] < k.priority[sorted[0]] { YieldKeeps(Up(k, s, sorted)); }
  }

  ghost predicate Callables(k: Kernel, cs: seq<Call>)
    requires Inv(k)
    decreases |cs|
  {
    cs == [] || (Callable(k, cs[0]) && (CallKeepsInv(k, cs[0]); Callables(Apply(k, cs[0]), cs[1..])))
  }

  ghost function After(k: Kernel, cs: seq<Call>): (r: Kernel)
    requires Inv(k) && Callables(k, cs)
    ensures Inv(r)
    decreases |cs|
  {
    if cs == [] then k else (CallKeepsInv(k, cs[0]); After(Apply(k, cs[0]), cs[1..]))
  }

  lemma {:induction false} CallsKeepHighest(k: Kernel, cs: seq<Call>)
    requires Inv(k) && HighestRuns(k) && Callables(k, cs)
    ensures HighestRuns(After(k, cs))
    decreases |cs|
  {
    if cs != [] {
      CallKeepsInv(k, cs[0]);
      CallKeepsHighest(k, cs[0]);
      CallsKeepHighest(Apply(k, cs[0]), cs[1..]);
    }
  }

  /** From boot, after any calls of any threads, the highest priority runs and the ready list is sorted. */
  lemma HighestPriorityRuns(main: int, p: int, idle: int, cs: seq<Call>, t: int)
    requires main != idle
    requires (BootedIsOk(main, p, idle); Callables(Booted(main, p, idle), cs))
    ensures
      var k := (BootedIsOk(main, p, idle); After(Booted(main, p, idle), cs));
      && Descending(k.ready, k.priority)
      && (t in k.status && t != k.idle && k.status[t] == Ready ==> k.priority[t] <= k.priority[k.current])
  {
    BootedIsOk(main, p, idle);
    CallsKeepHighest(Booted(main, p, idle), cs);
    var k := After(Booted(main, p, idle), cs);
    if t in k.status {
      assert ThreadOk(k, t);
    }
  }
}
