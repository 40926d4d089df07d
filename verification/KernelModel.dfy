/** The kernel's threads and semaphores, and what one atomic region (interrupts off) does to them.
  *
  * A thread inside semaphore_down is named by the semaphore it waits for: it may be asleep on the waiters
  * list, or woken and about to test the value again.
  */
module KernelModel {
  import opened Sequences

  datatype Status = Running | Ready | Blocked | Dying

  /** Where a thread is in the semaphore code. */
  datatype Pc = Free | InDown(sem: int)

  datatype Semaphore = Semaphore(value: nat, waiters: seq<int>)

  datatype Kernel = Kernel(
    status: map<int, Status>,
    priority: map<int, int>,
    pc: map<int, Pc>,
    ready: seq<int>,
    current: int,
    idle: int,
    sems: map<int, Semaphore>)

  predicate Known(list: seq<int>, priority: map<int, int>) {
    forall i :: 0 <= i < |list| ==> list[i] in priority
  }

  /** Every thread on a list is known. */
  predicate WellFormed(k: Kernel) {
    && k.status.Keys == k.priority.Keys == k.pc.Keys
    && k.current in k.status && k.idle in k.status
    && Known(k.ready, k.priority)
    && (forall s :: s in k.sems ==> Known(k.sems[s].waiters, k.priority))
  }

  /** list_insert_ordered with a comparator that puts higher priorities first: before the first element
    * of lower priority. */
  function InsertOrdered(list: seq<int>, t: int, priority: map<int, int>): (r: seq<int>)
    requires t in priority && Known(list, priority)
    ensures Known(r, priority)
  {
    if list == [] || priority[t] > priority[list[0]] then [t] + list
    else [list[0]] + InsertOrdered(list[1..], t, priority)
  }

  ghost predicate Descending(list: seq<int>, priority: map<int, int>) {
    Known(list, priority) &&
    forall i, j :: 0 <= i < j < |list| ==> priority[list[i]] >= priority[list[j]]
  }

  /** What list_sort may leave. */
  ghost predicate SortOf(list: seq<int>, sorted: seq<int>, priority: map<int, int>) {
    multiset(sorted) == multiset(list) && Descending(sorted, priority)
  }

  function Max(a: int, b: int): int { if a >= b then a else b }

  // ---- thread.c -------------------------------------------------------------------------------------------

  /** schedule: the front of the ready list runs next, or the idle thread if the list is empty. */
  function Schedule(k: Kernel): Kernel {
    if k.ready == [] then k.(current := k.idle, status := k.status[k.idle := Running])
    else k.(current := k.ready[0], ready := k.ready[1..], status := k.status[k.ready[0] := Running])
  }

  function Block(k: Kernel): Kernel {
    Schedule(k.(status := k.status[k.current := Blocked]))
  }

  function Unblock(k: Kernel, t: int): Kernel
    requires WellFormed(k) && t in k.status
  {
    k.(ready := InsertOrdered(k.ready, t, k.priority), status := k.status[t := Ready])
  }

  /** The idle thread is never put on the ready list. */
  function Yield(k: Kernel): Kernel
    requires WellFormed(k)
  {
    Schedule(k.(
      ready := if k.current != k.idle then InsertOrdered(k.ready, k.current, k.priority) else k.ready,
      status := k.status[k.current := Ready]))
  }

  function Exit(k: Kernel): Kernel {
    Schedule(k.(status := k.status[k.current := Dying]))
  }

  /** thread_create: init_thread makes the thread blocked, and it is unblocked at once. */
  function Create(k: Kernel, t: int, priority: int): (r: Kernel)
    requires WellFormed(k)
  {
    var born := k.(status := k.status[t := Blocked], priority := k.priority[t := priority], pc := k.pc[t := Free]);
    assert WellFormed(born);
    Unblock(born, t)
  }

  // ---- semaphore.c --------------------------------------------------------------------------------------

  /** One test of the loop in semaphore_down: go to sleep on the list, or take the semaphore. */
  function Down(k: Kernel, s: int): Kernel
    requires WellFormed(k) && s in k.sems
  {
    var sem := k.sems[s];
    if sem.value == 0 then
      Block(k.(sems := k.sems[s := sem.(waiters := InsertOrdered(sem.waiters, k.current, k.priority))],
               pc := k.pc[k.current := InDown(s)]))
    else
      k.(sems := k.sems[s := sem.(value := sem.value - 1)], pc := k.pc[k.current := Free])
  }

  /** The atomic part of semaphore_up: wake the front of the sorted list, if any, and increment. */
  function Up(k: Kernel, s: int, sorted: seq<int>): Kernel
    requires WellFormed(k) && s in k.sems
    requires Known(sorted, k.priority)
  {
    var woken := if sorted == [] then k else Unblock(k, sorted[0]);
    woken.(sems := k.sems[s := Semaphore(k.sems[s].value + 1, if sorted == [] then [] else sorted[1..])])
  }

  // ---- events -----------------------------------------------------------------------------------------------

  /** Everything that can happen next. The running thread acts, except that a yield may also be the timer's
    * doing, an unblock or an up may come from an interrupt handler, and donation rewrites priorities. */
  datatype Event =
    | ECreate(t: int, priority: int)
    | EBlock
    | EUnblock(t: int)
    | EYield
    | EExit
    | ENewSem(s: int, value: nat)
    | EDown(s: int)
    | EUp(s: int, sorted: seq<int>)
    | EPriorities(priorities: map<int, int>)

  /** The callers' side: new threads and semaphores are new, a thread blocks or exits outside the semaphore
    * code, a woken thread tests its own semaphore again, and only threads that blocked outside the
    * semaphore code are unblocked directly. */
  ghost predicate Enabled(k: Kernel, e: Event) {
    WellFormed(k) &&
    match e
    case ECreate(t, _) => t !in k.status
    case EBlock => k.pc[k.current] == Free
    case EUnblock(t) => t in k.status && t != k.idle && k.status[t] == Blocked && k.pc[t] == Free
    case EYield => true
    case EExit => k.pc[k.current] == Free && k.current != k.idle
    case ENewSem(s, _) => s !in k.sems
    case EDown(s) => s in k.sems && k.current != k.idle && (k.pc[k.current] == Free || k.pc[k.current] == InDown(s))
    case EUp(s, sorted) => s in k.sems && SortOf(k.sems[s].waiters, sorted, k.priority)
    case EPriorities(p) => p.Keys == k.priority.Keys
  }

  ghost function Step(k: Kernel, e: Event): Kernel
    requires Enabled(k, e)
  {
    match e
    case ECreate(t, p) => Create(k, t, p)
    case EBlock => Block(k)
    case EUnblock(t) => Unblock(k, t)
    case EYield => Yield(k)
    case EExit => Exit(k)
    case ENewSem(s, value) => k.(sems := k.sems[s := Semaphore(value, [])])
    case EDown(s) => Down(k, s)
    case EUp(s, sorted) => Up(k, s, sorted)
    case EPriorities(p) => k.(priority := p)
  }
}
