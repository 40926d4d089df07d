/** What one call of the CPU scheduler does to its globals, stated on values.
  *
  * A tick is described by its outcome (the running thread stays, is preempted by the head of the
  * sorted queue, or an idle CPU takes that head); the step-by-step code is in Scheduler.dfy.
  */
module SchedulerModel {
  import opened Options

  datatype Algorithm =
    | FirstComeFirstServed
    | RoundRobin
    | NonPreemptivePriority
    | PreemptivePriority
    | NonPreemptiveShortestJobFirst
    | PreemptiveShortestJobFirst
    | NonPreemptiveShortestRemainingTimeFirst
    | PreemptiveShortestRemainingTimeFirst
  {
    predicate ByPriority() { NonPreemptivePriority? || PreemptivePriority? }

    predicate ByLength() { NonPreemptiveShortestJobFirst? || PreemptiveShortestJobFirst? }

    predicate ByRemaining() {
      NonPreemptiveShortestRemainingTimeFirst? || PreemptiveShortestRemainingTimeFirst?
    }

    /** The algorithms whose ready queue is sorted at every tick. */
    predicate Sorts() { ByPriority() || ByLength() || ByRemaining() }

    predicate Preemptive() {
      || RoundRobin?
      || PreemptivePriority?
      || PreemptiveShortestJobFirst?
      || PreemptiveShortestRemainingTimeFirst?
    }
  }

  /** The simulator's thread, as far as the scheduler reads it. */
  datatype Thread = Thread(tid: int, priority: int, length: int)

  /** The scheduler's own record of a thread (thread_extra_t). */
  datatype Extra = Extra(arrive: int, finish: int, start: int, waiting: int, remaining: int, ticks: int)

  /** The scheduler's globals. The queue all_threads is split in two: `order` is the queue of tids and
    * `extras` finds a record by tid, which is the only way the callbacks look one up. */
  datatype Core = Core(
    alg: Algorithm,
    quantum: int,
    ready: seq<Thread>,
    current: Option<Thread>,
    order: seq<int>,
    extras: map<int, Extra>)

  /** Every thread the callbacks look up has a record. */
  predicate WellFormed(c: Core) {
    && (forall t :: t in c.ready ==> t.tid in c.extras)
    && (c.current.Some? ==> c.current.value.tid in c.extras)
    && (forall k :: 0 <= k < |c.order| ==> c.order[k] in c.extras)
  }

  function Key(alg: Algorithm, extras: map<int, Extra>, t: Thread): int
    requires t.tid in extras
  {
    if alg.ByPriority() then t.priority
    else if alg.ByLength() then t.length
    else if alg.ByRemaining() then extras[t.tid].remaining
    else 0
  }

  ghost predicate Ascending(alg: Algorithm, extras: map<int, Extra>, q: seq<Thread>)
    requires forall t :: t in q ==> t.tid in extras
  {
    forall i, j :: 0 <= i < j < |q| ==> Key(alg, extras, q[i]) <= Key(alg, extras, q[j])
  }

  /** What queue_sort may leave in the ready queue: any ascending permutation. Algorithms that do not
    * sort keep the queue as it is. */
  ghost predicate Sorted(c: Core, q: seq<Thread>)
    requires WellFormed(c)
  {
    if c.alg.Sorts() then
      && multiset(q) == multiset(c.ready)
      && (forall t :: t in q ==> t in c.ready)
      && Ascending(c.alg, c.extras, q)
    else q == c.ready
  }

  /** Does the head of the sorted queue take the CPU from the running thread? */
  predicate Preempts(c: Core, q: seq<Thread>)
    requires c.current.Some? && c.current.value.tid in c.extras
    requires q != [] && q[0].tid in c.extras
  {
    var cur := c.current.value;
    match c.alg
    case RoundRobin => c.extras[cur.tid].ticks + 1 == c.quantum
    case PreemptivePriority => q[0].priority < cur.priority
    case PreemptiveShortestJobFirst => q[0].length < cur.length
    case PreemptiveShortestRemainingTimeFirst =>
      c.extras[q[0].tid].remaining < c.extras[cur.tid].remaining
    case _ => false
  }

  /** A thread is given the CPU: it stops waiting and is charged for the unit that begins. */
  function OnDispatch(alg: Algorithm, x: Extra, now: int): Extra {
    x.(waiting := x.waiting + (now - x.start),
       ticks := if alg.RoundRobin? then 0 else x.ticks,
       remaining := if alg.ByRemaining() then x.remaining - 1 else x.remaining)
  }

  /** A thread loses the CPU: it starts waiting and is charged nothing. */
  function OnPreempt(alg: Algorithm, x: Extra, now: int): Extra {
    x.(start := now, ticks := if alg.RoundRobin? then 0 else x.ticks)
  }

  /** A thread keeps the CPU for one more unit. */
  function OnStay(alg: Algorithm, quantum: int, alone: bool, x: Extra): Extra {
    x.(ticks := if !alg.RoundRobin? then x.ticks
                else if alone && x.ticks + 1 == quantum then 0
                else x.ticks + 1,
       remaining := if alg.ByRemaining() then x.remaining - 1 else x.remaining)
  }

  function Tick(c: Core, q: seq<Thread>, now: int): Core
    requires WellFormed(c)
    requires forall t :: t in q ==> t.tid in c.extras
  {
    if c.current.None? then
      if q == [] then c.(ready := q)
      else
        var t := q[0];
        c.(ready := q[1..], current := Some(t),
           extras := c.extras[t.tid := OnDispatch(c.alg, c.extras[t.tid], now)])
    else
      var cur := c.current.value;
      if q != [] && Preempts(c, q) then
        var t := q[0];
        c.(ready := q[1..] + [cur], current := Some(t),
           extras := c.extras[cur.tid := OnPreempt(c.alg, c.extras[cur.tid], now)]
                             [t.tid := OnDispatch(c.alg, c.extras[t.tid], now)])
      else
        c.(ready := q,
           extras := c.extras[cur.tid := OnStay(c.alg, c.quantum, q == [], c.extras[cur.tid])])
  }

  /** `raw` is what malloc returned: the fields sys_exec does not write keep it. */
  function SysExec(c: Core, t: Thread, raw: Extra, now: int): Core {
    c.(ready := c.ready + [t],
       order := c.order + [t.tid],
       extras := c.extras[t.tid := raw.(arrive := now, start := now, waiting := 0, remaining := t.length)])
  }

  function SysExit(c: Core, tid: int, now: int): Core
    requires tid in c.extras
  {
    c.(current := None, extras := c.extras[tid := c.extras[tid].(finish := now + 1)])
  }

  /** sys_read and sys_write do the same thing. */
  function SysRequest(c: Core, tid: int, now: int): Core
    requires tid in c.extras
  {
    c.(current := None, extras := c.extras[tid := c.extras[tid].(start := now + 1)])
  }

  function IoStarting(c: Core, tid: int, now: int): Core
    requires tid in c.extras
  {
    var x := c.extras[tid];
    c.(extras := c.extras[tid := x.(waiting := x.waiting + (now - x.start))])
  }

  function IoComplete(c: Core, t: Thread, now: int): Core
    requires t.tid in c.extras
  {
    c.(ready := c.ready + [t],
       extras := c.extras[t.tid := c.extras[t.tid].(start := now + 1)])
  }

  /** One line of the final report. */
  datatype Stat = Stat(tid: int, waiting: int, turnaround: int)

  function Report(order: seq<int>, extras: map<int, Extra>): (r: seq<Stat>)
    requires forall k :: 0 <= k < |order| ==> order[k] in extras
    ensures |r| == |order|
  {
    seq(|order|, k requires 0 <= k < |order| =>
      var x := extras[order[k]]; Stat(order[k], x.waiting, x.finish - x.arrive))
  }

  function TotalWaiting(r: seq<Stat>): int {
    if r == [] then 0 else TotalWaiting(r[..|r| - 1]) + r[|r| - 1].waiting
  }

  function TotalTurnaround(r: seq<Stat>): int {
    if r == [] then 0 else TotalTurnaround(r[..|r| - 1]) + r[|r| - 1].turnaround
  }

  /** C division truncates toward zero. */
  function CDiv(a: int, b: int): int
    requires b > 0
  {
    if a >= 0 then a / b else -((-a) / b)
  }
}
