/** The scheduler as its source writes it: callbacks that update globals in place.
  * Each callback is proved to do what SchedulerModel says. */
module Scheduler {
  import opened Options
  import opened SchedulerModel

  class Scheduler {
    var alg: Algorithm
    var quantum: int
    var ready: seq<Thread>
    var current: Option<Thread>
    var order: seq<int>
    var extras: map<int, Extra>

    function Globals(): Core
      reads this
    {
      Core(alg, quantum, ready, current, order, extras)
    }

    constructor (algorithm: Algorithm, quantum: int)
      ensures Globals() == Core(algorithm, quantum, [], None, [], map[])
    {
      current := None;
      alg := algorithm;
      this.quantum := quantum;
      ready := [];
      order, extras := [], map[];
    }

    /** `sorted` is the queue that queue_sort leaves; `now` is sim_time(). */
    method Tick(sorted: seq<Thread>, now: int)
      requires WellFormed(Globals())
      requires Sorted(Globals(), sorted)
      requires forall t :: t in sorted && current.Some? ==> t.tid != current.value.tid
      modifies this
      ensures Globals() == SchedulerModel.Tick(old(Globals()), sorted, now)
    {
      if alg.ByPriority() {
        ready := sorted;
      }
      if alg.ByLength() {
        ready := sorted;
      }
      if alg.ByRemaining() {
        ready := sorted;
        if current.Some? {
          extras := extras[current.value.tid := Used(extras[current.value.tid], 1)];
        }
      }
      if alg.RoundRobin? && current.Some? {
        CountQuantum(now);
      }
      if alg.PreemptivePriority? && |ready| != 0 {
        var t := ready[0];
        if current.Some? && current.value.priority > t.priority {
          SwitchTo(t, now);
        }
      }
      if alg.PreemptiveShortestJobFirst? && |ready| != 0 {
        var t := ready[0];
        if current.Some? && current.value.length > t.length {
          SwitchTo(t, now);
        }
      }
      if alg.PreemptiveShortestRemainingTimeFirst? && |ready| != 0 && current.Some? {
        CompareRemaining(now);
      }
      if current.None? && |ready| != 0 {
        DispatchNext(now);
      }
    }

    static function Used(x: Extra, units: int): Extra {
      x.(remaining := x.remaining - units)
    }

    /** Round robin: count the unit, and preempt when the quantum is used up and someone is ready. */
    method CountQuantum(now: int)
      requires WellFormed(Globals()) && alg.RoundRobin? && current.Some?
      requires forall t :: t in ready ==> t.tid != current.value.tid
      modifies this`ready, this`current, this`extras
      ensures Globals() == SchedulerModel.Tick(old(Globals()), old(ready), now)
    {
      var cur := current.value;
      var x := extras[cur.tid];
      ghost var was := extras;
      extras := extras[cur.tid := x.(ticks := x.ticks + 1)];
      assert extras == was[cur.tid := OnStay(alg, quantum, false, was[cur.tid])];
      if |ready| == 0 && extras[cur.tid].ticks == quantum {
        extras := extras[cur.tid := extras[cur.tid].(ticks := 0)];
        assert extras == was[cur.tid := OnStay(alg, quantum, true, was[cur.tid])];
      } else if extras[cur.tid].ticks == quantum {
        extras := extras[cur.tid := extras[cur.tid].(ticks := 0)];
        ready := ready + [cur];
        var t := ready[0];
        assert t == old(ready)[0] && t in old(ready);
        ready := ready[1..];
        var next := extras[t.tid];
        next := next.(ticks := 0);
        next := next.(waiting := next.waiting + (now - next.start));
        extras := extras[t.tid := next];
        extras := extras[cur.tid := extras[cur.tid].(start := now)];
        current := Some(t);
        assert ready == old(ready)[1..] + [cur];
        assert extras[cur.tid] == OnPreempt(alg, was[cur.tid], now);
        assert extras[t.tid] == OnDispatch(alg, was[t.tid], now);
        assert extras == was[cur.tid := OnPreempt(alg, was[cur.tid], now)][t.tid := OnDispatch(alg, was[t.tid], now)];
      }
    }

    /** Preemptive SRTF: the head's remaining time is compared with the running thread's, which has
      * already been charged for this unit; a preemption gives that charge back. */
    method CompareRemaining(now: int)
      requires WellFormed(Globals()) && current.Some? && |ready| != 0
      requires ready[0].tid != current.value.tid
      modifies this`ready, this`current, this`extras
      ensures
        var cur, t := old(current).value, old(ready)[0];
        var x, y := old(extras)[cur.tid], old(extras)[t.tid];
        if y.remaining <= x.remaining then
          && ready == old(ready)[1..] + [cur]
          && current == Some(t)
          && extras == old(extras)
            [cur.tid := Used(x, -1).(start := now)]
            [t.tid := Used(y, 1).(waiting := y.waiting + (now - y.start))]
        else Globals() == old(Globals())
    {
      var t := ready[0];
      var cur := current.value;
      if extras[t.tid].remaining <= extras[cur.tid].remaining {
        SwitchTo(t, now);
        extras := extras[t.tid := Used(extras[t.tid], 1)];
        extras := extras[cur.tid := Used(extras[cur.tid], -1)];
      }
    }

    /** The CPU is free and someone is ready. */
    method DispatchNext(now: int)
      requires WellFormed(Globals()) && current.None? && |ready| != 0
      modifies this`ready, this`current, this`extras
      ensures Globals() == SchedulerModel.Tick(old(Globals()), old(ready), now)
    {
      var t := ready[0];
      ready := ready[1..];
      var x := extras[t.tid];
      x := x.(waiting := x.waiting + (now - x.start));
      if alg.RoundRobin? {
        x := x.(ticks := 0);
      }
      current := Some(t);
      if alg.ByRemaining() {
        x := Used(x, 1);
      }
      extras := extras[t.tid := x];
    }

    /** The block repeated in the comparing preemptions: the head `t` of the queue takes the CPU
      * and the running thread goes to the tail. */
    method SwitchTo(t: Thread, now: int)
      requires ready != [] && ready[0] == t && t.tid in extras
      requires current.Some? && current.value.tid in extras && current.value.tid != t.tid
      modifies this`ready, this`current, this`extras
      ensures ready == old(ready)[1..] + [old(current).value] && current == Some(t)
      ensures
        var cur := old(current).value;
        var x, y := old(extras)[cur.tid], old(extras)[t.tid];
        extras == old(extras)[cur.tid := x.(start := now)]
                             [t.tid := y.(waiting := y.waiting + (now - y.start))]
    {
      extras := extras[t.tid := extras[t.tid].(waiting := extras[t.tid].waiting + (now - extras[t.tid].start))];
      extras := extras[current.value.tid := extras[current.value.tid].(start := now)];
      ready := ready + [current.value];
      ready := ready[1..];
      current := Some(t);
    }

    method SysExec(t: Thread, raw: Extra, now: int)
      modifies this
      ensures Globals() == SchedulerModel.SysExec(old(Globals()), t, raw, now)
    {
      ready := ready + [t];
      var x := raw;
      x := x.(arrive := now);
      x := x.(start := now);
      x := x.(waiting := 0);
      x := x.(remaining := t.length);
      order, extras := order + [t.tid], extras[t.tid := x];
    }

    method SysExit(tid: int, now: int)
      requires tid in extras
      modifies this
      ensures Globals() == SchedulerModel.SysExit(old(Globals()), tid, now)
    {
      extras := extras[tid := extras[tid].(finish := now + 1)];
      current := None;
    }

    method SysRead(tid: int, now: int)
      requires tid in extras
      modifies this
      ensures Globals() == SchedulerModel.SysRequest(old(Globals()), tid, now)
    {
      extras := extras[tid := extras[tid].(start := now + 1)];
      current := None;
    }

    method SysWrite(tid: int, now: int)
      requires tid in extras
      modifies this
      ensures Globals() == SchedulerModel.SysRequest(old(Globals()), tid, now)
    {
      extras := extras[tid := extras[tid].(start := now + 1)];
      current := None;
    }

    method IoComplete(t: Thread, now: int)
      requires t.tid in extras
      modifies this
      ensures Globals() == SchedulerModel.IoComplete(old(Globals()), t, now)
    {
      extras := extras[t.tid := extras[t.tid].(start := now + 1)];
      ready := ready + [t];
    }

    method IoStarting(tid: int, now: int)
      requires tid in extras
      modifies this
      ensures Globals() == SchedulerModel.IoStarting(old(Globals()), tid, now)
    {
      extras := extras[tid := extras[tid].(waiting := extras[tid].waiting + (now - extras[tid].start))];
    }

    /** Drains all_threads into the report. `ok` is false if there was no thread: the averages divide by zero. */
    method Stats() returns (ok: bool, tstats: seq<Stat>, waiting: int, turnaround: int)
      requires WellFormed(Globals())
      modifies this`order
      ensures order == []
      ensures tstats == Report(old(order), extras)
      ensures ok <==> tstats != []
      ensures ok ==> waiting == CDiv(TotalWaiting(tstats), |tstats|)
      ensures ok ==> turnaround == CDiv(TotalTurnaround(tstats), |tstats|)
    {
      var count := |order|;
      tstats := [];
      var totalWait, totalTurnaround := 0, 0;
      for i := 0 to count
        invariant order == old(order)[i..]
        invariant tstats == Report(old(order), extras)[..i]
        invariant totalWait == TotalWaiting(tstats) && totalTurnaround == TotalTurnaround(tstats)
      {
        var tid := order[0];
        order := order[1..];
        var stat := Stat(tid, extras[tid].waiting, extras[tid].finish - extras[tid].arrive);
        assert (tstats + [stat])[..i] == tstats;
        tstats := tstats + [stat];
        totalWait := totalWait + stat.waiting;
        totalTurnaround := totalTurnaround + stat.turnaround;
      }
      ok := count != 0;
      waiting, turnaround := 0, 0;
      if ok {
        waiting := CDiv(totalWait, count);
        turnaround := CDiv(totalTurnaround, count);
      }
    }
  }
}
