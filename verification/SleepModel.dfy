/** The sleep service that the three timers implement: threads with a deadline, woken when it has come.
  *
  * timer_sleep reads the clock and stores the deadline before it disables interrupts and blocks, so a thread
  * may fall asleep when its deadline has passed. The lists wake whoever is due by then, the scan of all
  * threads only who is due at exactly that tick.
  */
module SleepModel {
  datatype Service = Service(ticks: int, sleepers: map<int, int>)

  /** timer_sleep of thread `t`, begun at tick `start`, as it blocks; nothing happens unless the time is
    * positive. */
  function Sleep(s: Service, t: int, start: int, n: int): Service {
    if n > 0 then s.(sleepers := s.sleepers[t := start + n]) else s
  }

  /** The threads that the next interrupt wakes. `exact`: it compares for equality. */
  function Due(s: Service, exact: bool): set<int> {
    set t | t in s.sleepers && (if exact then s.sleepers[t] == s.ticks + 1 else s.sleepers[t] <= s.ticks + 1)
  }

  function Interrupt(s: Service, exact: bool): Service {
    Service(s.ticks + 1, s.sleepers - Due(s, exact))
  }

  /** No deadline has passed. */
  ghost predicate Ahead(s: Service) {
    forall t :: t in s.sleepers ==> s.sleepers[t] > s.ticks
  }

  /** The two comparisons wake the same threads if and only if nobody fell asleep after its deadline. */
  lemma SameDueIff(s: Service)
    ensures Due(s, true) == Due(s, false) <==> Ahead(s)
  {
    if t :| t in s.sleepers && s.sleepers[t] <= s.ticks {
      assert t in Due(s, false) && t !in Due(s, true);
    } else {
      assert forall t :: t in Due(s, false) <==> t in Due(s, true);
    }
  }

  datatype Event = ESleep(t: int, start: int, n: int) | EInterrupt

  /** Only a thread that is awake goes to sleep, and it has begun to before. */
  predicate Enabled(s: Service, e: Event) {
    e.ESleep? ==> e.t !in s.sleepers && e.start <= s.ticks
  }

  function Step(s: Service, e: Event, exact: bool): Service {
    match e
    case ESleep(t, start, n) => Sleep(s, t, start, n)
    case EInterrupt => Interrupt(s, exact)
  }

  predicate Legal(s: Service, es: seq<Event>, exact: bool)
    decreases |es|
  {
    es == [] || (Enabled(s, es[0]) && Legal(Step(s, es[0], exact), es[1..], exact))
  }

  function Final(s: Service, es: seq<Event>, exact: bool): Service
    decreases |es|
  {
    if es == [] then s else Final(Step(s, es[0], exact), es[1..], exact)
  }

  function Interrupts(es: seq<Event>): nat {
    if es == [] then 0 else (if es[0].EInterrupt? then 1 else 0) + Interrupts(es[1..])
  }

  /** How often a run wakes thread `t`. */
  function Wakes(s: Service, es: seq<Event>, t: int, exact: bool): nat
    decreases |es|
  {
    if es == [] then 0
    else
      (if es[0].EInterrupt? && t in Due(s, exact) then 1 else 0) + Wakes(Step(s, es[0], exact), es[1..], t, exact)
  }

  /** A sleeper wakes at its deadline, or at the next tick if that has passed. */
  function WakeTime(s: Service, t: int): int
    requires t in s.sleepers
  {
    if s.sleepers[t] > s.ticks then s.sleepers[t] else s.ticks + 1
  }

  /** A sleeper sleeps through every run with fewer interrupts than its time, and the interrupt that makes
    * them as many wakes it: once, exactly at its wake time. The scan needs that it fell asleep in time. */
  lemma {:induction false} SleepsExactly(s: Service, es: seq<Event>, t: int, exact: bool)
    requires Legal(s, es, exact) && t in s.sleepers && (exact ==> s.sleepers[t] > s.ticks)
    ensures Interrupts(es) < WakeTime(s, t) - s.ticks ==>
      Wakes(s, es, t, exact) == 0 && t in Final(s, es, exact).sleepers &&
      Final(s, es, exact).sleepers[t] == s.sleepers[t]
    ensures Interrupts(es) == WakeTime(s, t) - s.ticks && es != [] && es[|es| - 1].EInterrupt? ==>
      Wakes(s, es, t, exact) == 1 && t !in Final(s, es, exact).sleepers &&
      Final(s, es, exact).ticks == WakeTime(s, t)
    decreases |es|
  {
    if es != [] {
      var s', rest := Step(s, es[0], exact), es[1..];
      assert rest != [] ==> rest[|rest| - 1] == es[|es| - 1];
      if t in s'.sleepers {
        SleepsExactly(s', rest, t, exact);
        NoInterruptsLeft(rest);
      } else {
        NoInterruptsLeft(rest);
      }
    }
  }

  lemma {:induction false} NoInterruptsLeft(es: seq<Event>)
    ensures es != [] && es[|es| - 1].EInterrupt? ==> Interrupts(es) > 0
  {
    if |es| > 1 {
      assert es[1..][|es| - 2] == es[|es| - 1];
      NoInterruptsLeft(es[1..]);
    }
  }

  /** timer_sleep of n ticks begun at tick `start`: with n <= 0 nothing happens; otherwise the thread wakes once,
    * at tick start + n, or at the next one if that has passed when it blocks. */
  lemma SleepLasts(s: Service, t: int, start: int, n: int, es: seq<Event>, exact: bool)
    requires Enabled(s, ESleep(t, start, n)) && Legal(Step(s, ESleep(t, start, n), exact), es, exact)
    requires exact ==> start + n > s.ticks
    ensures n <= 0 ==> Step(s, ESleep(t, start, n), exact) == s
    ensures n > 0 ==>
      var s' := Step(s, ESleep(t, start, n), exact);
      var wake := if start + n > s.ticks then start + n else s.ticks + 1;
      && s'.ticks == s.ticks
      && (Interrupts(es) < wake - s.ticks ==> Wakes(s', es, t, exact) == 0 && t in Final(s', es, exact).sleepers)
      && (Interrupts(es) == wake - s.ticks && es != [] && es[|es| - 1].EInterrupt? ==>
            Wakes(s', es, t, exact) == 1 && t !in Final(s', es, exact).sleepers &&
            Final(s', es, exact).ticks == wake)
  {
    if n > 0 {
      SleepsExactly(Step(s, ESleep(t, start, n), exact), es, t, exact);
    }
  }

  /** The scan never wakes a thread that fell asleep after its deadline. */
  lemma {:induction false} ScanMissesForGood(s: Service, es: seq<Event>, t: int)
    requires Legal(s, es, true) && t in s.sleepers && s.sleepers[t] <= s.ticks
    ensures Wakes(s, es, t, true) == 0 && t in Final(s, es, true).sleepers
    decreases |es|
  {
    if es != [] {
      ScanMissesForGood(Step(s, es[0], true), es[1..], t);
    }
  }
}
