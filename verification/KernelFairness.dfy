/** Threads of equal priority take turns: how many yields a ready thread waits for. */
module KernelFairness {
  import opened Sequences
  import opened KernelModel
  import opened KernelTheorems
  import opened Priorities
  import opened KernelEffects

  /** The thread is at index `p` of the sorted ready list, and nobody before it or running is higher. */
  ghost predicate Waiting(k: Kernel, t: int, p: nat) {
    && WellFormed(k) && Descending(k.ready, k.priority)
    && p < |k.ready| && k.ready[p] == t
    && (k.current == k.idle || k.priority[k.current] <= k.priority[t])
    && (forall i :: 0 <= i < p ==> k.priority[k.ready[i]] <= k.priority[t])
  }

  /** No thread that is higher becomes ready, and no priority changes. */
  predicate NobodyHigher(k: Kernel, e: Event, t: int)
    requires t in k.priority
  {
    match e
    case ECreate(_, p) => p <= k.priority[t]
    case EUnblock(u) => u in k.priority && k.priority[u] <= k.priority[t]
    case EUp(_, sorted) => sorted != [] ==> sorted[0] in k.priority && k.priority[sorted[0]] <= k.priority[t]
    case EPriorities(_) => false
    case _ => true
  }

  /** A thread that is not higher goes in behind `t`. */
  lemma InsertedBehind(list: seq<int>, u: int, priority: map<int, int>, t: int, p: nat)
    requires u in priority && Descending(list, priority) && p < |list| && list[p] == t
    requires priority[u] <= priority[t]
    ensures
      var list' := InsertOrdered(list, u, priority);
      && Descending(list', priority) && p < |list'| && list'[..p + 1] == list[..p + 1]
  {
    var i := InsertsBehindEquals(list, u, priority);
  }

  /** When the CPU is handed over, the thread runs or has one fewer before it. */
  lemma HandedOver(k: Kernel, t: int, p: nat)
    requires WellFormed(k) && Descending(k.ready, k.priority) && p < |k.ready| && k.ready[p] == t
    requires forall i :: 0 <= i < p ==> k.priority[k.ready[i]] <= k.priority[t]
    ensures if p == 0 then Schedule(k).current == t else Waiting(Schedule(k), t, p - 1)
  {
  }

  lemma YieldMoves(k: Kernel, t: int, p: nat)
    requires Waiting(k, t, p)
    ensures if p == 0 then Yield(k).current == t else Waiting(Yield(k), t, p - 1)
  {
    var ready := if k.current != k.idle then InsertOrdered(k.ready, k.current, k.priority) else k.ready;
    if k.current != k.idle {
      InsertedBehind(k.ready, k.current, k.priority, t, p);
      assert forall i :: 0 <= i <= p ==> ready[i] == ready[..p + 1][i] == k.ready[..p + 1][i] == k.ready[i];
    }
    HandedOver(k.(ready := ready, status := k.status[k.current := Ready]), t, p);
  }

  lemma ArrivalKeeps(k: Kernel, u: int, t: int, p: nat)
    requires Waiting(k, t, p) && u in k.status && k.priority[u] <= k.priority[t]
    ensures Waiting(Unblock(k, u), t, p)
  {
    InsertedBehind(k.ready, u, k.priority, t, p);
    var ready := InsertOrdered(k.ready, u, k.priority);
    assert forall i :: 0 <= i <= p ==> ready[i] == ready[..p + 1][i] == k.ready[..p + 1][i] == k.ready[i];
  }

  lemma BirthKeeps(k: Kernel, u: int, priority: int, t: int, p: nat)
    requires Waiting(k, t, p) && u !in k.status && priority <= k.priority[t]
    ensures Waiting(Create(k, u, priority), t, p)
  {
    var born := k.(status := k.status[u := Blocked], priority := k.priority[u := priority], pc := k.pc[u := Free]);
    assert forall i :: 0 <= i < |k.ready| ==> k.ready[i] in k.priority && k.ready[i] != u;
    assert Waiting(born, t, p);
    ArrivalKeeps(born, u, t, p);
  }

  lemma UpKeepsWaiting(k: Kernel, s: int, sorted: seq<int>, t: int, p: nat)
    requires Waiting(k, t, p) && Enabled(k, EUp(s, sorted)) && NobodyHigher(k, EUp(s, sorted), t)
    ensures Waiting(Up(k, s, sorted), t, p)
  {
    if sorted != [] {
      ArrivalKeeps(k, sorted[0], t, p);
    }
    PermutationKeeps(k.sems[s].waiters, sorted);
    assert forall i :: 0 <= i < |sorted| ==> sorted[i] in sorted;
  }

  lemma DownMoves(k: Kernel, s: int, t: int, p: nat) returns (p': nat)
    requires Waiting(k, t, p) && Enabled(k, EDown(s))
    ensures Down(k, s).current == t || (Waiting(Down(k, s), t, p') && p' <= p)
  {
    var sem := k.sems[s];
    p' := p;
    if sem.value == 0 {
      var asleep := k.(sems := k.sems[s := sem.(waiters := InsertOrdered(sem.waiters, k.current, k.priority))],
                       pc := k.pc[k.current := InDown(s)], status := k.status[k.current := Blocked]);
      HandedOver(asleep, t, p);
      p' := if p > 0 then p - 1 else 0;
    }
  }

  /** Whatever happens without anybody higher arriving, the thread moves no further back, and a yield moves it
    * one further to the front or gives it the CPU. */
  lemma StepMoves(k: Kernel, e: Event, t: int, p: nat) returns (p': nat)
    requires Inv(k) && Waiting(k, t, p) && Enabled(k, e) && t in k.priority && NobodyHigher(k, e, t)
    ensures Step(k, e).current == t ||
            (Waiting(Step(k, e), t, p') && p' <= p && (e.EYield? ==> p' < p))
  {
    p' := p;
    match e
    case ECreate(u, priority) => BirthKeeps(k, u, priority, t, p);
    case EUnblock(u) => ArrivalKeeps(k, u, t, p);
    case EUp(s, sorted) => UpKeepsWaiting(k, s, sorted, t, p);
    case ENewSem(s, value) =>
    case EDown(s) =>
      p' := DownMoves(k, s, t, p);
    case EYield =>
      p' := if p > 0 then p - 1 else 0;
      YieldMoves(k, t, p);
    case EBlock =>
      p' := if p > 0 then p - 1 else 0;
      HandedOver(k.(status := k.status[k.current := Blocked]), t, p);
    case EExit =>
      p' := if p > 0 then p - 1 else 0;
      HandedOver(k.(status := k.status[k.current := Dying]), t, p);
    case EPriorities(_) =>
  }

  function Yields(es: seq<Event>): nat {
    if es == [] then 0 else (if es[0].EYield? then 1 else 0) + Yields(es[1..])
  }

  /** Nobody higher arrives during the run, until the thread runs. */
  ghost predicate Undisturbed(k: Kernel, es: seq<Event>, t: int)
    requires Inv(k) && Legal(k, es)
    decreases |es|
  {
    es == [] ||
    (t in k.priority && NobodyHigher(k, es[0], t) &&
     (StepKeepsInv(k, es[0]);
      Step(k, es[0]).current == t || Undisturbed(Step(k, es[0]), es[1..], t)))
  }

  ghost predicate GetsCpu(k: Kernel, es: seq<Event>, t: int)
    requires Inv(k) && Legal(k, es)
    decreases |es|
  {
    es != [] &&
    (StepKeepsInv(k, es[0]);
     Step(k, es[0]).current == t || GetsCpu(Step(k, es[0]), es[1..], t))
  }

  /** A thread with p threads before it on the ready list, none of them higher, runs after at most p + 1 yields,
    * whatever else happens, as long as nobody higher arrives: equals take turns. */
  lemma {:induction false} EqualsTakeTurns(k: Kernel, es: seq<Event>, t: int, p: nat)
    requires Inv(k) && Legal(k, es) && Waiting(k, t, p) && Undisturbed(k, es, t)
    requires Yields(es) >= p + 1
    ensures GetsCpu(k, es, t)
    decreases |es|
  {
    var e := es[0];
    StepKeepsInv(k, e);
    var p' := StepMoves(k, e, t, p);
    if Step(k, e).current != t {
      EqualsTakeTurns(Step(k, e), es[1..], t, p');
    }
  }
}
