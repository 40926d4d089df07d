/** What the final report says of each thread, and what its averages are. */
module SchedulerReport {
  import opened Options
  import opened SchedulerModel
  import opened SchedulerRuns
  import opened SchedulerTheorems

  function Abs(a: int): nat { if a >= 0 then a else -a }

  /** b * CDiv(a, b) is the multiple of b nearest to a on the side of zero. */
  lemma DivisionTruncates(a: int, b: int)
    requires b > 0
    ensures Abs(b * CDiv(a, b)) <= Abs(a) && Abs(a - b * CDiv(a, b)) < b
    ensures (CDiv(a, b) > 0 ==> a > 0) && (CDiv(a, b) < 0 ==> a < 0)
  {
    Quotient(Abs(a), b);
    Opposite(b, Abs(a) / b);
  }

  lemma Quotient(n: nat, b: int)
    requires b > 0
    ensures 0 <= b * (n / b) <= n < b * (n / b) + b
    ensures n / b >= 0 && (n / b > 0 ==> n > 0)
  {
    var q := n / b;
    assert n == b * q + n % b;
    Positive(b, q);
  }

  lemma Positive(b: int, q: int)
    requires b > 0 && q >= 0
    ensures b * q >= 0
  {
  }

  lemma Opposite(b: int, q: int)
    ensures b * -q == -(b * q)
  {
  }

  /** Line k of the report is the record of the k-th thread, and no other's. */
  lemma LinesAreRecords(order: seq<int>, extras: map<int, Extra>, k: nat)
    requires k < |order| && forall i :: 0 <= i < |order| ==> order[i] in extras
    ensures
      var line, x := Report(order, extras)[k], extras[order[k]];
      line.tid == order[k] && line.waiting == x.waiting && line.turnaround == x.finish - x.arrive
  {
  }

  function Sum(s: seq<Stat>, field: Stat -> int): int {
    if s == [] then 0 else field(s[0]) + Sum(s[1..], field)
  }

  lemma {:induction false} SumOfInit(s: seq<Stat>, field: Stat -> int)
    requires s != []
    ensures Sum(s, field) == Sum(s[..|s| - 1], field) + field(s[|s| - 1])
  {
    if |s| > 1 {
      SumOfInit(s[1..], field);
      assert s[1..][..|s| - 2] == s[..|s| - 1][1..];
    }
  }

  /** The totals behind the averages are the sums over all lines. */
  lemma {:induction false} TotalsAreSums(r: seq<Stat>)
    ensures TotalWaiting(r) == Sum(r, (line: Stat) => line.waiting)
    ensures TotalTurnaround(r) == Sum(r, (line: Stat) => line.turnaround)
  {
    if r != [] {
      TotalsAreSums(r[..|r| - 1]);
      SumOfWaiting(r);
      SumOfTurnaround(r);
    }
  }

  lemma SumOfWaiting(r: seq<Stat>)
    requires r != [] && TotalWaiting(r[..|r| - 1]) == Sum(r[..|r| - 1], (line: Stat) => line.waiting)
    ensures TotalWaiting(r) == Sum(r, (line: Stat) => line.waiting)
  {
    SumOfInit(r, (line: Stat) => line.waiting);
  }

  lemma SumOfTurnaround(r: seq<Stat>)
    requires r != [] && TotalTurnaround(r[..|r| - 1]) == Sum(r[..|r| - 1], (line: Stat) => line.turnaround)
    ensures TotalTurnaround(r) == Sum(r, (line: Stat) => line.turnaround)
  {
    SumOfInit(r, (line: Stat) => line.turnaround);
  }

  /** The threads in the order in which they came. */
  function Arrivals(es: seq<Event>): seq<int> {
    if es == [] then [] else (if es[0].Exec? then [es[0].t.tid] else []) + Arrivals(es[1..])
  }

  lemma OrderGrows(w: World, e: Event)
    requires Inv(w) && Enabled(w, e)
    ensures Step(w, e).core.order == w.core.order + if e.Exec? then [e.t.tid] else []
  {
  }

  lemma {:induction false} OrderIsArrivals(w: World, es: seq<Event>)
    requires Inv(w) && Legal(w, es)
    ensures Final(w, es).core.order == w.core.order + Arrivals(es)
    decreases |es|
  {
    if es == [] {
      assert w.core.order + [] == w.core.order;
    } else {
      var w' := FirstStep(w, es);
      OrderIsArrivals(w', es[1..]);
      var first := if es[0].Exec? then [es[0].t.tid] else [];
      assert (w.core.order + first) + Arrivals(es[1..]) == w.core.order + (first + Arrivals(es[1..]));
    }
  }

  lemma FirstStep(w: World, es: seq<Event>) returns (w': World)
    requires Inv(w) && Legal(w, es) && es != []
    ensures Inv(w') && Legal(w', es[1..]) && Final(w, es) == Final(w', es[1..])
    ensures w'.core.order == w.core.order + if es[0].Exec? then [es[0].t.tid] else []
  {
    StepKeepsInv(w, es[0]);
    OrderGrows(w, es[0]);
    w' := Step(w, es[0]);
  }

  /** A line of the report says what the ledger has counted. */
  predicate Tells(line: Stat, tid: int, lives: map<int, Life>) {
    && tid in lives
    && line.tid == tid
    && line.waiting == lives[tid].ledger.waited - lives[tid].ledger.early
    && line.turnaround == line.waiting + lives[tid].ledger.cpu + lives[tid].ledger.io
  }

  lemma LineTells(w: World, k: nat)
    requires Inv(w) && k < |w.core.order| && w.core.order[k] in w.lives
    requires w.lives[w.core.order[k]].place == Finished
    requires forall i :: 0 <= i < |w.core.order| ==> w.core.order[i] in w.core.extras
    ensures Tells(Report(w.core.order, w.core.extras)[k], w.core.order[k], w.lives)
  {
    assert AccountOk(w, w.core.order[k]);
    LinesAreRecords(w.core.order, w.core.extras, k);
  }

  predicate AllFinished(w: World) {
    forall tid :: tid in w.lives ==> w.lives[tid].place == Finished
  }

  /** The report has one line for every thread, in the order in which they came, and it says of that thread what
    * the ledger has counted. */
  ghost predicate ReportIs(w: World, arrivals: seq<int>, r: seq<Stat>) {
    && |r| == |arrivals|
    && (forall tid :: tid in w.lives <==> tid in arrivals)
    && (forall i, j :: 0 <= i < j < |arrivals| ==> arrivals[i] != arrivals[j])
    && (forall k :: 0 <= k < |r| ==> Tells(r[k], arrivals[k], w.lives))
  }

  lemma ReportOf(w: World)
    requires Inv(w) && AllFinished(w)
    ensures forall k :: 0 <= k < |w.core.order| ==> w.core.order[k] in w.core.extras
    ensures ReportIs(w, w.core.order, Report(w.core.order, w.core.extras))
  {
    forall k | 0 <= k < |w.core.order| ensures w.core.order[k] in w.lives && w.core.order[k] in w.core.extras {
    }
    forall tid | tid in w.lives ensures tid in w.core.order {
      assert Located(w, tid);
    }
    forall k | 0 <= k < |w.core.order|
      ensures Tells(Report(w.core.order, w.core.extras)[k], w.core.order[k], w.lives)
    {
      LineTells(w, k);
    }
  }

  lemma ReportTellsTheRun(alg: Algorithm, quantum: int, start: int, es: seq<Event>)
    requires Legal(Initial(alg, quantum, start), es)
    requires AllFinished(Final(Initial(alg, quantum, start), es))
    ensures
      var c := Final(Initial(alg, quantum, start), es).core;
      forall k :: 0 <= k < |c.order| ==> c.order[k] in c.extras
    ensures
      var w := Final(Initial(alg, quantum, start), es);
      ReportIs(w, Arrivals(es), Report(w.core.order, w.core.extras))
  {
    var w0 := Initial(alg, quantum, start);
    RunKeepsInv(w0, es);
    OrderIsArrivals(w0, es);
    ReportOf(Final(w0, es));
    assert [] + Arrivals(es) == Arrivals(es);
  }
}
