/** Exactly when the carts can deadlock, over all arrivals. */
module CartDeadlock {
  import opened CartModel
  import opened CartTheorems

  predicate Blocked(s: Ring, t: nat)
    requires Shape(s) && t < s.N()
  {
    s.slots[t].Cart? && !CanMove(s, t)
  }

  /** Some cart is unfinished and every unfinished cart is blocked. */
  ghost predicate Deadlocked(s: Ring)
    requires Shape(s)
  {
    && (exists t :: 0 <= t < s.N() && s.slots[t].Cart?)
    && (forall t :: 0 <= t < s.N() && s.slots[t].Cart? ==> Blocked(s, t))
  }

  /** Every track carries a cart, and all take their junctions in the same rotational order. */
  predicate SameWayRound(s: Ring) {
    || (forall t :: 0 <= t < s.N() ==> Forward(s.N(), t, s.slots[t]))
    || (forall t :: 0 <= t < s.N() ==> Backward(s.N(), t, s.slots[t]))
  }

  /** A cart on the last track has picked the wrong neighbour, and takes the two junctions of the cart on
    * track 0 in the other order. */
  predicate Opposed(s: Ring)
    requires s.N() >= 2
  {
    && Wrapped(s.N(), s.N() - 1, s.slots[s.N() - 1])
    && s.slots[0].Cart? && s.slots[0].first == s.slots[s.N() - 1].second
  }

  // ---- waiting -------------------------------------------------------------------------------------------

  /** The cart holds its first junction and waits for its second. */
  predicate Stuck(s: Ring, t: nat)
    requires t < s.N()
  {
    s.slots[t].Cart? && s.slots[t].stage.WantSecond?
  }

  /** A junction that is taken in a deadlock is the first of a stuck cart. */
  lemma StuckHolder(s: Ring, j: nat) returns (u: nat)
    requires Inv(s) && Deadlocked(s) && j < s.N() && s.sems[j] <= 0
    ensures u < s.N() && Stuck(s, u) && s.slots[u].first == j
  {
    assert JunctionOk(s, j);
    u := SomeHolder(s.slots, j);
    assert Blocked(s, u);
  }

  /** A stuck cart waits for one that is stuck with the junction as its first. */
  lemma WaitsFor(s: Ring, t: nat) returns (u: nat)
    requires Inv(s) && Deadlocked(s) && t < s.N() && Stuck(s, t)
    ensures u < s.N() && Stuck(s, u) && s.slots[u].first == s.slots[t].second
    ensures SlotOk(s.N(), t, s.slots[t]) && SlotOk(s.N(), u, s.slots[u]) && u != t
  {
    assert Blocked(s, t);
    assert SlotOk(s.N(), t, s.slots[t]);
    u := StuckHolder(s, s.slots[t].second);
    assert SlotOk(s.N(), u, s.slots[u]);
  }

  lemma SomebodyIsStuck(s: Ring) returns (t: nat)
    requires Inv(s) && Deadlocked(s)
    ensures t < s.N() && Stuck(s, t) && SlotOk(s.N(), t, s.slots[t])
  {
    t :| t < s.N() && s.slots[t].Cart?;
    assert Blocked(s, t);
    if s.slots[t].stage.WantFirst? {
      t := StuckHolder(s, s.slots[t].first);
    }
    assert SlotOk(s.N(), t, s.slots[t]);
  }

  predicate ForwardStuck(s: Ring, t: nat)
    requires t < s.N()
  {
    Forward(s.N(), t, s.slots[t]) && Stuck(s, t)
  }

  predicate BackwardStuck(s: Ring, t: nat)
    requires t < s.N()
  {
    Backward(s.N(), t, s.slots[t]) && Stuck(s, t)
  }

  /** A cart that is stuck waits for its neighbour in the same direction, or is part of an opposed pair. */
  lemma WaitChain(s: Ring, t: nat)
    requires Inv(s) && Deadlocked(s) && t < s.N() && !Opposed(s)
    ensures ForwardStuck(s, t) ==> ForwardStuck(s, Next(s.N(), t))
    ensures BackwardStuck(s, t) ==>
      BackwardStuck(s, Prev(s.N(), t)) || (t == 1 && Wrapped(s.N(), s.N() - 1, s.slots[s.N() - 1]))
  {
    if ForwardStuck(s, t) || BackwardStuck(s, t) {
      var u := WaitsFor(s, t);
    }
  }

  lemma {:induction false} ForwardChain(s: Ring, t: nat, u: nat)
    requires Inv(s) && Deadlocked(s) && !Opposed(s) && t <= u < s.N() && ForwardStuck(s, t)
    ensures ForwardStuck(s, u)
    decreases u - t
  {
    if t < u {
      WaitChain(s, t);
      ForwardChain(s, t + 1, u);
    }
  }

  lemma {:induction false} BackwardChain(s: Ring, t: nat, u: nat)
    requires Inv(s) && Deadlocked(s) && !Opposed(s) && u <= t < s.N() && BackwardStuck(s, t)
    requires !Wrapped(s.N(), s.N() - 1, s.slots[s.N() - 1])
    ensures BackwardStuck(s, u)
    decreases t - u
  {
    if u < t {
      WaitChain(s, t);
      BackwardChain(s, t - 1, u);
    }
  }

  /** All carts go round forward, if one is stuck that way. */
  lemma AllForward(s: Ring, t: nat)
    requires Inv(s) && Deadlocked(s) && !Opposed(s) && t < s.N() && ForwardStuck(s, t)
    ensures forall u :: 0 <= u < s.N() ==> Forward(s.N(), u, s.slots[u])
  {
    var n := s.N();
    ForwardChain(s, t, n - 1);
    WaitChain(s, n - 1);
    forall u | 0 <= u < n ensures Forward(n, u, s.slots[u]) {
      ForwardChain(s, 0, u);
    }
  }

  lemma AllBackward(s: Ring, t: nat)
    requires Inv(s) && Deadlocked(s) && !Opposed(s) && t < s.N() && BackwardStuck(s, t)
    requires !Wrapped(s.N(), s.N() - 1, s.slots[s.N() - 1])
    ensures forall u :: 0 <= u < s.N() ==> Backward(s.N(), u, s.slots[u])
  {
    var n := s.N();
    BackwardChain(s, t, 0);
    WaitChain(s, 0);
    forall u | 0 <= u < n ensures Backward(n, u, s.slots[u]) {
      BackwardChain(s, n - 1, u);
    }
  }

  /** The cart with the wrong neighbour is stuck only if it is opposed. */
  lemma WrappedIsNotStuck(s: Ring)
    requires Inv(s) && Deadlocked(s) && !Opposed(s)
    requires Wrapped(s.N(), s.N() - 1, s.slots[s.N() - 1])
    ensures !Stuck(s, s.N() - 1)
  {
    if Stuck(s, s.N() - 1) {
      var u := WaitsFor(s, s.N() - 1);
      if ForwardStuck(s, u) {
        AllForward(s, u);
      }
    }
  }

  lemma {:induction false} NobodyIsStuckBackward(s: Ring, t: nat)
    requires Inv(s) && Deadlocked(s) && !Opposed(s) && t < s.N()
    requires Wrapped(s.N(), s.N() - 1, s.slots[s.N() - 1])
    ensures !BackwardStuck(s, t)
  {
    if BackwardStuck(s, t) {
      WrappedIsNotStuck(s);
      var u := WaitsFor(s, t);
      if t > 0 {
        NobodyIsStuckBackward(s, t - 1);
      }
    }
  }

  /** A deadlocked ring is full and all its carts go the same way round, or it has an opposed pair. */
  lemma DeadlockNeeds(s: Ring)
    requires Inv(s) && Deadlocked(s)
    ensures SameWayRound(s) || Opposed(s)
  {
    if !Opposed(s) {
      var t := SomebodyIsStuck(s);
      if ForwardStuck(s, t) {
        AllForward(s, t);
      } else if Wrapped(s.N(), s.N() - 1, s.slots[s.N() - 1]) {
        WrappedIsNotStuck(s);
        NobodyIsStuckBackward(s, t);
      } else {
        AllBackward(s, t);
      }
    }
  }

  /** No run, with any arrivals in any interleaving, reaches a state in which the carts are stuck, unless
    * every track then carries a cart and all go the same way round, or there is an opposed pair. */
  lemma NoDeadlock(n: nat, es: seq<Event>)
    requires n >= 2 && (StartIsOk(n); Legal(Start(n), es))
    ensures
      var s := (StartIsOk(n); Final(Start(n), es));
      SameWayRound(s) || Opposed(s) || !Deadlocked(s)
  {
    StartIsOk(n);
    var s := Final(Start(n), es);
    if Deadlocked(s) {
      DeadlockNeeds(s);
    }
  }

  predicate AllHandled(n: nat, es: seq<Event>) {
    forall k :: 0 <= k < |es| && es[k].Arrives? ==> Handled(n, es[k].t, es[k].j)
  }

  lemma {:induction false} HandledNeverWraps(s: Ring, es: seq<Event>)
    requires Inv(s) && Legal(s, es) && AllHandled(s.N(), es)
    requires !Wrapped(s.N(), s.N() - 1, s.slots[s.N() - 1])
    ensures !Wrapped(s.N(), s.N() - 1, Final(s, es).slots[s.N() - 1])
    decreases |es|
  {
    if es != [] {
      var e := es[0];
      StepKeepsInv(s, e);
      assert e.Arrives? ==> Handled(s.N(), e.t, e.j);
      HandledNeverWraps(Step(s, e), es[1..]);
    }
  }

  /** Without the one bad arrival nobody picks a wrong neighbour, so carts whose tracks meet never cross
    * together, and only a full ring going the same way round can be stuck. */
  lemma HandledIsSafe(n: nat, es: seq<Event>, t: nat, u: nat)
    requires n >= 2 && (StartIsOk(n); Legal(Start(n), es)) && AllHandled(n, es)
    ensures
      var s := (StartIsOk(n); Final(Start(n), es));
      && (Meet(n, t, u) ==> !(Crosses(s, t) && Crosses(s, u)))
      && (Deadlocked(s) ==> SameWayRound(s))
  {
    StartIsOk(n);
    var s := Final(Start(n), es);
    HandledNeverWraps(Start(n), es);
    NoDeadlock(n, es);
    if Meet(n, t, u) && Crosses(s, t) && Crosses(s, u) {
      OnlyTheWrapCollides(s, t, u);
    }
  }

  // ---- exactly when ------------------------------------------------------------------------------------

  /** The carts have just arrived: none has taken a junction. */
  predicate JustArrived(s: Ring) {
    Inv(s) && forall t :: 0 <= t < s.N() && s.slots[t].Cart? ==> s.slots[t].stage.WantFirst?
  }

  predicate OnlyMoves(es: seq<Event>) {
    forall k :: 0 <= k < |es| ==> es[k].Moves?
  }

  /** Moving changes no cart's junctions and brings none in. */
  lemma {:induction false} MovesKeepCarts(s: Ring, es: seq<Event>, t: nat)
    requires Inv(s) && Legal(s, es) && OnlyMoves(es) && t < s.N() && Final(s, es).slots[t].Cart?
    ensures
      var was, now := s.slots[t], Final(s, es).slots[t];
      was.Cart? && was.first == now.first && was.second == now.second
    decreases |es|
  {
    if es != [] {
      StepKeepsInv(s, es[0]);
      MovesKeepCarts(Step(s, es[0]), es[1..], t);
    }
  }

  lemma MovesKeepDeadlock(s: Ring, es: seq<Event>)
    requires Inv(s) && Legal(s, es) && OnlyMoves(es) && Deadlocked(Final(s, es))
    ensures SameWayRound(s) || Opposed(s)
  {
    var n, r := s.N(), Final(s, es);
    DeadlockNeeds(r);
    forall t | 0 <= t < n && r.slots[t].Cart?
      ensures s.slots[t].Cart? && s.slots[t].first == r.slots[t].first && s.slots[t].second == r.slots[t].second
    {
      MovesKeepCarts(s, es, t);
    }
  }

  /** The bad schedule: from track k on, every cart takes its first junction. */
  lemma {:induction false} EveryoneTakesFirst(s: Ring, k: nat) returns (es: seq<Event>)
    requires Inv(s) && SameWayRound(s) && k <= s.N()
    requires forall t :: 0 <= t < s.N() ==>
      s.slots[t].stage == if t < k then WantSecond else WantFirst
    ensures Legal(s, es) && OnlyMoves(es) && Deadlocked(Final(s, es))
    decreases s.N() - k
  {
    var n := s.N();
    if k == n {
      es := [];
      forall t | 0 <= t < n ensures Blocked(s, t) {
        var u := if Forward(n, t, s.slots[t]) then Next(n, t) else Prev(n, t);
        assert Holds(s.slots[u], s.slots[t].second);
        OneHolder(s.slots, u, s.slots[t].second);
        assert JunctionOk(s, s.slots[t].second);
      }
      assert s.slots[0].Cart?;
    } else {
      FirstIsFree(s, k);
      var r := TakeStep(s, Moves(k));
      var rest := EveryoneTakesFirst(r, k + 1);
      es := Prepend(s, Moves(k), rest);
    }
  }

  /** When all go the same way round, nobody else has a cart's first junction as its own first. */
  lemma FirstIsFree(s: Ring, k: nat)
    requires Inv(s) && SameWayRound(s) && k < s.N()
    requires forall t :: 0 <= t < s.N() ==>
      s.slots[t].stage == if t < k then WantSecond else WantFirst
    ensures CanMove(s, k)
  {
    assert JunctionOk(s, s.slots[k].first);
    if Holders(s.slots, s.slots[k].first) > 0 {
      var u := SomeHolder(s.slots, s.slots[k].first);
    }
  }

  // ---- the opposed pair ----------------------------------------------------------------------------------

  /** Each of the pair holds what the other waits for. */
  predicate Locked(s: Ring)
    requires s.N() >= 2
  {
    Opposed(s) && Stuck(s, 0) && Stuck(s, s.N() - 1)
  }

  lemma LockedStays(s: Ring, t: nat)
    requires Inv(s) && Locked(s) && t < s.N()
    ensures t == 0 || t == s.N() - 1 ==> !CanMove(s, t)
    ensures CanMove(s, t) ==> Locked(Move(s, t))
  {
    var n := s.N();
    assert SlotOk(n, 0, s.slots[0]);
    assert JunctionOk(s, s.slots[0].second) && JunctionOk(s, s.slots[n - 1].second);
    OneHolder(s.slots, 0, s.slots[n - 1].second);
    OneHolder(s.slots, n - 1, s.slots[0].second);
  }

  /** The other carts move as long as any can. */
  lemma {:induction false} RunOut(s: Ring) returns (es: seq<Event>)
    requires Inv(s) && Locked(s)
    ensures Legal(s, es) && OnlyMoves(es) && Deadlocked(Final(s, es))
    decreases Work(s.slots)
  {
    var n := s.N();
    if t: nat :| t < n && CanMove(s, t) {
      LockedStays(s, t);
      var r := TakeStep(s, Moves(t));
      WorkUpdate(s.slots, t, r.slots[t]);
      var rest := RunOut(r);
      es := Prepend(s, Moves(t), rest);
    } else {
      es := [];
      assert s.slots[0].Cart?;
      forall t | 0 <= t < n && s.slots[t].Cart? ensures Blocked(s, t) {
        assert !CanMove(s, t);
      }
    }
  }

  lemma OpposedDeadlocks(s: Ring) returns (es: seq<Event>)
    requires JustArrived(s) && Opposed(s)
    ensures Legal(s, es) && OnlyMoves(es) && Deadlocked(Final(s, es))
  {
    var n := s.N();
    assert SlotOk(n, 0, s.slots[0]);
    NobodyHasTaken(s, s.slots[0].first);
    NobodyHasTaken(s, s.slots[n - 1].first);
    assert JunctionOk(s, s.slots[0].first) && JunctionOk(s, s.slots[n - 1].first);
    var s1 := TakeStep(s, Moves(0));
    var s2 := TakeStep(s1, Moves(n - 1));
    es := RunOut(s2);
    es := Prepend(s1, Moves(n - 1), es);
    es := Prepend(s, Moves(0), es);
  }

  lemma NobodyHasTaken(s: Ring, j: nat)
    requires JustArrived(s)
    ensures Holders(s.slots, j) == 0
  {
    if Holders(s.slots, j) > 0 {
      var t := SomeHolder(s.slots, j);
    }
  }

  /** Carts that have just arrived can deadlock if and only if they fill the ring and all go the same way
    * round, or two of them are opposed because one has picked the wrong neighbour. */
  lemma CanDeadlockIff(s: Ring)
    requires JustArrived(s)
    ensures (exists es :: Legal(s, es) && OnlyMoves(es) && Deadlocked(Final(s, es))) <==>
            SameWayRound(s) || Opposed(s)
  {
    if SameWayRound(s) {
      var es := EveryoneTakesFirst(s, 0);
    } else if Opposed(s) {
      var es := OpposedDeadlocks(s);
    }
    forall es | Legal(s, es) && OnlyMoves(es) && Deadlocked(Final(s, es)) ensures SameWayRound(s) || Opposed(s) {
      MovesKeepDeadlock(s, es);
    }
  }

  // ---- everybody crosses -----------------------------------------------------------------------------

  function MovesLeft(slot: Slot): nat {
    match slot
    case Empty => 0
    case Cart(_, _, WantFirst) => 4
    case Cart(_, _, WantSecond) => 3
    case Cart(_, _, Crossing) => 2
    case Cart(_, _, FreeSecond) => 1
  }

  function Work(slots: seq<Slot>): nat {
    if slots == [] then 0 else MovesLeft(slots[0]) + Work(slots[1..])
  }

  lemma {:induction false} WorkUpdate(slots: seq<Slot>, t: nat, slot: Slot)
    requires t < |slots|
    ensures Work(slots[t := slot]) == Work(slots) - MovesLeft(slots[t]) + MovesLeft(slot)
  {
    if t == 0 {
      assert slots[t := slot][1..] == slots[1..];
    } else {
      assert slots[t := slot][1..] == slots[1..][t - 1 := slot];
      WorkUpdate(slots[1..], t - 1, slot);
    }
  }

  lemma {:induction false} WorkBound(slots: seq<Slot>)
    ensures Work(slots) <= 4 * |slots|
  {
    if slots != [] {
      WorkBound(slots[1..]);
    }
  }

  lemma {:induction false} MovesUseUpWork(s: Ring, es: seq<Event>)
    requires Inv(s) && Legal(s, es) && OnlyMoves(es)
    ensures Work(Final(s, es).slots) == Work(s.slots) - |es|
    decreases |es|
  {
    if es != [] {
      var t := es[0].t;
      assert es[0].Moves?;
      StepKeepsInv(s, es[0]);
      WorkUpdate(s.slots, t, Step(s, es[0]).slots[t]);
      MovesUseUpWork(Step(s, es[0]), es[1..]);
    }
  }

  /** Otherwise, however the carts are scheduled, they make at most four moves each, and when none can move
    * any more all have crossed. */
  lemma EverybodyCrosses(s: Ring, es: seq<Event>)
    requires Inv(s) && !SameWayRound(s) && !Opposed(s) && Legal(s, es) && OnlyMoves(es)
    ensures |es| <= 4 * s.N()
    ensures (forall t :: 0 <= t < s.N() ==> !CanMove(Final(s, es), t)) ==>
            forall t :: 0 <= t < s.N() ==> Final(s, es).slots[t].Empty?
  {
    MovesUseUpWork(s, es);
    WorkBound(s.slots);
    var n, r := s.N(), Final(s, es);
    if (forall t :: 0 <= t < n ==> !CanMove(r, t)) && (exists t :: 0 <= t < n && r.slots[t].Cart?) {
      forall t | 0 <= t < n && r.slots[t].Cart? ensures Blocked(r, t) {
        assert !CanMove(r, t);
      }
      MovesKeepDeadlock(s, es);
    }
  }

  /** A run of two arrivals and two moves into a deadlock of a ring that is not full. */
  ghost predicate DeadlocksEarly(n: nat, es: seq<Event>) {
    && Inv(Start(n)) && |es| == 4 && Legal(Start(n), es)
    && Deadlocked(Final(Start(n), es)) && !SameWayRound(Final(Start(n), es))
  }

  lemma TwoCartsRun(n: nat) returns (es: seq<Event>)
    requires n >= 3
    ensures Inv(Start(n)) && Legal(Start(n), es) && Deadlocked(Final(Start(n), es))
    ensures !SameWayRound(Final(Start(n), es))
    ensures |es| == 4
  {
    StartIsOk(n);
    var e1, e2 := Arrives(1, n - 1, 0), Arrives(0, 0, 0);
    var s1 := TakeStep(Start(n), e1);
    var s2 := TakeStep(s1, e2);
    assert s2.slots[n - 1] == Cart(0, 1, WantFirst) && s2.slots[0] == Cart(1, 0, WantFirst);
    var s3 := TakeStep(s2, Moves(n - 1));
    var s4 := TakeStep(s3, Moves(0));
    forall t | 0 <= t < n && s4.slots[t].Cart? ensures Blocked(s4, t) {
      assert t == 0 || t == n - 1;
    }
    assert s4.slots[0].Cart? && s4.slots[1].Empty?;
    es := Prepend(s3, Moves(0), []);
    es := Prepend(s2, Moves(n - 1), es);
    es := Prepend(s1, e2, es);
    es := Prepend(Start(n), e1, es);
  }

  /** On every ring of three or more, two carts are enough: one comes to junction 0 from the last track, the
    * other is on track 0 and takes the same two junctions in the other order. */
  lemma TwoCartsDeadlock(n: nat)
    requires n >= 3
    ensures exists es :: DeadlocksEarly(n, es)
  {
    var es := TwoCartsRun(n);
    assert DeadlocksEarly(n, es);
  }
}
