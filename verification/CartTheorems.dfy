/** Mutual exclusion on junctions, and exactly when the carts can deadlock. */
module CartTheorems {
  import opened CartModel

  // ---- invariant -----------------------------------------------------------------------------------------

  predicate Holds(slot: Slot, j: int) {
    slot.Cart? && ((j == slot.first && (slot.stage.WantSecond? || slot.stage.Crossing?)) ||
                   (j == slot.second && (slot.stage.Crossing? || slot.stage.FreeSecond?)))
  }

  /** A cart on track t uses the two ends of the track, in one order or the other. */
  predicate Forward(n: nat, t: nat, slot: Slot)
    requires t < n
  {
    slot.Cart? && slot.first == t && slot.second == Next(n, t)
  }

  predicate Backward(n: nat, t: nat, slot: Slot)
    requires t < n
  {
    slot.Cart? && slot.first == Next(n, t) && slot.second == t
  }

  /** The cart on the last track for which make_cart picks the wrong neighbour uses junctions 0 and 1. */
  predicate Wrapped(n: nat, t: nat, slot: Slot)
    requires t < n
  {
    && n > 2 && t == n - 1 && slot.Cart?
    && ((slot.first == 0 && slot.second == 1) || (slot.first == 1 && slot.second == 0))
  }

  /** The number of carts that hold a junction. */
  function Holders(slots: seq<Slot>, j: int): nat {
    if slots == [] then 0 else (if Holds(slots[0], j) then 1 else 0) + Holders(slots[1..], j)
  }

  lemma {:induction false} HoldersUpdate(slots: seq<Slot>, t: nat, slot: Slot, j: int)
    requires t < |slots|
    ensures Holders(slots[t := slot], j) ==
            Holders(slots, j) - (if Holds(slots[t], j) then 1 else 0) + (if Holds(slot, j) then 1 else 0)
  {
    if t == 0 {
      assert slots[t := slot][1..] == slots[1..];
    } else {
      assert slots[t := slot][1..] == slots[1..][t - 1 := slot];
      HoldersUpdate(slots[1..], t - 1, slot, j);
    }
  }

  lemma {:induction false} OneHolder(slots: seq<Slot>, t: nat, j: int)
    requires t < |slots| && Holds(slots[t], j)
    ensures Holders(slots, j) >= 1
  {
    if t > 0 {
      OneHolder(slots[1..], t - 1, j);
    }
  }

  lemma {:induction false} TwoHolders(slots: seq<Slot>, t: nat, u: nat, j: int)
    requires t < u < |slots| && Holds(slots[t], j) && Holds(slots[u], j)
    ensures Holders(slots, j) >= 2
  {
    if t == 0 {
      OneHolder(slots[1..], u - 1, j);
    } else {
      TwoHolders(slots[1..], t - 1, u - 1, j);
    }
  }

  lemma {:induction false} SomeHolder(slots: seq<Slot>, j: int) returns (t: nat)
    requires Holders(slots, j) > 0
    ensures t < |slots| && Holds(slots[t], j)
  {
    if Holds(slots[0], j) {
      t := 0;
    } else {
      t := SomeHolder(slots[1..], j);
      t := t + 1;
    }
  }

  /** A junction's semaphore counts who holds it. */
  predicate JunctionOk(s: Ring, j: nat)
    requires Shape(s) && j < s.N()
  {
    s.sems[j] >= 0 && s.sems[j] + Holders(s.slots, j) == 1
  }

  predicate SlotOk(n: nat, t: nat, slot: Slot)
    requires t < n
  {
    slot.Empty? || Forward(n, t, slot) || Backward(n, t, slot) || Wrapped(n, t, slot)
  }

  predicate Inv(s: Ring) {
    && Shape(s)
    && (forall t :: 0 <= t < s.N() ==> SlotOk(s.N(), t, s.slots[t]))
    && (forall j :: 0 <= j < s.N() ==> JunctionOk(s, j))
  }

  lemma {:induction false} NobodyHolds(n: nat, j: int)
    ensures Holders(seq(n, _ => Empty), j) == 0
  {
    if n > 0 {
      assert seq(n, _ => Empty)[1..] == seq(n - 1, _ => Empty);
      NobodyHolds(n - 1, j);
    }
  }

  lemma StartIsOk(n: nat)
    requires n >= 2
    ensures Inv(Start(n))
  {
    forall j | 0 <= j < n ensures JunctionOk(Start(n), j) {
      NobodyHolds(n, j);
    }
  }

  lemma StepKeepsShape(s: Ring, e: Event)
    requires Inv(s) && Enabled(s, e)
    ensures Shape(Step(s, e)) && forall t :: 0 <= t < s.N() ==> SlotOk(s.N(), t, Step(s, e).slots[t])
  {
    assert SlotOk(s.N(), e.t, s.slots[e.t]);
  }

  lemma StepKeepsJunction(s: Ring, e: Event, j: nat)
    requires Inv(s) && Enabled(s, e) && Shape(Step(s, e)) && j < s.N()
    ensures JunctionOk(Step(s, e), j)
  {
    assert SlotOk(s.N(), e.t, s.slots[e.t]);
    assert JunctionOk(s, j);
    HoldersUpdate(s.slots, e.t, Step(s, e).slots[e.t], j);
  }

  lemma StepKeepsInv(s: Ring, e: Event)
    requires Inv(s) && Enabled(s, e)
    ensures Inv(Step(s, e))
  {
    StepKeepsShape(s, e);
    forall j | 0 <= j < s.N() ensures JunctionOk(Step(s, e), j) {
      StepKeepsJunction(s, e, j);
    }
  }

  predicate Legal(s: Ring, es: seq<Event>)
    requires Inv(s)
    decreases |es|
  {
    es == [] || (Enabled(s, es[0]) && (StepKeepsInv(s, es[0]); Legal(Step(s, es[0]), es[1..])))
  }

  function Final(s: Ring, es: seq<Event>): (r: Ring)
    requires Inv(s) && Legal(s, es)
    ensures Inv(r) && r.N() == s.N()
    decreases |es|
  {
    if es == [] then s else (StepKeepsInv(s, es[0]); Final(Step(s, es[0]), es[1..]))
  }

  // ---- exclusion -----------------------------------------------------------------------------------------

  lemma HeldOnce(s: Ring, t: nat, u: nat, j: int)
    requires Inv(s) && t < s.N() && u < s.N() && Holds(s.slots[t], j) && Holds(s.slots[u], j)
    ensures t == u
  {
    assert SlotOk(s.N(), t, s.slots[t]);
    assert JunctionOk(s, j);
    if t < u {
      TwoHolders(s.slots, t, u, j);
    } else if u < t {
      TwoHolders(s.slots, u, t, j);
    }
  }

  predicate Crosses(s: Ring, t: nat)
    requires t < s.N()
  {
    s.slots[t].Cart? && s.slots[t].stage.Crossing?
  }

  /** In every interleaving of all arrivals, two carts never hold the same junction, and a crossing cart holds
    * both ends of its track, unless it is the one that has picked the wrong neighbour. */
  lemma JunctionsAreExclusive(n: nat, es: seq<Event>, t: nat, u: nat, j: int)
    requires n >= 2 && (StartIsOk(n); Legal(Start(n), es)) && t < n && u < n
    ensures
      var s := (StartIsOk(n); Final(Start(n), es));
      && (Holds(s.slots[t], j) && Holds(s.slots[u], j) ==> t == u)
      && (Crosses(s, t) ==>
            if Wrapped(n, t, s.slots[t]) then Holds(s.slots[t], 0) && Holds(s.slots[t], 1)
            else Holds(s.slots[t], t) && Holds(s.slots[t], Next(n, t)))
  {
    StartIsOk(n);
    var s := Final(Start(n), es);
    assert SlotOk(n, t, s.slots[t]);
    if Holds(s.slots[t], j) && Holds(s.slots[u], j) {
      HeldOnce(s, t, u, j);
    }
  }

  /** Two tracks that have a junction in common. */
  predicate Meet(n: nat, t: nat, u: nat) {
    t < n && u < n && t != u && (u == Next(n, t) || t == Next(n, u))
  }

  /** If carts whose tracks meet ever cross together, one is on the last track and has picked the wrong
    * neighbour, the other is on the track before, and there are at least four tracks. */
  lemma OnlyTheWrapCollides(s: Ring, t: nat, u: nat)
    requires Inv(s) && Meet(s.N(), t, u) && Crosses(s, t) && Crosses(s, u)
    ensures s.N() >= 4
    ensures (t == s.N() - 1 && u == t - 1 && Wrapped(s.N(), t, s.slots[t])) ||
            (u == s.N() - 1 && t == u - 1 && Wrapped(s.N(), u, s.slots[u]))
  {
    var n := s.N();
    assert SlotOk(n, t, s.slots[t]) && SlotOk(n, u, s.slots[u]);
    forall j | Holds(s.slots[t], j) && Holds(s.slots[u], j) ensures false {
      HeldOnce(s, t, u, j);
    }
    assert !(Holds(s.slots[t], t) && Holds(s.slots[u], t)) && !(Holds(s.slots[t], u) && Holds(s.slots[u], u));
    assert !(Holds(s.slots[t], 0) && Holds(s.slots[u], 0)) && !(Holds(s.slots[t], 1) && Holds(s.slots[u], 1));
  }

  /** With at least four tracks, whatever the cart's number: it comes to junction 0 from the last track and
    * crosses while a cart on the track before holds the junction where they meet. */
  lemma WrapBreaksExclusion(n: nat, c: nat) returns (es: seq<Event>)
    requires n >= 4
    ensures Inv(Start(n)) && Legal(Start(n), es) && Meet(n, n - 1, n - 2)
    ensures Crosses(Final(Start(n), es), n - 1) && Crosses(Final(Start(n), es), n - 2)
  {
    StartIsOk(n);
    var first := if c % 2 != 0 then Cart(0, 1, WantFirst) else Cart(1, 0, WantFirst);
    var e1, e2 := Arrives(c, n - 1, 0), Arrives(1, n - 2, n - 2);
    var s1 := TakeStep(Start(n), e1);
    assert s1.slots[n - 1] == first;
    var s2 := TakeStep(s1, e2);
    assert s2.slots[n - 2] == Cart(n - 2, n - 1, WantFirst);
    var s3 := TakeStep(s2, Moves(n - 1));
    var s4 := TakeStep(s3, Moves(n - 1));
    var s5 := TakeStep(s4, Moves(n - 2));
    var s6 := TakeStep(s5, Moves(n - 2));
    es := Prepend(s5, Moves(n - 2), []);
    es := Prepend(s4, Moves(n - 2), es);
    es := Prepend(s3, Moves(n - 1), es);
    es := Prepend(s2, Moves(n - 1), es);
    es := Prepend(s1, e2, es);
    es := Prepend(Start(n), e1, es);
  }

  lemma TakeStep(s: Ring, e: Event) returns (r: Ring)
    requires Inv(s) && Enabled(s, e)
    ensures Inv(r) && r == Step(s, e)
  {
    StepKeepsInv(s, e);
    r := Step(s, e);
  }

  lemma Prepend(s: Ring, e: Event, rest: seq<Event>) returns (es: seq<Event>)
    requires Inv(s) && Enabled(s, e) && Inv(Step(s, e)) && Legal(Step(s, e), rest)
    ensures es == [e] + rest && Legal(s, es) && Final(s, es) == Final(Step(s, e), rest)
  {
    es := [e] + rest;
    assert es[1..] == rest;
  }

  /** On a ring of n tracks no run lets two carts cross together whose tracks meet. */
  ghost predicate Exclusive(n: nat)
    requires n >= 2
  {
    StartIsOk(n);
    forall es, t, u :: Legal(Start(n), es) && Meet(n, t, u) ==>
      !(Crosses(Final(Start(n), es), t) && Crosses(Final(Start(n), es), u))
  }

  /** With all arrivals, the cart manager keeps carts apart if and only if there are at most three tracks. */
  lemma ExclusiveIff(n: nat)
    requires n >= 2
    ensures Exclusive(n) <==> n <= 3
  {
    StartIsOk(n);
    if n >= 4 {
      var es := WrapBreaksExclusion(n, 1);
      assert Legal(Start(n), es) && Meet(n, n - 1, n - 2);
    } else {
      forall es, t, u | Legal(Start(n), es) && Meet(n, t, u)
        ensures !(Crosses(Final(Start(n), es), t) && Crosses(Final(Start(n), es), u))
      {
        if Crosses(Final(Start(n), es), t) && Crosses(Final(Start(n), es), u) {
          OnlyTheWrapCollides(Final(Start(n), es), t, u);
        }
      }
    }
  }
}
