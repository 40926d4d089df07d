/** The cart manager's code on its shared array of semaphores. */
module CartManager {
  import opened CartModel

  lemma Remainders(j: nat, n: nat)
    requires n >= 1 && j < n
    ensures (j + 1) % n == Next(n, j)
    ensures j > 0 ==> (j - 1) % n == j - 1
  {
    if j + 1 == n {
      assert n % n == 0;
    }
  }

  /** The local computation of make_cart: two indices assigned and then patched. */
  method Junctions(c: nat, t: nat, j: nat, tracknum: nat) returns (j1: int, j2: int)
    requires tracknum >= 1 && j < tracknum
    ensures j1 == FirstOf(tracknum, c, t, j)
    ensures j2 == SecondOf(tracknum, c, t, j)
  {
    Remainders(j, tracknum);
    var offset := if j == t + 1 then -1 else 1;
    j1 := if c % 2 != 0 then j else (j + offset) % tracknum;
    j2 := if c % 2 != 0 then (j + offset) % tracknum else j;
    if j1 == (j + offset) % tracknum && offset == -1 {
      j1 := j + offset;
    }
    if j1 < 0 {
      j1 := tracknum - 1;
    }
    if j2 < 0 {
      j2 := tracknum - 1;
    }
    if j1 > tracknum - 1 {
      j1 := 0;
    }
    if j2 > tracknum - 1 {
      j2 := 0;
    }
  }

  class Manager {
    const sems: array<int>
    const slots: array<Slot>

    function State(): Ring
      reads sems, slots
    {
      Ring(sems[..], slots[..])
    }

    /** cartman: one binary semaphore per junction. */
    constructor (tracks: nat)
      ensures fresh(sems) && fresh(slots)
      ensures State() == Start(tracks)
    {
      sems := new int[tracks];
      slots := new Slot[tracks](_ => Empty);
      new;
      for i := 0 to tracks
        invariant forall k :: 0 <= k < i ==> sems[k] == 1
        invariant slots[..] == Start(tracks).slots
      {
        sems[i] := 1;
      }
    }

    /** arrive creates the cart's thread, which first works out its junctions. */
    method Arrive(c: nat, t: nat, j: nat)
      requires Shape(State()) && t < slots.Length && j < slots.Length
      modifies slots
      ensures State() == CartModel.Arrive(old(State()), c, t, j)
    {
      var j1, j2 := Junctions(c, t, j, slots.Length);
      slots[t] := Cart(j1, j2, WantFirst);
    }

    /** The thread of the cart on track `t` performs its next semaphore operation. */
    method Advance(t: nat)
      requires Shape(State()) && t < slots.Length && CanMove(State(), t)
      modifies sems, slots
      ensures State() == Move(old(State()), t)
    {
      var cart := slots[t];
      match cart.stage
      case WantFirst =>
        sems[cart.first] := sems[cart.first] - 1;
        slots[t] := cart.(stage := WantSecond);
      case WantSecond =>
        sems[cart.second] := sems[cart.second] - 1;
        slots[t] := cart.(stage := Crossing);
      case Crossing =>
        sems[cart.first] := sems[cart.first] + 1;
        slots[t] := cart.(stage := FreeSecond);
      case FreeSecond =>
        sems[cart.second] := sems[cart.second] + 1;
        slots[t] := Empty;
    }
  }
}
