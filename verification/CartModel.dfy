/** The cart manager's protocol as an interleaving of its semaphore operations.
  *
  * Track t of an N-track ring joins junctions t and t + 1 (mod N). A cart's thread waits for its two
  * junctions in an order that make_cart computes from the cart's number, crosses, and posts them in the
  * same order. Any cart may move at any moment, and a cart may arrive on any track that has none.
  */
module CartModel {
  /** One atomic step per semaphore operation; reserve, cross and release happen while Crossing. */
  datatype Stage = WantFirst | WantSecond | Crossing | FreeSecond

  datatype Slot = Empty | Cart(first: int, second: int, stage: Stage)

  datatype Ring = Ring(sems: seq<int>, slots: seq<Slot>) {
    function N(): nat { |slots| }
  }

  function Next(n: nat, j: nat): nat
    requires j < n
  {
    if j + 1 == n then 0 else j + 1
  }

  function Prev(n: nat, j: nat): nat
    requires j < n
  {
    if j == 0 then n - 1 else j - 1
  }

  // ---- the two junctions -----------------------------------------------------------------------------

  /** What make_cart's arithmetic yields for cart `c` on track `t` arriving at junction `j`: an odd cart
    * takes the junction it is at first, an even cart the other one. */
  function Other(n: nat, t: nat, j: nat): nat
    requires n >= 1 && j < n
  {
    if j == t + 1 then Prev(n, j) else Next(n, j)
  }

  function FirstOf(n: nat, c: nat, t: nat, j: nat): nat
    requires n >= 1 && j < n
  {
    if c % 2 != 0 then j else Other(n, t, j)
  }

  function SecondOf(n: nat, c: nat, t: nat, j: nat): nat
    requires n >= 1 && j < n
  {
    if c % 2 != 0 then Other(n, t, j) else j
  }

  /** A cart can only arrive at an end of its track. */
  predicate Arrival(n: nat, t: nat, j: nat) {
    n >= 2 && t < n && (j == t || j == Next(n, t))
  }

  /** Every arrival but one: coming to junction 0 from the last track of a ring of more than two. */
  predicate Handled(n: nat, t: nat, j: nat) {
    !(t == n - 1 && j == 0 && n > 2)
  }

  /** The cart locks exactly the two ends of its track if and only if its arrival is handled: in the
    * remaining case the test that picks the neighbour compares 0 with n and picks the wrong one. */
  lemma LocksItsOwnEndsIff(n: nat, c: nat, t: nat, j: nat)
    requires Arrival(n, t, j)
    ensures {FirstOf(n, c, t, j), SecondOf(n, c, t, j)} == {t, Next(n, t)} <==> Handled(n, t, j)
  {
    if !Handled(n, t, j) {
      assert t !in {FirstOf(n, c, t, j), SecondOf(n, c, t, j)};
    }
  }

  /** Which end is taken first: `t` exactly when the cart's parity agrees with its side. */
  lemma TakesLowerEndFirstIff(n: nat, c: nat, t: nat, j: nat)
    requires Arrival(n, t, j) && Handled(n, t, j)
    ensures FirstOf(n, c, t, j) == t <==> (c % 2 != 0 <==> j == t)
  {
  }

  // ---- steps -------------------------------------------------------------------------------------------

  function Start(n: nat): Ring {
    Ring(seq(n, _ => 1), seq(n, _ => Empty))
  }

  predicate Shape(s: Ring) {
    && |s.sems| == s.N() >= 2
    && forall t :: 0 <= t < s.N() && s.slots[t].Cart? ==>
         0 <= s.slots[t].first < s.N() && 0 <= s.slots[t].second < s.N()
  }

  function Arrive(s: Ring, c: nat, t: nat, j: nat): Ring
    requires Shape(s) && t < s.N() && j < s.N()
  {
    s.(slots := s.slots[t := Cart(FirstOf(s.N(), c, t, j), SecondOf(s.N(), c, t, j), WantFirst)])
  }

  /** sem_wait lets a cart go on only when the semaphore is positive. */
  predicate CanMove(s: Ring, t: nat)
    requires Shape(s) && t < s.N()
  {
    match s.slots[t]
    case Empty => false
    case Cart(first, second, stage) =>
      match stage
      case WantFirst => s.sems[first] > 0
      case WantSecond => s.sems[second] > 0
      case _ => true
  }

  function Move(s: Ring, t: nat): Ring
    requires Shape(s) && t < s.N() && CanMove(s, t)
  {
    var cart := s.slots[t];
    match cart.stage
    case WantFirst =>
      Ring(s.sems[cart.first := s.sems[cart.first] - 1], s.slots[t := cart.(stage := WantSecond)])
    case WantSecond =>
      Ring(s.sems[cart.second := s.sems[cart.second] - 1], s.slots[t := cart.(stage := Crossing)])
    case Crossing =>
      Ring(s.sems[cart.first := s.sems[cart.first] + 1], s.slots[t := cart.(stage := FreeSecond)])
    case FreeSecond =>
      Ring(s.sems[cart.second := s.sems[cart.second] + 1], s.slots[t := Empty])
  }

  datatype Event = Arrives(c: nat, t: nat, j: nat) | Moves(t: nat)

  /** Arrivals are at an end of the track, one cart per track. */
  predicate Enabled(s: Ring, e: Event)
    requires Shape(s)
  {
    match e
    case Arrives(c, t, j) => Arrival(s.N(), t, j) && s.slots[t].Empty?
    case Moves(t) => t < s.N() && CanMove(s, t)
  }

  function Step(s: Ring, e: Event): Ring
    requires Shape(s) && Enabled(s, e)
  {
    match e
    case Arrives(c, t, j) => Arrive(s, c, t, j)
    case Moves(t) => Move(s, t)
  }
}
