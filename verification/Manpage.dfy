/** The paragraph chain: n threads, thread i waiting on semaphore i and posting semaphore i + 1.
  * The threads' paragraph ids are distinct, so a thread is named by its id. */
module Manpage {
  datatype Stage = Waiting | Admitted | Shown | Posted

  datatype Chain = Chain(sems: seq<int>, stages: seq<Stage>, shown: seq<int>) {
    function N(): nat { |stages| }
  }

  function Start(n: nat): Chain {
    Chain(seq(n, _ => 0), seq(n, _ => Waiting), [])
  }

  /** Only thread 0 does not wait. */
  predicate CanMove(s: Chain, i: nat)
    requires |s.sems| == s.N() && i < s.N()
  {
    match s.stages[i]
    case Waiting => i > 0 ==> s.sems[i] > 0
    case Posted => false
    case _ => true
  }

  /** The next operation of thread `i`. */
  function Move(s: Chain, i: nat): Chain
    requires |s.sems| == s.N() && i < s.N() && CanMove(s, i)
  {
    match s.stages[i]
    case Waiting =>
      s.(sems := if i > 0 then s.sems[i := s.sems[i] - 1] else s.sems, stages := s.stages[i := Admitted])
    case Admitted =>
      s.(stages := s.stages[i := Shown], shown := s.shown + [i])
    case Shown =>
      s.(sems := if i < s.N() - 1 then s.sems[i + 1 := s.sems[i + 1] + 1] else s.sems,
         stages := s.stages[i := Posted])
  }

  predicate LinkOk(s: Chain, i: nat)
    requires |s.sems| == s.N() && 0 < i < s.N()
  {
    && s.sems[i] == (if s.stages[i - 1].Posted? && s.stages[i].Waiting? then 1 else 0)
    && (!s.stages[i].Waiting? ==> s.stages[i - 1].Posted?)
  }

  predicate Inv(s: Chain) {
    && |s.sems| == s.N()
    && (forall i :: 0 < i < s.N() ==> LinkOk(s, i))
    && |s.shown| <= s.N()
    && (forall k :: 0 <= k < |s.shown| ==> s.shown[k] == k)
    && (forall i :: 0 <= i < s.N() ==> (s.stages[i].Shown? || s.stages[i].Posted? <==> i < |s.shown|))
  }

  lemma MoveKeepsInv(s: Chain, i: nat)
    requires Inv(s) && i < s.N() && CanMove(s, i)
    ensures Inv(Move(s, i))
  {
    var s' := Move(s, i);
    assert i > 0 ==> LinkOk(s, i);
    forall k | 0 < k < s'.N() ensures LinkOk(s', k) {
      assert LinkOk(s, k);
      assert k > 1 ==> LinkOk(s, k - 1);
    }
  }

  predicate Legal(s: Chain, moves: seq<nat>)
    requires Inv(s)
    decreases |moves|
  {
    moves == [] ||
    (moves[0] < s.N() && CanMove(s, moves[0]) &&
     (MoveKeepsInv(s, moves[0]); Legal(Move(s, moves[0]), moves[1..])))
  }

  function Final(s: Chain, moves: seq<nat>): (r: Chain)
    requires Inv(s) && Legal(s, moves)
    ensures Inv(r) && r.N() == s.N()
    decreases |moves|
  {
    if moves == [] then s else (MoveKeepsInv(s, moves[0]); Final(Move(s, moves[0]), moves[1..]))
  }

  lemma {:induction false} FirstUnposted(s: Chain, i: nat) returns (k: nat)
    requires Inv(s) && i < s.N() && !s.stages[i].Posted?
    ensures k <= i && CanMove(s, k)
  {
    if i == 0 {
      k := 0;
    } else if s.stages[i - 1].Posted? {
      assert LinkOk(s, i);
      k := i;
    } else {
      k := FirstUnposted(s, i - 1);
    }
  }

  /** In every interleaving the paragraphs shown so far are 0, 1, 2, ... in order, some thread can move
    * unless all are done, and then every paragraph has been shown. */
  lemma ShowsInOrder(n: nat, moves: seq<nat>)
    requires Legal(Start(n), moves)
    ensures
      var s := Final(Start(n), moves);
      && (forall k :: 0 <= k < |s.shown| ==> s.shown[k] == k)
      && (|s.shown| == n || exists i :: 0 <= i < n && CanMove(s, i))
      && ((forall i :: 0 <= i < n ==> !CanMove(s, i)) <==> (forall i :: 0 <= i < n ==> s.stages[i].Posted?))
  {
    var s := Final(Start(n), moves);
    if i :| 0 <= i < n && !s.stages[i].Posted? {
      var k := FirstUnposted(s, i);
    } else {
      assert n > 0 ==> s.stages[n - 1].Posted?;
    }
  }

  /** The shared array and the threads' progress. */
  class Page {
    const sems: array<int>
    const stages: array<Stage>
    var shown: seq<int>

    function State(): Chain
      reads this, sems, stages
    {
      Chain(sems[..], stages[..], shown)
    }

    constructor (n: nat)
      ensures fresh(sems) && fresh(stages)
      ensures State() == Start(n)
    {
      sems := new int[n];
      stages := new Stage[n](_ => Waiting);
      shown := [];
      new;
      for i := 0 to n
        invariant forall k :: 0 <= k < i ==> sems[k] == 0
        invariant stages[..] == Start(n).stages && shown == []
      {
        sems[i] := 0;
      }
    }

    method Advance(i: nat)
      requires sems.Length == stages.Length && i < stages.Length && CanMove(State(), i)
      modifies this, sems, stages
      ensures State() == Move(old(State()), i)
    {
      match stages[i]
      case Waiting =>
        if i > 0 {
          sems[i] := sems[i] - 1;
        }
        stages[i] := Admitted;
      case Admitted =>
        shown := shown + [i];
        stages[i] := Shown;
      case Shown =>
        if i < stages.Length - 1 {
          sems[i + 1] := sems[i + 1] + 1;
        }
        stages[i] := Posted;
    }
  }
}
