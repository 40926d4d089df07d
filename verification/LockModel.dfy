/** Locks: a binary semaphore with a holder, on values.
  *
  * lock_acquire and lock_release are split where another thread can run: before and inside semaphore_down,
  * between it and the assignment to holder, and between the assignment of NULL and semaphore_up.
  */
module LockModel {
  import opened Options

  /** How far the current lock call of a thread is. */
  datatype Stage = Out | Acquiring(l: int) | Got(l: int) | Dropping(l: int)

  /** `value` is the value of each lock's semaphore. `inside` is bookkeeping: the threads that have completed
    * the down of a lock's semaphore and have not done its up. */
  datatype Locks = Locks(
    value: map<int, nat>,
    holder: map<int, Option<int>>,
    stage: map<int, Stage>,
    inside: map<int, set<int>>)

  datatype Op =
    | Skip
    | Born(t: int)
    | Init(l: int)
    | Acquire(l: int)
    | Down(l: int)
    | SetHolder(l: int)
    | ClearHolder(l: int)
    | Up(l: int)

  ghost predicate Shape(v: Locks) {
    v.value.Keys == v.holder.Keys == v.inside.Keys
  }

  /** The assertions of lock.c: a lock is not acquired by its holder, and is released by its holder. */
  ghost predicate Allowed(v: Locks, cur: int, op: Op) {
    Shape(v) && cur in v.stage &&
    match op
    case Skip => true
    case Born(t) => t !in v.stage
    case Init(l) => l !in v.value
    case Acquire(l) => l in v.value && v.stage[cur] == Out && v.holder[l] != Some(cur)
    case Down(l) => l in v.value && v.stage[cur] == Acquiring(l)
    case SetHolder(l) => l in v.value && v.stage[cur] == Got(l)
    case ClearHolder(l) => l in v.value && v.stage[cur] == Out && v.holder[l] == Some(cur)
    case Up(l) => l in v.value && v.stage[cur] == Dropping(l)
  }

  ghost function Do(v: Locks, cur: int, op: Op): Locks
    requires Allowed(v, cur, op)
  {
    match op
    case Skip => v
    case Born(t) => v.(stage := v.stage[t := Out])
    case Init(l) => v.(value := v.value[l := 1], holder := v.holder[l := None], inside := v.inside[l := {}])
    case Acquire(l) => v.(stage := v.stage[cur := Acquiring(l)])
    case Down(l) =>
      if v.value[l] == 0 then v
      else
        v.(value := v.value[l := v.value[l] - 1], stage := v.stage[cur := Got(l)],
           inside := v.inside[l := v.inside[l] + {cur}])
    case SetHolder(l) => v.(holder := v.holder[l := Some(cur)], stage := v.stage[cur := Out])
    case ClearHolder(l) => v.(holder := v.holder[l := None], stage := v.stage[cur := Dropping(l)])
    case Up(l) =>
      v.(value := v.value[l := v.value[l] + 1], stage := v.stage[cur := Out],
         inside := v.inside[l := v.inside[l] - {cur}])
  }

  // ---- the invariant -----------------------------------------------------------------------------------

  /** A thread is between the down and the assignment to holder, or between the assignment of NULL and
    * the up. */
  predicate InBetween(stage: Stage, l: int) { stage == Got(l) || stage == Dropping(l) }

  /** One unit: it is either the semaphore's value or one thread inside, and the holder is that thread
    * except while it is in between. */
  ghost predicate LockOk(v: Locks, l: int)
    requires Shape(v) && l in v.value
  {
    && v.value[l] + |v.inside[l]| == 1
    && (forall t :: t in v.inside[l] ==> t in v.stage && (InBetween(v.stage[t], l) <==> v.holder[l] != Some(t)))
    && (forall t :: t in v.stage && InBetween(v.stage[t], l) ==> t in v.inside[l])
    && (v.holder[l].Some? ==> v.holder[l].value in v.inside[l])
  }

  ghost predicate LocksOk(v: Locks) {
    && Shape(v)
    && (forall l :: l in v.value ==> LockOk(v, l))
    && (forall t :: t in v.stage && v.stage[t] != Out ==> v.stage[t].l in v.value)
  }

  lemma OneMember(xs: set<int>, x: int, y: int)
    requires |xs| <= 1 && x in xs && y in xs
    ensures x == y
  {
    var rest := xs - {x};
    assert |rest| == |xs| - 1;
    assert rest == {};
    assert y in rest || y == x;
  }

  lemma UpMovesTheUnit(v: Locks, cur: int, l: int)
    requires LocksOk(v) && Allowed(v, cur, Up(l))
    ensures LockOk(Do(v, cur, Up(l)), l)
  {
    assert LockOk(v, l);
    assert cur in v.inside[l];
    assert |v.inside[l] - {cur}| == |v.inside[l]| - 1;
    forall t | t in v.stage && t != cur ensures !InBetween(v.stage[t], l) {
      if InBetween(v.stage[t], l) {
        OneMember(v.inside[l], t, cur);
      }
    }
  }

  lemma HolderChanges(v: Locks, cur: int, op: Op)
    requires LocksOk(v) && Allowed(v, cur, op) && (op.SetHolder? || op.ClearHolder?)
    ensures LockOk(Do(v, cur, op), op.l)
  {
    assert LockOk(v, op.l);
    assert cur in v.inside[op.l];
    forall t | t in v.inside[op.l] ensures t == cur {
      OneMember(v.inside[op.l], t, cur);
    }
  }

  lemma DownMovesTheUnit(v: Locks, cur: int, l: int)
    requires LocksOk(v) && Allowed(v, cur, Down(l))
    ensures LockOk(Do(v, cur, Down(l)), l)
  {
    assert LockOk(v, l);
    if v.value[l] > 0 {
      assert v.inside[l] == {};
    }
  }

  /** The lock that an operation is about, if any. */
  predicate About(op: Op, l: int) {
    !op.Skip? && !op.Born? && op.l == l
  }

  lemma OthersAreKept(v: Locks, cur: int, op: Op, l: int)
    requires LocksOk(v) && Allowed(v, cur, op) && l in v.value && !About(op, l)
    ensures LockOk(Do(v, cur, op), l)
  {
    assert LockOk(v, l);
    var v' := Do(v, cur, op);
    assert forall t :: t in v'.stage ==> (InBetween(v'.stage[t], l) <==> t in v.stage && InBetween(v.stage[t], l));
  }

  lemma DoKeeps(v: Locks, cur: int, op: Op)
    requires LocksOk(v) && Allowed(v, cur, op)
    ensures LocksOk(Do(v, cur, op))
  {
    var v' := Do(v, cur, op);
    forall l | l in v'.value ensures LockOk(v', l) {
      if !About(op, l) {
        OthersAreKept(v, cur, op, l);
      } else {
        match op
        case Init(_) =>
        case Acquire(_) => assert LockOk(v, l);
        case Down(_) => DownMovesTheUnit(v, cur, l);
        case Up(_) => UpMovesTheUnit(v, cur, l);
        case _ => HolderChanges(v, cur, op);
      }
    }
  }
}
