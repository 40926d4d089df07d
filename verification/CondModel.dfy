/** Waiting and signalling on values: private semaphores, the list of a condition variable, and who waits. */
module CondModel {
  import opened Sequences
  import opened KernelModel

  /** `value` and `pc` are the kernel's. `owner` is the thread that made a private semaphore, `waiting` the
    * private semaphore of a thread that has not got past its down, and `popped` holds the semaphores that
    * a signal took off the list. */
  datatype Waits = Waits(
    value: map<int, nat>,
    pc: map<int, Pc>,
    waiters: seq<int>,
    owner: map<int, int>,
    waiting: map<int, int>,
    popped: set<int>)

  /** Values and places of everything private are as before. */
  ghost predicate SameExcept(v: Waits, v': Waits, w: int) {
    forall r :: r in v.owner && r != w ==> r in v.value && r in v'.value && v'.value[r] == v.value[r]
  }

  predicate SamePc(v: Waits, v': Waits, t: int) {
    t in v.pc && t in v'.pc && v'.pc[t] == v.pc[t]
  }

  /** Something else happens: nothing private is touched, and nobody enters a private down. */
  ghost predicate Other(v: Waits, v': Waits) {
    && v' == v.(value := v'.value, pc := v'.pc)
    && (forall r :: r in v.owner ==> r in v'.value && r in v.value && v'.value[r] == v.value[r])
    && (forall t :: t in v'.pc ==> SamePc(v, v', t) || !(v'.pc[t].InDown? && v'.pc[t].sem in v.owner))
    && Placed(v')
  }

  /** condvar_wait makes a semaphore of value 0 and inserts it somewhere. */
  ghost predicate Wait(v: Waits, v': Waits, cur: int, w: int, list: seq<int>) {
    && w !in v.value && cur !in v.waiting
    && multiset(list) == multiset(v.waiters + [w])
    && v' == v.(value := v.value[w := 0], waiters := list, owner := v.owner[w := cur],
                waiting := v.waiting[cur := w])
  }

  /** A waiting thread tests its own semaphore. */
  ghost predicate Test(v: Waits, v': Waits, cur: int) {
    && cur in v.waiting && v.waiting[cur] in v.value
    && var w := v.waiting[cur];
       v' == if v.value[w] == 0 then v.(pc := v.pc[cur := InDown(w)])
             else v.(value := v.value[w := v.value[w] - 1], pc := v.pc[cur := Free], waiting := v.waiting - {cur})
  }

  /** A signal takes the front of the sorted list and ups it. */
  ghost predicate Signal(v: Waits, v': Waits, order: seq<int>) {
    && order != [] && multiset(order) == multiset(v.waiters) && order[0] in v.value
    && v' == v.(value := v.value[order[0] := v.value[order[0]] + 1], waiters := order[1..],
                popped := v.popped + {order[0]})
  }

  // ---- the invariant -----------------------------------------------------------------------------------

  /** Threads are in the down of semaphores that exist. */
  ghost predicate Placed(v: Waits) {
    forall t :: t in v.pc && v.pc[t].InDown? ==> v.pc[t].sem in v.value
  }

  /** The maker of a private semaphore has not got past its down. */
  predicate Pending(v: Waits, w: int) {
    w in v.owner && v.owner[w] in v.waiting && v.waiting[v.owner[w]] == w
  }

  /** A private semaphore is on the list or popped; it is 1 from the signal until its maker takes it. */
  ghost predicate PrivateOk(v: Waits, w: int) {
    && w in v.owner && w in v.value
    && (w in v.waiters <==> w !in v.popped)
    && (w in v.waiters ==> Pending(v, w))
    && v.value[w] == (if w in v.popped && Pending(v, w) then 1 else 0)
  }

  /** Only its maker is ever in the down of a private semaphore. */
  ghost predicate MakerOnly(v: Waits, t: int)
    requires t in v.pc
  {
    v.pc[t].InDown? && v.pc[t].sem in v.owner ==> t == v.owner[v.pc[t].sem] && Pending(v, v.pc[t].sem)
  }

  ghost predicate WaitsOk(v: Waits) {
    && NoDup(v.waiters)
    && (forall w :: w in v.waiters || w in v.popped ==> w in v.owner)
    && (forall w :: w in v.owner ==> PrivateOk(v, w))
    && (forall t :: t in v.waiting ==> v.waiting[t] in v.owner && v.owner[v.waiting[t]] == t)
    && Placed(v)
    && (forall t :: t in v.pc ==> MakerOnly(v, t))
  }

  lemma OtherKeeps(v: Waits, v': Waits)
    requires WaitsOk(v) && Other(v, v')
    ensures WaitsOk(v')
  {
    forall w | w in v'.owner ensures PrivateOk(v', w) {
      assert PrivateOk(v, w);
    }
    forall t | t in v'.pc ensures MakerOnly(v', t) {
      assert t in v.pc ==> MakerOnly(v, t);
    }
  }

  lemma WaitKeeps(v: Waits, v': Waits, cur: int, w: int, list: seq<int>)
    requires WaitsOk(v) && Wait(v, v', cur, w, list)
    ensures WaitsOk(v')
  {
    assert w in v.owner ==> PrivateOk(v, w);
    PermutationKeeps(v.waiters + [w], list);
    forall r | r in v'.owner ensures PrivateOk(v', r) {
      if r != w {
        assert PrivateOk(v, r);
        assert Pending(v', r) <==> Pending(v, r);
      }
    }
    forall t | t in v'.pc ensures MakerOnly(v', t) {
      assert MakerOnly(v, t);
    }
  }

  lemma TestKeeps(v: Waits, v': Waits, cur: int)
    requires WaitsOk(v) && Test(v, v', cur)
    ensures WaitsOk(v')
  {
    var w := v.waiting[cur];
    assert PrivateOk(v, w);
    forall r | r in v'.owner ensures PrivateOk(v', r) {
      assert PrivateOk(v, r);
      if r != w {
        assert Pending(v', r) <==> Pending(v, r);
      }
    }
    forall t | t in v'.pc ensures MakerOnly(v', t) {
      assert t != cur ==> MakerOnly(v, t);
    }
  }

  lemma SignalKeeps(v: Waits, v': Waits, order: seq<int>)
    requires WaitsOk(v) && Signal(v, v', order)
    ensures WaitsOk(v')
  {
    PermutationKeeps(v.waiters, order);
    var w := order[0];
    assert w in order && order == [w] + order[1..];
    assert forall r :: r in order[1..] <==> r in order && r != w;
    assert PrivateOk(v, w);
    forall r | r in v'.owner ensures PrivateOk(v', r) {
      assert PrivateOk(v, r);
    }
    forall t | t in v'.pc ensures MakerOnly(v', t) {
      assert MakerOnly(v, t);
    }
  }

  // ---- popping and upping ------------------------------------------------------------------------------

  /** The first half of a signal: the front of the sorted list is popped. */
  function Pop(v: Waits, order: seq<int>): Waits
    requires order != []
  {
    v.(waiters := order[1..], popped := v.popped + {order[0]})
  }

  /** Interrupts are on between the pop and the up, but only the lock's holder uses the list: whatever the
    * others do after the pop they could as well have done before it, so that a signal is one step here. */
  lemma PopMovesToTheUp(v: Waits, v': Waits, order: seq<int>, cur: int)
    requires order != []
    ensures Other(v, v') ==> Other(Pop(v, order), Pop(v', order))
    ensures Test(v, v', cur) ==> Test(Pop(v, order), Pop(v', order), cur)
    ensures Signal(v, v', order) ==>
      order[0] in v.value && v' == Pop(v, order).(value := v.value[order[0] := v.value[order[0]] + 1])
  {
  }
}
