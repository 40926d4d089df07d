/** The donation that semaphore_down makes before its thread goes to sleep, through a lock_temp that nothing
  * resets: exactly when it dereferences NULL. */
module DownDonation {
  import opened Options
  import opened KernelModel
  import LM = LockModel

  /** The lock that lock_temp names has no holder. */
  predicate NullHolder(lockTemp: map<int, Option<int>>, holder: map<int, Option<int>>, t: int) {
    t in lockTemp && lockTemp[t].Some? && lockTemp[t].value in holder && holder[lockTemp[t].value].None?
  }

  predicate TempOk(lockTemp: map<int, Option<int>>, holder: map<int, Option<int>>, t: int)
    requires t in lockTemp
  {
    lockTemp[t].Some? ==> lockTemp[t].value in holder
  }

  predicate HolderOk(holder: map<int, Option<int>>, priority: map<int, int>, l: int)
    requires l in holder
  {
    holder[l].Some? ==> holder[l].value in priority
  }

  /** lock_temp is NULL or names a lock, whose holder, if any, is a thread. */
  predicate LinksOk(lockTemp: map<int, Option<int>>, holder: map<int, Option<int>>, priority: map<int, int>) {
    && (forall t :: t in lockTemp ==> TempOk(lockTemp, holder, t))
    && (forall l :: l in holder ==> HolderOk(holder, priority, l))
  }

  /** The holder of the lock the thread last found held is raised to the thread's priority. */
  function DonatedBySleeper(
      priority: map<int, int>, lockTemp: map<int, Option<int>>, holder: map<int, Option<int>>, t: int)
    : (after: map<int, int>)
    requires t in priority && t in lockTemp && LinksOk(lockTemp, holder, priority)
    requires !NullHolder(lockTemp, holder, t)
    ensures after.Keys == priority.Keys
  {
    if lockTemp[t].None? then priority
    else
      var l := lockTemp[t].value;
      assert TempOk(lockTemp, holder, t) && HolderOk(holder, priority, l);
      var h := holder[l].value;
      if priority[h] < priority[t] then priority[h := priority[t]] else priority
  }

  /** The holder ends up with the maximum of its own and the sleeper's priority, and nobody else's changes;
    * with lock_temp NULL nothing changes at all. */
  lemma SleeperRaisesHolder(
      priority: map<int, int>, lockTemp: map<int, Option<int>>, holder: map<int, Option<int>>, t: int)
    requires t in priority && t in lockTemp && LinksOk(lockTemp, holder, priority)
    requires !NullHolder(lockTemp, holder, t)
    ensures lockTemp[t].None? ==> DonatedBySleeper(priority, lockTemp, holder, t) == priority
    ensures lockTemp[t].Some? ==>
      var after, l := DonatedBySleeper(priority, lockTemp, holder, t), lockTemp[t].value;
      && l in holder && holder[l].Some? && holder[l].value in priority
      && var h := holder[l].value;
         && after == priority[h := Max(priority[h], priority[t])]
         && forall u :: u in priority && u != h ==> u in after && after[u] == priority[u]
  {
    if lockTemp[t].Some? {
      assert TempOk(lockTemp, holder, t) && HolderOk(holder, priority, lockTemp[t].value);
    }
  }

  // ---- runs of lock calls --------------------------------------------------------------------------------

  /** The locks, and each thread's lock_temp. */
  datatype Recorded = Recorded(v: LM.Locks, lockTemp: map<int, Option<int>>)

  /** An operation of the thread `cur`. */
  datatype Act = Act(cur: int, op: LM.Op)

  /** A held lock that a thread tries to acquire is recorded; nothing else writes lock_temp but init_thread. */
  predicate Records(v: LM.Locks, a: Act) {
    a.op.Acquire? && a.op.l in v.holder && v.holder[a.op.l].Some?
  }

  ghost function After(s: Recorded, a: Act): Recorded
    requires LM.Allowed(s.v, a.cur, a.op)
  {
    Recorded(LM.Do(s.v, a.cur, a.op),
             if Records(s.v, a) then s.lockTemp[a.cur := Some(a.op.l)]
             else if a.op.Born? then s.lockTemp[a.op.t := None]
             else s.lockTemp)
  }

  ghost predicate Possible(s: Recorded, acts: seq<Act>)
    decreases |acts|
  {
    acts == [] || (LM.Allowed(s.v, acts[0].cur, acts[0].op) && Possible(After(s, acts[0]), acts[1..]))
  }

  ghost function AfterAll(s: Recorded, acts: seq<Act>): Recorded
    requires Possible(s, acts)
    decreases |acts|
  {
    if acts == [] then s else AfterAll(After(s, acts[0]), acts[1..])
  }

  /** The thread finds no lock held during the run. */
  ghost predicate FindsNoneHeld(s: Recorded, acts: seq<Act>, t: int)
    requires Possible(s, acts)
    decreases |acts|
  {
    acts == [] ||
    (!(acts[0].cur == t && Records(s.v, acts[0])) && FindsNoneHeld(After(s, acts[0]), acts[1..], t))
  }

  /** Once a thread has found a lock held, in every run in which it finds no other held: at any later sleep,
    * on whatever semaphore, semaphore_down dereferences NULL if and only if that lock is free then. */
  lemma {:induction false} SleepFaultsIff(s: Recorded, acts: seq<Act>, t: int, l: int)
    requires Possible(s, acts) && FindsNoneHeld(s, acts, t)
    requires t in s.v.stage && t in s.lockTemp && s.lockTemp[t] == Some(l) && l in s.v.holder
    ensures
      var r := AfterAll(s, acts);
      && t in r.lockTemp && r.lockTemp[t] == Some(l) && l in r.v.holder
      && (NullHolder(r.lockTemp, r.v.holder, t) <==> r.v.holder[l] == None)
    decreases |acts|
  {
    if acts != [] {
      SleepFaultsIff(After(s, acts[0]), acts[1..], t, l);
    }
  }

  /** Two threads and a lock. */
  function Pair(a: int, b: int, l: int, value: nat, holder: Option<int>, stageA: LM.Stage, stageB: LM.Stage,
                inside: set<int>, recorded: Option<int>): Recorded {
    Recorded(LM.Locks(map[l := value], map[l := holder], map[a := stageA, b := stageB], map[l := inside]),
             map[a := None, b := recorded])
  }

  /** The states of a run in which a and then b get the lock and release it, and b has found it held. */
  function At(i: nat, a: int, b: int, l: int): Recorded {
    if i == 0 then Pair(a, b, l, 1, None, LM.Out, LM.Out, {}, None)
    else if i == 1 then Pair(a, b, l, 1, None, LM.Acquiring(l), LM.Out, {}, None)
    else if i == 2 then Pair(a, b, l, 0, None, LM.Got(l), LM.Out, {a}, None)
    else if i == 3 then Pair(a, b, l, 0, Some(a), LM.Out, LM.Out, {a}, None)
    else if i == 4 then Pair(a, b, l, 0, Some(a), LM.Out, LM.Acquiring(l), {a}, Some(l))
    else if i == 5 then Pair(a, b, l, 0, None, LM.Dropping(l), LM.Acquiring(l), {a}, Some(l))
    else if i == 6 then Pair(a, b, l, 1, None, LM.Out, LM.Acquiring(l), {}, Some(l))
    else if i == 7 then Pair(a, b, l, 0, None, LM.Out, LM.Got(l), {b}, Some(l))
    else if i == 8 then Pair(a, b, l, 0, Some(b), LM.Out, LM.Out, {b}, Some(l))
    else if i == 9 then Pair(a, b, l, 0, None, LM.Out, LM.Dropping(l), {b}, Some(l))
    else Pair(a, b, l, 1, None, LM.Out, LM.Out, {}, Some(l))
  }

  function ActAt(i: nat, a: int, b: int, l: int): Act {
    if i == 0 then Act(a, LM.Acquire(l))
    else if i == 1 then Act(a, LM.Down(l))
    else if i == 2 then Act(a, LM.SetHolder(l))
    else if i == 3 then Act(b, LM.Acquire(l))
    else if i == 4 then Act(a, LM.ClearHolder(l))
    else if i == 5 then Act(a, LM.Up(l))
    else if i == 6 then Act(b, LM.Down(l))
    else if i == 7 then Act(b, LM.SetHolder(l))
    else if i == 8 then Act(b, LM.ClearHolder(l))
    else Act(b, LM.Up(l))
  }

  ghost predicate Follows(i: nat, a: int, b: int, l: int) {
    && LM.Allowed(At(i, a, b, l).v, ActAt(i, a, b, l).cur, ActAt(i, a, b, l).op)
    && After(At(i, a, b, l), ActAt(i, a, b, l)) == At(i + 1, a, b, l)
  }

  lemma FirstGets(i: nat, a: int, b: int, l: int)
    requires a != b && i < 2
    ensures Follows(i, a, b, l)
  {
    var r, n := After(At(i, a, b, l), ActAt(i, a, b, l)), At(i + 1, a, b, l);
    assert r.v.inside[l] == n.v.inside[l];
    assert r.v.inside == n.v.inside && r.v.stage == n.v.stage;
  }

  lemma SecondFindsItHeld(i: nat, a: int, b: int, l: int)
    requires a != b && 2 <= i < 4
    ensures Follows(i, a, b, l)
  {
    var r, n := After(At(i, a, b, l), ActAt(i, a, b, l)), At(i + 1, a, b, l);
    assert r.v.inside[l] == n.v.inside[l];
    assert r.v.inside == n.v.inside && r.v.stage == n.v.stage;
  }

  lemma FirstReleases(i: nat, a: int, b: int, l: int)
    requires a != b && 4 <= i < 6
    ensures Follows(i, a, b, l)
  {
    var r, n := After(At(i, a, b, l), ActAt(i, a, b, l)), At(i + 1, a, b, l);
    assert r.v.inside[l] == n.v.inside[l];
    assert r.v.inside == n.v.inside && r.v.stage == n.v.stage;
  }

  lemma SecondGets(i: nat, a: int, b: int, l: int)
    requires a != b && 6 <= i < 8
    ensures Follows(i, a, b, l)
  {
    var r, n := After(At(i, a, b, l), ActAt(i, a, b, l)), At(i + 1, a, b, l);
    assert r.v.inside[l] == n.v.inside[l];
    assert r.v.inside == n.v.inside && r.v.stage == n.v.stage;
  }

  lemma SecondReleases(i: nat, a: int, b: int, l: int)
    requires a != b && 8 <= i < 10
    ensures Follows(i, a, b, l)
  {
    var r, n := After(At(i, a, b, l), ActAt(i, a, b, l)), At(i + 1, a, b, l);
    assert r.v.inside[l] == n.v.inside[l];
    assert r.v.inside == n.v.inside && r.v.stage == n.v.stage;
  }

  lemma {:induction false} RunFrom(i: nat, a: int, b: int, l: int) returns (acts: seq<Act>)
    requires a != b && i <= 10
    ensures Possible(At(i, a, b, l), acts) && AfterAll(At(i, a, b, l), acts) == At(10, a, b, l)
    decreases 10 - i
  {
    acts := [];
    if i < 10 {
      assert Follows(i, a, b, l) by {
        if i < 2 {
          FirstGets(i, a, b, l);
        } else if i < 4 {
          SecondFindsItHeld(i, a, b, l);
        } else if i < 6 {
          FirstReleases(i, a, b, l);
        } else if i < 8 {
          SecondGets(i, a, b, l);
        } else {
          SecondReleases(i, a, b, l);
        }
      }
      var rest := RunFrom(i + 1, a, b, l);
      acts := [ActAt(i, a, b, l)] + rest;
      assert acts[1..] == rest;
    }
  }

  /** It is reachable: b finds the lock held, gets it after a and releases it. Nobody is in a lock call then
    * and the lock is free, yet b's next sleep on any semaphore dereferences NULL. */
  lemma SleepCanFault(a: int, b: int, l: int) returns (acts: seq<Act>)
    requires a != b
    ensures Possible(At(0, a, b, l), acts)
    ensures
      var r := AfterAll(At(0, a, b, l), acts);
      r.v == At(0, a, b, l).v && NullHolder(r.lockTemp, r.v.holder, b)
  {
    acts := RunFrom(0, a, b, l);
  }
}
