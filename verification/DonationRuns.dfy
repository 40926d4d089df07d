/** Several acquires of one lock and its release: exactly when the release takes back what they gave. */
module DonationRuns {
  import opened Options
  import opened Sequences
  import opened KernelModel
  import opened Donation

  /** What the acquires and the release of a lock read and write of all threads, with the donor list of the
    * lock's holder. */
  datatype Loans = Loans(priority: map<int, int>, donors: seq<int>, lockTemp: map<int, Option<int>>)

  /** The lock, its holder, and the thread that the holder has itself donated to (`donee` is never reset). */
  datatype Held = Held(lock: int, holder: int, donee: Option<int>)

  predicate WellKnown(s: Loans, h: Held) {
    h.holder in s.priority && Known(s.donors, s.priority)
  }

  /** What lock_acquire of `t` does before its semaphore_down. */
  function Acquired(s: Loans, h: Held, t: int): (r: Loans)
    requires t in s.priority && WellKnown(s, h)
    ensures r.priority.Keys == s.priority.Keys && WellKnown(r, h)
  {
    var given := Donated(s.priority, t, h.holder, h.donee);
    assert given.Keys == s.priority.Keys;
    Loans(given, InsertOrdered(s.donors, t, s.priority), s.lockTemp[t := Some(h.lock)])
  }

  /** The threads `ts` try to acquire the lock, one after the other. */
  function AllAcquired(s: Loans, h: Held, ts: seq<int>): (r: Loans)
    requires WellKnown(s, h) && Known(ts, s.priority)
    ensures r.priority.Keys == s.priority.Keys && WellKnown(r, h)
  {
    if ts == [] then s
    else Acquired(AllAcquired(s, h, ts[..|ts| - 1]), h, ts[|ts| - 1])
  }

  /** The acquirer is above the thread that the holder has donated to. */
  predicate Raises(s: Loans, h: Held, t: int)
    requires t in s.priority
  {
    && h.donee.Some? && h.donee.value in s.priority && h.donee.value != h.holder
    && s.priority[t] > s.priority[h.donee.value]
  }

  predicate NobodyRaises(s: Loans, h: Held, ts: seq<int>)
    requires Known(ts, s.priority)
  {
    forall i :: 0 <= i < |ts| ==> !Raises(s, h, ts[i])
  }

  lemma {:induction false} OthersKeepPriority(s: Loans, h: Held, ts: seq<int>, x: int)
    requires WellKnown(s, h) && Known(ts, s.priority) && x in s.priority
    requires x != h.holder && h.donee != Some(x)
    ensures AllAcquired(s, h, ts).priority[x] == s.priority[x]
  {
    if ts != [] {
      OthersKeepPriority(s, h, ts[..|ts| - 1], x);
    }
  }

  /** The donee ends up at least as high as every acquirer. */
  lemma {:induction false} DoneeIsRaised(s: Loans, h: Held, ts: seq<int>, d: int)
    requires WellKnown(s, h) && Known(ts, s.priority) && h.holder !in ts
    requires h.donee == Some(d) && d in s.priority && d != h.holder
    ensures AllAcquired(s, h, ts).priority[d] >= s.priority[d]
    ensures forall i :: 0 <= i < |ts| ==> AllAcquired(s, h, ts).priority[d] >= s.priority[ts[i]]
  {
    if ts != [] {
      var init, t := ts[..|ts| - 1], ts[|ts| - 1];
      assert t in ts;
      DoneeIsRaised(s, h, init, d);
      if t != d {
        OthersKeepPriority(s, h, init, t);
      }
      assert forall i :: 0 <= i < |init| ==> init[i] == ts[i];
    }
  }

  /** If nobody raises the donee, only the holder's priority changes, and the last acquirer sets it. */
  lemma {:induction false} LastOneCounts(s: Loans, h: Held, ts: seq<int>)
    requires WellKnown(s, h) && Known(ts, s.priority) && h.holder !in ts && NobodyRaises(s, h, ts)
    ensures AllAcquired(s, h, ts).priority ==
            if ts == [] then s.priority else s.priority[h.holder := s.priority[ts[|ts| - 1]]]
  {
    if ts != [] {
      assert ts[|ts| - 1] in ts && !Raises(s, h, ts[|ts| - 1]);
      LastOneCounts(s, h, ts[..|ts| - 1]);
    }
  }

  lemma {:induction false} AcquirersFilteredOut(s: Loans, h: Held, ts: seq<int>, p: int -> bool)
    requires WellKnown(s, h) && Known(ts, s.priority) && forall t :: t in ts ==> !p(t)
    ensures Filter(AllAcquired(s, h, ts).donors, p) == Filter(s.donors, p)
  {
    if ts != [] {
      var init := ts[..|ts| - 1];
      assert ts[|ts| - 1] in ts;
      AcquirersFilteredOut(s, h, init, p);
      var before := AllAcquired(s, h, init);
      InsertedIsFilteredOut(before.donors, ts[|ts| - 1], before.priority, p);
    }
  }

  lemma {:induction false} AcquirersWait(s: Loans, h: Held, ts: seq<int>, x: int)
    requires WellKnown(s, h) && Known(ts, s.priority)
    ensures WaitingFor(AllAcquired(s, h, ts).lockTemp, h.lock)(x) <==>
            x in ts || WaitingFor(s.lockTemp, h.lock)(x)
  {
    if ts != [] {
      AcquirersWait(s, h, ts[..|ts| - 1], x);
      assert ts == ts[..|ts| - 1] + [ts[|ts| - 1]];
    }
  }

  /** The acquirers are distinct, and neither the holder nor already its donors. */
  ghost predicate Fresh(s: Loans, h: Held, ts: seq<int>) {
    && WellKnown(s, h) && Known(ts, s.priority) && NoDup(ts)
    && h.holder !in ts && h.holder !in s.donors
    && forall t :: t in ts ==> t !in s.donors
  }

  function Left(after: Loans, h: Held): seq<int> {
    Filter(after.donors, WaitingForOthers(after.lockTemp, h.lock))
  }

  predicate NoneWaits(s: Loans, h: Held) {
    forall x :: x in s.donors ==> !WaitingFor(s.lockTemp, h.lock)(x)
  }

  /** The clean-up of lock_release leaves the donors that do not wait for the lock. */
  lemma DonorsLeft(s: Loans, h: Held, ts: seq<int>, after: Loans)
    requires forall x :: WaitingFor(after.lockTemp, h.lock)(x) <==> x in ts || WaitingFor(s.lockTemp, h.lock)(x)
    requires forall t :: t in ts ==> t !in s.donors
    requires Left(after, h) == Filter(s.donors, WaitingForOthers(after.lockTemp, h.lock))
    ensures Left(after, h) == s.donors <==> NoneWaits(s, h)
  {
    var waits, stays := WaitingFor(after.lockTemp, h.lock), WaitingForOthers(after.lockTemp, h.lock);
    assert forall x :: stays(x) <==> !waits(x);
    FilterKeeps(s.donors, stays);
    if NoneWaits(s, h) {
      forall x | x in s.donors ensures stays(x) {
        assert !WaitingFor(after.lockTemp, h.lock)(x);
      }
      FilterAll(s.donors, stays);
    }
  }

  /** What is left of the acquires that matters for a release. */
  ghost predicate Outcome(s: Loans, h: Held, ts: seq<int>, after: Loans)
    requires WellKnown(s, h) && Known(ts, s.priority)
  {
    && after.priority.Keys == s.priority.Keys && WellKnown(after, h)
    && (Left(after, h) == s.donors <==> NoneWaits(s, h))
    && (if ts == [] then after.donors == s.donors else ts[|ts| - 1] in after.donors)
    && (if NobodyRaises(s, h, ts) then
          after.priority == if ts == [] then s.priority else s.priority[h.holder := s.priority[ts[|ts| - 1]]]
        else after.priority[h.donee.value] > s.priority[h.donee.value])
  }

  lemma OutcomeOf(s: Loans, h: Held, ts: seq<int>)
    requires Fresh(s, h, ts)
    ensures Outcome(s, h, ts, AllAcquired(s, h, ts))
  {
    var after := AllAcquired(s, h, ts);
    assert Left(after, h) == s.donors <==> NoneWaits(s, h) by {
      var waits, stays := WaitingFor(after.lockTemp, h.lock), WaitingForOthers(after.lockTemp, h.lock);
      forall x ensures waits(x) <==> x in ts || WaitingFor(s.lockTemp, h.lock)(x) {
        AcquirersWait(s, h, ts, x);
      }
      assert forall t :: t in ts ==> waits(t) && !stays(t);
      AcquirersFilteredOut(s, h, ts, stays);
      DonorsLeft(s, h, ts, after);
    }
    if ts != [] {
      var before := AllAcquired(s, h, ts[..|ts| - 1]);
      InsertedIsThere(before.donors, ts[|ts| - 1], before.priority);
    }
    if NobodyRaises(s, h, ts) {
      LastOneCounts(s, h, ts);
    } else {
      DoneeIsRaised(s, h, ts, h.donee.value);
    }
  }

  function Front(s: Loans, base: int): int
    requires Known(s.donors, s.priority)
  {
    if s.donors != [] then s.priority[s.donors[0]] else base
  }

  /** Before the acquires the holder had what its donors and its own priority make it, and none of the
    * donors waited for this lock. */
  predicate Settled(s: Loans, h: Held, base: int)
    requires WellKnown(s, h)
  {
    NoneWaits(s, h) && s.priority[h.holder] == Front(s, base)
  }

  lemma RestoredIff(s: Loans, h: Held, ts: seq<int>, base: int, after: Loans)
    requires Fresh(s, h, ts) && Outcome(s, h, ts, after)
    ensures Known(s.donors, after.priority)
    ensures Restored(after.priority, h.holder, s.donors, base) == s.priority <==>
            NobodyRaises(s, h, ts) && s.priority[h.holder] == Front(s, base)
  {
    assert s.donors != [] ==> s.donors[0] in s.donors;
    var restored := Restored(after.priority, h.holder, s.donors, base);
    if NobodyRaises(s, h, ts) {
      assert restored == s.priority[h.holder := Front(s, base)];
    } else {
      assert restored[h.donee.value] == after.priority[h.donee.value];
    }
  }

  /** The clean-up gives back the donor list, and the priorities if and only if no acquirer was above the
    * thread that the holder has itself donated to: lock_release never lowers that one again. */
  lemma CleanUpRestoresIff(s: Loans, h: Held, ts: seq<int>, base: int)
    requires Fresh(s, h, ts) && Settled(s, h, base)
    ensures
      var after := AllAcquired(s, h, ts);
      && Left(after, h) == s.donors
      && Known(s.donors, after.priority)
      && (Restored(after.priority, h.holder, s.donors, base) == s.priority <==> NobodyRaises(s, h, ts))
  {
    OutcomeOf(s, h, ts);
    RestoredIff(s, h, ts, base, AllAcquired(s, h, ts));
  }

  /** After the acquires the release leaves priorities and donor list as they were before. */
  predicate TakenBack(s: Loans, h: Held, ts: seq<int>, base: int)
    requires WellKnown(s, h) && Known(ts, s.priority)
  {
    if ts == [] then s.priority[h.holder] == base || Settled(s, h, base)
    else s.priority[ts[|ts| - 1]] != base && NobodyRaises(s, h, ts) && Settled(s, h, base)
  }

  lemma TakenBackIff(s: Loans, h: Held, ts: seq<int>, base: int, after: Loans,
                     priority': map<int, int>, donors': seq<int>)
    requires Fresh(s, h, ts) && Outcome(s, h, ts, after)
    requires Releases(after.priority, after.donors, after.lockTemp, h.holder, h.lock, base, priority', donors')
    ensures priority' == s.priority && donors' == s.donors <==> TakenBack(s, h, ts, base)
  {
    RestoredIff(s, h, ts, base, after);
    if after.priority[h.holder] == base {
      assert ts != [] ==> ts[|ts| - 1] in ts;
    } else if !NobodyRaises(s, h, ts) {
      assert priority'[h.donee.value] == after.priority[h.donee.value];
    }
  }

  /** A release takes back what any acquirers of the lock gave, in any number, if and only if the last one's
    * priority is not the holder's own (or the release does nothing), none was above the thread that the
    * holder has donated to (or that one stays raised), and things were in order before. */
  lemma ReleaseUndoesAcquiresIff(
      s: Loans, h: Held, ts: seq<int>, base: int, priority': map<int, int>, donors': seq<int>)
    requires Fresh(s, h, ts)
    requires
      var after := AllAcquired(s, h, ts);
      Releases(after.priority, after.donors, after.lockTemp, h.holder, h.lock, base, priority', donors')
    ensures priority' == s.priority && donors' == s.donors <==> TakenBack(s, h, ts, base)
  {
    OutcomeOf(s, h, ts);
    TakenBackIff(s, h, ts, base, AllAcquired(s, h, ts), priority', donors');
  }

  /** A thread of 50 acquires a lock whose holder, of 31, has itself donated to another of 31: that one stays
    * at 50 after the release. */
  lemma RaisedDoneeStays(priority': map<int, int>, donors': seq<int>)
    requires
      var s, h := Loans(map[1 := 50, 2 := 31, 3 := 31], [], map[]), Held(0, 2, Some(3));
      var after := AllAcquired(s, h, [1]);
      Releases(after.priority, after.donors, after.lockTemp, 2, 0, 31, priority', donors')
    ensures priority' == map[1 := 50, 2 := 31, 3 := 50] && donors' == []
  {
    var s, h := Loans(map[1 := 50, 2 := 31, 3 := 31], [], map[]), Held(0, 2, Some(3));
    var after := AllAcquired(s, h, [1]);
    assert after == Acquired(s, h, 1);
    assert after.donors == [1] by {
      InsertsAt([], 1, s.priority, 0);
    }
    assert after.priority == map[1 := 50, 2 := 50, 3 := 50];
    var waits, stays := WaitingFor(after.lockTemp, 0), WaitingForOthers(after.lockTemp, 0);
    assert waits(1) && !stays(1) && [1][..0] == [];
    assert Filter([1], stays) == [];
  }

  /** Threads of 40 and then 31 acquire a lock whose holder is of 31: the release does nothing, and both stay
    * on its donor list. */
  lemma LowLastAcquirerStays(priority': map<int, int>, donors': seq<int>)
    requires
      var s, h := Loans(map[1 := 40, 2 := 31, 3 := 31], [], map[]), Held(0, 2, None);
      var after := AllAcquired(s, h, [1, 3]);
      Releases(after.priority, after.donors, after.lockTemp, 2, 0, 31, priority', donors')
    ensures donors' == [1, 3]
  {
    var s, h := Loans(map[1 := 40, 2 := 31, 3 := 31], [], map[]), Held(0, 2, None);
    assert [1, 3][..1] == [1];
    assert AllAcquired(s, h, [1]) == Acquired(s, h, 1);
    assert AllAcquired(s, h, [1]).donors == [1];
    assert [1][1..] == [];
  }
}
