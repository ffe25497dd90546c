/** Readers get through: whoever is inside IncUse can leave it, and every Unlock wakes those asleep there. */
module UsageLockProgress {
  import opened Common
  import opened UsageLock
  import opened UsageLockProofs

  /** In IncUse, and after the mutex. */
  predicate Queued(pc: Pc) {
    pc.IncCalled? || pc.IncWoken?
  }

  /** IncUse is over, and its caller counted. */
  predicate Returned(s: State, t: Tid) {
    At(s, t).Idle? && s.readers[t] > 0
  }

  predicate Step(s: State, u: Tid, a: Action, s': State) {
    Internal(a) && Enabled(s, u, a) && s' == Apply(s, u, a)
  }

  /** Some `n` steps at most, without a new call, a spurious wake-up or a timeout, end the IncUse of `t`. */
  ghost predicate Returns(s: State, t: Tid, n: nat)
    decreases n
  {
    || Returned(s, t)
    || (n > 0 && Returns(s, t, n - 1))
    || (n > 0 && exists u: Tid, a: Action, s' :: Step(s, u, a, s') && Returns(s', t, n - 1))
  }

  lemma {:induction false} ReturnsWithin(s: State, t: Tid, m: nat, n: nat)
    requires m <= n && Returns(s, t, m)
    ensures Returns(s, t, n)
    decreases n
  {
    if m < n {
      ReturnsWithin(s, t, m, n - 1);
    }
  }

  lemma StepReturns(s: State, u: Tid, a: Action, s': State, t: Tid, n: nat)
    requires Step(s, u, a, s') && Returns(s', t, n)
    ensures Returns(s, t, n + 1)
  {
  }

  lemma ReturnsAfter(s: State, u: Tid, a: Action, t: Tid, n: nat)
    requires Internal(a) && Enabled(s, u, a) && Returns(Apply(s, u, a), t, n)
    ensures Returns(s, t, n + 1)
  {
    StepReturns(s, u, a, Apply(s, u, a), t, n);
  }

  // ---------- No baton in the way ----------

  lemma TestReturns(s: State, t: Tid)
    requires At(s, t).IncTesting? && !s.f.handoff
    ensures Returns(s, t, 1)
  {
    assert Returned(Apply(s, t, TestHandoff), t);
    ReturnsAfter(s, t, TestHandoff, t, 0);
  }

  lemma FreeReturns(s: State, t: Tid)
    requires Queued(At(s, t)) && s.mutex.None? && !s.f.handoff
    ensures Returns(s, t, 2)
  {
    TestReturns(Apply(s, t, LockMutex), t);
    ReturnsAfter(s, t, LockMutex, t, 1);
  }

  /** One step of its holder frees the mutex. */
  lemma ReleasingReturns(s: State, v: Tid, t: Tid)
    requires Queued(At(s, t)) && !s.f.handoff
    requires At(s, v).IncTesting? || At(s, v).DecLeaving? || At(s, v).Section?
    ensures Returns(s, t, 3)
  {
    var a := if At(s, v).IncTesting? then TestHandoff else if At(s, v).DecLeaving? then LeaveDecUse else UnlockMutex;
    FreeReturns(Apply(s, v, a), t);
    ReturnsAfter(s, v, a, t, 2);
  }

  lemma NotifyChoice(s: State, v: Tid) returns (woken: Option<Tid>)
    requires At(s, v).DecNotifying?
    ensures Enabled(s, v, Notify(woken))
  {
    woken := None;
    if w :| w in s.pcs && s.pcs[w].WaitParked? {
      woken := Some(w);
    }
  }

  lemma NotifyingReturns(s: State, v: Tid, t: Tid)
    requires Queued(At(s, t)) && !s.f.handoff && At(s, v).DecNotifying?
    ensures Returns(s, t, 4)
  {
    var woken := NotifyChoice(s, v);
    ReleasingReturns(Apply(s, v, Notify(woken)), v, t);
    ReturnsAfter(s, v, Notify(woken), t, 3);
  }

  lemma TestingReturns(s: State, v: Tid, t: Tid)
    requires Queued(At(s, t)) && !s.f.handoff && (At(s, v).WaitTesting? || At(s, v).WaitLastTest?)
    ensures Returns(s, t, 4)
  {
    var a := if At(s, v).WaitTesting? then TestUnused else LastTest;
    var s' := Apply(s, v, a);
    if s.f.cont == 0 {
      ReleasingReturns(s', v, t);
    } else {
      FreeReturns(s', t);
      ReturnsWithin(s', t, 2, 3);
    }
    ReturnsAfter(s, v, a, t, 3);
  }

  lemma ArrivingReturns(s: State, v: Tid, t: Tid)
    requires Queued(At(s, t)) && !s.f.handoff && At(s, v).WaitArriving?
    ensures Returns(s, t, 5)
  {
    TestingReturns(Apply(s, v, Announce), v, t);
    ReturnsAfter(s, v, Announce, t, 4);
  }

  // ---------- Behind the baton ----------

  lemma UnlockReturns(s: State, w: Tid, t: Tid)
    requires At(s, w).Section? && At(s, t).IncParked? && !s.f.handoff
    ensures Returns(s, t, 5)
  {
    var s1 := FreeMutex(s, w, UnlockingSerial);
    var s2 := Go(s1, w, UnlockNotifying).(lock := None);
    FreeReturns(NotifyAll(s2, w, Idle), t);
    ReturnsAfter(s2, w, UnlockNotify, t, 2);
    ReturnsAfter(s1, w, UnlockSerial, t, 3);
    ReturnsAfter(s, w, UnlockMutex, t, 4);
  }

  /** A writer in the section lets the reader in with its Unlock. */
  lemma SectionReturns(s: State, w: Tid, t: Tid)
    requires Inv(s) && At(s, w).Section? && InIncUse(At(s, t))
    ensures Returns(s, t, 5)
  {
    assert HoldsLock(At(s, w)) && HoldsMutex(At(s, w));
    assert !At(s, t).IncTesting?;
    if At(s, t).IncParked? {
      UnlockReturns(s, w, t);
    } else {
      ReleasingReturns(s, w, t);
      ReturnsWithin(s, t, 3, 5);
    }
  }

  lemma StaysInIncUse(s: State, u: Tid, a: Action, t: Tid)
    requires Inv(s) && Enabled(s, u, a) && s.f.handoff && InIncUse(At(s, t))
    ensures InIncUse(At(Apply(s, u, a), t))
  {
    ActionMoves(s, u, a);
  }

  lemma {:induction false} BatonReturns(s: State, w: Tid, t: Tid)
    requires Inv(s) && Reserved(s, w) && InIncUse(At(s, t))
    ensures Returns(s, t, Distance(s, w) + 5)
    decreases Distance(s, w)
  {
    var n := Distance(s, w);
    var u, a, s' := BatonAdvances(s, w, t);
    if At(s', w).Section? {
      SectionReturns(s', w, t);
      ReturnsWithin(s', t, 5, n + 4);
    } else {
      BatonReturns(s', w, t);
      ReturnsWithin(s', t, Distance(s', w) + 5, n + 4);
    }
    ReturnsAfter(s, u, a, t, n + 4);
  }

  /** A step that brings the baton's writer closer, while the reader stays where it has to be. */
  lemma BatonAdvances(s: State, w: Tid, t: Tid) returns (u: Tid, a: Action, s': State)
    requires Inv(s) && Reserved(s, w) && InIncUse(At(s, t))
    ensures Internal(a) && Enabled(s, u, a) && s' == Apply(s, u, a) && Inv(s') && InIncUse(At(s', t))
    ensures Distance(s, w) > 0
    ensures At(s', w).Section? || (Reserved(s', w) && Distance(s', w) < Distance(s, w))
  {
    u, a := NextStep(s, w);
    s' := Apply(s, u, a);
    NextStepHelps(s, w, u, a);
    BatonStep(s, u, a, w);
    InvKept(s, u, a);
    StaysInIncUse(s, u, a, t);
  }

  lemma HandoffReturns(s: State, t: Tid)
    requires Inv(s) && s.f.handoff && InIncUse(At(s, t))
    ensures Returns(s, t, 10)
  {
    var w := s.lock.value;
    assert Reserved(s, w);
    BatonReturns(s, w, t);
    ReturnsWithin(s, t, Distance(s, w) + 5, 10);
  }

  /** The last DecUse may reserve the baton, which then has to make its way first. */
  lemma LeavingReturns(s: State, v: Tid, t: Tid)
    requires Inv(s) && Queued(At(s, t)) && !s.f.handoff && At(s, v).DecEntered?
    ensures Returns(s, t, 11)
  {
    var s' := Apply(s, v, Uncount);
    InvKept(s, v, Uncount);
    if s'.f.handoff {
      HandoffReturns(s', t);
    } else {
      NotifyingReturns(s', v, t);
      ReturnsWithin(s', t, 4, 10);
    }
    ReturnsAfter(s, v, Uncount, t, 10);
  }

  lemma QueuedReturns(s: State, t: Tid)
    requires Inv(s) && Queued(At(s, t)) && !s.f.handoff
    ensures Returns(s, t, 11)
  {
    if s.mutex.None? {
      FreeReturns(s, t);
      ReturnsWithin(s, t, 2, 11);
    } else {
      HeldReturns(s, s.mutex.value, t);
    }
  }

  lemma HeldReturns(s: State, v: Tid, t: Tid)
    requires Inv(s) && Queued(At(s, t)) && !s.f.handoff && s.mutex == Some(v)
    ensures Returns(s, t, 11)
  {
    assert HoldsMutex(At(s, v));
    var pc := At(s, v);
    if pc.DecEntered? {
      LeavingReturns(s, v, t);
    } else if pc.DecNotifying? {
      NotifyingReturns(s, v, t);
      ReturnsWithin(s, t, 4, 11);
    } else if pc.WaitArriving? {
      ArrivingReturns(s, v, t);
      ReturnsWithin(s, t, 5, 11);
    } else if pc.WaitTesting? || pc.WaitLastTest? {
      TestingReturns(s, v, t);
      ReturnsWithin(s, t, 4, 11);
    } else {
      ReleasingReturns(s, v, t);
      ReturnsWithin(s, t, 3, 11);
    }
  }

  // ---------- Asleep ----------

  lemma NotifyReturns(s: State, u: Tid, t: Tid)
    requires Inv(s) && At(s, t).IncParked? && !s.f.handoff && At(s, u).UnlockNotifying?
    ensures Returns(s, t, 12)
  {
    InvKept(s, u, UnlockNotify);
    QueuedReturns(Apply(s, u, UnlockNotify), t);
    ReturnsAfter(s, u, UnlockNotify, t, 11);
  }

  lemma ParkedReturns(s: State, t: Tid)
    requires Inv(s) && At(s, t).IncParked? && !s.f.handoff
    ensures Returns(s, t, 13)
  {
    if u: Tid :| At(s, u).UnlockNotifying? {
      NotifyReturns(s, u, t);
      ReturnsWithin(s, t, 12, 13);
    } else {
      var u := s.lock.value;
      if At(s, u).Section? {
        SectionReturns(s, u, t);
        ReturnsWithin(s, t, 5, 13);
      } else {
        InvKept(s, u, UnlockSerial);
        NotifyReturns(Apply(s, u, UnlockSerial), u, t);
        ReturnsAfter(s, u, UnlockSerial, t, 12);
      }
    }
  }

  lemma IncUseReturns(s: State, t: Tid)
    requires Inv(s) && InIncUse(At(s, t))
    ensures Returns(s, t, 13)
  {
    if s.f.handoff {
      HandoffReturns(s, t);
      ReturnsWithin(s, t, 10, 13);
    } else if At(s, t).IncTesting? {
      TestReturns(s, t);
      ReturnsWithin(s, t, 1, 13);
    } else if At(s, t).IncParked? {
      ParkedReturns(s, t);
    } else {
      QueuedReturns(s, t);
      ReturnsWithin(s, t, 11, 13);
    }
  }

  /** A run of the program itself, from `s` to the end of the IncUse of `t`. */
  ghost predicate Leads(r: seq<State>, es: seq<Event>, s: State, t: Tid) {
    IsRun(r, es) && r[0] == s && Returned(r[|es|], t) && forall k :: 0 <= k < |es| ==> Internal(es[k].a)
  }

  lemma LeadsFrom(s: State, u: Tid, a: Action, s': State, t: Tid, r': seq<State>, es': seq<Event>)
    requires Step(s, u, a, s') && Leads(r', es', s', t)
    ensures Leads([s] + r', [Event(u, a)] + es', s, t)
  {
    RunCons(s, Event(u, a), r', es');
  }

  lemma NextOf(s: State, t: Tid, n: nat) returns (u: Tid, a: Action, s': State)
    requires n > 0 && Returns(s, t, n) && !Returned(s, t) && !Returns(s, t, n - 1)
    ensures Step(s, u, a, s') && Returns(s', t, n - 1)
  {
    u, a, s' :| Step(s, u, a, s') && Returns(s', t, n - 1);
  }

  lemma {:induction false} RunReturns(s: State, t: Tid, n: nat) returns (r: seq<State>, es: seq<Event>)
    requires Returns(s, t, n)
    ensures Leads(r, es, s, t) && |es| <= n
    decreases n
  {
    if Returned(s, t) {
      r, es := [s], [];
    } else if Returns(s, t, n - 1) {
      r, es := RunReturns(s, t, n - 1);
    } else {
      var u, a, s' := NextOf(s, t, n);
      r, es := RunReturns(s', t, n - 1);
      LeadsFrom(s, u, a, s', t, r, es);
      r, es := [s] + r, [Event(u, a)] + es;
    }
  }

  /**
   No reader is ever stuck: from every state that can be reached, at most thirteen steps end an IncUse, whatever it
   waits for: the mutex, the baton's writer or the notification of an Unlock.
   */
  lemma WayOut(s: State, t: Tid) returns (r: seq<State>, es: seq<Event>)
    requires Inv(s) && InIncUse(At(s, t))
    ensures IsRun(r, es) && r[0] == s && |es| <= 13 && Returned(r[|es|], t)
    ensures forall k :: 0 <= k < |es| ==> Internal(es[k].a)
  {
    IncUseReturns(s, t);
    r, es := RunReturns(s, t, 13);
  }

  // ---------- Whatever the others do ----------

  /** How many steps of its own a writer is away from the end of its Unlock. */
  function UnlockRank(pc: Pc): nat {
    match pc
    case Section => 3
    case UnlockingSerial => 2
    case UnlockNotifying => 1
    case _ => 0
  }

  ghost predicate Asleep(s: State, v: Tid, t: Tid) {
    At(s, t).IncParked? && UnlockRank(At(s, v)) > 0
  }

  ghost predicate Approaches(s: State, u: Tid, s': State, v: Tid, t: Tid) {
    Asleep(s, v, t) ==>
      || !At(s', t).IncParked?
      || (Asleep(s', v, t) && UnlockRank(At(s', v)) + (if u == v then 1 else 0) <= UnlockRank(At(s, v)))
  }

  lemma MoveApproaches(s: State, u: Tid, s': State, v: Tid, t: Tid)
    requires Moves(s, u, s')
    ensures Approaches(s, u, s', v, t)
  {
  }

  ghost predicate WokenBetween(r: seq<State>, t: Tid, i: nat, j: nat)
    requires i <= j < |r|
  {
    exists k :: i < k <= j && !At(r[k], t).IncParked?
  }

  lemma {:induction false} ApproachesAlong(r: seq<State>, es: seq<Event>, i: nat, j: nat, v: Tid, t: Tid)
    requires i <= j <= |es| < |r| && Asleep(r[i], v, t)
    requires forall k :: i <= k < j ==> Approaches(r[k], es[k].t, r[k + 1], v, t)
    ensures WokenBetween(r, t, i, j)
         || (Asleep(r[j], v, t) && UnlockRank(At(r[j], v)) + OwnSteps(es, v, i, j) <= UnlockRank(At(r[i], v)))
  {
    if i < j {
      ApproachesAlong(r, es, i, j - 1, v, t);
      var k := j - 1;
      assert Approaches(r[k], es[k].t, r[k + 1], v, t);
      if WokenBetween(r, t, i, k) {
        var m :| i < m <= k && !At(r[m], t).IncParked?;
      }
    }
  }

  /** A reader asleep when a writer is in the section is woken by the third step of that writer, whatever others do. */
  lemma UnlockWakes(r: seq<State>, es: seq<Event>, i: nat, j: nat, v: Tid, t: Tid)
    requires IsRun(r, es) && r[0] == INIT && i <= j <= |es| && At(r[i], t).IncParked? && Unlocks(At(r[i], v))
    requires OwnSteps(es, v, i, j) >= 3
    ensures WokenBetween(r, t, i, j)
  {
    forall k | i <= k < j
      ensures Approaches(r[k], es[k].t, r[k + 1], v, t)
    {
      ReachableInv(r, es, k);
      ActionMoves(r[k], es[k].t, es[k].a);
      MoveApproaches(r[k], es[k].t, r[k + 1], v, t);
    }
    ApproachesAlong(r, es, i, j, v, t);
  }
}
