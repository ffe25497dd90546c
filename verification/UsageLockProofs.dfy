/** What every interleaving of the usage lock keeps, and what follows over whole runs. */
module UsageLockProofs {
  import opened Common
  import opened UsageLock

  // ---------- One action, seen from outside ----------

  /** What an action of one thread can do to the program counter of another. */
  predicate Disturbed(p: Pc, p': Pc) {
    p' == p || (p.IncParked? && p'.IncWoken?) || (p.WaitParked? && p' == WaitWoken(p.timed))
  }

  ghost predicate Frame(s: State, t: Tid, s': State) {
    forall u: Tid :: u != t ==> Disturbed(At(s, u), At(s', u))
  }

  /** A mutex changes hands only as the acting thread's program counter says. */
  predicate Handover(t: Tid, held: bool, held': bool, m: Option<Tid>, m': Option<Tid>) {
    if held == held' then m' == m
    else if held' then m.None? && m' == Some(t)
    else m' == None
  }

  /** An action that touches no field. */
  predicate Quiet(s: State, t: Tid, s': State) {
    var p, p' := At(s, t), At(s', t);
    && s'.f == s.f && s'.readers == s.readers && Waiting(p) == Waiting(p')
    && (p'.DecCalled? ==> s.readers[t] > 0)
    && (p'.DecEntered? ==> p.DecCalled?)
    && (p'.IncParked? ==> s.f.handoff && p.IncTesting?)
    && (p'.IncWoken? ==> p.IncParked?)
    && (p'.WaitParked? ==> s.f.cont > 0)
    && !p'.Section?
    && (p.Section? ==> p'.UnlockingSerial?)
    && (p.UnlockingSerial? ==> p'.UnlockNotifying?)
    && (p.WaitTesting? || p.WaitLastTest? ==> s.f.cont > 0)
  }

  predicate Enters(s: State, t: Tid, s': State) {
    && At(s, t).IncTesting? && At(s', t).Idle? && !s.f.handoff
    && s'.f == Counted(s.f) && s'.readers == s.readers + multiset{t}
  }

  predicate Leaves(s: State, t: Tid, s': State) {
    && At(s, t).DecEntered? && At(s', t).DecNotifying?
    && s'.f == Uncounted(s.f) && s'.readers == s.readers - multiset{t}
  }

  predicate Arrives(s: State, t: Tid, s': State) {
    && At(s, t).WaitArriving? && At(s', t).WaitTesting?
    && s'.f == Announced(s.f) && s'.readers == s.readers
  }

  predicate Settles(s: State, t: Tid, s': State) {
    && (At(s, t).WaitTesting? || At(s, t).WaitLastTest?)
    && At(s', t) == (if s.f.cont == 0 then Section else GaveUpNotifying)
    && s'.f == Settled(s.f) && s'.readers == s.readers
  }

  predicate Own(s: State, t: Tid, s': State) {
    && Handover(t, HoldsMutex(At(s, t)), HoldsMutex(At(s', t)), s.mutex, s'.mutex)
    && Handover(t, HoldsLock(At(s, t)), HoldsLock(At(s', t)), s.lock, s'.lock)
    && (Quiet(s, t, s') || Enters(s, t, s') || Leaves(s, t, s') || Arrives(s, t, s') || Settles(s, t, s'))
  }

  /** After its notify, the acting thread has left nobody asleep on that condition variable. */
  ghost predicate Notifies(s: State, t: Tid, s': State) {
    && (At(s, t).UnlockNotifying? ==> forall u: Tid :: !At(s', u).IncParked?)
    && (At(s, t).DecNotifying? ==> forall u: Tid :: !At(s', u).WaitParked?)
  }

  ghost predicate Moves(s: State, t: Tid, s': State) {
    Frame(s, t, s') && Own(s, t, s') && Notifies(s, t, s')
  }

  lemma LockMutexMoves(s: State, t: Tid)
    requires Enabled(s, t, LockMutex)
    ensures Moves(s, t, DoLockMutex(s, t))
  {
  }

  lemma TestHandoffMoves(s: State, t: Tid)
    requires Enabled(s, t, TestHandoff)
    ensures Moves(s, t, DoTestHandoff(s, t))
  {
  }

  lemma UncountMoves(s: State, t: Tid)
    requires Enabled(s, t, Uncount)
    ensures Moves(s, t, DoUncount(s, t))
  {
  }

  lemma AnnounceMoves(s: State, t: Tid)
    requires Enabled(s, t, Announce)
    ensures Moves(s, t, DoAnnounce(s, t))
  {
  }

  lemma TestUnusedMoves(s: State, t: Tid)
    requires Enabled(s, t, TestUnused) && s.f.cont >= 0
    ensures Moves(s, t, DoTestUnused(s, t))
  {
  }

  lemma LastTestMoves(s: State, t: Tid)
    requires Enabled(s, t, LastTest) && s.f.cont >= 0
    ensures Moves(s, t, DoLastTest(s, t))
  {
  }

  lemma LockSerialMoves(s: State, t: Tid)
    requires Enabled(s, t, LockSerial)
    ensures Moves(s, t, DoLockSerial(s, t))
  {
  }

  lemma NotifyMoves(s: State, t: Tid, woken: Option<Tid>)
    requires Enabled(s, t, Notify(woken)) && Owners(s)
    ensures Moves(s, t, DoNotify(s, t, woken))
  {
  }

  lemma CallMoves(s: State, t: Tid, pc: Pc)
    requires At(s, t).Idle?
    requires pc.IncCalled? || pc.WaitCalled? || (pc.DecCalled? && s.readers[t] > 0)
    ensures Moves(s, t, Go(s, t, pc))
  {
  }

  lemma WakeMoves(s: State, t: Tid, pc: Pc)
    requires (At(s, t).IncParked? && pc.IncWoken?) || (At(s, t).WaitParked? && (pc.WaitWoken? || pc.WaitExpired?))
    ensures Moves(s, t, Go(s, t, pc))
  {
  }

  lemma FreeMutexMoves(s: State, t: Tid, pc: Pc)
    requires (At(s, t).DecLeaving? && pc.Idle?) || (At(s, t).Section? && pc.UnlockingSerial?)
    ensures Moves(s, t, FreeMutex(s, t, pc))
  {
  }

  lemma FreeLockMoves(s: State, t: Tid, pc: Pc)
    requires (At(s, t).GaveUpUnlocking? && pc.Idle?) || (At(s, t).UnlockingSerial? && pc.UnlockNotifying?)
    ensures Moves(s, t, Go(s, t, pc).(lock := None))
  {
  }

  lemma NotifyAllMoves(s: State, t: Tid, pc: Pc)
    requires (At(s, t).GaveUpNotifying? && pc.GaveUpUnlocking?) || (At(s, t).UnlockNotifying? && pc.Idle?)
    ensures Moves(s, t, NotifyAll(s, t, pc))
  {
  }

  lemma ActionMoves(s: State, t: Tid, a: Action)
    requires Inv(s) && Enabled(s, t, a)
    ensures Moves(s, t, Apply(s, t, a))
  {
    var s' := Apply(s, t, a);
    match a
    case LockMutex => LockMutexMoves(s, t);
    case TestHandoff => TestHandoffMoves(s, t);
    case Uncount => UncountMoves(s, t);
    case Notify(woken) => NotifyMoves(s, t, woken);
    case LockSerial => LockSerialMoves(s, t);
    case Announce => AnnounceMoves(s, t);
    case TestUnused => TestUnusedMoves(s, t);
    case LastTest => LastTestMoves(s, t);
    case LeaveDecUse => FreeMutexMoves(s, t, Idle);
    case UnlockMutex => FreeMutexMoves(s, t, UnlockingSerial);
    case GiveUpUnlock => FreeLockMoves(s, t, Idle);
    case UnlockSerial => FreeLockMoves(s, t, UnlockNotifying);
    case GiveUpNotify => NotifyAllMoves(s, t, GaveUpUnlocking);
    case UnlockNotify => NotifyAllMoves(s, t, Idle);
    case WakeUp => WakeMoves(s, t, if At(s, t).IncParked? then IncWoken else WaitWoken(At(s, t).timed));
    case Expire => WakeMoves(s, t, WaitExpired);
    case CallIncUse => CallMoves(s, t, IncCalled);
    case CallDecUse => CallMoves(s, t, DecCalled);
    case CallWait(timed) => CallMoves(s, t, WaitCalled(timed));
  }

  // ---------- The invariant ----------

  lemma OwnersKept(s: State, t: Tid, s': State)
    requires Owners(s) && Moves(s, t, s')
    ensures Owners(s')
  {
  }

  lemma QuietCounts(s: State, t: Tid, s': State)
    requires Inv(s) && Moves(s, t, s') && Owners(s')
    requires Quiet(s, t, s')
    ensures Counts(s')
  {
    assert HoldsLock(At(s, t)) <==> s.lock == Some(t);
    assert HoldsMutex(At(s, t)) <==> s.mutex == Some(t);
  }

  lemma EntersCounts(s: State, t: Tid, s': State)
    requires Inv(s) && Moves(s, t, s') && Owners(s')
    requires Enters(s, t, s')
    ensures Counts(s')
  {
    assert HoldsLock(At(s, t)) <==> s.lock == Some(t);
    assert HoldsMutex(At(s, t)) <==> s.mutex == Some(t);
  }

  lemma LeavesCounts(s: State, t: Tid, s': State)
    requires Inv(s) && Moves(s, t, s') && Owners(s')
    requires Leaves(s, t, s')
    ensures Counts(s')
  {
    assert HoldsLock(At(s, t)) <==> s.lock == Some(t);
    assert HoldsMutex(At(s, t)) <==> s.mutex == Some(t);
  }

  lemma WriterCounts(s: State, t: Tid, s': State)
    requires Inv(s) && Moves(s, t, s') && Owners(s')
    requires Arrives(s, t, s') || Settles(s, t, s')
    ensures Counts(s')
  {
    assert HoldsLock(At(s, t)) <==> s.lock == Some(t);
    assert HoldsMutex(At(s, t)) <==> s.mutex == Some(t);
  }

  lemma BatonKept(s: State, t: Tid, s': State)
    requires Inv(s) && Moves(s, t, s') && Owners(s') && Counts(s')
    ensures Baton(s')
  {
    assert HoldsLock(At(s, t)) <==> s.lock == Some(t);
    assert HoldsMutex(At(s, t)) <==> s.mutex == Some(t);
  }

  lemma QuietNoLostWakeUp(s: State, t: Tid, s': State)
    requires Inv(s) && Moves(s, t, s') && Owners(s') && Counts(s')
    requires Quiet(s, t, s')
    ensures NoLostWakeUp(s')
  {
    assert HoldsLock(At(s, t)) <==> s.lock == Some(t);
    assert HoldsMutex(At(s, t)) <==> s.mutex == Some(t);
  }

  lemma ReaderNoLostWakeUp(s: State, t: Tid, s': State)
    requires Inv(s) && Moves(s, t, s') && Owners(s') && Counts(s')
    requires Enters(s, t, s') || Leaves(s, t, s')
    ensures NoLostWakeUp(s')
  {
    assert HoldsLock(At(s, t)) <==> s.lock == Some(t);
    assert HoldsMutex(At(s, t)) <==> s.mutex == Some(t);
  }

  lemma WriterNoLostWakeUp(s: State, t: Tid, s': State)
    requires Inv(s) && Moves(s, t, s') && Owners(s') && Counts(s')
    requires Arrives(s, t, s') || Settles(s, t, s')
    ensures NoLostWakeUp(s')
  {
    assert HoldsLock(At(s, t)) <==> s.lock == Some(t);
    assert HoldsMutex(At(s, t)) <==> s.mutex == Some(t);
  }

  lemma InvKept(s: State, t: Tid, a: Action)
    requires Inv(s) && Enabled(s, t, a)
    ensures Inv(Apply(s, t, a))
  {
    var s' := Apply(s, t, a);
    ActionMoves(s, t, a);
    MovesKeepInv(s, t, s');
  }

  lemma MovesKeepInv(s: State, t: Tid, s': State)
    requires Inv(s) && Moves(s, t, s')
    ensures Inv(s')
  {
    OwnersKept(s, t, s');
    if Quiet(s, t, s') {
      QuietCounts(s, t, s');
      QuietNoLostWakeUp(s, t, s');
    } else if Enters(s, t, s') {
      EntersCounts(s, t, s');
      ReaderNoLostWakeUp(s, t, s');
    } else if Leaves(s, t, s') {
      LeavesCounts(s, t, s');
      ReaderNoLostWakeUp(s, t, s');
    } else {
      WriterCounts(s, t, s');
      WriterNoLostWakeUp(s, t, s');
    }
    BatonKept(s, t, s');
  }

  lemma {:induction false} ReachableInv(r: seq<State>, es: seq<Event>, i: nat)
    requires IsRun(r, es) && r[0] == INIT && i < |r|
    ensures Inv(r[i])
  {
    if i > 0 {
      ReachableInv(r, es, i - 1);
      InvKept(r[i - 1], es[i - 1].t, es[i - 1].a);
    }
  }

  // ---------- Over whole runs ----------

  /** In every reachable state a thread in the writer section is alone with the object. */
  lemma SectionExcludes(r: seq<State>, es: seq<Event>, i: nat, w: Tid)
    requires IsRun(r, es) && r[0] == INIT && i < |r| && At(r[i], w).Section?
    ensures r[i].readers == multiset{} && r[i].f == Fields(0, 0, false)
    ensures forall u: Tid :: u != w ==> !HoldsMutex(At(r[i], u)) && !HoldsLock(At(r[i], u))
  {
    ReachableInv(r, es, i);
    assert HoldsLock(At(r[i], w)) && HoldsMutex(At(r[i], w));
  }

  /** The baton is reserved only while nobody reads, and then for exactly one waiting writer. */
  lemma BatonIsForOneWriter(r: seq<State>, es: seq<Event>, i: nat) returns (w: Tid)
    requires IsRun(r, es) && r[0] == INIT && i < |r| && r[i].f.handoff
    ensures r[i].readers == multiset{} && Waiting(At(r[i], w))
    ensures forall u: Tid :: Waiting(At(r[i], u)) ==> u == w
  {
    ReachableInv(r, es, i);
    w := r[i].lock.value;
    forall u: Tid | Waiting(At(r[i], u))
      ensures u == w
    {
      OnlyWaiter(r[i], w, u);
    }
  }

  /** In the writer section, or in an Unlock whose notification is still to come. */
  predicate Unlocks(pc: Pc) {
    pc.Section? || pc.UnlockingSerial? || pc.UnlockNotifying?
  }

  /** A sleeping reader has the baton, a writer in the section or an Unlock in progress to wait for. */
  lemma SleepingReaderHasReason(r: seq<State>, es: seq<Event>, i: nat, t: Tid)
    requires IsRun(r, es) && r[0] == INIT && i < |r| && At(r[i], t).IncParked?
    ensures r[i].f.handoff || exists u: Tid :: Unlocks(At(r[i], u))
  {
    ReachableInv(r, es, i);
  }

  /** A sleeping writer has readers to wait for, unless a DecUse is just about to notify it. */
  lemma SleepingWriterHasReason(r: seq<State>, es: seq<Event>, i: nat, w: Tid)
    requires IsRun(r, es) && r[0] == INIT && i < |r| && At(r[i], w).WaitParked?
    ensures r[i].readers != multiset{} || exists u: Tid :: At(r[i], u).DecNotifying?
  {
    ReachableInv(r, es, i);
  }

  /** A thread that already reads never sleeps in a nested IncUse: its test of the baton succeeds. */
  lemma NestedIncUseNeverWaits(r: seq<State>, es: seq<Event>, i: nat, t: Tid)
    requires IsRun(r, es) && r[0] == INIT && i < |r| && r[i].readers[t] > 0
    ensures !At(r[i], t).IncParked? && !At(r[i], t).IncWoken?
    ensures At(r[i], t).IncTesting? ==> Apply(r[i], t, TestHandoff).readers[t] == r[i].readers[t] + 1
  {
    ReachableInv(r, es, i);
    assert t in r[i].readers;
  }

  /** No writer priority: a reader is held back exactly when the baton is reserved for a waiting writer. */
  lemma ReaderWaitsOnlyForBaton(r: seq<State>, es: seq<Event>, i: nat, t: Tid)
    requires IsRun(r, es) && r[0] == INIT && i < |r| && At(r[i], t).IncTesting?
    ensures At(Apply(r[i], t, TestHandoff), t).IncParked? <==> exists w: Tid :: Reserved(r[i], w)
  {
    ReachableInv(r, es, i);
    if r[i].f.handoff {
      assert Reserved(r[i], r[i].lock.value);
    }
  }

  /** A writer whose time is up either enters or finds no baton to hand back. */
  lemma ExpiredWriterHoldsNoBaton(r: seq<State>, es: seq<Event>, i: nat, w: Tid)
    requires IsRun(r, es) && r[0] == INIT && i < |r| && At(r[i], w).WaitLastTest?
    ensures At(Apply(r[i], w, LastTest), w).GaveUpNotifying? ==> !r[i].f.handoff
  {
    ReachableInv(r, es, i);
  }

  /** The baton is reserved for `w`: nobody reads, and `w` is the writer that waits. */
  predicate Reserved(s: State, w: Tid) {
    s.f.handoff && s.f.cont == 0 && Waiting(At(s, w))
  }

  lemma BatonStep(s: State, t: Tid, a: Action, w: Tid)
    requires Inv(s) && Enabled(s, t, a) && Reserved(s, w)
    ensures Reserved(Apply(s, t, a), w) || At(Apply(s, t, a), w).Section?
  {
    ActionMoves(s, t, a);
    assert HoldsLock(At(s, w)) && HoldsMutex(At(s, t)) == (s.mutex == Some(t));
    assert HoldsLock(At(s, t)) <==> s.lock == Some(t);
  }

  /** Once the count reached zero for a waiting writer, it stays zero until that very writer enters. */
  lemma BatonHonoured(r: seq<State>, es: seq<Event>, i: nat, j: nat, w: Tid)
    requires IsRun(r, es) && r[0] == INIT && i <= j < |r| && Reserved(r[i], w)
    ensures Reserved(r[j], w) || EntersBetween(r, w, i, j)
  {
    forall k | i <= k < j
      ensures Honoured(r[k], r[k + 1], w)
    {
      StepHonours(r, es, k, w);
    }
    HonouredAlong(r, i, j, w);
  }

  predicate EntersBetween(r: seq<State>, w: Tid, i: nat, j: nat)
    requires i <= j < |r|
  {
    exists k :: i < k <= j && At(r[k], w).Section?
  }

  predicate Honoured(s: State, s': State, w: Tid) {
    Reserved(s, w) ==> Reserved(s', w) || At(s', w).Section?
  }

  lemma StepHonours(r: seq<State>, es: seq<Event>, k: nat, w: Tid)
    requires IsRun(r, es) && r[0] == INIT && k < |es|
    ensures Honoured(r[k], r[k + 1], w)
  {
    if Reserved(r[k], w) {
      ReachableInv(r, es, k);
      BatonStep(r[k], es[k].t, es[k].a, w);
    }
  }

  lemma {:induction false} HonouredAlong(r: seq<State>, i: nat, j: nat, w: Tid)
    requires i <= j < |r| && Reserved(r[i], w)
    requires forall k :: i <= k < j ==> Honoured(r[k], r[k + 1], w)
    ensures Reserved(r[j], w) || EntersBetween(r, w, i, j)
  {
    if i < j {
      HonouredAlong(r, i, j - 1, w);
      var k := j - 1;
      assert Honoured(r[k], r[k + 1], w);
      if !Reserved(r[k], w) {
        var m :| i < m <= k && At(r[m], w).Section?;
      }
    }
  }

  /** The last DecUse under a waiting writer is what reserves the baton. */
  lemma LastDecUseReserves(r: seq<State>, es: seq<Event>, i: nat, t: Tid, w: Tid)
    requires IsRun(r, es) && r[0] == INIT && i < |r|
    requires Enabled(r[i], t, Uncount) && |r[i].readers| == 1 && Waiting(At(r[i], w))
    ensures Reserved(Apply(r[i], t, Uncount), w)
  {
    ReachableInv(r, es, i);
    assert HoldsLock(At(r[i], w)) && HoldsMutex(At(r[i], t));
  }

  // ---------- Progress ----------

  /** An action the program takes by itself: no new call, no spurious wake-up, no timeout. */
  predicate Internal(a: Action) {
    !a.CallIncUse? && !a.CallDecUse? && !a.CallWait? && !a.WakeUp? && !a.Expire?
  }

  ghost predicate CanStep(s: State, t: Tid) {
    exists a :: Internal(a) && Enabled(s, t, a)
  }

  lemma MutexHolderCanStep(s: State, t: Tid)
    requires HoldsMutex(At(s, t))
    ensures CanStep(s, t)
  {
    match At(s, t)
    case IncTesting => assert Enabled(s, t, TestHandoff);
    case DecEntered => assert Enabled(s, t, Uncount);
    case DecNotifying =>
      if w :| w in s.pcs && s.pcs[w].WaitParked? {
        assert Enabled(s, t, Notify(Some(w)));
      } else {
        assert Enabled(s, t, Notify(None));
      }
    case DecLeaving => assert Enabled(s, t, LeaveDecUse);
    case WaitArriving(_) => assert Enabled(s, t, Announce);
    case WaitTesting(_) => assert Enabled(s, t, TestUnused);
    case WaitLastTest => assert Enabled(s, t, LastTest);
    case Section => assert Enabled(s, t, UnlockMutex);
  }

  lemma FreeMutexStep(s: State, t: Tid)
    requires s.mutex.None?
    ensures WantsMutex(At(s, t)) ==> CanStep(s, t)
    ensures At(s, t).GaveUpNotifying? || At(s, t).GaveUpUnlocking? ==> CanStep(s, t)
    ensures At(s, t).UnlockingSerial? || At(s, t).UnlockNotifying? ==> CanStep(s, t)
    ensures At(s, t).WaitCalled? && s.lock.None? ==> CanStep(s, t)
  {
    if WantsMutex(At(s, t)) {
      assert Enabled(s, t, LockMutex);
    }
    assert At(s, t).GaveUpNotifying? ==> Enabled(s, t, GiveUpNotify);
    assert At(s, t).GaveUpUnlocking? ==> Enabled(s, t, GiveUpUnlock);
    assert At(s, t).UnlockingSerial? ==> Enabled(s, t, UnlockSerial);
    assert At(s, t).UnlockNotifying? ==> Enabled(s, t, UnlockNotify);
    assert At(s, t).WaitCalled? && s.lock.None? ==> Enabled(s, t, LockSerial);
  }

  /** Blocked by readers: a writer asleep, or one queued behind it. */
  predicate HeldByReaders(s: State, t: Tid) {
    s.f.cont > 0 && (At(s, t).WaitParked? || At(s, t).WaitCalled?)
  }

  /**
   No deadlock and no lost wake-up: in every reachable state, a thread inside an operation is either
   waiting for readers that have still to leave, or some thread can take a step.
   */
  lemma SomebodyCanStep(r: seq<State>, es: seq<Event>, i: nat, t: Tid)
    requires IsRun(r, es) && r[0] == INIT && i < |r| && !At(r[i], t).Idle?
    ensures HeldByReaders(r[i], t) || exists u: Tid :: CanStep(r[i], u)
  {
    ReachableInv(r, es, i);
    var s := r[i];
    if s.mutex.Some? {
      assert HoldsMutex(At(s, s.mutex.value));
      MutexHolderCanStep(s, s.mutex.value);
    } else {
      assert !HoldsMutex(At(s, t));
      FreeMutexStep(s, t);
      if s.lock.Some? {
        assert HoldsLock(At(s, s.lock.value));
        assert !HoldsMutex(At(s, s.lock.value));
        FreeMutexStep(s, s.lock.value);
      }
      if u: Tid :| At(s, u).UnlockNotifying? {
        FreeMutexStep(s, u);
      }
    }
  }

  // ---------- The baton reaches its writer ----------

  /** How many steps of its own a waiting writer is away from the section, once nobody reads. */
  function Rank(pc: Pc): nat {
    match pc
    case WaitParked(_) => 3
    case WaitWoken(_) => 2
    case WaitExpired => 2
    case WaitTesting(_) => 1
    case WaitLastTest => 1
    case _ => 0
  }

  /** A step of the writer brings it closer, and no step of another thread sets it back. */
  lemma RankStep(s: State, t: Tid, a: Action, w: Tid)
    requires Inv(s) && Enabled(s, t, a) && Reserved(s, w)
    ensures var s' := Apply(s, t, a);
            if t == w then Rank(At(s', w)) < Rank(At(s, w)) else Rank(At(s', w)) <= Rank(At(s, w))
  {
  }

  function OwnSteps(es: seq<Event>, w: Tid, i: nat, j: nat): nat
    requires i <= j <= |es|
  {
    if i == j then 0 else OwnSteps(es, w, i, j - 1) + if es[j - 1].t == w then 1 else 0
  }

  ghost predicate Advances(s: State, t: Tid, s': State, w: Tid) {
    Reserved(s, w) ==>
      At(s', w).Section? || (Reserved(s', w) && Rank(At(s', w)) + (if t == w then 1 else 0) <= Rank(At(s, w)))
  }

  lemma StepAdvances(r: seq<State>, es: seq<Event>, k: nat, w: Tid)
    requires IsRun(r, es) && r[0] == INIT && k < |es|
    ensures Advances(r[k], es[k].t, r[k + 1], w)
  {
    if Reserved(r[k], w) {
      ReachableInv(r, es, k);
      BatonStep(r[k], es[k].t, es[k].a, w);
      RankStep(r[k], es[k].t, es[k].a, w);
    }
  }

  lemma {:induction false} AdvancesAlong(r: seq<State>, es: seq<Event>, i: nat, j: nat, w: Tid)
    requires i <= j <= |es| < |r| && Reserved(r[i], w)
    requires forall k :: i <= k < j ==> Advances(r[k], es[k].t, r[k + 1], w)
    ensures EntersBetween(r, w, i, j)
         || (Reserved(r[j], w) && Rank(At(r[j], w)) + OwnSteps(es, w, i, j) <= Rank(At(r[i], w)))
  {
    if i < j {
      AdvancesAlong(r, es, i, j - 1, w);
      var k := j - 1;
      assert Advances(r[k], es[k].t, r[k + 1], w);
      if EntersBetween(r, w, i, k) {
        var m :| i < m <= k && At(r[m], w).Section?;
      }
    }
  }

  /** The writer the baton is reserved for enters by its third own step at the latest, whatever the others do. */
  lemma OwnStepsReachSection(r: seq<State>, es: seq<Event>, i: nat, j: nat, w: Tid)
    requires IsRun(r, es) && r[0] == INIT && i <= j <= |es| && Reserved(r[i], w)
    requires OwnSteps(es, w, i, j) >= 3
    ensures EntersBetween(r, w, i, j)
  {
    forall k | i <= k < j
      ensures Advances(r[k], es[k].t, r[k + 1], w)
    {
      StepAdvances(r, es, k, w);
    }
    AdvancesAlong(r, es, i, j, w);
  }

  /** How many steps another thread keeps the mutex for. */
  function HolderRank(s: State, w: Tid): nat {
    if s.mutex.None? || s.mutex == Some(w) then 0 else if At(s, s.mutex.value).DecNotifying? then 2 else 1
  }

  function Distance(s: State, w: Tid): nat {
    Rank(At(s, w)) + HolderRank(s, w)
  }

  /** While the baton is reserved, who else may hold the mutex. */
  lemma HolderOf(s: State, w: Tid, u: Tid)
    requires Inv(s) && Reserved(s, w) && s.mutex == Some(u) && u != w
    ensures At(s, u).IncTesting? || At(s, u).DecNotifying? || At(s, u).DecLeaving?
  {
    assert HoldsMutex(At(s, u)) && HoldsLock(At(s, w));
    assert !HoldsLock(At(s, u));
    assert s.readers == multiset{};
  }

  lemma OnlyWaiter(s: State, w: Tid, u: Tid)
    requires Inv(s) && Waiting(At(s, w)) && Waiting(At(s, u))
    ensures u == w
  {
    assert HoldsLock(At(s, u)) && HoldsLock(At(s, w));
  }

  /** A step of the thread that holds the mutex, the writer itself if nobody does. */
  lemma NextStep(s: State, w: Tid) returns (t: Tid, a: Action)
    requires Inv(s) && Reserved(s, w)
    ensures Internal(a) && Enabled(s, t, a) && (t == w || s.mutex == Some(t))
    ensures t != w ==> At(s, t).IncTesting? || At(s, t).DecNotifying? || At(s, t).DecLeaving?
    ensures t == w ==> s.mutex.None? || s.mutex == Some(w)
    ensures At(s, t).DecNotifying? && At(s, w).WaitParked? ==> a == Notify(Some(w))
  {
    if s.mutex.Some? && s.mutex.value != w {
      t := s.mutex.value;
      HolderOf(s, w, t);
      if At(s, t).IncTesting? {
        a := TestHandoff;
      } else if At(s, t).DecLeaving? {
        a := LeaveDecUse;
      } else if At(s, w).WaitParked? {
        a := Notify(Some(w));
      } else {
        a := Notify(None);
        forall u | u in s.pcs && s.pcs[u].WaitParked?
          ensures u == w
        {
          OnlyWaiter(s, w, u);
        }
      }
    } else {
      t := w;
      assert s.mutex == Some(w) <==> HoldsMutex(At(s, w));
      a := if At(s, w).WaitTesting? then TestUnused else if At(s, w).WaitLastTest? then LastTest else LockMutex;
    }
  }

  lemma NextStepHelps(s: State, w: Tid, t: Tid, a: Action)
    requires Inv(s) && Reserved(s, w) && Enabled(s, t, a) && Internal(a) && (t == w || s.mutex == Some(t))
    requires t != w ==> At(s, t).IncTesting? || At(s, t).DecNotifying? || At(s, t).DecLeaving?
    requires t == w ==> s.mutex.None? || s.mutex == Some(w)
    requires At(s, t).DecNotifying? && At(s, w).WaitParked? ==> a == Notify(Some(w))
    ensures At(Apply(s, t, a), w).Section? || Distance(Apply(s, t, a), w) < Distance(s, w)
  {
    RankStep(s, t, a, w);
    assert HoldsMutex(At(s, t)) <==> s.mutex == Some(t);
  }

  lemma RunCons(s: State, e: Event, r: seq<State>, es: seq<Event>)
    requires IsRun(r, es) && Enabled(s, e.t, e.a) && r[0] == Apply(s, e.t, e.a)
    ensures IsRun([s] + r, [e] + es)
  {
    var r', es' := [s] + r, [e] + es;
    forall i | 0 <= i < |es'|
      ensures Enabled(r'[i], es'[i].t, es'[i].a) && r'[i + 1] == Apply(r'[i], es'[i].t, es'[i].a)
    {
      if i > 0 {
        assert r'[i] == r[i - 1] && es'[i] == es[i - 1] && r'[i + 1] == r[i];
      }
    }
  }

  /**
   The baton's writer is never stuck: it and whoever holds the mutex bring it into the section in at most five
   steps.
   */
  lemma {:induction false} WayIn(s: State, w: Tid) returns (r: seq<State>, es: seq<Event>)
    requires Inv(s) && Reserved(s, w)
    ensures IsRun(r, es) && r[0] == s && At(r[|es|], w).Section?
    ensures |es| <= Distance(s, w) <= 5
    ensures forall k :: 0 <= k < |es| ==> Internal(es[k].a) && (es[k].t == w || r[k].mutex == Some(es[k].t))
    decreases Distance(s, w)
  {
    var t, a := NextStep(s, w);
    var s' := Apply(s, t, a);
    NextStepHelps(s, w, t, a);
    var r', es' := [s'], [];
    if !At(s', w).Section? {
      BatonStep(s, t, a, w);
      InvKept(s, t, a);
      r', es' := WayIn(s', w);
    }
    RunCons(s, Event(t, a), r', es');
    r, es := [s] + r', [Event(t, a)] + es';
    assert r[|es|] == r'[|es'|];
    forall k | 0 <= k < |es|
      ensures Internal(es[k].a) && (es[k].t == w || r[k].mutex == Some(es[k].t))
    {
      if k > 0 {
        assert es[k] == es'[k - 1] && r[k] == r'[k - 1];
      }
    }
  }
}
