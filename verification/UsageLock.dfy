/**
 The readers/writer usage counter `Use`: two mutexes, two condition variables and
 three fields.  `Use` below is the code that runs between two synchronisation
 points; `State`, `Enabled` and `Apply` interleave that code over any number of
 threads, one atomic action at a time.
 */
module UsageLock {
  import opened Common

  type Tid = nat

  /** The fields of `Use` that its two mutexes protect. */
  datatype Fields = Fields(cont: int, writers: int, handoff: bool)

  function Counted(f: Fields): Fields {
    f.(cont := f.cont + 1)
  }

  function Uncounted(f: Fields): Fields {
    var cont := if f.cont > 0 then f.cont - 1 else f.cont;
    f.(cont := cont, handoff := if cont == 0 && f.writers > 0 then true else f.handoff)
  }

  function Announced(f: Fields): Fields {
    f.(writers := f.writers + 1)
  }

  /** A writer that stops waiting, whether it enters or gives up. */
  function Settled(f: Fields): Fields {
    f.(writers := f.writers - 1, handoff := false)
  }

  /** The object itself: each method is one stretch of code executed under `mutex`. */
  class Use {
    var cont: int
    var writers: int
    var handoff: bool

    function View(): Fields
      reads this
    {
      Fields(cont, writers, handoff)
    }

    constructor ()
      ensures View() == Fields(0, 0, false)
    {
      cont, writers, handoff := 0, 0, false;
    }

    /** IncUse from the test of its wait predicate on; false means it must sleep. */
    method TryIncUse() returns (entered: bool)
      modifies this
      ensures entered == !old(handoff)
      ensures View() == if entered then Counted(old(View())) else old(View())
    {
      entered := !handoff;
      if entered {
        cont := cont + 1;
      }
    }

    method DecUse()
      modifies this
      ensures View() == Uncounted(old(View()))
    {
      if cont > 0 {
        cont := cont - 1;
      }
      if cont == 0 && writers > 0 {
        handoff := true;
      }
    }

    method BeginWait()
      modifies this
      ensures View() == Announced(old(View()))
    {
      writers := writers + 1;
    }

    /** The wait predicate of WaitUnusedAndLock and what follows when it holds. */
    method TryEnter() returns (entered: bool)
      modifies this
      ensures entered == (old(cont) == 0)
      ensures View() == if entered then Settled(old(View())) else old(View())
    {
      entered := cont == 0;
      if entered {
        writers := writers - 1;
        handoff := false;
      }
    }

    method GiveUp()
      modifies this
      ensures View() == Settled(old(View()))
    {
      writers := writers - 1;
      handoff := false;
    }
  }

  /** Where a thread is inside the four operations. */
  datatype Pc =
    | Idle
    // IncUse
    | IncCalled | IncTesting | IncParked | IncWoken
    // DecUse
    | DecCalled | DecEntered | DecNotifying | DecLeaving
    // WaitUnusedAndLock, with or without a timeout
    | WaitCalled(timed: bool) | WaitSerialized(timed: bool) | WaitArriving(timed: bool)
    | WaitTesting(timed: bool) | WaitParked(timed: bool) | WaitWoken(timed: bool)
    | WaitExpired | WaitLastTest | GaveUpNotifying | GaveUpUnlocking
    // between WaitUnusedAndLock and Unlock, then the rest of Unlock
    | Section | UnlockingSerial | UnlockNotifying

  predicate HoldsMutex(pc: Pc) {
    pc.IncTesting? || pc.DecEntered? || pc.DecNotifying? || pc.DecLeaving? || pc.WaitArriving?
    || pc.WaitTesting? || pc.WaitLastTest? || pc.Section?
  }

  predicate InIncUse(pc: Pc) {
    pc.IncCalled? || pc.IncTesting? || pc.IncParked? || pc.IncWoken?
  }

  /** Counted in `writers`. */
  predicate Waiting(pc: Pc) {
    pc.WaitTesting? || pc.WaitParked? || pc.WaitWoken? || pc.WaitExpired? || pc.WaitLastTest?
  }

  predicate HoldsLock(pc: Pc) {
    Waiting(pc) || pc.WaitSerialized? || pc.WaitArriving? || pc.GaveUpNotifying? || pc.GaveUpUnlocking?
    || pc.Section? || pc.UnlockingSerial?
  }

  /** `readers` counts, per thread, the IncUse that no DecUse has matched yet. */
  datatype State = State(f: Fields, mutex: Option<Tid>, lock: Option<Tid>, pcs: map<Tid, Pc>, readers: multiset<Tid>)

  function At(s: State, t: Tid): Pc {
    if t in s.pcs then s.pcs[t] else Idle
  }

  const INIT := State(Fields(0, 0, false), None, None, map[], multiset{})

  /** The atomic actions, in the order the operations perform them. */
  datatype Action =
    | CallIncUse | CallDecUse | CallWait(timed: bool)
    | LockMutex                    // mutex.lock(), first time or on the way out of a wait
    | TestHandoff                  // IncUse: the wait predicate, then cont++ or sleep
    | Uncount                      // DecUse: cont--, handoff
    | Notify(woken: Option<Tid>)   // DecUse: cond.notify_one() and the sleeper it picks
    | LeaveDecUse                  // DecUse: the guard releases mutex
    | LockSerial                   // WaitUnusedAndLock: lock.lock()
    | Announce                     // WaitUnusedAndLock: writers++
    | TestUnused                   // WaitUnusedAndLock: the wait predicate, then enter or sleep
    | LastTest                     // timed variant, time is up: enter or give up
    | GiveUpNotify | GiveUpUnlock
    | UnlockMutex | UnlockSerial | UnlockNotify
    | WakeUp                       // spurious wake-up from a condition variable
    | Expire                       // the timed wait runs out

  /** Where a thread waiting for `mutex` continues once it has it. */
  predicate WantsMutex(pc: Pc) {
    pc.IncCalled? || pc.IncWoken? || pc.DecCalled? || pc.WaitSerialized? || pc.WaitWoken? || pc.WaitExpired?
  }

  function Granted(pc: Pc): Pc
    requires WantsMutex(pc)
  {
    match pc
    case DecCalled => DecEntered
    case WaitSerialized(timed) => WaitArriving(timed)
    case WaitWoken(timed) => WaitTesting(timed)
    case WaitExpired => WaitLastTest
    case _ => IncTesting
  }

  predicate Enabled(s: State, t: Tid, a: Action) {
    var pc := At(s, t);
    match a
    case CallIncUse => pc.Idle?
    case CallDecUse => pc.Idle? && s.readers[t] > 0
    case CallWait(_) => pc.Idle?
    case LockMutex => WantsMutex(pc) && s.mutex.None?
    case TestHandoff => pc.IncTesting?
    case Uncount => pc.DecEntered?
    case Notify(woken) =>
      && pc.DecNotifying?
      && (woken.Some? ==> At(s, woken.value).WaitParked?)
      && (woken.None? ==> forall w :: w in s.pcs ==> !s.pcs[w].WaitParked?)
    case LeaveDecUse => pc.DecLeaving?
    case LockSerial => pc.WaitCalled? && s.lock.None?
    case Announce => pc.WaitArriving?
    case TestUnused => pc.WaitTesting?
    case LastTest => pc.WaitLastTest?
    case GiveUpNotify => pc.GaveUpNotifying?
    case GiveUpUnlock => pc.GaveUpUnlocking?
    case UnlockMutex => pc.Section?
    case UnlockSerial => pc.UnlockingSerial?
    case UnlockNotify => pc.UnlockNotifying?
    case WakeUp => pc.IncParked? || pc.WaitParked?
    case Expire => pc == WaitParked(true)
  }

  function Go(s: State, t: Tid, pc: Pc): State {
    s.(pcs := s.pcs[t := pc])
  }

  function FreeMutex(s: State, t: Tid, pc: Pc): State {
    Go(s, t, pc).(mutex := None)
  }

  function DoLockMutex(s: State, t: Tid): State
    requires WantsMutex(At(s, t))
  {
    Go(s, t, Granted(At(s, t))).(mutex := Some(t))
  }

  function DoTestHandoff(s: State, t: Tid): State {
    if s.f.handoff then FreeMutex(s, t, IncParked)
    else FreeMutex(s, t, Idle).(f := Counted(s.f), readers := s.readers + multiset{t})
  }

  function DoUncount(s: State, t: Tid): State {
    Go(s, t, DecNotifying).(f := Uncounted(s.f), readers := s.readers - multiset{t})
  }

  function DoNotify(s: State, t: Tid, woken: Option<Tid>): State
    requires woken.Some? ==> At(s, woken.value).WaitParked?
  {
    match woken
    case None => Go(s, t, DecLeaving)
    case Some(w) => Go(Go(s, w, WaitWoken(At(s, w).timed)), t, DecLeaving)
  }

  function DoLockSerial(s: State, t: Tid): State
    requires At(s, t).WaitCalled?
  {
    Go(s, t, WaitSerialized(At(s, t).timed)).(lock := Some(t))
  }

  function DoAnnounce(s: State, t: Tid): State
    requires At(s, t).WaitArriving?
  {
    Go(s, t, WaitTesting(At(s, t).timed)).(f := Announced(s.f))
  }

  function DoTestUnused(s: State, t: Tid): State
    requires At(s, t).WaitTesting?
  {
    if s.f.cont == 0 then Go(s, t, Section).(f := Settled(s.f))
    else FreeMutex(s, t, WaitParked(At(s, t).timed))
  }

  function DoLastTest(s: State, t: Tid): State {
    if s.f.cont == 0 then Go(s, t, Section).(f := Settled(s.f))
    else FreeMutex(s, t, GaveUpNotifying).(f := Settled(s.f))
  }

  /** handoffCond.notify_all() by a thread that then continues at `pc`. */
  function NotifyAll(s: State, t: Tid, pc: Pc): State {
    s.(pcs := (map u | u in s.pcs :: if s.pcs[u].IncParked? then IncWoken else s.pcs[u])[t := pc])
  }

  function Apply(s: State, t: Tid, a: Action): State
    requires Enabled(s, t, a)
  {
    match a
    case CallIncUse => Go(s, t, IncCalled)
    case CallDecUse => Go(s, t, DecCalled)
    case CallWait(timed) => Go(s, t, WaitCalled(timed))
    case LockMutex => DoLockMutex(s, t)
    case TestHandoff => DoTestHandoff(s, t)
    case Uncount => DoUncount(s, t)
    case Notify(woken) => DoNotify(s, t, woken)
    case LeaveDecUse => FreeMutex(s, t, Idle)
    case LockSerial => DoLockSerial(s, t)
    case Announce => DoAnnounce(s, t)
    case TestUnused => DoTestUnused(s, t)
    case LastTest => DoLastTest(s, t)
    case GiveUpNotify => NotifyAll(s, t, GaveUpUnlocking)
    case GiveUpUnlock => Go(s, t, Idle).(lock := None)
    case UnlockMutex => FreeMutex(s, t, UnlockingSerial)
    case UnlockSerial => Go(s, t, UnlockNotifying).(lock := None)
    case UnlockNotify => NotifyAll(s, t, Idle)
    case WakeUp => Go(s, t, if At(s, t).IncParked? then IncWoken else WaitWoken(At(s, t).timed))
    case Expire => Go(s, t, WaitExpired)
  }

  datatype Event = Event(t: Tid, a: Action)

  /** `r` is the sequence of states a run goes through, `es` what happened between them. */
  ghost predicate IsRun(r: seq<State>, es: seq<Event>) {
    && |r| == |es| + 1
    && forall i :: 0 <= i < |es| ==> Enabled(r[i], es[i].t, es[i].a) && r[i + 1] == Apply(r[i], es[i].t, es[i].a)
  }

  ghost predicate Owners(s: State) {
    && (forall t: Tid :: HoldsMutex(At(s, t)) <==> s.mutex == Some(t))
    && (forall t: Tid :: HoldsLock(At(s, t)) <==> s.lock == Some(t))
  }

  ghost predicate Counts(s: State) {
    && s.f.cont == |s.readers|
    && s.f.writers == (if s.lock.Some? && Waiting(At(s, s.lock.value)) then 1 else 0)
    && (forall t: Tid :: At(s, t).DecCalled? || At(s, t).DecEntered? ==> s.readers[t] > 0)
    && (forall t: Tid :: At(s, t).IncParked? || At(s, t).IncWoken? ==> s.readers[t] == 0)
  }

  /** The baton: reserved only at count zero, and then for the one waiting writer. */
  ghost predicate Baton(s: State) {
    && (s.f.handoff ==> s.f.cont == 0 && s.f.writers == 1)
    && (s.f.cont == 0 && s.f.writers == 1 && !s.f.handoff ==> s.mutex == s.lock)
    && (s.lock.Some? && At(s, s.lock.value).Section? ==> s.f.cont == 0)
  }

  /** An Unlock whose notify_all is still to come. */
  ghost predicate OwesNotify(s: State) {
    || (s.lock.Some? && (At(s, s.lock.value).Section? || At(s, s.lock.value).UnlockingSerial?))
    || exists u: Tid :: At(s, u).UnlockNotifying?
  }

  ghost predicate NoLostWakeUp(s: State) {
    && (forall t: Tid :: At(s, t).IncParked? ==> s.f.handoff || OwesNotify(s))
    && (forall t: Tid :: At(s, t).WaitParked? ==>
          s.f.cont > 0 || (s.mutex.Some? && At(s, s.mutex.value).DecNotifying?))
  }

  ghost predicate Inv(s: State) {
    Owners(s) && Counts(s) && Baton(s) && NoLostWakeUp(s)
  }
}
