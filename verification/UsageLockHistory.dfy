/** What the operations of the usage lock amount to, told by the calls that were made. */
module UsageLockHistory {
  import opened Common
  import opened UsageLock
  import opened UsageLockProofs

  predicate IsCall(a: Action) {
    a.CallIncUse? || a.CallDecUse? || a.CallWait?
  }

  /** Thread `w` makes no call between events `i` and `j`. */
  ghost predicate NoCall(es: seq<Event>, w: Tid, i: nat, j: nat)
    requires j <= |es|
  {
    forall k :: i <= k < j && es[k].t == w ==> !IsCall(es[k].a)
  }

  /** Nothing keeps an idle thread from calling, a reader from leaving, or a sleeper from waking up by itself. */
  lemma CallsAllowed(s: State, t: Tid)
    ensures At(s, t).Idle? ==> Enabled(s, t, CallIncUse)
    ensures At(s, t).Idle? ==> Enabled(s, t, CallWait(true)) && Enabled(s, t, CallWait(false))
    ensures At(s, t).Idle? && t in s.readers ==> Enabled(s, t, CallDecUse)
    ensures At(s, t).IncParked? || At(s, t).WaitParked? ==> Enabled(s, t, WakeUp)
    ensures At(s, t) == WaitParked(true) ==> Enabled(s, t, Expire)
  {
  }

  // ---------- DecUse without IncUse ----------

  /** The code of IncUse and DecUse on the fields, whoever calls it. */
  datatype Touch = Inc | Dec

  function Used(f: Fields, uses: seq<Touch>): Fields {
    if uses == [] then f
    else
      var f1 := Used(f, uses[..|uses| - 1]);
      if uses[|uses| - 1].Inc? then Counted(f1) else Uncounted(f1)
  }

  /** Calls of DecUse that nothing is left to match. */
  function Unmatched(uses: seq<Touch>): nat {
    if uses == [] then 0
    else
      var init := uses[..|uses| - 1];
      Unmatched(init) + if uses[|uses| - 1].Dec? && Balance(init) + Unmatched(init) == 0 then 1 else 0
  }

  function Balance(uses: seq<Touch>): int {
    if uses == [] then 0 else Balance(uses[..|uses| - 1]) + if uses[|uses| - 1].Inc? then 1 else -1
  }

  /** Whatever the calls, the count never goes below zero: a DecUse that nothing matches is not counted. */
  lemma {:induction false} CountNeverNegative(uses: seq<Touch>)
    ensures Used(Fields(0, 0, false), uses).cont == Balance(uses) + Unmatched(uses) >= 0
  {
    if uses != [] {
      CountNeverNegative(uses[..|uses| - 1]);
    }
  }

  // ---------- What one step does to its own thread ----------

  /** What a thread is about: IncUse; DecUse, before and after it is taken out of the count; a wait; Unlock. */
  datatype Errand = Outside | Adding | Removing | Removed | Hoping(timed: bool) | TimedOut | Within | Unlocking

  function ErrandOf(pc: Pc): Errand {
    match pc
    case Idle => Outside
    case IncCalled => Adding
    case IncTesting => Adding
    case IncParked => Adding
    case IncWoken => Adding
    case DecCalled => Removing
    case DecEntered => Removing
    case DecNotifying => Removed
    case DecLeaving => Removed
    case WaitCalled(timed) => Hoping(timed)
    case WaitSerialized(timed) => Hoping(timed)
    case WaitArriving(timed) => Hoping(timed)
    case WaitTesting(timed) => Hoping(timed)
    case WaitParked(timed) => Hoping(timed)
    case WaitWoken(timed) => Hoping(timed)
    case WaitExpired => TimedOut
    case WaitLastTest => TimedOut
    case GaveUpNotifying => TimedOut
    case GaveUpUnlocking => TimedOut
    case Section => Within
    case UnlockingSerial => Unlocking
    case UnlockNotifying => Unlocking
  }

  predicate Begins(a: Action, g': Errand) {
    match a
    case CallIncUse => g' == Adding
    case CallDecUse => g' == Removing
    case CallWait(timed) => g' == Hoping(timed)
    case _ => false
  }

  /** How an action takes its thread from `g` to `g'`, and its share of the count from `n` to `n'`. */
  predicate Goes(g: Errand, a: Action, g': Errand, n: int, n': int) {
    match g
    case Outside => Begins(a, g') && n' == n
    case Adding => !IsCall(a) && ((g' == g && n' == n) || (g' == Outside && n' == n + 1))
    case Removing => !IsCall(a) && ((g' == g && n' == n) || (g' == Removed && n' == n - 1))
    case Removed => !IsCall(a) && n' == n && (g' == g || g' == Outside)
    case Hoping(timed) =>
      !IsCall(a) && n' == n && (g' == g || g' == Within || (timed && a.Expire? && g' == TimedOut))
    case TimedOut => !IsCall(a) && n' == n && (g' == g || g' == Within || g' == Outside)
    case Within => !IsCall(a) && n' == n && g' == Unlocking
    case Unlocking => !IsCall(a) && n' == n && (g' == g || g' == Outside)
  }

  ghost predicate OwnGoes(s: State, a: Action, w: Tid)
    requires Enabled(s, w, a)
  {
    var s' := Apply(s, w, a);
    Goes(ErrandOf(At(s, w)), a, ErrandOf(At(s', w)), s.readers[w], s'.readers[w])
  }

  lemma AddingGoes(s: State, a: Action, w: Tid)
    requires Enabled(s, w, a) && (ErrandOf(At(s, w)).Outside? || ErrandOf(At(s, w)).Adding?)
    ensures OwnGoes(s, a, w)
  {
  }

  lemma RemovingGoes(s: State, a: Action, w: Tid)
    requires Enabled(s, w, a) && ErrandOf(At(s, w)).Removing? && w in s.readers
    ensures OwnGoes(s, a, w)
  {
  }

  lemma RemovedGoes(s: State, a: Action, w: Tid)
    requires Enabled(s, w, a) && ErrandOf(At(s, w)).Removed?
    ensures OwnGoes(s, a, w)
  {
  }

  lemma HopingGoes(s: State, a: Action, w: Tid)
    requires Enabled(s, w, a) && ErrandOf(At(s, w)).Hoping?
    ensures OwnGoes(s, a, w)
  {
  }

  lemma LeavingGoes(s: State, a: Action, w: Tid)
    requires Enabled(s, w, a)
    requires ErrandOf(At(s, w)).TimedOut? || ErrandOf(At(s, w)).Within? || ErrandOf(At(s, w)).Unlocking?
    ensures OwnGoes(s, a, w)
  {
  }

  /** What an event may do to any thread. */
  predicate Seen(g: Errand, e: Event, g': Errand, n: int, n': int, w: Tid) {
    if e.t == w then Goes(g, e.a, g', n, n') else g' == g && n' == n
  }

  lemma OtherSeen(s: State, t: Tid, a: Action, w: Tid)
    requires Inv(s) && Enabled(s, t, a) && t != w
    ensures ErrandOf(At(Apply(s, t, a), w)) == ErrandOf(At(s, w)) && Apply(s, t, a).readers[w] == s.readers[w]
  {
    ActionMoves(s, t, a);
    MoveSeen(s, t, Apply(s, t, a), w);
  }

  lemma MoveSeen(s: State, t: Tid, s': State, w: Tid)
    requires Moves(s, t, s') && t != w
    ensures ErrandOf(At(s', w)) == ErrandOf(At(s, w)) && s'.readers[w] == s.readers[w]
  {
    assert Disturbed(At(s, w), At(s', w));
  }

  lemma StepSeen(s: State, e: Event, w: Tid)
    requires Inv(s) && Enabled(s, e.t, e.a)
    ensures var s' := Apply(s, e.t, e.a);
            Seen(ErrandOf(At(s, w)), e, ErrandOf(At(s', w)), s.readers[w], s'.readers[w], w)
  {
    var g := ErrandOf(At(s, w));
    if e.t != w {
      OtherSeen(s, e.t, e.a, w);
    } else if g.Outside? || g.Adding? {
      AddingGoes(s, e.a, w);
    } else if g.Removing? {
      RemovingGoes(s, e.a, w);
    } else if g.Removed? {
      RemovedGoes(s, e.a, w);
    } else if g.Hoping? {
      HopingGoes(s, e.a, w);
    } else {
      LeavingGoes(s, e.a, w);
    }
  }

  function ErrandAt(r: seq<State>, k: nat, w: Tid): Errand
    requires k < |r|
  {
    ErrandOf(At(r[k], w))
  }

  lemma EventSeen(r: seq<State>, es: seq<Event>, k: nat, w: Tid)
    requires IsRun(r, es) && r[0] == INIT && k < |es|
    ensures Seen(ErrandAt(r, k, w), es[k], ErrandAt(r, k + 1, w), r[k].readers[w], r[k + 1].readers[w], w)
  {
    ReachableInv(r, es, k);
    StepSeen(r[k], es[k], w);
  }

  // ---------- A wait without a timeout ----------

  predicate HopesOn(g: Errand, g': Errand) {
    g == Hoping(false) ==> g' == Hoping(false) || g' == Within
  }

  lemma {:induction false} UntimedWaits(gs: seq<Errand>, i: nat, j: nat)
    requires i <= j < |gs| && (gs[i] == Hoping(false) || gs[i] == Within)
    requires forall k :: i <= k < j ==> HopesOn(gs[k], gs[k + 1])
    ensures gs[j] == Hoping(false) || exists k :: i <= k <= j && gs[k] == Within
  {
    if i < j {
      UntimedWaits(gs, i, j - 1);
      assert HopesOn(gs[j - 1], gs[j - 1 + 1]);
    }
  }

  /** WaitUnusedAndLock without a timeout is over only after its caller had the section. */
  lemma UntimedHolds(r: seq<State>, es: seq<Event>, i: nat, j: nat, w: Tid)
    requires IsRun(r, es) && r[0] == INIT && i < j < |r| && es[i] == Event(w, CallWait(false)) && At(r[j], w).Idle?
    ensures EntersBetween(r, w, i, j)
  {
    var gs := seq(|r|, k requires 0 <= k < |r| => ErrandAt(r, k, w));
    forall k | i < k < j
      ensures HopesOn(gs[k], gs[k + 1])
    {
      EventHopes(r, es, k, w);
    }
    EventHopes(r, es, i, w);
    UntimedWaits(gs, i + 1, j);
    var k :| i < k <= j && gs[k] == Within;
    assert At(r[k], w).Section?;
  }

  lemma EventHopes(r: seq<State>, es: seq<Event>, k: nat, w: Tid)
    requires IsRun(r, es) && r[0] == INIT && k < |es|
    ensures HopesOn(ErrandAt(r, k, w), ErrandAt(r, k + 1, w))
    ensures es[k] == Event(w, CallWait(false)) ==> ErrandAt(r, k + 1, w) == Hoping(false)
  {
    EventSeen(r, es, k, w);
    if es[k] == Event(w, CallWait(false)) {
      assert At(r[k], w).Idle?;
    }
  }

  // ---------- Giving up ----------

  /** What is on only by a start, and goes on only without a call, started after the last call. */
  lemma {:induction false} Origin(on: seq<bool>, starts: seq<bool>, es: seq<Event>, w: Tid, j: nat) returns (i: nat)
    requires |on| == |es| + 1 == |starts| + 1 && !on[0] && j < |on| && on[j]
    requires forall k :: 0 <= k < |es| && on[k + 1] ==> starts[k] || (on[k] && (es[k].t == w ==> !IsCall(es[k].a)))
    ensures i < j && starts[i] && NoCall(es, w, i + 1, j)
  {
    if starts[j - 1] {
      i := j - 1;
    } else {
      i := Origin(on, starts, es, w, j - 1);
    }
  }

  lemma TimedCall(r: seq<State>, es: seq<Event>, j: nat, w: Tid) returns (i: nat)
    requires IsRun(r, es) && r[0] == INIT && j < |r| && ErrandAt(r, j, w) == Hoping(true)
    ensures i < j && es[i] == Event(w, CallWait(true)) && NoCall(es, w, i + 1, j)
  {
    var on := seq(|r|, k requires 0 <= k < |r| => ErrandAt(r, k, w) == Hoping(true));
    var starts := seq(|es|, k requires 0 <= k < |es| => es[k] == Event(w, CallWait(true)));
    forall k | 0 <= k < |es| && on[k + 1]
      ensures starts[k] || (on[k] && (es[k].t == w ==> !IsCall(es[k].a)))
    {
      EventSeen(r, es, k, w);
    }
    i := Origin(on, starts, es, w, j);
  }

  lemma Expiry(r: seq<State>, es: seq<Event>, j: nat, w: Tid) returns (m: nat)
    requires IsRun(r, es) && r[0] == INIT && j < |r| && ErrandAt(r, j, w) == TimedOut
    ensures m < j && es[m] == Event(w, Expire) && ErrandAt(r, m, w) == Hoping(true) && NoCall(es, w, m + 1, j)
  {
    var on := seq(|r|, k requires 0 <= k < |r| => ErrandAt(r, k, w) == TimedOut);
    var starts := seq(|es|, k requires 0 <= k < |es| => es[k] == Event(w, Expire) && ErrandAt(r, k, w) == Hoping(true));
    forall k | 0 <= k < |es| && on[k + 1]
      ensures starts[k] || (on[k] && (es[k].t == w ==> !IsCall(es[k].a)))
    {
      EventSeen(r, es, k, w);
    }
    m := Origin(on, starts, es, w, j);
  }

  /** A writer gives up only after its own timeout, and only if it called with one. */
  lemma GivesUpExpired(r: seq<State>, es: seq<Event>, j: nat, w: Tid) returns (i: nat, m: nat)
    requires IsRun(r, es) && r[0] == INIT && j < |r| && At(r[j], w).GaveUpNotifying?
    ensures i < m < j && es[i] == Event(w, CallWait(true)) && es[m] == Event(w, Expire) && NoCall(es, w, i + 1, j)
  {
    m := Expiry(r, es, j, w);
    i := TimedCall(r, es, m, w);
  }

  // ---------- Uses add up ----------

  function Made(e: Event, t: Tid, a: Action): nat {
    if e == Event(t, a) then 1 else 0
  }

  /** How often thread `t` took action `a` among the first `n` events. */
  function Times(es: seq<Event>, t: Tid, a: Action, n: nat): nat
    requires n <= |es|
  {
    if n == 0 then 0 else Times(es, t, a, n - 1) + Made(es[n - 1], t, a)
  }

  /** A call under way counts differently: IncUse not yet, DecUse still. */
  function Pending(g: Errand): int {
    if g == Adding then -1 else if g == Removing then 1 else 0
  }

  lemma UsesSeen(g: Errand, e: Event, g': Errand, n: int, n': int, t: Tid)
    requires Seen(g, e, g', n, n', t)
    ensures n' - Pending(g') == n - Pending(g) + Made(e, t, CallIncUse) - Made(e, t, CallDecUse)
  {
  }

  lemma {:induction false} UsesAlong(settled: seq<int>, es: seq<Event>, n: nat, t: Tid)
    requires |settled| == |es| + 1 && settled[0] == 0 && n <= |es|
    requires forall k :: 0 <= k < |es| ==>
               settled[k + 1] == settled[k] + Made(es[k], t, CallIncUse) - Made(es[k], t, CallDecUse)
    ensures settled[n] == Times(es, t, CallIncUse, n) - Times(es, t, CallDecUse, n)
  {
    if n > 0 {
      UsesAlong(settled, es, n - 1, t);
    }
  }

  /** The share of a thread in the count, without what a call under way still changes. */
  function Settled(r: seq<State>, k: nat, t: Tid): int
    requires k < |r|
  {
    var n: int := r[k].readers[t];
    n - Pending(ErrandAt(r, k, t))
  }

  /** In every run each thread is counted as often as it called IncUse and has not called DecUse since. */
  lemma UsesAddUp(r: seq<State>, es: seq<Event>, n: nat, t: Tid)
    requires IsRun(r, es) && r[0] == INIT && n < |r|
    ensures Settled(r, n, t) == Times(es, t, CallIncUse, n) - Times(es, t, CallDecUse, n)
    ensures At(r[n], t).Idle? ==> r[n].readers[t] == Times(es, t, CallIncUse, n) - Times(es, t, CallDecUse, n)
  {
    var settled := seq(|r|, k requires 0 <= k < |r| => Settled(r, k, t));
    forall k | 0 <= k < |es|
      ensures settled[k + 1] == settled[k] + Made(es[k], t, CallIncUse) - Made(es[k], t, CallDecUse)
    {
      EventSeen(r, es, k, t);
      UsesSeen(ErrandAt(r, k, t), es[k], ErrandAt(r, k + 1, t), r[k].readers[t], r[k + 1].readers[t], t);
    }
    UsesAlong(settled, es, n, t);
  }
}
