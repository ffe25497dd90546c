/** `RembThrottler`: when to tell the peer how much it may send, and what to tell it. */
module RembThrottler {
  import opened Common

  /** What deserves an announcement, per feedback dialect; zero disables the period or the step. */
  datatype Policy = Policy(raiseIntervalMs: nat, raiseStepPercent: Dword, dropThresholdPercent: Dword)

  const REMB := Policy(200, 0, 103)
  const TMMBR := Policy(0, 20, 110)
  const NO_LIMIT: Dword := 0xFFFF_FFFF
  const PEER_OVER_LIMIT_PERCENT := 105

  datatype Throttle = Throttle(lastSent: Dword, lastAnnounced: Dword, lastSendTime: nat, hasSent: bool,
                               maxBitrate: Dword, peerBitrate: Dword)

  const NEW := Throttle(NO_LIMIT, NO_LIMIT, 0, false, NO_LIMIT, 0)

  function Compose(t: Throttle, bitrate: Dword): Dword {
    if bitrate < t.maxBitrate then bitrate else t.maxBitrate
  }

  predicate RaiseIsInformative(t: Throttle) {
    t.peerBitrate == 0 || t.lastAnnounced == NO_LIMIT
    || t.peerBitrate * 100 <= t.lastAnnounced * PEER_OVER_LIMIT_PERCENT
  }

  /** A frank drop from `last` to `value`. */
  predicate IsDrop(p: Policy, value: Dword, last: Dword) {
    value * p.dropThresholdPercent / 100 <= last
  }

  /** A frank raise from `last` to `value`, if the dialect knows steps. */
  predicate IsStep(p: Policy, value: Dword, last: Dword) {
    p.raiseStepPercent != 0 && value * 100 >= last * (100 + p.raiseStepPercent)
  }

  predicate PeriodOver(p: Policy, t: Throttle, now: nat) {
    p.raiseIntervalMs != 0 && now >= t.lastSendTime + p.raiseIntervalMs
  }

  predicate Deserves(p: Policy, t: Throttle, value: Dword, last: Dword, urgent: bool, now: nat) {
    || (urgent && IsDrop(p, value, last))
    || (IsStep(p, value, last) && RaiseIsInformative(t))
    || PeriodOver(p, t, now)
  }

  /** The local measure changed: the new state, and the value to announce if any. */
  function Estimated(p: Policy, t: Throttle, bitrate: Dword, now: nat, congestion: bool): (Throttle, Option<Dword>) {
    var out := Compose(t, bitrate);
    if t.hasSent && !Deserves(p, t, bitrate, t.lastSent, congestion, now) then (t, None)
    else if t.hasSent && p.raiseIntervalMs == 0 && out == t.lastAnnounced then (t.(lastSent := bitrate), None)
    else (t.(lastSent := bitrate, lastSendTime := now, hasSent := true, lastAnnounced := out), Some(out))
  }

  /** A ceiling imposed from elsewhere. */
  function Capped(p: Policy, t: Throttle, bitrate: Dword, now: nat): (Throttle, Option<Dword>) {
    var t1 := t.(maxBitrate := bitrate);
    var out := Compose(t1, t.lastSent);
    if t.hasSent && !Deserves(p, t1, out, t.lastAnnounced, true, now) then (t1, None)
    else (t1.(lastSendTime := now, hasSent := true, lastAnnounced := out), Some(out))
  }

  class RembThrottler {
    var policy: Policy
    var lastSent: Dword
    var lastAnnounced: Dword
    var lastSendTime: nat
    var hasSent: bool
    var maxBitrate: Dword
    var peerBitrate: Dword

    function View(): Throttle
      reads this
    {
      Throttle(lastSent, lastAnnounced, lastSendTime, hasSent, maxBitrate, peerBitrate)
    }

    constructor ()
      ensures View() == NEW && policy == REMB
    {
      policy := REMB;
      lastSent, lastAnnounced, lastSendTime := NO_LIMIT, NO_LIMIT, 0;
      hasSent, maxBitrate, peerBitrate := false, NO_LIMIT, 0;
    }

    method SetPolicy(p: Policy)
      modifies this`policy
      ensures policy == p
    {
      policy := p;
    }

    method Reset()
      modifies this
      ensures View() == NEW && policy == old(policy)
    {
      lastSent, lastAnnounced, lastSendTime := NO_LIMIT, NO_LIMIT, 0;
      hasSent, maxBitrate, peerBitrate := false, NO_LIMIT, 0;
    }

    method SetPeerBitrate(bitrate: Dword)
      modifies this`peerBitrate
      ensures View() == old(View()).(peerBitrate := bitrate)
    {
      peerBitrate := bitrate;
    }

    method OnEstimateChanged(bitrate: Dword, now: nat, congestion: bool) returns (out: Option<Dword>)
      modifies this
      ensures (View(), out) == Estimated(policy, old(View()), bitrate, now, congestion) && policy == old(policy)
    {
      if hasSent {
        var drop := congestion && bitrate * policy.dropThresholdPercent / 100 <= lastSent;
        var step := policy.raiseStepPercent != 0 && bitrate * 100 >= lastSent * (100 + policy.raiseStepPercent)
          && RaiseIsInformative(View());
        var period := policy.raiseIntervalMs != 0 && now >= lastSendTime + policy.raiseIntervalMs;
        if !drop && !step && !period {
          return None;
        }
      }
      var value := Compose(View(), bitrate);
      if hasSent && policy.raiseIntervalMs == 0 && value == lastAnnounced {
        lastSent := bitrate;
        return None;
      }
      lastSent := bitrate;
      lastSendTime := now;
      hasSent := true;
      lastAnnounced := value;
      return Some(value);
    }

    method SetMaxBitrate(bitrate: Dword, now: nat) returns (out: Option<Dword>)
      modifies this
      ensures (View(), out) == Capped(policy, old(View()), bitrate, now) && policy == old(policy)
    {
      maxBitrate := bitrate;
      var announce := Compose(View(), lastSent);
      if hasSent {
        var drop := announce * policy.dropThresholdPercent / 100 <= lastAnnounced;
        var step := policy.raiseStepPercent != 0 && announce * 100 >= lastAnnounced * (100 + policy.raiseStepPercent)
          && RaiseIsInformative(View());
        var period := policy.raiseIntervalMs != 0 && now >= lastSendTime + policy.raiseIntervalMs;
        if !drop && !step && !period {
          return None;
        }
      }
      lastSendTime := now;
      hasSent := true;
      lastAnnounced := announce;
      return Some(announce);
    }
  }

  // ---------- Runs ----------

  datatype Input =
    | Estimate(bitrate: Dword, now: nat, congestion: bool)
    | Cap(bitrate: Dword, now: nat)
    | Peer(bitrate: Dword)
    | Reset

  function Step(p: Policy, t: Throttle, i: Input): (Throttle, Option<Dword>) {
    match i
    case Estimate(bitrate, now, congestion) => Estimated(p, t, bitrate, now, congestion)
    case Cap(bitrate, now) => Capped(p, t, bitrate, now)
    case Peer(bitrate) => (t.(peerBitrate := bitrate), None)
    case Reset => (NEW, None)
  }

  function After(p: Policy, ins: seq<Input>): Throttle {
    if ins == [] then NEW else Step(p, After(p, ins[..|ins| - 1]), ins[|ins| - 1]).0
  }

  /** What input `n` of a run makes the throttle announce. */
  function Announced(p: Policy, ins: seq<Input>, n: nat): Option<Dword>
    requires n < |ins|
  {
    Step(p, After(p, ins[..n]), ins[n]).1
  }

  /** The announced ceiling is never far above the limit in force. */
  predicate CloseToLimit(p: Policy, t: Throttle) {
    t.hasSent ==> t.lastAnnounced <= Compose(t, t.lastSent) * p.dropThresholdPercent / 100
  }

  lemma AtLeast(x: Dword, percent: Dword)
    requires percent >= 100
    ensures x <= x * percent / 100
  {
    assert x * percent >= x * 100;
  }

  lemma StepStaysClose(p: Policy, t: Throttle, i: Input)
    requires p.dropThresholdPercent >= 100 && CloseToLimit(p, t)
    ensures CloseToLimit(p, Step(p, t, i).0)
  {
    var t' := Step(p, t, i).0;
    AtLeast(Compose(t', t'.lastSent), p.dropThresholdPercent);
  }

  /**
   Whatever estimates, caps, suppressions, peer rates and resets come, the last announcement stays within the
   drop threshold of the true limit.
   */
  lemma {:induction false} AnnouncedStaysClose(p: Policy, ins: seq<Input>)
    requires p.dropThresholdPercent >= 100
    ensures CloseToLimit(p, After(p, ins))
  {
    if ins != [] {
      AnnouncedStaysClose(p, ins[..|ins| - 1]);
      StepStaysClose(p, After(p, ins[..|ins| - 1]), ins[|ins| - 1]);
    }
  }

  /** No announcement and no reset strictly between inputs `m` and `n`. */
  ghost predicate Silent(p: Policy, ins: seq<Input>, m: nat, n: nat)
    requires m < n <= |ins|
  {
    forall k :: m < k < n ==> Announced(p, ins, k).None? && !ins[k].Reset?
  }

  predicate Timed(i: Input) {
    i.Estimate? || i.Cap?
  }

  /**
   After a reset the next estimate or cap is announced whatever it is, so that nothing announced before holds
   it back.
   */
  lemma ResetAnnouncesNext(p: Policy, t: Throttle, i: Input)
    requires Timed(i)
    ensures Step(p, Step(p, t, Reset).0, i).1 == Some(i.bitrate)
  {
  }

  /** Between two announcements the throttle remembers the first, and when it was made. */
  lemma {:induction false} Remembered(p: Policy, ins: seq<Input>, m: nat, n: nat)
    requires m < n <= |ins| && Announced(p, ins, m).Some? && Silent(p, ins, m, n)
    ensures var t := After(p, ins[..n]);
            t.hasSent && t.lastAnnounced == Announced(p, ins, m).value && Timed(ins[m]) && t.lastSendTime == ins[m].now
    decreases n
  {
    var k := n - 1;
    AfterStep(p, ins, k);
    StepRemembers(p, After(p, ins[..k]), ins[k]);
    if k > m {
      Remembered(p, ins, m, k);
      assert Announced(p, ins, k).None? && !ins[k].Reset?;
    }
  }

  lemma AfterStep(p: Policy, ins: seq<Input>, k: nat)
    requires k < |ins|
    ensures After(p, ins[..k + 1]) == Step(p, After(p, ins[..k]), ins[k]).0
    ensures Announced(p, ins, k) == Step(p, After(p, ins[..k]), ins[k]).1
  {
    assert ins[..k + 1][..k] == ins[..k];
  }

  lemma StepRemembers(p: Policy, t: Throttle, i: Input)
    ensures var (t', out) := Step(p, t, i);
            match out
            case Some(v) => t'.hasSent && t'.lastAnnounced == v && Timed(i) && t'.lastSendTime == i.now
            case None =>
              || i.Reset?
              || (t'.hasSent == t.hasSent && t'.lastAnnounced == t.lastAnnounced && t'.lastSendTime == t.lastSendTime)
  {
  }

  /** Sticky dialect: repeating the value just announced is never announced again, except below 10 bps. */
  lemma TmmbrRepeats(t: Throttle, i: Input)
    requires t.hasSent && Step(TMMBR, t, i).1 == Some(t.lastAnnounced)
    ensures i.Cap? && t.lastAnnounced < 10
  {
  }

  /** The exception is real: a cap that composes to what was announced is announced again exactly below 10 bps. */
  lemma TmmbrRepeatsExactly(t: Throttle, bitrate: Dword, now: nat)
    requires t.hasSent && Compose(t.(maxBitrate := bitrate), t.lastSent) == t.lastAnnounced
    ensures Capped(TMMBR, t, bitrate, now).1 == if t.lastAnnounced < 10 then Some(t.lastAnnounced) else None
  {
  }

  /** Such a value is reached: a cap of 9 bps is announced each time it comes. */
  lemma TmmbrRepeatsNine(ins: seq<Input>)
    requires ins == [Cap(9, 0), Cap(9, 1)]
    ensures Announced(TMMBR, ins, 0) == Some(9) == Announced(TMMBR, ins, 1)
  {
    assert ins[..0] == [] && ins[..1] == [Cap(9, 0)];
    assert [Cap(9, 0)][..0] == [];
  }

  lemma TmmbrNeverRepeats(ins: seq<Input>, m: nat, n: nat)
    requires m < n < |ins| && Announced(TMMBR, ins, m).Some? && Announced(TMMBR, ins, n).Some?
             && Silent(TMMBR, ins, m, n)
    ensures Announced(TMMBR, ins, m) != Announced(TMMBR, ins, n) || (ins[n].Cap? && Announced(TMMBR, ins, n).value < 10)
  {
    Remembered(TMMBR, ins, m, n);
    if Announced(TMMBR, ins, m) == Announced(TMMBR, ins, n) {
      TmmbrRepeats(After(TMMBR, ins[..n]), ins[n]);
    }
  }

  /** The input reports a frank drop against what the throttle compares it with. */
  predicate ReportsDrop(p: Policy, t: Throttle, i: Input) {
    match i
    case Estimate(bitrate, _, congestion) => congestion && IsDrop(p, bitrate, t.lastSent)
    case Cap(bitrate, _) => IsDrop(p, Compose(t.(maxBitrate := bitrate), t.lastSent), t.lastAnnounced)
    case _ => false
  }

  /** Periodic dialect: two consecutive announcements less than 200 ms apart mean that the second one is a drop. */
  lemma RembRateLimited(ins: seq<Input>, m: nat, n: nat)
    requires m < n < |ins| && Announced(REMB, ins, m).Some? && Announced(REMB, ins, n).Some? && Silent(REMB, ins, m, n)
    requires Timed(ins[m]) && Timed(ins[n]) && ins[n].now < ins[m].now + 200
    ensures ReportsDrop(REMB, After(REMB, ins[..n]), ins[n])
  {
    Remembered(REMB, ins, m, n);
  }

  // ---------- Redelivery ----------

  /** Announcements among the inputs from `m` on. */
  function Announcements(p: Policy, t: Throttle, ins: seq<Input>): nat
    decreases |ins|
  {
    if ins == [] then 0
    else (if Step(p, t, ins[0]).1.Some? then 1 else 0) + Announcements(p, Step(p, t, ins[0]).0, ins[1..])
  }

  /** Nothing but peer rates and the same cap again. */
  ghost predicate SameCap(ins: seq<Input>, bitrate: Dword) {
    forall k :: 0 <= k < |ins| ==> ins[k].Peer? || (ins[k].Cap? && ins[k].bitrate == bitrate)
  }

  lemma {:induction false} CapSettled(t: Throttle, ins: seq<Input>, bitrate: Dword)
    requires SameCap(ins, bitrate) && t.hasSent
             && t.lastAnnounced == Compose(t.(maxBitrate := bitrate), t.lastSent) >= 10
    ensures Announcements(TMMBR, t, ins) == 0
    decreases |ins|
  {
    if ins != [] {
      CapSettled(Step(TMMBR, t, ins[0]).0, ins[1..], bitrate);
    }
  }

  /** However often the same cap is redelivered, and whatever the peer sends meanwhile, it is announced at most once. */
  lemma {:induction false} CapAnnouncedOnce(t: Throttle, ins: seq<Input>, bitrate: Dword)
    requires SameCap(ins, bitrate) && Compose(t.(maxBitrate := bitrate), t.lastSent) >= 10
    ensures Announcements(TMMBR, t, ins) <= 1
    decreases |ins|
  {
    if ins != [] {
      var t' := Step(TMMBR, t, ins[0]).0;
      if Step(TMMBR, t, ins[0]).1.Some? {
        CapSettled(t', ins[1..], bitrate);
      } else {
        CapAnnouncedOnce(t', ins[1..], bitrate);
      }
    }
  }

  ghost predicate SameEstimate(ins: seq<Input>, bitrate: Dword) {
    forall k :: 0 <= k < |ins| ==> ins[k].Peer? || (ins[k].Estimate? && ins[k].bitrate == bitrate)
  }

  lemma {:induction false} EstimateSettled(t: Throttle, ins: seq<Input>, bitrate: Dword)
    requires SameEstimate(ins, bitrate) && t.hasSent && t.lastSent == bitrate >= 10
    ensures Announcements(TMMBR, t, ins) == 0
    decreases |ins|
  {
    if ins != [] {
      EstimateSettled(Step(TMMBR, t, ins[0]).0, ins[1..], bitrate);
    }
  }

  /** The same holds of an estimate delivered again and again. */
  lemma {:induction false} EstimateAnnouncedOnce(t: Throttle, ins: seq<Input>, bitrate: Dword)
    requires SameEstimate(ins, bitrate) && bitrate >= 10
    ensures Announcements(TMMBR, t, ins) <= 1
    decreases |ins|
  {
    if ins != [] {
      var t' := Step(TMMBR, t, ins[0]).0;
      if Step(TMMBR, t, ins[0]).1.Some? {
        EstimateSettled(t', ins[1..], bitrate);
      } else {
        EstimateAnnouncedOnce(t', ins[1..], bitrate);
      }
    }
  }
}
