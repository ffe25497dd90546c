/** What the throttle announces, told by the estimates, caps and peer rates that came before. */
module RembHistory {
  import opened Common
  import opened RembThrottler

  /** The cap in force: the last one set since the throttle was reset. */
  function CapAt(ins: seq<Input>, n: nat): Dword
    requires n <= |ins|
  {
    if n == 0 then 0xFFFF_FFFF
    else
      match ins[n - 1]
      case Cap(bitrate, _) => bitrate
      case Reset => 0xFFFF_FFFF
      case _ => CapAt(ins, n - 1)
  }

  /** The rate last measured from the peer; zero if none was since the throttle was reset. */
  function PeerAt(ins: seq<Input>, n: nat): Dword
    requires n <= |ins|
  {
    if n == 0 then 0
    else
      match ins[n - 1]
      case Peer(bitrate) => bitrate
      case Reset => 0
      case _ => PeerAt(ins, n - 1)
  }

  /** The last announcement since the throttle was reset: its value and its time. */
  datatype Notice = Notice(value: Dword, time: nat)

  function NoticeAt(p: Policy, ins: seq<Input>, n: nat): Option<Notice>
    requires n <= |ins|
  {
    if n == 0 || ins[n - 1].Reset? then None
    else if Announced(p, ins, n - 1).Some? && Timed(ins[n - 1]) then
      Some(Notice(Announced(p, ins, n - 1).value, ins[n - 1].now))
    else NoticeAt(p, ins, n - 1)
  }

  /** The last estimate worth an announcement, whether or not it changed what was announced. */
  function MeasureAt(p: Policy, ins: seq<Input>, n: nat): Dword
    requires n <= |ins|
    decreases n, 0
  {
    if n == 0 || ins[n - 1].Reset? then 0xFFFF_FFFF
    else if ins[n - 1].Estimate? && EstimateWorth(p, ins, n - 1) then ins[n - 1].bitrate
    else MeasureAt(p, ins, n - 1)
  }

  /** The peer does not send more than the announced limit and five per cent, so a raise tells it something. */
  predicate Informs(notice: Notice, peer: Dword) {
    peer == 0 || notice.value == 0xFFFF_FFFF || peer * 100 <= notice.value * 105
  }

  /** A value lower than `last` by the drop threshold, when it is urgent; higher by the step; or a period later. */
  predicate Newsworthy(p: Policy, notice: Notice, peer: Dword, value: Dword, last: Dword, urgent: bool, now: nat) {
    || (urgent && value * p.dropThresholdPercent / 100 <= last)
    || (p.raiseStepPercent > 0 && value * 100 >= last * (100 + p.raiseStepPercent) && Informs(notice, peer))
    || (p.raiseIntervalMs > 0 && now >= notice.time + p.raiseIntervalMs)
  }

  predicate EstimateWorth(p: Policy, ins: seq<Input>, n: nat)
    requires n < |ins| && ins[n].Estimate?
    decreases n, 1
  {
    var notice := NoticeAt(p, ins, n);
    || notice.None?
    || Newsworthy(p, notice.value, PeerAt(ins, n), ins[n].bitrate, MeasureAt(p, ins, n), ins[n].congestion, ins[n].now)
  }

  /** The cap counts from its own input on. */
  predicate CapWorth(p: Policy, ins: seq<Input>, n: nat)
    requires n < |ins| && ins[n].Cap?
  {
    var notice := NoticeAt(p, ins, n);
    var limit := Min(ins[n].bitrate, MeasureAt(p, ins, n));
    || notice.None?
    || Newsworthy(p, notice.value, PeerAt(ins, n), limit, notice.value.value, true, ins[n].now)
  }

  /** The throttle's fields are the history's. */
  ghost predicate Recalls(p: Policy, ins: seq<Input>, n: nat)
    requires n <= |ins|
  {
    var t := After(p, ins[..n]);
    && t.maxBitrate == CapAt(ins, n) && t.peerBitrate == PeerAt(ins, n) && t.lastSent == MeasureAt(p, ins, n)
    && match NoticeAt(p, ins, n)
       case None => !t.hasSent && t.lastAnnounced == 0xFFFF_FFFF
       case Some(notice) => t.hasSent && t.lastAnnounced == notice.value && t.lastSendTime == notice.time
  }

  lemma {:induction false} HistoryRecalled(p: Policy, ins: seq<Input>, n: nat)
    requires n <= |ins|
    ensures Recalls(p, ins, n)
  {
    if n > 0 {
      HistoryRecalled(p, ins, n - 1);
      AfterStep(p, ins, n - 1);
      InputRecalled(p, ins, n - 1);
    }
  }

  lemma InputRecalled(p: Policy, ins: seq<Input>, n: nat)
    requires n < |ins| && Recalls(p, ins, n) && After(p, ins[..n + 1]) == Step(p, After(p, ins[..n]), ins[n]).0
    ensures Recalls(p, ins, n + 1)
  {
  }

  /**
   An estimate is announced, as the lesser of it and the cap in force, exactly when nothing was since the throttle was
   reset, or it is newsworthy; a dialect without period does not repeat what it last announced.
   */
  lemma EstimateSaid(p: Policy, ins: seq<Input>, n: nat)
    requires n < |ins| && ins[n].Estimate?
    ensures var notice, out := NoticeAt(p, ins, n), Min(ins[n].bitrate, CapAt(ins, n));
            Announced(p, ins, n) ==
            if !EstimateWorth(p, ins, n) || (p.raiseIntervalMs == 0 && notice.Some? && notice.value.value == out)
            then None else Some(out)
  {
    HistoryRecalled(p, ins, n);
  }

  /** A cap is announced, as the lesser of it and the last measure, exactly when that is newsworthy. */
  lemma CapSaid(p: Policy, ins: seq<Input>, n: nat)
    requires n < |ins| && ins[n].Cap?
    ensures Announced(p, ins, n)
         == if CapWorth(p, ins, n) then Some(Min(ins[n].bitrate, MeasureAt(p, ins, n))) else None
  {
    HistoryRecalled(p, ins, n);
  }

  /** Periodic dialect: a measured drop of three per cent goes out at once, anything else after 200 ms. */
  lemma RembEstimates(ins: seq<Input>, n: nat)
    requires n < |ins| && ins[n].Estimate? && NoticeAt(REMB, ins, n).Some?
    ensures var i, last := ins[n], NoticeAt(REMB, ins, n).value;
            Announced(REMB, ins, n) ==
            if (i.congestion && i.bitrate * 103 / 100 <= MeasureAt(REMB, ins, n)) || i.now >= last.time + 200
            then Some(Min(i.bitrate, CapAt(ins, n))) else None
  {
    EstimateSaid(REMB, ins, n);
  }

  /**
   Sticky dialect: a measured drop of ten per cent, or a raise of twenty that tells the peer something, goes out at
   once unless the announced limit stays the same; nothing else does.
   */
  lemma TmmbrEstimates(ins: seq<Input>, n: nat)
    requires n < |ins| && ins[n].Estimate? && NoticeAt(TMMBR, ins, n).Some?
    ensures var i, last := ins[n], NoticeAt(TMMBR, ins, n).value;
            var measure, out := MeasureAt(TMMBR, ins, n), Min(i.bitrate, CapAt(ins, n));
            Announced(TMMBR, ins, n) ==
            if out != last.value && ((i.congestion && i.bitrate * 110 / 100 <= measure)
                                     || (i.bitrate * 100 >= measure * 120 && Informs(last, PeerAt(ins, n))))
            then Some(out) else None
  {
    EstimateSaid(TMMBR, ins, n);
  }
}
