/** The fields of the jitter buffer, and what it does with packets, told by the operations that came before. */
module JitterBufferHistory {
  import opened Common
  import opened JitterBuffer
  import opened JitterBufferProofs

  // ---------- Settings ----------

  /** A Cancel without a Reset after it. */
  ghost predicate Cancelled(ops: seq<Op>, n: nat)
    requires n <= |ops|
  {
    exists i :: 0 <= i < n && ops[i].Cancel? && forall k :: i < k < n ==> !ops[k].Reset?
  }

  /** Wait's loop finds the queue empty. */
  predicate FindsEmpty(s: Sys, op: Op) {
    op.Poll? && !s.b.cancel && |s.b.packets| == 0
  }

  /** A HurryUp, and the queue not found empty since. */
  ghost predicate Hurried(r: seq<Sys>, ops: seq<Op>, n: nat)
    requires n <= |ops| < |r|
  {
    exists i :: 0 <= i < n && ops[i].HurryUp? && forall k :: i < k < n ==> !FindsEmpty(r[k], ops[k])
  }

  /** The gap timeout last set. */
  function MaxWait(ops: seq<Op>, n: nat): Dword
    requires n <= |ops|
  {
    if n == 0 then 0 else if ops[n - 1].SetMaxWait? then ops[n - 1].ms else MaxWait(ops, n - 1)
  }

  lemma CancelledStep(ops: seq<Op>, n: nat)
    requires n < |ops|
    ensures Cancelled(ops, n + 1) <==> ops[n].Cancel? || (Cancelled(ops, n) && !ops[n].Reset?)
  {
    if Cancelled(ops, n) && !ops[n].Reset? {
      var i :| 0 <= i < n && ops[i].Cancel? && forall k :: i < k < n ==> !ops[k].Reset?;
      assert forall k :: i < k < n + 1 ==> !ops[k].Reset?;
    }
  }

  lemma HurriedStep(r: seq<Sys>, ops: seq<Op>, n: nat)
    requires n < |ops| < |r|
    ensures Hurried(r, ops, n + 1) <==> ops[n].HurryUp? || (Hurried(r, ops, n) && !FindsEmpty(r[n], ops[n]))
  {
    if Hurried(r, ops, n) && !FindsEmpty(r[n], ops[n]) {
      var i :| 0 <= i < n && ops[i].HurryUp? && forall k :: i < k < n ==> !FindsEmpty(r[k], ops[k]);
      assert forall k :: i < k < n + 1 ==> !FindsEmpty(r[k], ops[k]);
    }
  }

  /** How one operation moves cancellation, hurry and gap timeout. */
  predicate Sets(s: Sys, op: Op, b': Buffer) {
    && b'.cancel == (op.Cancel? || (s.b.cancel && !op.Reset?))
    && b'.hurryUp == (op.HurryUp? || (s.b.hurryUp && !FindsEmpty(s, op)))
    && b'.maxWaitTime == if op.SetMaxWait? then op.ms else s.b.maxWaitTime
  }

  ghost predicate AllSet(r: seq<Sys>, ops: seq<Op>) {
    && |r| == |ops| + 1 && r[0].b == EMPTY
    && forall k :: 0 <= k < |ops| ==> Sets(r[k], ops[k], r[k + 1].b)
  }

  lemma AddSets(b: Buffer, p: Packet)
    ensures var b' := Added(b, p); b'.cancel == b.cancel && b'.hurryUp == b.hurryUp && b'.maxWaitTime == b.maxWaitTime
  {
  }

  lemma FlagsStep(s: Sys, op: Op)
    ensures Sets(s, op, After(s.b, op))
  {
    if op.Arrive? {
      AddSets(s.b, op.p);
    }
  }

  lemma RunSets(r: seq<Sys>, ops: seq<Op>)
    requires IsRun(r, ops)
    ensures AllSet(r, ops)
  {
    forall k | 0 <= k < |ops|
      ensures Sets(r[k], ops[k], r[k + 1].b)
    {
      FlagsStep(r[k], ops[k]);
      assert r[k + 1] == Step(r[k], ops[k]);
    }
  }

  lemma {:induction false} FlagsAlong(r: seq<Sys>, ops: seq<Op>, n: nat)
    requires AllSet(r, ops) && n < |r|
    ensures r[n].b.cancel == Cancelled(ops, n) && r[n].b.hurryUp == Hurried(r, ops, n)
    ensures r[n].b.maxWaitTime == MaxWait(ops, n)
  {
    if n > 0 {
      FlagsAlong(r, ops, n - 1);
      assert Sets(r[n - 1], ops[n - 1], r[n - 1 + 1].b);
      CancelledStep(ops, n - 1);
      HurriedStep(r, ops, n - 1);
    }
  }

  /** Cancellation, hurry and gap timeout are what the operations made them. */
  lemma FlagsFollow(r: seq<Sys>, ops: seq<Op>, n: nat)
    requires IsRun(r, ops) && n < |r|
    ensures r[n].b.cancel <==> Cancelled(ops, n)
    ensures r[n].b.hurryUp <==> Hurried(r, ops, n)
    ensures r[n].b.maxWaitTime == MaxWait(ops, n)
  {
    RunSets(r, ops);
    FlagsAlong(r, ops, n);
  }

  // ---------- What is handed out ----------

  /**
   Wait hands out the head of the queue, and only that, exactly when nothing cancelled it and the head is the first
   since a resynchronisation, or follows the last delivery, or waited out its gap, or HurryUp asked for it.
   */
  lemma HandsOutExactly(r: seq<Sys>, ops: seq<Op>, n: nat)
    requires IsRun(r, ops) && n < |ops| && ops[n].Poll?
    ensures var q, now := r[n].b.packets, ops[n].now;
            if |q| > 0 && !Cancelled(ops, n)
               && (r[n].b.next == 0xFFFF_FFFF || Head(q) == r[n].b.next
                   || now >= q[Head(q)].time + MaxWait(ops, n) || Hurried(r, ops, n))
            then Offer(r[n].b, now) == Some(q[Head(q)]) && r[n + 1].b.packets == q - {Head(q)}
                 && r[n + 1].b.next == (Head(q) + 1) % 0x1_0000_0000
            else Offer(r[n].b, now) == None && r[n + 1].b.packets == q && r[n + 1].b.next == r[n].b.next
  {
    FlagsFollow(r, ops, n);
  }

  /** From a Cancel to the next Reset nothing is handed out. */
  lemma CancelledIsSilent(r: seq<Sys>, ops: seq<Op>, i: nat, n: nat)
    requires IsRun(r, ops) && i < n < |ops| && ops[i].Cancel? && forall k :: i < k < n ==> !ops[k].Reset?
    ensures r[n + 1].h.delivered == r[n].h.delivered
  {
    FlagsFollow(r, ops, n);
    assert Cancelled(ops, n);
  }

  // ---------- The source followed ----------

  /** The source of the latest packet since the buffer was reset and cleared. */
  function Source(ops: seq<Op>, n: nat): Option<Dword>
    requires n <= |ops|
  {
    if n == 0 then None
    else
      match ops[n - 1]
      case Arrive(p) => Some(p.ssrc)
      case Reset(clear) => if clear then None else Source(ops, n - 1)
      case _ => Source(ops, n - 1)
  }

  predicate OtherSource(b: Buffer, p: Packet) {
    b.hasSsrc && p.ssrc != b.lastSsrc
  }

  predicate Behind(b: Buffer, p: Packet) {
    b.next != UNKNOWN && p.seqNum < b.next && !OtherSource(b, p)
  }

  /** The source changes, or one too many is behind. */
  predicate StartsAfresh(b: Buffer, p: Packet) {
    OtherSource(b, p) || (Behind(b, p) && b.bigJumps >= 20)
  }

  lemma AddedFields(b: Buffer, p: Packet)
    ensures Added(b, p).hasSsrc && Added(b, p).lastSsrc == p.ssrc
    ensures Added(b, p).bigJumps
         == if StartsAfresh(b, p) then 0 else if Behind(b, p) then b.bigJumps + 1 else b.bigJumps
    ensures Judged(b, p).Late? <==> Behind(b, p) && b.bigJumps < 20
    ensures !Judged(b, p).Inserted? ==> Added(b, p).next == if StartsAfresh(b, p) then UNKNOWN else b.next
  {
  }

  lemma OtherFields(b: Buffer, op: Op)
    requires !op.Arrive?
    ensures After(b, op).lastSsrc == b.lastSsrc && After(b, op).hasSsrc == (b.hasSsrc && op != Reset(true))
    ensures After(b, op).bigJumps == if op.Reset? then 0 else b.bigJumps
    ensures !op.Poll? ==> After(b, op).next == if op == Reset(true) then UNKNOWN else b.next
  {
  }

  /** How one operation moves what the buffer remembers of sources and lateness. */
  predicate Moves(b: Buffer, op: Op, b': Buffer) {
    && b'.hasSsrc == (op.Arrive? || (b.hasSsrc && op != Reset(true)))
    && b'.lastSsrc == (if op.Arrive? then op.p.ssrc else b.lastSsrc)
    && b'.bigJumps == if op.Reset? || (op.Arrive? && StartsAfresh(b, op.p)) then 0
                      else if op.Arrive? && Behind(b, op.p) then b.bigJumps + 1
                      else b.bigJumps
  }

  lemma OperationMoves(b: Buffer, op: Op)
    ensures Moves(b, op, After(b, op))
  {
    if op.Arrive? {
      AddedFields(b, op.p);
    } else {
      OtherFields(b, op);
    }
  }

  ghost predicate AllMove(r: seq<Sys>, ops: seq<Op>) {
    && |r| == |ops| + 1 && r[0].b == EMPTY
    && forall k :: 0 <= k < |ops| ==> Moves(r[k].b, ops[k], r[k + 1].b)
  }

  lemma RunMoves(r: seq<Sys>, ops: seq<Op>)
    requires IsRun(r, ops)
    ensures AllMove(r, ops)
  {
    forall k | 0 <= k < |ops|
      ensures Moves(r[k].b, ops[k], r[k + 1].b)
    {
      OperationMoves(r[k].b, ops[k]);
      assert r[k + 1] == Step(r[k], ops[k]);
    }
  }

  ghost predicate Tracks(b: Buffer, source: Option<Dword>) {
    b.hasSsrc == source.Some? && (source.Some? ==> b.lastSsrc == source.value)
  }

  lemma {:induction false} SourceAlong(r: seq<Sys>, ops: seq<Op>, n: nat)
    requires AllMove(r, ops) && n < |r|
    ensures Tracks(r[n].b, Source(ops, n))
  {
    if n > 0 {
      SourceAlong(r, ops, n - 1);
      assert Moves(r[n - 1].b, ops[n - 1], r[n].b);
    }
  }

  lemma SourceFollowed(r: seq<Sys>, ops: seq<Op>, n: nat)
    requires IsRun(r, ops) && n < |r|
    ensures Tracks(r[n].b, Source(ops, n))
  {
    RunMoves(r, ops);
    SourceAlong(r, ops, n);
  }

  /** Another source than that of the latest packet. */
  predicate ChangesSource(ops: seq<Op>, n: nat)
    requires n < |ops|
  {
    ops[n].Arrive? && Source(ops, n).Some? && Source(ops, n).value != ops[n].p.ssrc
  }

  /** A packet of another source is never late; nothing is expected after it, and lateness is counted afresh. */
  lemma SourceChange(r: seq<Sys>, ops: seq<Op>, n: nat)
    requires IsRun(r, ops) && n < |ops| && ChangesSource(ops, n)
    ensures !Judged(r[n].b, ops[n].p).Late? && r[n + 1].b.next == 0xFFFF_FFFF && r[n + 1].b.bigJumps == 0
  {
    SourceFollowed(r, ops, n);
    AddedFields(r[n].b, ops[n].p);
    if Judged(r[n].b, ops[n].p).Inserted? {
      PushedOut(r[n].b, ops[n].p);
    }
  }

  // ---------- Lateness ----------

  /** A packet before the one expected, of the source followed. */
  predicate Overtaken(r: seq<Sys>, ops: seq<Op>, n: nat)
    requires n < |ops| < |r|
  {
    ops[n].Arrive? && r[n].b.next != 0xFFFF_FFFF && ops[n].p.seqNum < r[n].b.next && !ChangesSource(ops, n)
  }

  /** Overtaken packets since the last Reset, change of source, or twenty-first of them. */
  function Strays(r: seq<Sys>, ops: seq<Op>, n: nat): nat
    requires n <= |ops| < |r|
  {
    if n == 0 then 0
    else if ops[n - 1].Reset? || ChangesSource(ops, n - 1) then 0
    else if !Overtaken(r, ops, n - 1) then Strays(r, ops, n - 1)
    else if Strays(r, ops, n - 1) >= 20 then 0
    else Strays(r, ops, n - 1) + 1
  }

  lemma {:induction false} StraysAlong(r: seq<Sys>, ops: seq<Op>, n: nat)
    requires AllMove(r, ops) && n < |r|
    ensures r[n].b.bigJumps == Strays(r, ops, n)
  {
    if n > 0 {
      StraysAlong(r, ops, n - 1);
      SourceAlong(r, ops, n - 1);
      assert Moves(r[n - 1].b, ops[n - 1], r[n].b);
    }
  }

  lemma StraysCounted(r: seq<Sys>, ops: seq<Op>, n: nat)
    requires IsRun(r, ops) && n < |r|
    ensures r[n].b.bigJumps == Strays(r, ops, n)
  {
    RunMoves(r, ops);
    StraysAlong(r, ops, n);
  }

  /** Add loses a packet for lateness exactly when it was overtaken and fewer than twenty were since. */
  lemma LateExactly(r: seq<Sys>, ops: seq<Op>, n: nat)
    requires IsRun(r, ops) && n < |ops| && ops[n].Arrive?
    ensures Judged(r[n].b, ops[n].p).Late? <==> Overtaken(r, ops, n) && Strays(r, ops, n) < 20
  {
    StraysCounted(r, ops, n);
    SourceFollowed(r, ops, n);
    AddedFields(r[n].b, ops[n].p);
  }

  /** An operation pushes a packet out that was queued before. */
  ghost predicate PushesOut(r: seq<Sys>, ops: seq<Op>, n: nat)
    requires n < |ops| < |r|
  {
    exists k :: k in r[n].b.packets && k !in r[n + 1].b.packets
  }

  /**
   Apart from deliveries, the expected number is forgotten exactly by a change of source, by the twenty-first stray,
   by an arrival that pushes others out and by a Reset that clears; otherwise it stays.
   */
  lemma ForgetsExactly(r: seq<Sys>, ops: seq<Op>, n: nat)
    requires IsRun(r, ops) && n < |ops| && !ops[n].Poll? && r[n].b.next != 0xFFFF_FFFF
    ensures r[n + 1].b.next == (if ChangesSource(ops, n) || (Overtaken(r, ops, n) && Strays(r, ops, n) >= 20)
                                   || (ops[n].Arrive? && PushesOut(r, ops, n)) || ops[n] == Reset(true)
                                then 0xFFFF_FFFF else r[n].b.next)
  {
    StraysCounted(r, ops, n);
    SourceFollowed(r, ops, n);
    if ops[n].Arrive? {
      PushedOut(r[n].b, ops[n].p);
      AddedFields(r[n].b, ops[n].p);
    } else {
      OtherFields(r[n].b, ops[n]);
    }
  }

  lemma PushedOut(b: Buffer, p: Packet)
    ensures var q, q' := b.packets[p.seqNum := p], Added(b, p).packets;
            Judged(b, p).Inserted? ==>
              && ((exists k :: k in b.packets && k !in q') <==> q' != q)
              && Added(b, p).next == if q' == q then Jumped(Tracked(b, p), p).next else UNKNOWN
    ensures !Judged(b, p).Inserted? ==> Added(b, p).packets == b.packets
  {
    AddedQueue(b, p);
    if Judged(b, p).Inserted? {
      InsertionBounds(b, p);
      TrimmedSubmap(b.packets[p.seqNum := p], p.time);
      var q, q' := b.packets[p.seqNum := p], Added(b, p).packets;
      if forall k :: k in b.packets ==> k in q' {
        assert q'.Keys == q.Keys;
      }
    }
  }

  // ---------- The queue ----------

  /** The queue after an arrival: as it was for a late number or one queued already, else with the new packet. */
  lemma ArrivalQueued(r: seq<Sys>, ops: seq<Op>, n: nat)
    requires IsRun(r, ops) && n < |ops| && ops[n].Arrive?
    ensures var q, q', p := r[n].b.packets, r[n + 1].b.packets, ops[n].p;
            if (Overtaken(r, ops, n) && Strays(r, ops, n) < 20) || p.seqNum in q then q' == q
            else && p.seqNum in q' && q'[p.seqNum] == p
                 && (forall k :: k in q' && k != p.seqNum ==> k in q && q'[k] == q[k])
                 && (forall k :: k in q && k !in q' ==> k < p.seqNum && q[k].time + 500 <= p.time)
                 && p.time < q'[Head(q')].time + 500
  {
    LateExactly(r, ops, n);
    AddedQueue(r[n].b, ops[n].p);
    if Judged(r[n].b, ops[n].p).Inserted? {
      InsertionBounds(r[n].b, ops[n].p);
      TrimmedSubmap(r[n].b.packets[ops[n].p.seqNum := ops[n].p], ops[n].p.time);
    }
  }

  /** Clear and a Reset that clears empty the queue; nothing else but arrivals and deliveries touches it. */
  lemma ClearsQueue(r: seq<Sys>, ops: seq<Op>, n: nat)
    requires IsRun(r, ops) && n < |ops| && !ops[n].Arrive? && !ops[n].Poll?
    ensures r[n + 1].b.packets == if ops[n].Clear? || ops[n] == Reset(true) then map[] else r[n].b.packets
  {
  }
}
