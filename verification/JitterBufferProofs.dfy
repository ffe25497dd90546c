/** What holds of the jitter buffer over every run, with the history of every packet kept beside it. */
module JitterBufferProofs {
  import opened Common
  import opened JitterBuffer

  /** A packet handed to the consumer: when, why, and in which epoch (epochs end at a resynchronisation). */
  datatype Delivery = Delivery(p: Packet, reason: Reason, now: nat, maxWait: Dword, hurried: bool, epoch: nat)

  datatype History = History(arrived: multiset<Packet>, delivered: seq<Delivery>, freed: multiset<Packet>, epoch: nat)

  datatype Sys = Sys(b: Buffer, h: History)

  const INIT := Sys(EMPTY, History(multiset{}, [], multiset{}, 0))

  datatype Op =
    | Arrive(p: Packet) | Poll(now: nat) | Reset(clear: bool) | Clear | HurryUp | Cancel | SetMaxWait(ms: Dword)

  function After(b: Buffer, op: Op): Buffer {
    match op
    case Arrive(p) => Added(b, p)
    case Poll(now) => Polled(b, now)
    case Reset(clear) => WasReset(b, clear)
    case Clear => b.(packets := map[])
    case HurryUp => b.(hurryUp := true)
    case Cancel => b.(cancel := true)
    case SetMaxWait(ms) => b.(maxWaitTime := ms)
  }

  /** The packets an operation deletes. */
  function Deleted(b: Buffer, op: Op): multiset<Packet> {
    match op
    case Arrive(p) => FreedByAdd(b, p)
    case Reset(clear) => if clear then Bag(b.packets) else multiset{}
    case Clear => Bag(b.packets)
    case _ => multiset{}
  }

  function Given(op: Op): multiset<Packet> {
    if op.Arrive? then multiset{op.p} else multiset{}
  }

  /** A delivery after which every sequence number is acceptable again, because `next` wrapped. */
  predicate Wraps(p: Packet) {
    p.seqNum + 1 >= UNKNOWN
  }

  function Handed(s: Sys, op: Op): seq<Delivery> {
    if op.Poll? && Offer(s.b, op.now).Some? then
      [Delivery(Offer(s.b, op.now).value, Due(s.b, op.now).value, op.now, s.b.maxWaitTime, s.b.hurryUp, s.h.epoch)]
    else []
  }

  /** The buffer forgets which sequence number it expects. */
  predicate Resyncs(s: Sys, op: Op) {
    if |Handed(s, op)| > 0 then Wraps(Handed(s, op)[0].p)
    else s.b.next != UNKNOWN && After(s.b, op).next == UNKNOWN
  }

  function Step(s: Sys, op: Op): Sys {
    Sys(After(s.b, op),
        History(s.h.arrived + Given(op),
                s.h.delivered + Handed(s, op),
                s.h.freed + Deleted(s.b, op),
                s.h.epoch + if Resyncs(s, op) then 1 else 0))
  }

  ghost predicate IsRun(r: seq<Sys>, ops: seq<Op>) {
    |r| == |ops| + 1 && r[0] == INIT && forall i :: 0 <= i < |ops| ==> r[i + 1] == Step(r[i], ops[i])
  }

  // ---------- The invariant ----------

  ghost predicate Keyed(q: Queue) {
    forall k :: k in q ==> q[k].seqNum == k
  }

  ghost predicate QueueOk(b: Buffer) {
    && Keyed(b.packets)
    && (b.next != UNKNOWN ==> forall k :: k in b.packets ==> k >= b.next)
    && b.bigJumps <= MAX_BIG_JUMPS
  }

  function Packets(ds: seq<Delivery>): multiset<Packet> {
    if ds == [] then multiset{} else Packets(ds[..|ds| - 1]) + multiset{ds[|ds| - 1].p}
  }

  ghost predicate Conserved(s: Sys) {
    s.h.arrived == Bag(s.b.packets) + Packets(s.h.delivered) + s.h.freed
  }

  /** The delivery just before `i` belongs to the same epoch. */
  predicate Follows(ds: seq<Delivery>, i: nat)
    requires i < |ds|
  {
    i > 0 && ds[i - 1].epoch == ds[i].epoch
  }

  /** The branch of Wait that let delivery `i` go, seen from the history. */
  predicate Justified(ds: seq<Delivery>, i: nat)
    requires i < |ds|
  {
    var d := ds[i];
    match d.reason
    case First => !Follows(ds, i)
    case InOrder => if Follows(ds, i) then ds[i - 1].p.seqNum + 1 == d.p.seqNum else d.p.seqNum == 0
    case GapTimeout => d.now >= d.p.time + d.maxWait
    case Hurried => d.hurried
  }

  ghost predicate Ordered(ds: seq<Delivery>) {
    forall i, j :: 0 <= i < j < |ds| ==>
      ds[i].epoch < ds[j].epoch || (ds[i].epoch == ds[j].epoch && ds[i].p.seqNum < ds[j].p.seqNum)
  }

  /** Something was delivered in the current epoch. */
  predicate Running(h: History) {
    |h.delivered| > 0 && h.delivered[|h.delivered| - 1].epoch == h.epoch
  }

  ghost predicate EpochOk(next: Dword, h: History) {
    var ds := h.delivered;
    && (|ds| > 0 ==> ds[|ds| - 1].epoch <= h.epoch)
    && (Running(h) ==> next == ds[|ds| - 1].p.seqNum + 1 < UNKNOWN)
    && (!Running(h) ==> next == UNKNOWN || next == 0)
    && Ordered(ds)
    && forall i :: 0 <= i < |ds| ==> Justified(ds, i)
  }

  ghost predicate Inv(s: Sys) {
    QueueOk(s.b) && Conserved(s) && EpochOk(s.b.next, s.h)
  }

  // ---------- Overflow ----------

  ghost predicate Submap(q': Queue, q: Queue) {
    forall k :: k in q' ==> k in q && q'[k] == q[k]
  }

  /** Some packet at or before `k` in the queue is fresh. */
  ghost predicate Shielded(q: Queue, k: Dword, now: nat) {
    exists j :: j in q && j <= k && !Stale(q[j], now)
  }

  lemma {:induction false} TrimmedSubmap(q: Queue, now: nat)
    ensures Submap(Trimmed(q, now), q)
    ensures |Trimmed(q, now)| > 0 ==> !Stale(Trimmed(q, now)[Head(Trimmed(q, now))], now)
    decreases |q|
  {
    if |q| > 0 && Stale(q[Head(q)], now) {
      assert Head(q) in q.Keys;
      TrimmedSubmap(q - {Head(q)}, now);
    }
  }

  /** A packet survives DropOverflow exactly when some packet at or before it in the queue is fresh. */
  lemma {:induction false} TrimmedKeeps(q: Queue, now: nat, k: Dword)
    requires k in q
    ensures k in Trimmed(q, now) <==> Shielded(q, k, now)
    decreases |q|
  {
    assert k in q.Keys;
    var h: Dword := Head(q);
    var q1 := q - {h};
    if !Stale(q[h], now) {
      assert h <= k;
    } else if k == h {
      TrimmedSubmap(q1, now);
      HeadUnshielded(q, now);
    } else {
      assert h in q.Keys;
      TrimmedKeeps(q1, now, k);
      ShieldedTail(q, h, k, now);
    }
  }

  lemma HeadUnshielded(q: Queue, now: nat)
    requires |q| > 0 && Stale(q[Head(q)], now)
    ensures !Shielded(q, Head(q), now)
  {
  }

  lemma ShieldedTail(q: Queue, h: Dword, k: Dword, now: nat)
    requires h in q && Stale(q[h], now)
    ensures Shielded(q - {h}, k, now) <==> Shielded(q, k, now)
  {
    var q1 := q - {h};
    if Shielded(q, k, now) {
      var j :| j in q && j <= k && !Stale(q[j], now);
      assert j in q1 && q1[j] == q[j];
    }
    if Shielded(q1, k, now) {
      var j :| j in q1 && j <= k && !Stale(q1[j], now);
      assert j in q && q1[j] == q[j];
    }
  }

  /** An inserting Add keeps the new packet, leaves a fresh head, and drops only stale packets ahead of it. */
  lemma InsertionBounds(b: Buffer, p: Packet)
    requires Judged(b, p).Inserted?
    ensures var q := Added(b, p).packets;
            && p.seqNum in q && q[p.seqNum] == p
            && p.time < q[Head(q)].time + MAX_QUEUED_MS
            && forall k :: k in b.packets && k !in q ==> k < p.seqNum && b.packets[k].time + MAX_QUEUED_MS <= p.time
  {
    var q := b.packets[p.seqNum := p];
    TrimmedSubmap(q, p.time);
    TrimmedKeeps(q, p.time, p.seqNum);
    assert !Stale(q[p.seqNum], p.time);
    assert p.seqNum in Trimmed(q, p.time).Keys;
    forall k | k in b.packets && k !in Trimmed(q, p.time)
      ensures k < p.seqNum && b.packets[k].time + MAX_QUEUED_MS <= p.time
    {
      TrimmedKeeps(q, p.time, k);
    }
  }

  ghost predicate AllFresh(q: Queue, now: nat) {
    forall k :: k in q ==> now < q[k].time + MAX_QUEUED_MS
  }

  /** A fresh packet is followed, in sequence order, by fresh packets only. */
  ghost predicate FreshStaysFresh(q: Queue, now: nat) {
    forall j, k :: j in q && k in q && j < k && now < q[j].time + MAX_QUEUED_MS ==> now < q[k].time + MAX_QUEUED_MS
  }

  /**
   After an insertion the whole queue spans less than 500 ms exactly when no stale packet hides behind a fresh
   one.
   */
  lemma QueueSpan(b: Buffer, p: Packet)
    requires Judged(b, p).Inserted?
    ensures AllFresh(Added(b, p).packets, p.time) <==> FreshStaysFresh(b.packets[p.seqNum := p], p.time)
  {
    var q := b.packets[p.seqNum := p];
    var q' := Trimmed(q, p.time);
    TrimmedSubmap(q, p.time);
    if AllFresh(q', p.time) {
      forall j, k | j in q && k in q && j < k && p.time < q[j].time + MAX_QUEUED_MS
        ensures p.time < q[k].time + MAX_QUEUED_MS
      {
        assert !Stale(q[j], p.time);
        TrimmedKeeps(q, p.time, k);
        assert q'[k] == q[k];
      }
    } else {
      var k :| k in q' && p.time >= q'[k].time + MAX_QUEUED_MS;
      TrimmedKeeps(q, p.time, k);
      var j :| j in q && j <= k && !Stale(q[j], p.time);
      assert j < k;
    }
  }

  ghost predicate TimesFollowOrder(q: Queue) {
    forall j, k :: j in q && k in q && j < k ==> q[j].time <= q[k].time
  }

  /**
   When arrival times follow sequence order and the arrival is the newest, any two packets left are less than
   500 ms apart.
   */
  lemma QueueSpanPairwise(b: Buffer, p: Packet)
    requires Judged(b, p).Inserted? && TimesFollowOrder(b.packets[p.seqNum := p])
    requires forall k :: k in b.packets ==> b.packets[k].time <= p.time
    ensures var q := Added(b, p).packets;
            forall j, k :: j in q && k in q ==> q[j].time < q[k].time + MAX_QUEUED_MS
  {
    var q := b.packets[p.seqNum := p];
    QueueSpan(b, p);
    AddedQueue(b, p);
    TrimmedSubmap(q, p.time);
    assert forall k :: k in q ==> q[k].time <= p.time;
  }

  // ---------- One operation ----------

  lemma EnqueuedOk(b: Buffer, p: Packet)
    requires QueueOk(b) && !IsPast(b, p) && p.seqNum !in b.packets
    ensures QueueOk(Enqueued(b, p))
  {
    var q := b.packets[p.seqNum := p];
    TrimmedSubmap(q, p.time);
    assert Keyed(q);
    assert b.next != UNKNOWN ==> forall k :: k in q ==> k >= b.next;
  }

  lemma QueueKept(s: Sys, op: Op)
    requires QueueOk(s.b)
    ensures QueueOk(After(s.b, op))
  {
    if op.Arrive? {
      var b1 := Jumped(Tracked(s.b, op.p), op.p);
      assert QueueOk(b1);
      if Judged(s.b, op.p).Inserted? {
        EnqueuedOk(b1, op.p);
      }
    }
  }

  lemma HeadIs(q: Queue, k: Dword)
    requires k in q && forall x :: x in q ==> k <= x
    ensures |q| > 0 && Head(q) == k
  {
    assert k in q.Keys;
  }

  lemma {:induction false} InsertedBag(q: Queue, p: Packet)
    requires p.seqNum !in q
    ensures Bag(q[p.seqNum := p]) == Bag(q) + multiset{p}
    decreases |q|
  {
    var q1 := q[p.seqNum := p];
    assert p.seqNum in q1.Keys;
    var h: Dword := Head(q1);
    if h == p.seqNum {
      assert q1 - {h} == q;
    } else {
      assert forall x :: x in q ==> x in q1;
      HeadIs(q, h);
      assert q1 - {h} == (q - {h})[p.seqNum := p];
      InsertedBag(q - {h}, p);
    }
  }

  lemma {:induction false} TrimmedBag(q: Queue, now: nat)
    ensures Bag(q) == Bag(Trimmed(q, now)) + multiset(Evicted(q, now))
    decreases |q|
  {
    if |q| > 0 && Stale(q[Head(q)], now) {
      assert Head(q) in q.Keys;
      TrimmedBag(q - {Head(q)}, now);
    }
  }

  lemma AddedQueue(b: Buffer, p: Packet)
    ensures Added(b, p).packets
            == if Judged(b, p).Inserted? then Trimmed(b.packets[p.seqNum := p], p.time) else b.packets
  {
  }

  lemma ArrivalConserves(b: Buffer, p: Packet)
    ensures Bag(b.packets) + multiset{p} == Bag(Added(b, p).packets) + FreedByAdd(b, p)
  {
    AddedQueue(b, p);
    if Judged(b, p).Inserted? {
      InsertedBag(b.packets, p);
      TrimmedBag(b.packets[p.seqNum := p], p.time);
    }
  }

  lemma PollConserves(b: Buffer, now: nat)
    requires Offer(b, now).Some?
    ensures Bag(b.packets) == Bag(Polled(b, now).packets) + multiset{Offer(b, now).value}
  {
  }

  /** Nothing is created or lost by one operation. */
  lemma StepBalance(s: Sys, op: Op)
    ensures Bag(s.b.packets) + Given(op) == Bag(After(s.b, op).packets) + Packets(Handed(s, op)) + Deleted(s.b, op)
  {
    if op.Arrive? {
      ArrivalConserves(s.b, op.p);
      assert Packets(Handed(s, op)) == multiset{};
    } else if op.Poll? && Offer(s.b, op.now).Some? {
      PollBalance(s, op.now);
    } else {
      QuietBalance(s.b, op);
      assert Packets(Handed(s, op)) == multiset{};
    }
  }

  lemma PollBalance(s: Sys, now: nat)
    requires Offer(s.b, now).Some?
    ensures Bag(s.b.packets) == Bag(After(s.b, Poll(now)).packets) + Packets(Handed(s, Poll(now)))
  {
    PollConserves(s.b, now);
    assert Handed(s, Poll(now))[..0] == [];
  }

  lemma QuietBalance(b: Buffer, op: Op)
    requires !op.Arrive? && (op.Poll? ==> Offer(b, op.now).None?)
    ensures Bag(b.packets) == Bag(After(b, op).packets) + Deleted(b, op)
  {
    QuietQueue(b, op);
    assert Listed(map[]) == [];
  }

  lemma QuietQueue(b: Buffer, op: Op)
    requires !op.Arrive? && (op.Poll? ==> Offer(b, op.now).None?)
    ensures (After(b, op).packets == b.packets && Deleted(b, op) == multiset{})
         || (After(b, op).packets == map[] && Deleted(b, op) == Bag(b.packets))
  {
  }

  lemma PacketsAppend(ds: seq<Delivery>, es: seq<Delivery>)
    requires |es| <= 1
    ensures Packets(ds + es) == Packets(ds) + Packets(es)
  {
    if es == [] {
      assert ds + es == ds;
    } else {
      assert (ds + es)[..|ds|] == ds && es[..0] == [];
    }
  }

  lemma ConservedKept(s: Sys, op: Op)
    requires Inv(s)
    ensures Conserved(Step(s, op))
  {
    StepBalance(s, op);
    PacketsAppend(s.h.delivered, Handed(s, op));
    var s' := Step(s, op);
    Ledger(s.h.arrived, Bag(s.b.packets), Packets(s.h.delivered), s.h.freed, Given(op),
           Bag(s'.b.packets), Packets(Handed(s, op)), Deleted(s.b, op));
  }

  lemma Ledger(arrived: multiset<Packet>, queued: multiset<Packet>, out: multiset<Packet>, freed: multiset<Packet>,
               given: multiset<Packet>, queued': multiset<Packet>, handed: multiset<Packet>, deleted: multiset<Packet>)
    requires arrived == queued + out + freed && queued + given == queued' + handed + deleted
    ensures arrived + given == queued' + (out + handed) + (freed + deleted)
  {
    forall p: Packet
      ensures (arrived + given)[p] == (queued' + (out + handed) + (freed + deleted))[p]
    {
      assert (queued + given)[p] == (queued' + handed + deleted)[p];
    }
  }

  lemma OrderedExtends(ds: seq<Delivery>, d: Delivery)
    requires Ordered(ds)
    requires |ds| > 0 ==> var l := ds[|ds| - 1]; l.epoch < d.epoch || (l.epoch == d.epoch && l.p.seqNum < d.p.seqNum)
    ensures Ordered(ds + [d])
  {
    var ds' := ds + [d];
    forall i, j | 0 <= i < j < |ds'|
      ensures ds'[i].epoch < ds'[j].epoch || (ds'[i].epoch == ds'[j].epoch && ds'[i].p.seqNum < ds'[j].p.seqNum)
    {
      if j == |ds| && i < |ds| - 1 {
        assert ds[i].epoch < ds[|ds| - 1].epoch || ds[i].epoch == ds[|ds| - 1].epoch;
      }
    }
  }

  lemma JustifiedExtends(ds: seq<Delivery>, d: Delivery, i: nat)
    requires i < |ds| && Justified(ds, i)
    ensures Justified(ds + [d], i)
  {
  }

  /** Why the head may leave, in terms of the number expected. */
  predicate Deliverable(d: Delivery, next: Dword) {
    && (next != UNKNOWN ==> d.p.seqNum >= next)
    && match d.reason
       case First => next == UNKNOWN
       case InOrder => d.p.seqNum == next != UNKNOWN
       case GapTimeout => next != UNKNOWN && d.now >= d.p.time + d.maxWait
       case Hurried => next != UNKNOWN && d.hurried
  }

  lemma DeliveryOrdered(next: Dword, h: History, d: Delivery)
    requires EpochOk(next, h) && d.epoch == h.epoch && Deliverable(d, next)
    ensures Ordered(h.delivered + [d])
  {
    OrderedExtends(h.delivered, d);
  }

  lemma DeliveryJustified(next: Dword, h: History, d: Delivery, i: nat)
    requires EpochOk(next, h) && d.epoch == h.epoch && Deliverable(d, next) && i <= |h.delivered|
    ensures Justified(h.delivered + [d], i)
  {
    if i < |h.delivered| {
      JustifiedExtends(h.delivered, d, i);
    }
  }

  lemma DeliveryEpoch(next: Dword, h: History, d: Delivery, next': Dword, h': History)
    requires EpochOk(next, h) && d.epoch == h.epoch && Deliverable(d, next)
    requires h'.delivered == h.delivered + [d] && h'.epoch == h.epoch + if Wraps(d.p) then 1 else 0
    requires next' == (d.p.seqNum + 1) % DWORD_RANGE
    ensures EpochOk(next', h')
  {
    DeliveryOrdered(next, h, d);
    forall i | 0 <= i < |h'.delivered|
      ensures Justified(h'.delivered, i)
    {
      DeliveryJustified(next, h, d, i);
    }
  }

  lemma HandedDeliverable(s: Sys, now: nat)
    requires QueueOk(s.b) && Offer(s.b, now).Some?
    ensures |Handed(s, Poll(now))| == 1
    ensures var d := Handed(s, Poll(now))[0];
            && Deliverable(d, s.b.next) && d.epoch == s.h.epoch
            && After(s.b, Poll(now)).next == (d.p.seqNum + 1) % DWORD_RANGE
  {
    assert s.b.packets[Head(s.b.packets)].seqNum == Head(s.b.packets);
  }

  lemma HandedEpoch(s: Sys, now: nat)
    requires QueueOk(s.b) && EpochOk(s.b.next, s.h) && Offer(s.b, now).Some?
    ensures EpochOk(Step(s, Poll(now)).b.next, Step(s, Poll(now)).h)
  {
    HandedDeliverable(s, now);
    var d, s' := Handed(s, Poll(now))[0], Step(s, Poll(now));
    assert Handed(s, Poll(now)) == [d];
    DeliveryEpoch(s.b.next, s.h, d, s'.b.next, s'.h);
  }

  lemma NextKept(s: Sys, op: Op)
    requires Handed(s, op) == []
    ensures After(s.b, op).next == s.b.next || After(s.b, op).next == UNKNOWN
  {
    if op.Poll? {
      assert Polled(s.b, op.now).next == s.b.next;
    } else if op.Arrive? {
      var b1 := Jumped(Tracked(s.b, op.p), op.p);
      assert b1.next == s.b.next || b1.next == UNKNOWN;
    }
  }

  lemma QuietEpoch(s: Sys, op: Op)
    requires Inv(s) && Handed(s, op) == []
    ensures EpochOk(Step(s, op).b.next, Step(s, op).h)
  {
    NextKept(s, op);
    ForgetEpoch(s.b.next, s.h, Step(s, op).b.next, Step(s, op).h);
  }

  lemma ForgetEpoch(next: Dword, h: History, next': Dword, h': History)
    requires EpochOk(next, h) && h'.delivered == h.delivered
    requires (next' == next && h'.epoch == h.epoch) || (next' == UNKNOWN && h'.epoch == h.epoch + 1)
    ensures EpochOk(next', h')
  {
  }

  lemma {:induction false} ReachableInv(r: seq<Sys>, ops: seq<Op>, i: nat)
    requires IsRun(r, ops) && i < |r|
    ensures Inv(r[i])
  {
    if i > 0 {
      ReachableInv(r, ops, i - 1);
      QueueKept(r[i - 1], ops[i - 1]);
      ConservedKept(r[i - 1], ops[i - 1]);
      if Handed(r[i - 1], ops[i - 1]) == [] {
        QuietEpoch(r[i - 1], ops[i - 1]);
      } else {
        HandedEpoch(r[i - 1], ops[i - 1].now);
      }
    }
  }

  // ---------- Over whole runs ----------

  /** Every packet given to Add is queued, delivered or freed, and counted once. */
  lemma PacketsConserved(r: seq<Sys>, ops: seq<Op>, i: nat)
    requires IsRun(r, ops) && i < |r|
    ensures r[i].h.arrived == Bag(r[i].b.packets) + Packets(r[i].h.delivered) + r[i].h.freed
  {
    ReachableInv(r, ops, i);
  }

  /**
   Between two resynchronisations the delivered sequence numbers strictly increase; nothing queued precedes
   `next`.
   */
  lemma DeliveredInOrder(r: seq<Sys>, ops: seq<Op>, n: nat)
    requires IsRun(r, ops) && n < |r|
    ensures var ds := r[n].h.delivered;
            forall i, j :: 0 <= i < j < |ds| && ds[i].epoch == ds[j].epoch ==> ds[i].p.seqNum < ds[j].p.seqNum
    ensures r[n].b.next != UNKNOWN ==> forall k :: k in r[n].b.packets ==> k >= r[n].b.next
  {
    ReachableInv(r, ops, n);
  }

  /** `d` excuses losing a packet numbered `seqNum`: the same number went out, or a later one jumped over it. */
  predicate Excuses(d: Delivery, seqNum: Dword) {
    d.p.seqNum == seqNum || (d.p.seqNum > seqNum && !d.reason.InOrder?)
  }

  lemma {:induction false} ExcuseFound(ds: seq<Delivery>, epoch: nat, seqNum: Dword, n: nat) returns (i: nat)
    requires n < |ds| && ds[n].epoch == epoch && ds[n].p.seqNum >= seqNum
    requires forall i :: 0 <= i < |ds| ==> Justified(ds, i)
    ensures i <= n && ds[i].epoch == epoch && Excuses(ds[i], seqNum)
  {
    assert Justified(ds, n);
    if Excuses(ds[n], seqNum) {
      i := n;
    } else {
      i := ExcuseFound(ds, epoch, seqNum, n - 1);
    }
  }

  /**
   Lateness is always justified: a packet rejected as late repeats a number delivered since the last
   resynchronisation, or precedes one that was let out after its gap timeout, under HurryUp, or first.
   */
  lemma LatenessJustified(r: seq<Sys>, ops: seq<Op>, n: nat, p: Packet)
    requires IsRun(r, ops) && n < |ops| && ops[n] == Arrive(p) && Judged(r[n].b, p).Late?
    ensures exists i ::
              && 0 <= i < |r[n].h.delivered| && r[n].h.delivered[i].epoch == r[n].h.epoch
              && Excuses(r[n].h.delivered[i], p.seqNum)
  {
    ReachableInv(r, ops, n);
    var ds := r[n].h.delivered;
    var i := ExcuseFound(ds, r[n].h.epoch, p.seqNum, |ds| - 1);
  }

  predicate Rejects(b: Buffer, op: Op) {
    op.Arrive? && Judged(b, op.p).Late?
  }

  /** Late rejections among the operations from `i` up to `j`. */
  function Rejections(r: seq<Sys>, ops: seq<Op>, i: nat, j: nat): nat
    requires i <= j <= |ops| < |r|
  {
    if i == j then 0
    else Rejections(r, ops, i, j - 1) + if Rejects(r[j - 1].b, ops[j - 1]) then 1 else 0
  }

  lemma LateCounted(b: Buffer, p: Packet)
    ensures Judged(b, p).Late? ==> Added(b, p).next == b.next != UNKNOWN && Added(b, p).bigJumps == b.bigJumps + 1
    ensures !Judged(b, p).Late? && Added(b, p).next != UNKNOWN ==> Added(b, p).bigJumps == b.bigJumps
  {
  }

  lemma OthersCountNothing(s: Sys, op: Op)
    requires Keyed(s.b.packets) && !op.Arrive? && !Resyncs(s, op)
    ensures After(s.b, op).bigJumps == if op.Reset? then 0 else s.b.bigJumps
    ensures After(s.b, op).next == UNKNOWN ==> s.b.next == UNKNOWN
  {
  }

  ghost predicate SameEpoch(r: seq<Sys>, ops: seq<Op>, i: nat, j: nat)
    requires i <= j <= |ops| < |r|
  {
    forall k :: i <= k < j ==> !Resyncs(r[k], ops[k])
  }

  function Resets(ops: seq<Op>, i: nat, j: nat): nat
    requires i <= j <= |ops|
  {
    if i == j then 0 else Resets(ops, i, j - 1) + if ops[j - 1].Reset? then 1 else 0
  }

  /** How the counter and the expected number move in one operation of an epoch. */
  predicate Counted(b: Buffer, op: Op, b': Buffer) {
    && b'.bigJumps <= MAX_BIG_JUMPS
    && if Rejects(b, op) then b'.next != UNKNOWN && b'.bigJumps == b.bigJumps + 1
       else if op.Reset? then b'.bigJumps == 0 && (b'.next == UNKNOWN ==> b.next == UNKNOWN)
       else (b'.next == UNKNOWN ==> b.next == UNKNOWN) && (b.next != UNKNOWN ==> b'.bigJumps == b.bigJumps)
  }

  ghost predicate Tallied(r: seq<Sys>, ops: seq<Op>, i: nat)
    requires i < |ops| < |r|
  {
    Counted(r[i].b, ops[i], r[i + 1].b)
  }

  lemma CountedStep(s: Sys, op: Op)
    requires Keyed(s.b.packets) && !Resyncs(s, op) && After(s.b, op).bigJumps <= MAX_BIG_JUMPS
    ensures Counted(s.b, op, After(s.b, op))
  {
    if op.Arrive? {
      LateCounted(s.b, op.p);
    } else {
      OthersCountNothing(s, op);
    }
  }

  lemma RejectionStep(r: seq<Sys>, ops: seq<Op>, i: nat)
    requires IsRun(r, ops) && i < |ops| && !Resyncs(r[i], ops[i])
    ensures Tallied(r, ops, i)
  {
    ReachableInv(r, ops, i);
    ReachableInv(r, ops, i + 1);
    CountedStep(r[i], ops[i]);
  }

  lemma {:induction false} TallyBounds(r: seq<Sys>, ops: seq<Op>, i: nat, j: nat)
    requires i <= j <= |ops| < |r| && r[i].b.bigJumps <= MAX_BIG_JUMPS
    requires forall k :: i <= k < j ==> Tallied(r, ops, k)
    ensures Rejections(r, ops, i, j) <= MAX_BIG_JUMPS * Resets(ops, i, j) + r[j].b.bigJumps
    ensures r[j].b.bigJumps <= MAX_BIG_JUMPS
    ensures r[j].b.next == UNKNOWN ==> Rejections(r, ops, i, j) == 0
  {
    if i < j {
      TallyBounds(r, ops, i, j - 1);
      assert Tallied(r, ops, j - 1);
    }
  }

  /**
   Without a resynchronisation in between, at most 20 packets are rejected after each Reset and 20 before the
   first, however they are interleaved; without a Reset either, at most 20.
   */
  lemma RejectionsBounded(r: seq<Sys>, ops: seq<Op>, i: nat, j: nat)
    requires IsRun(r, ops) && i <= j <= |ops|
    requires SameEpoch(r, ops, i, j)
    ensures Rejections(r, ops, i, j) <= MAX_BIG_JUMPS * Resets(ops, i, j) + r[j].b.bigJumps
    ensures r[j].b.bigJumps <= MAX_BIG_JUMPS
    ensures r[j].b.next == UNKNOWN ==> Rejections(r, ops, i, j) == 0
  {
    forall k | i <= k < j
      ensures Tallied(r, ops, k)
    {
      RejectionStep(r, ops, k);
    }
    ReachableInv(r, ops, i);
    TallyBounds(r, ops, i, j);
  }

  function AddTimes(b: Buffer, p: Packet, n: nat): Buffer {
    if n == 0 then b else Added(AddTimes(b, p, n - 1), p)
  }

  /** A past packet of the followed source is tolerated until the counter holds 20, and only the counter moves. */
  lemma {:induction false} ToleratesLate(b: Buffer, p: Packet, n: nat)
    requires IsPast(b, p) && (b.hasSsrc ==> b.lastSsrc == p.ssrc) && b.bigJumps + n <= MAX_BIG_JUMPS
    ensures n > 0 ==> AddTimes(b, p, n) == b.(bigJumps := b.bigJumps + n, lastSsrc := p.ssrc, hasSsrc := true)
    ensures n > 0 ==> Judged(AddTimes(b, p, n - 1), p).Late?
  {
    if n > 1 {
      ToleratesLate(b, p, n - 1);
    }
  }

  // ---------- Runs that reach the bounds ----------

  lemma {:induction false} TalliesOfPrefix(r: seq<Sys>, ops: seq<Op>, s: Sys, op: Op, j: nat)
    requires j <= |ops| < |r|
    ensures Rejections(r + [s], ops + [op], 0, j) == Rejections(r, ops, 0, j)
    ensures Resets(ops + [op], 0, j) == Resets(ops, 0, j)
  {
    if j > 0 {
      TalliesOfPrefix(r, ops, s, op, j - 1);
      assert (r + [s])[j - 1] == r[j - 1] && (ops + [op])[j - 1] == ops[j - 1];
    }
  }

  /** States that follow each other by the operations, whatever a step is. */
  ghost predicate Linked(step: (Sys, Op) -> Sys, r: seq<Sys>, ops: seq<Op>) {
    |r| == |ops| + 1 && forall i :: 0 <= i < |ops| ==> r[i + 1] == step(r[i], ops[i])
  }

  lemma LinkedSnoc(step: (Sys, Op) -> Sys, r: seq<Sys>, ops: seq<Op>, op: Op)
    requires Linked(step, r, ops)
    ensures Linked(step, r + [step(r[|ops|], op)], ops + [op])
  {
    var r', ops' := r + [step(r[|ops|], op)], ops + [op];
    forall i | 0 <= i < |ops'|
      ensures r'[i + 1] == step(r'[i], ops'[i])
    {
      if i < |ops| {
        assert r'[i] == r[i] && r'[i + 1] == r[i + 1] && ops'[i] == ops[i];
      }
    }
  }

  lemma RunSnoc(r: seq<Sys>, ops: seq<Op>, op: Op)
    requires IsRun(r, ops)
    ensures IsRun(r + [Step(r[|ops|], op)], ops + [op])
  {
    LinkedSnoc(Step, r, ops, op);
  }

  /** A run in one epoch, with what it counted. */
  ghost predicate Story(r: seq<Sys>, ops: seq<Op>, resets: nat, rejected: nat) {
    && IsRun(r, ops) && SameEpoch(r, ops, 0, |ops|)
    && Resets(ops, 0, |ops|) == resets && Rejections(r, ops, 0, |ops|) == rejected
  }

  lemma StoryGoesOn(r: seq<Sys>, ops: seq<Op>, op: Op, resets: nat, rejected: nat)
    requires Story(r, ops, resets, rejected) && !Resyncs(r[|ops|], op)
    ensures Story(r + [Step(r[|ops|], op)], ops + [op], resets + (if op.Reset? then 1 else 0),
                  rejected + (if Rejects(r[|ops|].b, op) then 1 else 0))
  {
    var r', ops' := r + [Step(r[|ops|], op)], ops + [op];
    TalliesOfPrefix(r, ops, Step(r[|ops|], op), op, |ops|);
    RunSnoc(r, ops, op);
    forall i | 0 <= i < |ops'|
      ensures !Resyncs(r'[i], ops'[i])
    {
      if i < |ops| {
        assert r'[i] == r[i] && ops'[i] == ops[i];
      }
    }
  }

  const FIRST_PACKET := Packet(0, 10, 7, 0)
  const LATE_PACKET := Packet(1, 5, 7, 0)

  /** Packet 10 was delivered and packets numbered 5 keep coming. */
  predicate Behind(b: Buffer, jumps: nat) {
    b.next == 11 && b.hasSsrc && b.lastSsrc == 7 && b.bigJumps == jumps && b.packets == map[]
  }

  lemma FirstDelivered() returns (r: seq<Sys>, ops: seq<Op>)
    ensures Story(r, ops, 0, 0) && Behind(r[|ops|].b, 0)
  {
    var s1 := Step(INIT, Arrive(FIRST_PACKET));
    var q: Queue := map[10 := FIRST_PACKET];
    assert 10 in q.Keys && Trimmed(q, 0) == q;
    assert s1.b.packets == q;
    StoryGoesOn([INIT], [], Arrive(FIRST_PACKET), 0, 0);
    assert Head(q) == 10 && q - {10} == map[];
    assert [INIT] + [s1] == [INIT, s1];
    StoryGoesOn([INIT, s1], [Arrive(FIRST_PACKET)], Poll(0), 0, 0);
    ops := [Arrive(FIRST_PACKET)] + [Poll(0)];
    r := [INIT, s1] + [Step(s1, Poll(0))];
  }

  lemma LateStep(s: Sys, jumps: nat)
    requires Behind(s.b, jumps) && jumps < MAX_BIG_JUMPS
    ensures Rejects(s.b, Arrive(LATE_PACKET)) && !Resyncs(s, Arrive(LATE_PACKET))
    ensures Behind(Step(s, Arrive(LATE_PACKET)).b, jumps + 1)
  {
  }

  lemma ForgivingStep(s: Sys)
    requires Behind(s.b, MAX_BIG_JUMPS)
    ensures !Resyncs(s, Reset(false)) && Behind(Step(s, Reset(false)).b, 0)
  {
  }

  /**
   The bound is tight and its failure at 20 real: for every number of Resets there is a run, within one epoch,
   in which they forgive 20 late packets each and 20 more follow.
   */
  lemma {:induction false} ResetsForgive(resets: nat, jumps: nat) returns (r: seq<Sys>, ops: seq<Op>)
    requires jumps <= MAX_BIG_JUMPS
    ensures Story(r, ops, resets, MAX_BIG_JUMPS * resets + jumps) && Behind(r[|ops|].b, jumps)
    decreases resets, jumps
  {
    if jumps > 0 {
      r, ops := ResetsForgive(resets, jumps - 1);
      LateStep(r[|ops|], jumps - 1);
      StoryGoesOn(r, ops, Arrive(LATE_PACKET), resets, MAX_BIG_JUMPS * resets + jumps - 1);
      r, ops := r + [Step(r[|ops|], Arrive(LATE_PACKET))], ops + [Arrive(LATE_PACKET)];
    } else if resets > 0 {
      r, ops := ResetsForgive(resets - 1, MAX_BIG_JUMPS);
      ForgivingStep(r[|ops|]);
      StoryGoesOn(r, ops, Reset(false), resets - 1, MAX_BIG_JUMPS * resets);
      r, ops := r + [Step(r[|ops|], Reset(false))], ops + [Reset(false)];
    } else {
      r, ops := FirstDelivered();
    }
  }

  /** The buffer any sequence of operations leaves. */
  function Reached(ops: seq<Op>): Buffer {
    if ops == [] then EMPTY else After(Reached(ops[..|ops| - 1]), ops[|ops| - 1])
  }

  lemma {:induction false} RunExists(ops: seq<Op>) returns (r: seq<Sys>)
    ensures IsRun(r, ops) && r[|ops|].b == Reached(ops)
  {
    if ops == [] {
      r := [INIT];
    } else {
      var init, last := ops[..|ops| - 1], ops[|ops| - 1];
      var r1 := RunExists(init);
      r := r1 + [Step(r1[|init|], last)];
      RunSnoc(r1, init, last);
      assert ops == init + [last];
    }
  }

  /** An insertion that pushes nothing out, because the head is fresh. */
  lemma PlainInsertion(b: Buffer, p: Packet, head: Dword)
    requires b.next == UNKNOWN && (b.hasSsrc ==> b.lastSsrc == p.ssrc) && p.seqNum !in b.packets
    requires var q := b.packets[p.seqNum := p];
             head in q && !Stale(q[head], p.time) && forall k :: k in q ==> head <= k
    ensures Judged(b, p).Inserted?
    ensures Added(b, p) == b.(packets := b.packets[p.seqNum := p], lastSsrc := p.ssrc, hasSsrc := true)
  {
    HeadIs(b.packets[p.seqNum := p], head);
  }

  /**
   A queue that spans more than 500 ms is reached: packet 11 at 0 ms hides behind packet 10 at 400 ms when 12
   comes at 600 ms.
   */
  lemma StaleHides(p: Packet, p': Packet, p'': Packet)
    requires p == Packet(0, 11, 7, 0) && p' == Packet(1, 10, 7, 400) && p'' == Packet(2, 12, 7, 600)
    ensures Judged(Reached([Arrive(p), Arrive(p')]), p'').Inserted?
    ensures !AllFresh(Reached([Arrive(p), Arrive(p'), Arrive(p'')]).packets, p''.time)
  {
    PlainInsertion(EMPTY, p, 11);
    var b1 := Added(EMPTY, p);
    PlainInsertion(b1, p', 10);
    var b2 := Added(b1, p');
    PlainInsertion(b2, p'', 10);
    assert [Arrive(p), Arrive(p'), Arrive(p'')][..2] == [Arrive(p), Arrive(p')];
    assert [Arrive(p), Arrive(p')][..1] == [Arrive(p)];
    assert Reached([Arrive(p)][..0]) == EMPTY;
    assert 11 in Added(b2, p'').packets;
  }

  /** The missing packet goes out at once when it arrives, and its arrival costs no other packet. */
  lemma GapFilled(r: seq<Sys>, ops: seq<Op>, n: nat, p: Packet, now: nat)
    requires IsRun(r, ops) && n < |r| && !r[n].b.cancel && r[n].b.next == p.seqNum
    ensures Offer(Added(r[n].b, p), now).Some?
    ensures p.seqNum != UNKNOWN ==> Offer(Added(r[n].b, p), now).value.seqNum == p.seqNum
    ensures p.seqNum != UNKNOWN && p.seqNum !in r[n].b.packets ==>
              Offer(Added(r[n].b, p), now) == Some(p) && FreedByAdd(r[n].b, p) == multiset{}
  {
    ReachableInv(r, ops, n);
    var b := r[n].b;
    QueueKept(r[n], Arrive(p));
    AddedQueue(b, p);
    if p.seqNum != UNKNOWN {
      HeadIs(b.packets[p.seqNum := p], p.seqNum);
    }
    if Judged(b, p).Inserted? {
      InsertionBounds(b, p);
    }
    assert p.seqNum in Added(b, p).packets.Keys;
  }

  /** Everything consecutive calls at time `now` hand out before one has to wait. */
  function Drain(b: Buffer, now: nat): seq<Packet>
    decreases |b.packets|
  {
    if Offer(b, now).None? then []
    else
      assert Head(b.packets) in b.packets.Keys;
      [Offer(b, now).value] + Drain(Polled(b, now), now)
  }

  ghost predicate Ascending(ps: seq<Packet>) {
    forall i, j :: 0 <= i < j < |ps| ==> ps[i].seqNum < ps[j].seqNum
  }

  /** Nothing in the queue has to wait any more. */
  ghost predicate AllDue(b: Buffer, now: nat) {
    !b.cancel && (b.hurryUp || forall k :: k in b.packets ==> now >= b.packets[k].time + b.maxWaitTime)
  }

  lemma {:induction false} ListedAscends(q: Queue)
    requires Keyed(q)
    ensures Ascending(Listed(q)) && forall i :: 0 <= i < |Listed(q)| ==> Listed(q)[i].seqNum in q
    decreases |q|
  {
    if |q| > 0 {
      assert Head(q) in q.Keys;
      ListedAscends(q - {Head(q)});
    }
  }

  /** Past every gap timeout, or once hurried, the whole queue comes out, in sequence order and nothing twice. */
  lemma {:induction false} DrainsInOrder(b: Buffer, now: nat)
    requires Keyed(b.packets) && AllDue(b, now)
    ensures Drain(b, now) == Listed(b.packets) && Ascending(Drain(b, now))
    decreases |b.packets|
  {
    ListedAscends(b.packets);
    if |b.packets| > 0 {
      assert Head(b.packets) in b.packets.Keys;
      DrainsInOrder(Polled(b, now), now);
    }
  }
}
