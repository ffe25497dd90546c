/**
 The reordering jitter buffer `RTPBuffer`: a map ordered by extended sequence number, the next
 number expected, and the rules that decide lateness, gaps, resynchronisation and overflow.
 `RtpBuffer` is the object; the functions say what each operation does to its fields.
 */
module JitterBuffer {
  import opened Common

  const MAX_QUEUED_MS := 500
  const MAX_BIG_JUMPS := 20

  /** `next` when nothing is expected. */
  const UNKNOWN: Dword := DWORD_RANGE - 1

  /** `id` tells two packets with equal headers apart, as their addresses do. */
  datatype Packet = Packet(id: nat, seqNum: Dword, ssrc: Dword, time: nat)

  type Queue = map<Dword, Packet>

  datatype Buffer = Buffer(packets: Queue, cancel: bool, hurryUp: bool, next: Dword, maxWaitTime: Dword,
                           bigJumps: nat, lastSsrc: Dword, hasSsrc: bool)

  const EMPTY := Buffer(map[], false, false, UNKNOWN, 0, 0, 0, false)

  ghost predicate IsLeast(k: Dword, keys: set<Dword>) {
    k in keys && forall x :: x in keys ==> k <= x
  }

  lemma {:induction false} LeastExists(keys: set<Dword>) returns (least: Dword)
    requires keys != {}
    ensures IsLeast(least, keys)
  {
    var k: Dword :| k in keys;
    var rest := keys - {k};
    assert keys == rest + {k};
    if rest == {} {
      least := k;
    } else {
      var l := LeastExists(rest);
      least := if l < k then l else k;
    }
  }

  lemma HeadExists(q: Queue)
    requires |q| > 0
    ensures exists k: Dword :: k in q && forall x :: x in q ==> k <= x
  {
    assert q.Keys != {};
    var k := LeastExists(q.Keys);
    assert k in q;
  }

  /** packets.begin(): the smallest key. */
  function Head(q: Queue): (k: Dword)
    requires |q| > 0
    ensures k in q && forall x :: x in q ==> k <= x
  {
    HeadExists(q);
    var k: Dword :| k in q && forall x :: x in q ==> k <= x;
    k
  }

  /** The packets of the queue, in the order of their keys. */
  function Listed(q: Queue): seq<Packet>
    decreases |q|
  {
    if |q| == 0 then []
    else
      assert Head(q) in q.Keys;
      [q[Head(q)]] + Listed(q - {Head(q)})
  }

  function Bag(q: Queue): multiset<Packet> {
    multiset(Listed(q))
  }

  predicate Stale(p: Packet, now: nat) {
    now >= p.time + MAX_QUEUED_MS
  }

  /** What DropOverflow leaves: heads are dropped until one is fresh. */
  function Trimmed(q: Queue, now: nat): Queue
    decreases |q|
  {
    if |q| == 0 then q
    else if !Stale(q[Head(q)], now) then q
    else
      assert Head(q) in q.Keys;
      Trimmed(q - {Head(q)}, now)
  }

  /** What DropOverflow deletes, in turn. */
  function Evicted(q: Queue, now: nat): seq<Packet>
    decreases |q|
  {
    if |q| == 0 then []
    else if !Stale(q[Head(q)], now) then []
    else
      assert Head(q) in q.Keys;
      [q[Head(q)]] + Evicted(q - {Head(q)}, now)
  }

  lemma HeadDropped(q: Queue, now: nat)
    requires |q| > 0 && Stale(q[Head(q)], now)
    ensures |q - {Head(q)}| == |q| - 1 && Trimmed(q, now) == Trimmed(q - {Head(q)}, now)
    ensures Evicted(q, now) == [q[Head(q)]] + Evicted(q - {Head(q)}, now)
  {
    assert Head(q) in q.Keys;
  }

  datatype Verdict = Late | Duplicate | Inserted

  /** Add's reaction to a change of source. */
  function Tracked(b: Buffer, p: Packet): Buffer {
    var b1 := if b.hasSsrc && p.ssrc != b.lastSsrc then b.(next := UNKNOWN, bigJumps := 0) else b;
    b1.(lastSsrc := p.ssrc, hasSsrc := true)
  }

  predicate IsPast(b: Buffer, p: Packet) {
    b.next != UNKNOWN && p.seqNum < b.next
  }

  /** Add's count of packets that came too late; the 21st resynchronises. */
  function Jumped(b: Buffer, p: Packet): Buffer {
    if !IsPast(b, p) then b
    else if b.bigJumps + 1 > MAX_BIG_JUMPS then b.(next := UNKNOWN, bigJumps := 0)
    else b.(bigJumps := b.bigJumps + 1)
  }

  function Judged(b: Buffer, p: Packet): Verdict {
    var b1 := Tracked(b, p);
    if IsPast(b1, p) && b1.bigJumps + 1 <= MAX_BIG_JUMPS then Late
    else if p.seqNum in b.packets then Duplicate
    else Inserted
  }

  function Enqueued(b: Buffer, p: Packet): Buffer {
    var q := b.packets[p.seqNum := p];
    var kept := Trimmed(q, p.time);
    b.(packets := kept, next := if kept == q then b.next else UNKNOWN)
  }

  function Added(b: Buffer, p: Packet): Buffer {
    var b1 := Jumped(Tracked(b, p), p);
    if Judged(b, p).Inserted? then Enqueued(b1, p) else b1
  }

  /** What Add deletes: the packet itself, or the heads it pushed out. */
  function FreedByAdd(b: Buffer, p: Packet): multiset<Packet> {
    if Judged(b, p).Inserted? then multiset(Evicted(b.packets[p.seqNum := p], p.time)) else multiset{p}
  }

  /** Why a packet may leave the queue. */
  datatype Reason = First | InOrder | GapTimeout | Hurried

  function Due(b: Buffer, now: nat): Option<Reason>
    requires |b.packets| > 0
  {
    var k := Head(b.packets);
    if b.next == UNKNOWN then Some(First)
    else if k == b.next then Some(InOrder)
    else if now >= b.packets[k].time + b.maxWaitTime then Some(GapTimeout)
    else if b.hurryUp then Some(Hurried)
    else None
  }

  /** One turn of Wait's loop: what it hands out, if anything. */
  function Offer(b: Buffer, now: nat): Option<Packet> {
    if b.cancel || |b.packets| == 0 || Due(b, now).None? then None else Some(b.packets[Head(b.packets)])
  }

  function Polled(b: Buffer, now: nat): Buffer {
    if b.cancel then b
    else if |b.packets| == 0 then b.(hurryUp := false)
    else if Due(b, now).None? then b
    else
      var k := Head(b.packets);
      b.(packets := b.packets - {k}, next := (k + 1) % DWORD_RANGE)
  }

  function WasReset(b: Buffer, clear: bool): Buffer {
    var b1 := b.(cancel := false, bigJumps := 0);
    if clear then b1.(packets := map[], next := UNKNOWN, hasSsrc := false) else b1
  }

  lemma HeadListed(q: Queue)
    requires |q| > 0
    ensures |q - {Head(q)}| < |q| && Listed(q) == [q[Head(q)]] + Listed(q - {Head(q)})
  {
    assert Head(q) in q.Keys;
  }

  lemma AppendCons(a: seq<Packet>, p: Packet, b: seq<Packet>)
    ensures a + ([p] + b) == a + [p] + b
  {
  }

  class RtpBuffer {
    var packets: Queue
    var cancel: bool
    var hurryUp: bool
    var next: Dword
    var maxWaitTime: Dword
    var bigJumps: nat
    var lastSsrc: Dword
    var hasSsrc: bool

    function View(): Buffer
      reads this
    {
      Buffer(packets, cancel, hurryUp, next, maxWaitTime, bigJumps, lastSsrc, hasSsrc)
    }

    constructor ()
      ensures View() == EMPTY
    {
      packets, cancel, hurryUp, next, maxWaitTime := map[], false, false, UNKNOWN, 0;
      bigJumps, lastSsrc, hasSsrc := 0, 0, false;
    }

    /** The result is what the caller sees: false only for a packet lost for lateness. */
    method Add(p: Packet) returns (ok: bool, ghost freed: multiset<Packet>)
      modifies this
      ensures View() == Added(old(View()), p)
      ensures ok == !Judged(old(View()), p).Late?
      ensures freed == FreedByAdd(old(View()), p)
    {
      if hasSsrc && p.ssrc != lastSsrc {
        next := UNKNOWN;
        bigJumps := 0;
      }
      lastSsrc := p.ssrc;
      hasSsrc := true;
      ghost var tracked := View();
      assert tracked == Tracked(old(View()), p);
      if next != UNKNOWN && p.seqNum < next {
        bigJumps := bigJumps + 1;
        if bigJumps > MAX_BIG_JUMPS {
          next := UNKNOWN;
          bigJumps := 0;
        } else {
          return false, multiset{p};
        }
      }
      ghost var jumped := View();
      assert jumped == Jumped(tracked, p);
      if p.seqNum in packets {
        return true, multiset{p};
      }
      packets := packets[p.seqNum := p];
      ghost var evicted := DropOverflow(p.time);
      return true, multiset(evicted);
    }

    /** The loop of DropOverflow. */
    method DropHeads(now: nat) returns (dropped: nat, ghost freed: seq<Packet>)
      modifies this`packets
      ensures packets == Trimmed(old(packets), now) && freed == Evicted(old(packets), now)
      ensures dropped == 0 <==> packets == old(packets)
    {
      dropped, freed := 0, [];
      while |packets| > 0
        invariant Trimmed(packets, now) == Trimmed(old(packets), now)
        invariant freed + Evicted(packets, now) == Evicted(old(packets), now)
        invariant dropped + |packets| == |old(packets)|
        invariant dropped == 0 ==> packets == old(packets)
        decreases |packets|
      {
        var oldest := Head(packets);
        if now < packets[oldest].time + MAX_QUEUED_MS {
          break;
        }
        HeadDropped(packets, now);
        AppendCons(freed, packets[oldest], Evicted(packets - {oldest}, now));
        freed := freed + [packets[oldest]];
        packets := packets - {oldest};
        dropped := dropped + 1;
      }
    }

    method DropOverflow(now: nat) returns (ghost freed: seq<Packet>)
      modifies this`packets, this`next
      ensures packets == Trimmed(old(packets), now)
      ensures next == if packets == old(packets) then old(next) else UNKNOWN
      ensures freed == Evicted(old(packets), now)
    {
      var dropped;
      dropped, freed := DropHeads(now);
      if dropped == 0 {
        return;
      }
      next := UNKNOWN;
    }

    /** One turn of Wait's loop at time `now`. */
    method Poll(now: nat) returns (r: Option<Packet>)
      modifies this
      ensures View() == Polled(old(View()), now)
      ensures r == Offer(old(View()), now)
    {
      r := None;
      if cancel {
        return;
      }
      if |packets| > 0 {
        var k := Head(packets);
        var candidate := packets[k];
        if next == UNKNOWN || k == next || now >= candidate.time + maxWaitTime || hurryUp {
          r := Some(candidate);
          next := (k + 1) % DWORD_RANGE;
          packets := packets - {k};
        }
      } else {
        hurryUp := false;
      }
    }

    /** The loop over the packets and the clear after it. */
    method ClearPackets() returns (ghost freed: seq<Packet>)
      modifies this`packets
      ensures packets == map[] && freed == Listed(old(packets))
    {
      freed := [];
      ghost var all := Listed(packets);
      var todo := packets;
      while |todo| > 0
        invariant freed + Listed(todo) == all
        decreases |todo|
      {
        var k := Head(todo);
        HeadListed(todo);
        AppendCons(freed, todo[k], Listed(todo - {k}));
        freed := freed + [todo[k]];
        todo := todo - {k};
      }
      assert freed + [] == freed;
      packets := map[];
    }

    method Reset(clear: bool) returns (ghost freed: multiset<Packet>)
      modifies this
      ensures View() == WasReset(old(View()), clear)
      ensures freed == if clear then Bag(old(packets)) else multiset{}
    {
      cancel := false;
      freed := multiset{};
      if clear {
        ghost var all := ClearPackets();
        freed := multiset(all);
        next := UNKNOWN;
        hasSsrc := false;
      }
      bigJumps := 0;
    }

    method Clear() returns (ghost freed: multiset<Packet>)
      modifies this`packets
      ensures View() == old(View()).(packets := map[]) && freed == Bag(old(packets))
    {
      ghost var all := ClearPackets();
      freed := multiset(all);
    }

    method HurryUp()
      modifies this`hurryUp
      ensures View() == old(View()).(hurryUp := true)
    {
      hurryUp := true;
    }

    method Cancel()
      modifies this`cancel
      ensures View() == old(View()).(cancel := true)
    {
      cancel := true;
    }

    method SetMaxWaitTime(ms: Dword)
      modifies this`maxWaitTime
      ensures View() == old(View()).(maxWaitTime := ms)
    {
      maxWaitTime := ms;
    }
  }
}
