/**
 `EventQueueSweeper`: destroys the objects attached to an event queue whose controller is gone.  What a
 sweep learns from the service and the event manager is an `Observation`, unconstrained: the queues,
 their pollers and the owners may change at any time, between two sweeps or during one.
 */
module QueueSweeper {
  import opened Common

  type QueueId = Dword

  const MAX_SWEEP_PERIOD_SECS := 10

  /** The longest delay whose milliseconds have 32 bits. */
  const MAX_DELAY_SECS := 2_147_483

  type Int32 = i: int | -0x8000_0000 <= i < 0x8000_0000

  datatype Timing = Timing(expires: int, period: int)

  /** An `int` product; the overflow that C++ leaves undefined wraps around here. */
  function Wrapped(x: int): Int32 {
    (x + 0x8000_0000) % DWORD_RANGE - 0x8000_0000
  }

  /** StartSweeper: a delay that is not positive disables the sweeper, and the period never exceeds it. */
  function Started(expiresSecs: Int32): (t: Timing)
    ensures t.period <= t.expires && t.period <= 10_000
    ensures expiresSecs <= MAX_DELAY_SECS ==> (0 < t.period <==> 0 < expiresSecs)
  {
    var secs: int := expiresSecs;
    var expires := if secs > 0 then Wrapped(secs * 1000) else 0;
    Timing(expires, if expires < MAX_SWEEP_PERIOD_SECS * 1000 then expires else MAX_SWEEP_PERIOD_SECS * 1000)
  }

  /** A sweep every ten seconds, or every grace time if that is shorter. */
  lemma PeriodExact(expiresSecs: Int32)
    requires 0 < expiresSecs <= MAX_DELAY_SECS
    ensures var secs: int := expiresSecs;
            Started(expiresSecs) == Timing(1000 * secs, 1000 * if secs < 10 then secs else 10)
  {
  }

  /** The grace time is the delay asked for exactly up to 2147483 seconds. */
  lemma DelayExact(expiresSecs: Int32)
    ensures var secs: int := expiresSecs;
            Started(expiresSecs).expires == (if secs > 0 then secs * 1000 else 0) <==> expiresSecs <= MAX_DELAY_SECS
  {
  }

  /** One second more, and the thread starts with a negative grace time and period. */
  lemma DelayOverflows(expiresSecs: Int32)
    requires expiresSecs == MAX_DELAY_SECS + 1
    ensures Started(expiresSecs).expires < 0 && Started(expiresSecs).period < 0
  {
  }

  /**
   `idles`: the census of queues nobody polls; `ids`: the queues the service's objects refer to, in
   order; `present`: those for which HasQueue answered yes; `now`: the clock read between the two passes.
   */
  datatype Observation = Observation(idles: seq<QueueId>, ids: seq<QueueId>, present: set<QueueId>, now: int)

  datatype Effect = DeleteOwners(queue: QueueId) | DestroyQueue(queue: QueueId)

  /** Queues gone but still referred to, and when that was first noticed. */
  type Orphans = map<QueueId, int>

  // ---------- First pass: idle queues ----------

  function IdleEffects(idles: seq<QueueId>): seq<Effect> {
    if idles == [] then []
    else IdleEffects(idles[..|idles| - 1]) + [DeleteOwners(idles[|idles| - 1]), DestroyQueue(idles[|idles| - 1])]
  }

  function Forgotten(o: Orphans, idles: seq<QueueId>): Orphans {
    if idles == [] then o else Forgotten(o, idles[..|idles| - 1]) - {idles[|idles| - 1]}
  }

  // ---------- Second pass: referenced queues ----------

  predicate Overdue(o: Orphans, q: QueueId, now: int, expires: int) {
    q in o && now - o[q] > expires
  }

  function Reviewed(o: Orphans, q: QueueId, obs: Observation, expires: int): Orphans {
    if q in obs.present then o - {q}
    else if q !in o then o[q := obs.now]
    else if Overdue(o, q, obs.now, expires) then o - {q}
    else o
  }

  function ReviewEffects(o: Orphans, q: QueueId, obs: Observation, expires: int): seq<Effect> {
    if q !in obs.present && Overdue(o, q, obs.now, expires) then [DeleteOwners(q)] else []
  }

  function ReviewAll(o: Orphans, ids: seq<QueueId>, obs: Observation, expires: int): (Orphans, seq<Effect>) {
    if ids == [] then (o, [])
    else
      var (o1, e1) := ReviewAll(o, ids[..|ids| - 1], obs, expires);
      var q := ids[|ids| - 1];
      (Reviewed(o1, q, obs, expires), e1 + ReviewEffects(o1, q, obs, expires))
  }

  function Purged(o: Orphans, ids: seq<QueueId>): Orphans {
    map q | q in o && q in ids :: o[q]
  }

  function Swept(o: Orphans, obs: Observation, expires: int): (Orphans, seq<Effect>) {
    var (o1, e1) := ReviewAll(Forgotten(o, obs.idles), obs.ids, obs, expires);
    (Purged(o1, obs.ids), IdleEffects(obs.idles) + e1)
  }

  class EventQueueSweeper {
    var timing: Timing
    var hasManager: bool
    var orphans: Orphans

    constructor ()
      ensures orphans == map[] && !hasManager && timing == Timing(0, 0)
    {
      timing := Timing(0, 0);
      hasManager := false;
      orphans := map[];
    }

    /** True if the sweeping thread starts. */
    method StartSweeper(manager: bool, expiresSecs: Int32) returns (armed: bool)
      modifies this`timing, this`hasManager
      ensures timing == Started(expiresSecs) && hasManager == manager
      ensures armed == (Started(expiresSecs).expires != 0)
      ensures expiresSecs <= MAX_DELAY_SECS ==> armed == (expiresSecs > 0)
    {
      hasManager := manager;
      timing := Started(expiresSecs);
      armed := timing.expires != 0;
    }

    method Sweep(obs: Observation) returns (effects: seq<Effect>)
      modifies this`orphans
      ensures (orphans, effects) == if hasManager then Swept(old(orphans), obs, timing.expires) else (old(orphans), [])
    {
      effects := [];
      if !hasManager {
        return;
      }
      for i := 0 to |obs.idles|
        invariant effects == IdleEffects(obs.idles[..i]) && orphans == Forgotten(old(orphans), obs.idles[..i])
      {
        var queueId := obs.idles[i];
        assert obs.idles[..i + 1][..i] == obs.idles[..i];
        effects := effects + [DeleteOwners(queueId), DestroyQueue(queueId)];
        orphans := orphans - {queueId};
      }
      assert obs.idles[..|obs.idles|] == obs.idles;
      var graceful := ReviewLoop(obs);
      PurgeLoop(obs.ids);
      effects := effects + graceful;
    }

    method ReviewLoop(obs: Observation) returns (effects: seq<Effect>)
      modifies this`orphans
      ensures (orphans, effects) == ReviewAll(old(orphans), obs.ids, obs, timing.expires)
    {
      effects := [];
      for i := 0 to |obs.ids|
        invariant (orphans, effects) == ReviewAll(old(orphans), obs.ids[..i], obs, timing.expires)
      {
        var queueId := obs.ids[i];
        assert obs.ids[..i + 1][..i] == obs.ids[..i] && effects + [] == effects;
        if queueId in obs.present {
          orphans := orphans - {queueId};
        } else if queueId !in orphans {
          orphans := orphans[queueId := obs.now];
        } else if obs.now - orphans[queueId] > timing.expires {
          effects := effects + [DeleteOwners(queueId)];
          orphans := orphans - {queueId};
        }
      }
      assert obs.ids[..|obs.ids|] == obs.ids;
    }

    method PurgeLoop(ids: seq<QueueId>)
      modifies this`orphans
      ensures orphans == Purged(old(orphans), ids)
    {
      while exists q :: q in orphans && q !in ids
        invariant forall q :: q in orphans ==> q in old(orphans) && orphans[q] == old(orphans)[q]
        invariant forall q :: q in old(orphans) && q in ids ==> q in orphans
        decreases |orphans|
      {
        var q :| q in orphans && q !in ids;
        assert q in orphans.Keys;
        orphans := orphans - {q};
      }
      SameMap(orphans, Purged(old(orphans), ids));
    }
  }

  lemma SameMap(a: Orphans, b: Orphans)
    requires forall q :: q in a <==> q in b
    requires forall q :: q in a && q in b ==> a[q] == b[q]
    ensures a == b
  {
    assert a.Keys == b.Keys;
  }
}
