/** When the sweeper destroys, why, and how soon, over every sequence of observations. */
module QueueSweeperProofs {
  import opened Common
  import opened QueueSweeper

  function Entry(o: Orphans, q: QueueId): Option<int> {
    if q in o then Some(o[q]) else None
  }

  ghost predicate Distinct(ids: seq<QueueId>) {
    forall i, j :: 0 <= i < j < |ids| ==> ids[i] != ids[j]
  }

  /** Referred to by some object, and no longer there. */
  predicate Missing(obs: Observation, q: QueueId) {
    q in obs.ids && q !in obs.present
  }

  /** The countdown of one queue as the second pass finds it, given `c` before the sweep. */
  function Found(c: Option<int>, obs: Observation, q: QueueId): Option<int> {
    if q in obs.idles then None else c
  }

  predicate GraceOver(c: Option<int>, obs: Observation, expires: int, q: QueueId) {
    Missing(obs, q) && Found(c, obs, q).Some? && obs.now - Found(c, obs, q).value > expires
  }

  /** It runs only while the queue stays missing, and starts when it is first found so. */
  function Next(c: Option<int>, obs: Observation, expires: int, q: QueueId): Option<int> {
    if !Missing(obs, q) || GraceOver(c, obs, expires, q) then None
    else if Found(c, obs, q).Some? then Found(c, obs, q)
    else Some(obs.now)
  }

  // ---------- One sweep, one queue ----------

  lemma {:induction false} ForgottenEntry(o: Orphans, idles: seq<QueueId>, q: QueueId)
    ensures Entry(Forgotten(o, idles), q) == if q in idles then None else Entry(o, q)
  {
    if idles != [] {
      ForgottenEntry(o, idles[..|idles| - 1], q);
      assert q in idles <==> q in idles[..|idles| - 1] || q == idles[|idles| - 1];
    }
  }

  lemma {:induction false} ReviewEntry(o: Orphans, ids: seq<QueueId>, obs: Observation, expires: int, q: QueueId)
    requires Distinct(ids)
    ensures Entry(ReviewAll(o, ids, obs, expires).0, q)
            == if q in ids then Entry(Reviewed(o, q, obs, expires), q) else Entry(o, q)
    ensures DeleteOwners(q) in ReviewAll(o, ids, obs, expires).1
            <==> q in ids && q !in obs.present && Overdue(o, q, obs.now, expires)
    ensures forall i :: 0 <= i < |ReviewAll(o, ids, obs, expires).1| ==>
            ReviewAll(o, ids, obs, expires).1[i].DeleteOwners?
  {
    if ids != [] {
      var init, last := ids[..|ids| - 1], ids[|ids| - 1];
      ReviewEntry(o, init, obs, expires, q);
      assert q in ids <==> q in init || q == last;
    }
  }

  lemma {:induction false} IdleDeletes(idles: seq<QueueId>, q: QueueId)
    ensures DeleteOwners(q) in IdleEffects(idles) <==> q in idles
    ensures DestroyQueue(q) in IdleEffects(idles) <==> q in idles
  {
    if idles != [] {
      IdleDeletes(idles[..|idles| - 1], q);
      assert q in idles <==> q in idles[..|idles| - 1] || q == idles[|idles| - 1];
    }
  }

  /**
   A sweep deletes the owners of exactly the idle queues and those whose grace is over; it destroys the idle
   queues only.
   */
  lemma SweepDeletes(o: Orphans, obs: Observation, expires: int, q: QueueId)
    requires Distinct(obs.ids)
    ensures DeleteOwners(q) in Swept(o, obs, expires).1 <==> q in obs.idles || GraceOver(Entry(o, q), obs, expires, q)
    ensures DestroyQueue(q) in Swept(o, obs, expires).1 <==> q in obs.idles
  {
    IdleDeletes(obs.idles, q);
    ForgottenEntry(o, obs.idles, q);
    ReviewEntry(Forgotten(o, obs.idles), obs.ids, obs, expires, q);
  }

  /** A sweep moves the countdown of each queue on its own. */
  lemma SweepEntry(o: Orphans, obs: Observation, expires: int, q: QueueId)
    requires Distinct(obs.ids)
    ensures Entry(Swept(o, obs, expires).0, q) == Next(Entry(o, q), obs, expires, q)
  {
    ForgottenEntry(o, obs.idles, q);
    ReviewEntry(Forgotten(o, obs.idles), obs.ids, obs, expires, q);
  }

  /** Objects first, then their queue: each destruction directly follows the deletion of its owners. */
  lemma {:induction false} OwnersBeforeQueue(o: Orphans, obs: Observation, expires: int, i: nat)
    requires Distinct(obs.ids) && i < |Swept(o, obs, expires).1| && Swept(o, obs, expires).1[i].DestroyQueue?
    ensures i > 0 && Swept(o, obs, expires).1[i - 1] == DeleteOwners(Swept(o, obs, expires).1[i].queue)
  {
    ReviewEntry(Forgotten(o, obs.idles), obs.ids, obs, expires, Swept(o, obs, expires).1[i].queue);
    PairedIdle(obs.idles, i);
  }

  lemma {:induction false} PairedIdle(idles: seq<QueueId>, i: nat)
    requires i < |IdleEffects(idles)| && IdleEffects(idles)[i].DestroyQueue?
    ensures i > 0 && IdleEffects(idles)[i - 1] == DeleteOwners(IdleEffects(idles)[i].queue)
  {
    if i < |IdleEffects(idles[..|idles| - 1])| {
      PairedIdle(idles[..|idles| - 1], i);
    }
  }

  // ---------- Runs ----------

  ghost predicate Valid(obs: seq<Observation>) {
    forall i :: 0 <= i < |obs| ==> Distinct(obs[i].ids)
  }

  /** A state carried through the first `n` observations. */
  function Fold<S>(step: (S, Observation) -> S, start: S, obs: seq<Observation>, n: nat): S
    requires n <= |obs|
  {
    if n == 0 then start else step(Fold(step, start, obs, n - 1), obs[n - 1])
  }

  type Sweep = (Orphans, Observation) -> Orphans

  function Sweeping(expires: int): Sweep {
    (o: Orphans, obs: Observation) => Swept(o, obs, expires).0
  }

  /** The orphans after the first `n` sweeps. */
  function After(obs: seq<Observation>, expires: int, n: nat): Orphans
    requires n <= |obs|
  {
    Fold(Sweeping(expires), map[], obs, n)
  }

  function EffectsOf(obs: seq<Observation>, expires: int, n: nat): seq<Effect>
    requires n < |obs|
  {
    Swept(After(obs, expires, n), obs[n], expires).1
  }

  type Countdown = (Option<int>, Observation) -> Option<int>

  function Counting(expires: int, q: QueueId): Countdown {
    (c: Option<int>, obs: Observation) => Next(c, obs, expires, q)
  }

  /** The countdown of one queue after the first `n` sweeps. */
  function Count(obs: seq<Observation>, expires: int, q: QueueId, n: nat): Option<int>
    requires n <= |obs|
  {
    Fold(Counting(expires, q), None, obs, n)
  }

  lemma CountStep(obs: seq<Observation>, expires: int, q: QueueId, n: nat)
    requires n < |obs|
    ensures Count(obs, expires, q, n + 1) == Next(Count(obs, expires, q, n), obs[n], expires, q)
  {
  }

  ghost predicate Follows(sweep: Sweep, count: Countdown, obs: Observation, q: QueueId) {
    forall o :: Entry(sweep(o, obs), q) == count(Entry(o, q), obs)
  }

  lemma {:induction false} FoldsAgree(sweep: Sweep, count: Countdown, obs: seq<Observation>, q: QueueId, n: nat)
    requires n <= |obs| && forall k :: 0 <= k < n ==> Follows(sweep, count, obs[k], q)
    ensures Entry(Fold(sweep, map[], obs, n), q) == Fold(count, None, obs, n)
  {
    if n > 0 {
      FoldsAgree(sweep, count, obs, q, n - 1);
      assert Follows(sweep, count, obs[n - 1], q);
    }
  }

  lemma SweepFollows(obs: Observation, expires: int, q: QueueId)
    requires Distinct(obs.ids)
    ensures Follows(Sweeping(expires), Counting(expires, q), obs, q)
  {
    var sweep, count := Sweeping(expires), Counting(expires, q);
    forall o
      ensures Entry(sweep(o, obs), q) == count(Entry(o, q), obs)
    {
      SweepEntry(o, obs, expires, q);
    }
  }

  lemma AfterCounts(obs: seq<Observation>, expires: int, q: QueueId, n: nat)
    requires Valid(obs) && n <= |obs|
    ensures Entry(After(obs, expires, n), q) == Count(obs, expires, q, n)
  {
    forall k | 0 <= k < n
      ensures Follows(Sweeping(expires), Counting(expires, q), obs[k], q)
    {
      SweepFollows(obs[k], expires, q);
    }
    FoldsAgree(Sweeping(expires), Counting(expires, q), obs, q, n);
  }

  /** Whether sweep `n` deletes the owners of `q`. */
  predicate Deletes(obs: seq<Observation>, expires: int, q: QueueId, n: nat)
    requires n < |obs|
  {
    q in obs[n].idles || GraceOver(Count(obs, expires, q, n), obs[n], expires, q)
  }

  lemma EffectsDelete(obs: seq<Observation>, expires: int, q: QueueId, n: nat)
    requires Valid(obs) && n < |obs|
    ensures DeleteOwners(q) in EffectsOf(obs, expires, n) <==> Deletes(obs, expires, q, n)
  {
    AfterCounts(obs, expires, q, n);
    SweepDeletes(After(obs, expires, n), obs[n], expires, q);
  }

  /** `q` was missing at every sweep from `j` up to `n`, and never in the census after `j`. */
  ghost predicate MissingSince(obs: seq<Observation>, q: QueueId, j: nat, n: nat) {
    j < n <= |obs| && forall k :: j <= k < n ==> Missing(obs[k], q) && (j < k ==> q !in obs[k].idles)
  }

  lemma {:induction false} CountdownOrigin(obs: seq<Observation>, expires: int, q: QueueId, n: nat) returns (j: nat)
    requires n <= |obs| && Count(obs, expires, q, n).Some?
    ensures MissingSince(obs, q, j, n) && obs[j].now == Count(obs, expires, q, n).value
  {
    assert n > 0;
    CountStep(obs, expires, q, n - 1);
    if Found(Count(obs, expires, q, n - 1), obs[n - 1], q).Some? {
      j := CountdownOrigin(obs, expires, q, n - 1);
    } else {
      j := n - 1;
    }
  }

  /**
   Destruction is justified: the owners of a queue are deleted only if the census of the same sweep found it
   idle, or if it was missing at every sweep since one that is more than the grace time older.
   */
  lemma DestructionJustified(obs: seq<Observation>, expires: int, q: QueueId, n: nat)
    requires Valid(obs) && n < |obs| && DeleteOwners(q) in EffectsOf(obs, expires, n)
    ensures q in obs[n].idles || exists j: nat :: MissingSince(obs, q, j, n + 1) && obs[n].now - obs[j].now > expires
  {
    EffectsDelete(obs, expires, q, n);
    if q !in obs[n].idles {
      var j := CountdownOrigin(obs, expires, q, n);
      assert MissingSince(obs, q, j, n + 1);
    }
  }

  /** After each sweep the countdowns are those of queues that objects still refer to and that are gone. */
  lemma OrphansReferenced(obs: seq<Observation>, expires: int, n: nat, q: QueueId)
    requires Valid(obs) && 0 < n <= |obs| && q in After(obs, expires, n)
    ensures Missing(obs[n - 1], q)
  {
    AfterCounts(obs, expires, q, n);
    CountStep(obs, expires, q, n - 1);
  }

  /** Sweeps follow each other within `period`. */
  ghost predicate Paced(obs: seq<Observation>, period: nat) {
    forall i :: 0 < i < |obs| ==> obs[i - 1].now <= obs[i].now <= obs[i - 1].now + period
  }

  lemma {:induction false} Later(obs: seq<Observation>, period: nat, i: nat, j: nat)
    requires Paced(obs, period) && i <= j < |obs|
    ensures obs[i].now <= obs[j].now
  {
    if i < j {
      Later(obs, period, i, j - 1);
    }
  }

  lemma ArmedEarlier(obs: seq<Observation>, expires: int, period: nat, q: QueueId, n: nat)
    requires Paced(obs, period) && n < |obs| && Count(obs, expires, q, n).Some?
    ensures Count(obs, expires, q, n).value <= obs[n].now
  {
    var j := CountdownOrigin(obs, expires, q, n);
    Later(obs, period, j, n);
  }

  /** What a sweep at `now` makes of the countdown of a missing queue, unless it deletes its owners. */
  predicate KeepsCounting(c: Option<int>, c': Option<int>, now: int, deletes: bool, expires: nat) {
    deletes || (c' == Some(if c.Some? then c.value else now) && now - c'.value <= expires)
  }

  ghost predicate DeletedBy(now: seq<int>, deletes: seq<bool>, j: nat, n: nat, deadline: int)
    requires n <= |now| == |deletes|
  {
    exists i :: j <= i < n && deletes[i] && now[i] <= deadline
  }

  lemma {:induction false} DeletedInTime(now: seq<int>, counts: seq<Option<int>>, deletes: seq<bool>,
                                         expires: nat, period: nat, j: nat, n: nat)
    requires j < n <= |now| == |deletes| && |counts| == |now| + 1
    requires forall k :: j <= k < n ==> KeepsCounting(counts[k], counts[k + 1], now[k], deletes[k], expires)
    requires forall k :: j < k < n ==> now[k] <= now[k - 1] + period
    requires counts[j].Some? ==> counts[j].value <= now[j]
    ensures DeletedBy(now, deletes, j, n, now[j] + expires + period)
         || (counts[n].Some? && counts[n].value <= now[j] && now[n - 1] <= now[j] + expires)
    decreases n
  {
    var i, deadline := n - 1, now[j] + expires + period;
    assert KeepsCounting(counts[i], counts[i + 1], now[i], deletes[i], expires);
    if i > j {
      DeletedInTime(now, counts, deletes, expires, period, j, i);
      if DeletedBy(now, deletes, j, i, deadline) {
        var k :| j <= k < i && deletes[k] && now[k] <= deadline;
        assert DeletedBy(now, deletes, j, n, deadline);
        return;
      }
    }
    if deletes[i] {
      assert now[i] <= deadline;
    }
  }

  lemma MissingKeepsCounting(obs: seq<Observation>, expires: nat, q: QueueId, k: nat)
    requires k < |obs| && Missing(obs[k], q)
    ensures KeepsCounting(Count(obs, expires, q, k), Count(obs, expires, q, k + 1), obs[k].now,
            Deletes(obs, expires, q, k), expires)
  {
    CountStep(obs, expires, q, k);
  }

  /**
   Destruction is timely: a queue that is missing from sweep `j` on loses its owners by the first sweep past
   the grace time, so no later than one period after it.
   */
  lemma DestructionTimely(obs: seq<Observation>, expires: nat, period: nat, q: QueueId, j: nat, n: nat)
    requires Valid(obs) && Paced(obs, period) && MissingSince(obs, q, j, n)
    requires obs[n - 1].now > obs[j].now + expires
    ensures exists i ::
              && j <= i < n && DeleteOwners(q) in EffectsOf(obs, expires, i)
              && obs[i].now <= obs[j].now + expires + period
  {
    var now := seq(|obs|, k requires 0 <= k < |obs| => obs[k].now);
    var counts := seq(|obs| + 1, k requires 0 <= k <= |obs| => Count(obs, expires, q, k));
    var deletes := seq(|obs|, k requires 0 <= k < |obs| => Deletes(obs, expires, q, k));
    forall k | j <= k < n
      ensures KeepsCounting(counts[k], counts[k + 1], now[k], deletes[k], expires)
    {
      MissingKeepsCounting(obs, expires, q, k);
    }
    if counts[j].Some? {
      ArmedEarlier(obs, expires, period, q, j);
    }
    DeletedInTime(now, counts, deletes, expires, period, j, n);
    var i :| j <= i < n && deletes[i] && now[i] <= now[j] + expires + period;
    EffectsDelete(obs, expires, q, i);
  }
  /** The first sweep from the moment `gone` on comes within one period of it. */
  lemma FirstSweepFrom(obs: seq<Observation>, period: nat, gone: int, n: nat) returns (j: nat)
    requires Paced(obs, period) && 0 < n <= |obs| && obs[0].now < gone <= obs[n - 1].now
    ensures 0 < j < n && obs[j - 1].now < gone <= obs[j].now <= gone + period
  {
    j := n - 1;
    while obs[j - 1].now >= gone
      invariant 0 < j < n && gone <= obs[j].now
      decreases j
    {
      j := j - 1;
    }
  }

  /** Whoever looks from the moment `gone` on finds references to `q` and no such queue. */
  ghost predicate GoneFrom(obs: seq<Observation>, q: QueueId, gone: int) {
    forall k :: 0 <= k < |obs| && obs[k].now >= gone ==> Missing(obs[k], q) && q !in obs[k].idles
  }

  /**
   From the moment a queue disappears its owners have the grace time and two periods at most, with the delays of
   StartSweeper.
   */
  lemma GoneDeleted(obs: seq<Observation>, secs: Int32, q: QueueId, gone: int)
    requires 0 < secs <= MAX_DELAY_SECS && Valid(obs) && Paced(obs, Started(secs).period) && GoneFrom(obs, q, gone)
    requires obs != [] && obs[0].now < gone
    requires var t := Started(secs); obs[|obs| - 1].now > gone + t.expires + t.period
    ensures exists i ::
              && 0 <= i < |obs| && DeleteOwners(q) in EffectsOf(obs, Started(secs).expires, i)
              && gone <= obs[i].now <= gone + Started(secs).expires + 2 * Started(secs).period
  {
    var t, n := Started(secs), |obs|;
    var j := FirstSweepFrom(obs, t.period, gone, n);
    forall k | j <= k < n
      ensures Missing(obs[k], q) && q !in obs[k].idles
    {
      Later(obs, t.period, j, k);
    }
    DestructionTimely(obs, t.expires, t.period, q, j, n);
    var i :| j <= i < n && DeleteOwners(q) in EffectsOf(obs, t.expires, i)
             && obs[i].now <= obs[j].now + t.expires + t.period;
    Later(obs, t.period, j, i);
  }
}
