/** Who there is, who is where and who listens to what, told by the control operations alone. */
module AudioMixerHistory {
  import opened Common
  import opened AudioMixer
  import opened AudioMixerProofs

  predicate Creates(op: Op) {
    op.CreateSidebar? || Starts(op)
  }

  /** Sidebars created so far; the next one gets this number. */
  function Creations(ops: seq<Op>, n: nat): nat
    requires n <= |ops|
  {
    if n == 0 then 0 else Creations(ops, n - 1) + if Creates(ops[n - 1]) then 1 else 0
  }

  /** The sidebar made by the latest successful Init, until End. */
  function Default(ops: seq<Op>, n: nat): Option<nat>
    requires n <= |ops|
  {
    if n == 0 || ops[n - 1].End? then None
    else if Starts(ops[n - 1]) then Some(Creations(ops, n - 1))
    else Default(ops, n - 1)
  }

  /** Created, and not deleted since. */
  predicate Known(ops: seq<Op>, n: nat, id: Id)
    requires n <= |ops|
  {
    && n > 0
    && (ops[n - 1] == CreateMixer(id)
        || (Known(ops, n - 1, id) && ops[n - 1] != DeleteMixer(id) && !ops[n - 1].End?))
  }

  /** Created, and neither deleted, which the default sidebar cannot be, nor ended since. */
  predicate Live(ops: seq<Op>, n: nat, k: nat)
    requires n <= |ops|
  {
    && n > 0
    && ((Creates(ops[n - 1]) && Creations(ops, n - 1) == k)
        || (Live(ops, n - 1, k) && !ops[n - 1].End?
            && (ops[n - 1] == DeleteSidebar(k) ==> Default(ops, n - 1) == Some(k))))
  }

  /** Let into sidebar `k` by the last of `n` operations. */
  predicate Joins(ops: seq<Op>, n: nat, k: nat, id: Id)
    requires n < |ops|
  {
    || (ops[n] == AddParticipant(k, id) && Live(ops, n, k))
    || (ops[n].InitMixer? && ops[n].id == id && Known(ops, n, id) && Default(ops, n) == Some(k))
  }

  /** Taken out of sidebar `k`. */
  predicate Quits(ops: seq<Op>, n: nat, k: nat, id: Id)
    requires n < |ops|
  {
    ops[n] == RemoveParticipant(k, id) || (ops[n] == EndMixer(id) && Known(ops, n, id)) || !Live(ops, n + 1, k)
  }

  /** Let in, and not taken out since. */
  predicate Member(ops: seq<Op>, n: nat, k: nat, id: Id)
    requires n <= |ops|
  {
    n > 0 && (Joins(ops, n - 1, k, id) || (Member(ops, n - 1, k, id) && !Quits(ops, n - 1, k, id)))
  }

  predicate Retuning(op: Op, id: Id) {
    (op.SetMixerSidebar? || op.InitMixer?) && op.id == id
  }

  /** The sidebar a source was last sent to, while both last; none if the source was ended. */
  function Tuned(ops: seq<Op>, n: nat, id: Id): Option<nat>
    requires n <= |ops|
  {
    if n == 0 || !Known(ops, n - 1, id) || !Known(ops, n, id) || ops[n - 1] == EndMixer(id) then None
    else if Retuning(ops[n - 1], id) && ops[n - 1].sidebar >= 0 && Live(ops, n - 1, ops[n - 1].sidebar) then
      Some(ops[n - 1].sidebar)
    else if Tuned(ops, n - 1, id).Some? && !Live(ops, n, Tuned(ops, n - 1, id).value) then None
    else Tuned(ops, n - 1, id)
  }

  // ---------- The fields are the history's ----------

  ghost predicate Numbered(s: State, ops: seq<Op>, n: nat)
    requires n <= |ops|
  {
    s.numSidebars == Creations(ops, n) && s.default == Default(ops, n)
  }

  ghost predicate Recorded(s: State, ops: seq<Op>, n: nat)
    requires n <= |ops|
  {
    && Numbered(s, ops, n)
    && (forall k: nat :: k in s.sidebars <==> Live(ops, n, k))
    && (forall id: Id :: id in s.audios <==> Known(ops, n, id))
  }

  ghost predicate Peopled(s: State, ops: seq<Op>, n: nat)
    requires n <= |ops|
  {
    && (forall k: nat, id: Id :: Member(ops, n, k, id) <==> k in s.sidebars && id in s.sidebars[k])
    && (forall id: Id :: id in s.audios ==> s.audios[id] == Tuned(ops, n, id))
  }

  lemma NumberedStep(s: State, ops: seq<Op>, n: nat)
    requires n < |ops| && Numbered(s, ops, n) && Allowed(s, ops[n])
    ensures Numbered(Apply(s, ops[n]), ops, n + 1)
  {
  }

  lemma LiveStep(s: State, ops: seq<Op>, n: nat, k: nat)
    requires n < |ops| && Recorded(s, ops, n) && Allowed(s, ops[n])
    ensures k in Apply(s, ops[n]).sidebars <==> Live(ops, n + 1, k)
  {
  }

  lemma KnownStep(s: State, ops: seq<Op>, n: nat, id: Id)
    requires n < |ops| && Recorded(s, ops, n) && Allowed(s, ops[n])
    ensures id in Apply(s, ops[n]).audios <==> Known(ops, n + 1, id)
  {
  }

  lemma RecordedStep(s: State, ops: seq<Op>, n: nat)
    requires n < |ops| && Recorded(s, ops, n) && Allowed(s, ops[n])
    ensures Recorded(Apply(s, ops[n]), ops, n + 1)
  {
    NumberedStep(s, ops, n);
    forall k: nat
      ensures k in Apply(s, ops[n]).sidebars <==> Live(ops, n + 1, k)
    {
      LiveStep(s, ops, n, k);
    }
    forall id: Id
      ensures id in Apply(s, ops[n]).audios <==> Known(ops, n + 1, id)
    {
      KnownStep(s, ops, n, id);
    }
  }

  lemma MembersStep(s: State, ops: seq<Op>, n: nat, k: nat, id: Id)
    requires n < |ops| && Inv(s) && Recorded(s, ops, n) && Peopled(s, ops, n) && Allowed(s, ops[n])
    requires Recorded(Apply(s, ops[n]), ops, n + 1)
    ensures var s' := Apply(s, ops[n]);
            Member(ops, n + 1, k, id) <==> k in s'.sidebars && id in s'.sidebars[k]
  {
  }

  lemma TunedStep(s: State, ops: seq<Op>, n: nat, id: Id)
    requires n < |ops| && Inv(s) && Recorded(s, ops, n) && Peopled(s, ops, n) && Allowed(s, ops[n])
    requires Recorded(Apply(s, ops[n]), ops, n + 1)
    ensures var s' := Apply(s, ops[n]);
            id in s'.audios ==> s'.audios[id] == Tuned(ops, n + 1, id)
  {
  }

  /**
   In every run the sources, the sidebars with their participants and what each source listens to are those the
   operations so far call for.
   */
  lemma {:induction false} StateRecorded(r: seq<State>, ops: seq<Op>, n: nat)
    requires IsRun(r, ops) && n < |r|
    ensures Recorded(r[n], ops, n) && Peopled(r[n], ops, n)
  {
    if n > 0 {
      StateRecorded(r, ops, n - 1);
      PointersLive(r, ops, n - 1);
      var s := r[n - 1];
      RecordedStep(s, ops, n - 1);
      forall k: nat, id: Id
        ensures Member(ops, n, k, id) <==> k in r[n].sidebars && id in r[n].sidebars[k]
      {
        MembersStep(s, ops, n - 1, k, id);
      }
      forall id: Id
        ensures id in r[n].audios ==> r[n].audios[id] == Tuned(ops, n, id)
      {
        TunedStep(s, ops, n - 1, id);
      }
    }
  }
}
