/**
 The control operations of `AudioMixer`: which participants there are, which sidebar each listens to, and who
 contributes to which sidebar.  A pointer to a sidebar is the number the sidebar was created under; a pointer is
 live while that number is in the map.
 */
module AudioMixer {
  import opened Common

  /** A participant number, a C++ `int`. */
  type Id = i: int | -0x8000_0000 <= i < 0x8000_0000

  /**
   `audios`: the sidebar each source listens to; `sidebars`: the participants of each; `default`: the sidebar
   everybody contributes to, from Init to End.
   */
  datatype State = State(audios: map<Id, Option<nat>>, sidebars: map<nat, set<Id>>, default: Option<nat>,
                         numSidebars: nat)

  const NEW_MIXER := State(map[], map[], None, 0)

  datatype Op =
    | Init(rate: Dword)
    | End
    | CreateMixer(id: Id)
    | InitMixer(id: Id, sidebar: int)
    | EndMixer(id: Id)
    | DeleteMixer(id: Id)
    | SetMixerSidebar(id: Id, sidebar: int)
    | CreateSidebar
    | DeleteSidebar(sidebar: int)
    | AddParticipant(sidebar: int, part: Id)
    | RemoveParticipant(sidebar: int, part: Id)

  predicate Supported(rate: Dword) {
    rate == 8000 || rate == 16000 || rate == 32000 || rate == 48000
  }

  function Without(sidebars: map<nat, set<Id>>, id: Id): map<nat, set<Id>> {
    map k | k in sidebars :: sidebars[k] - {id}
  }

  lemma WithoutTwice(sidebars: map<nat, set<Id>>, k: nat, id: Id)
    requires k in sidebars
    ensures Without(sidebars[k := sidebars[k] - {id}], id) == Without(sidebars, id)
  {
    var twice, once := Without(sidebars[k := sidebars[k] - {id}], id), Without(sidebars, id);
    assert sidebars[k] - {id} - {id} == sidebars[k] - {id};
    assert twice.Keys == once.Keys && forall j :: j in once ==> twice[j] == once[j];
  }

  function Forgotten(audios: map<Id, Option<nat>>, sidebar: nat): map<Id, Option<nat>> {
    map i | i in audios :: if audios[i] == Some(sidebar) then None else audios[i]
  }

  function WithSidebar(s: State): State {
    s.(sidebars := s.sidebars[s.numSidebars := {}], numSidebars := s.numSidebars + 1)
  }

  /** A sidebar that does not exist leaves the source as it is, though the log calls it send only. */
  function Listening(s: State, id: Id, sidebar: int): State {
    if sidebar in s.sidebars then s.(audios := s.audios[id := Some(sidebar)]) else s
  }

  /** Between Init and End the default sidebar is there to be written to. */
  predicate Running(s: State) {
    s.default.Some? && s.default.value in s.sidebars
  }

  /** InitMixer and EndMixer of a known source write to the default sidebar without looking. */
  predicate Allowed(s: State, op: Op) {
    (op.InitMixer? || op.EndMixer?) && op.id in s.audios ==> Running(s)
  }

  function Apply(s: State, op: Op): State
    requires Allowed(s, op)
  {
    match op
    case Init(rate) => if Supported(rate) then WithSidebar(s).(default := Some(s.numSidebars)) else s
    case End => State(map[], map[], None, s.numSidebars)
    case CreateMixer(id) => if id in s.audios then s else s.(audios := s.audios[id := None])
    case InitMixer(id, sidebar) =>
      if id !in s.audios then s
      else
        var d := s.default.value;
        Listening(s, id, sidebar).(sidebars := s.sidebars[d := s.sidebars[d] + {id}])
    case EndMixer(id) =>
      if id !in s.audios then s else s.(audios := s.audios[id := None], sidebars := Without(s.sidebars, id))
    case DeleteMixer(id) => s.(audios := s.audios - {id})
    case SetMixerSidebar(id, sidebar) => if id !in s.audios then s else Listening(s, id, sidebar)
    case CreateSidebar => WithSidebar(s)
    case DeleteSidebar(sidebar) =>
      if sidebar !in s.sidebars || s.default == Some(sidebar) then s
      else s.(audios := Forgotten(s.audios, sidebar), sidebars := s.sidebars - {sidebar})
    case AddParticipant(sidebar, part) =>
      if sidebar !in s.sidebars then s else s.(sidebars := s.sidebars[sidebar := s.sidebars[sidebar] + {part}])
    case RemoveParticipant(sidebar, part) =>
      if sidebar !in s.sidebars then s else s.(sidebars := s.sidebars[sidebar := s.sidebars[sidebar] - {part}])
  }

  function GetMixerSidebar(s: State, id: Id): int {
    if id in s.audios && s.audios[id].Some? && s.audios[id].value in s.sidebars then s.audios[id].value else -1
  }

  class Mixer {
    var audios: map<Id, Option<nat>>
    var sidebars: map<nat, set<Id>>
    var default: Option<nat>
    var numSidebars: nat

    function View(): State
      reads this
    {
      State(audios, sidebars, default, numSidebars)
    }

    constructor ()
      ensures View() == NEW_MIXER
    {
      audios, sidebars, default, numSidebars := map[], map[], None, 0;
    }

    method CreateSidebar() returns (id: nat)
      modifies this
      ensures View() == WithSidebar(old(View())) && id == old(numSidebars)
    {
      id := numSidebars;
      numSidebars := numSidebars + 1;
      sidebars := sidebars[id := {}];
    }

    method Init(rate: Dword) returns (ok: bool)
      modifies this
      ensures View() == Apply(old(View()), Op.Init(rate)) && ok == Supported(rate)
    {
      if rate != 8000 && rate != 16000 && rate != 32000 && rate != 48000 {
        return false;
      }
      var id := CreateSidebar();
      default := Some(id);
      return true;
    }

    method CreateMixer(id: Id) returns (ok: bool)
      modifies this
      ensures View() == Apply(old(View()), Op.CreateMixer(id)) && ok == (id !in old(audios))
    {
      if id in audios {
        return false;
      }
      audios := audios[id := None];
      return true;
    }

    method InitMixer(id: Id, sidebar: int) returns (ok: bool)
      requires id in audios ==> Running(View())
      modifies this
      ensures View() == Apply(old(View()), Op.InitMixer(id, sidebar)) && ok == (id in old(audios))
    {
      if id !in audios {
        return false;
      }
      if sidebar in sidebars {
        audios := audios[id := Some(sidebar)];
      }
      sidebars := sidebars[default.value := sidebars[default.value] + {id}];
      return true;
    }

    method EndMixer(id: Id) returns (ok: bool)
      requires id in audios ==> Running(View())
      modifies this
      ensures View() == Apply(old(View()), Op.EndMixer(id)) && ok == (id in old(audios))
    {
      if id !in audios {
        return false;
      }
      sidebars := sidebars[default.value := sidebars[default.value] - {id}];
      audios := audios[id := None];
      WithoutTwice(old(sidebars), default.value, id);
      RemoveEverywhere(id);
      return true;
    }

    /** The loop over the sidebars. */
    method RemoveEverywhere(id: Id)
      modifies `sidebars
      ensures sidebars == Without(old(sidebars), id)
    {
      var todo := sidebars.Keys;
      while todo != {}
        invariant todo <= sidebars.Keys == old(sidebars).Keys
        invariant forall k :: k in sidebars ==>
                  sidebars[k] == if k in todo then old(sidebars)[k] else old(sidebars)[k] - {id}
        decreases |todo|
      {
        var k: nat :| k in todo;
        sidebars := sidebars[k := sidebars[k] - {id}];
        todo := todo - {k};
      }
    }

    /** Returns zero, as an error does, also when the source was there. */
    method DeleteMixer(id: Id) returns (r: int)
      modifies this
      ensures View() == Apply(old(View()), Op.DeleteMixer(id)) && r == 0
    {
      if id !in audios {
        assert audios - {id} == audios;
        return 0;
      }
      audios := audios - {id};
      return 0;
    }

    method SetMixerSidebar(id: Id, sidebar: int) returns (ok: bool)
      modifies this
      ensures View() == Apply(old(View()), Op.SetMixerSidebar(id, sidebar)) && ok == (id in old(audios))
    {
      if id !in audios {
        return false;
      }
      if sidebar in sidebars {
        audios := audios[id := Some(sidebar)];
      }
      return true;
    }

    method DeleteSidebar(sidebar: int) returns (ok: bool)
      modifies this
      ensures View() == Apply(old(View()), Op.DeleteSidebar(sidebar))
      ensures ok == (sidebar in old(sidebars) && old(default) != Some(sidebar))
    {
      if sidebar !in sidebars || Some(sidebar) == default {
        return false;
      }
      ForgetEverywhere(sidebar);
      sidebars := sidebars - {sidebar};
      return true;
    }

    /** The loop over the sources. */
    method ForgetEverywhere(sidebar: nat)
      modifies `audios
      ensures audios == Forgotten(old(audios), sidebar)
    {
      var todo := audios.Keys;
      while todo != {}
        invariant todo <= audios.Keys == old(audios).Keys
        invariant forall i :: i in audios ==>
                    audios[i] == if i !in todo && old(audios)[i] == Some(sidebar) then None else old(audios)[i]
        decreases |todo|
      {
        var i: Id :| i in todo;
        if audios[i] == Some(sidebar) {
          audios := audios[i := None];
        }
        todo := todo - {i};
      }
    }

    method AddSidebarParticipant(sidebar: int, part: Id) returns (ok: bool)
      modifies this
      ensures View() == Apply(old(View()), Op.AddParticipant(sidebar, part)) && ok == (sidebar in old(sidebars))
    {
      if sidebar !in sidebars {
        return false;
      }
      sidebars := sidebars[sidebar := sidebars[sidebar] + {part}];
      return true;
    }

    method RemoveSidebarParticipant(sidebar: int, part: Id) returns (ok: bool)
      modifies this
      ensures View() == Apply(old(View()), Op.RemoveParticipant(sidebar, part)) && ok == (sidebar in old(sidebars))
    {
      if sidebar !in sidebars {
        return false;
      }
      sidebars := sidebars[sidebar := sidebars[sidebar] - {part}];
      return true;
    }

    method End()
      modifies this
      ensures View() == Apply(old(View()), Op.End)
    {
      audios, sidebars, default := map[], map[], None;
    }
  }
}

/** What every sequence of control operations keeps. */
module AudioMixerProofs {
  import opened Common
  import opened AudioMixer

  /** Every pointer to a sidebar is null or live, and numbers not yet given out are not in use. */
  ghost predicate Inv(s: State) {
    && (s.default.Some? ==> s.default.value in s.sidebars)
    && SourcesLive(s)
    && forall k :: k in s.sidebars ==> k < s.numSidebars
  }

  ghost predicate SourcesLive(s: State) {
    forall i :: i in s.audios ==> s.audios[i] == None || s.audios[i].value in s.sidebars
  }

  lemma StepKeepsInv(s: State, op: Op)
    requires Inv(s) && Allowed(s, op)
    ensures Inv(Apply(s, op))
  {
  }

  /** The states a new mixer goes through, also past End and a further Init. */
  ghost predicate IsRun(r: seq<State>, ops: seq<Op>) {
    && |r| == |ops| + 1 && r[0] == NEW_MIXER
    && forall i :: 0 <= i < |ops| ==> Allowed(r[i], ops[i]) && r[i + 1] == Apply(r[i], ops[i])
  }

  /** Every operation of every run finds only live sidebars behind its pointers. */
  lemma {:induction false} PointersLive(r: seq<State>, ops: seq<Op>, i: nat)
    requires IsRun(r, ops) && i < |r|
    ensures Inv(r[i])
  {
    if i > 0 {
      PointersLive(r, ops, i - 1);
      StepKeepsInv(r[i - 1], ops[i - 1]);
    }
  }

  // ---------- When the mixer runs ----------

  predicate Starts(op: Op) {
    op.Init? && (op.rate == 8000 || op.rate == 16000 || op.rate == 32000 || op.rate == 48000)
  }

  ghost predicate NoEnd(ops: seq<Op>, i: nat, j: nat)
    requires j <= |ops|
  {
    forall k :: i <= k < j ==> !ops[k].End?
  }

  /** A successful Init without an End after it. */
  ghost predicate InService(ops: seq<Op>, i: nat)
    requires i <= |ops|
  {
    exists m :: 0 <= m < i && Starts(ops[m]) && NoEnd(ops, m + 1, i)
  }

  lemma ServiceStep(ops: seq<Op>, i: nat)
    requires i < |ops|
    ensures InService(ops, i + 1) <==> Starts(ops[i]) || (InService(ops, i) && !ops[i].End?)
  {
    if Starts(ops[i]) {
      assert NoEnd(ops, i + 1, i + 1);
    }
    if InService(ops, i) && !ops[i].End? {
      var m :| 0 <= m < i && Starts(ops[m]) && NoEnd(ops, m + 1, i);
      assert NoEnd(ops, m + 1, i + 1);
    }
    if InService(ops, i + 1) {
      var m :| 0 <= m < i + 1 && Starts(ops[m]) && NoEnd(ops, m + 1, i + 1);
      assert m < i ==> NoEnd(ops, m + 1, i);
    }
  }

  lemma RunningStep(s: State, op: Op)
    requires Inv(s) && Allowed(s, op)
    ensures Running(Apply(s, op)) <==> Starts(op) || (Running(s) && !op.End?)
  {
  }

  /** The default sidebar is there, live, exactly between a successful Init and the next End. */
  lemma {:induction false} RunsInService(r: seq<State>, ops: seq<Op>, i: nat)
    requires IsRun(r, ops) && i < |r|
    ensures Running(r[i]) <==> InService(ops, i)
  {
    if i > 0 {
      RunsInService(r, ops, i - 1);
      PointersLive(r, ops, i - 1);
      RunningStep(r[i - 1], ops[i - 1]);
      ServiceStep(ops, i - 1);
    }
  }

  // ---------- Sidebar numbers ----------

  /** A number given out and deleted never comes back, not even after End and another Init. */
  lemma {:induction false} NumbersNeverReused(r: seq<State>, ops: seq<Op>, i: nat, j: nat, k: nat)
    requires IsRun(r, ops) && i <= j < |r| && k < r[i].numSidebars && k !in r[i].sidebars
    ensures k < r[j].numSidebars && k !in r[j].sidebars
  {
    if i < j {
      NumbersNeverReused(r, ops, i, j - 1, k);
      DeadStaysDead(r[j - 1], ops[j - 1], k);
    }
  }

  lemma DeadStaysDead(s: State, op: Op, k: nat)
    requires Allowed(s, op) && k < s.numSidebars && k !in s.sidebars
    ensures k < Apply(s, op).numSidebars && k !in Apply(s, op).sidebars
  {
  }

  lemma CreatedIsNew(r: seq<State>, ops: seq<Op>, i: nat)
    requires IsRun(r, ops) && i < |ops| && (ops[i].CreateSidebar? || Starts(ops[i]))
    ensures r[i].numSidebars !in r[i].sidebars && r[i].numSidebars in r[i + 1].sidebars
    ensures r[i + 1].numSidebars > r[i].numSidebars
  {
    PointersLive(r, ops, i);
  }

  // ---------- Membership ----------

  ghost predicate InNoSidebar(s: State, id: Id) {
    forall k :: k in s.sidebars ==> id !in s.sidebars[k]
  }

  /**
   EndMixer removes a participant from every sidebar, except one that was put into a sidebar without ever being
   a source.
   */
  lemma EndMixerRemoves(s: State, id: Id)
    requires Allowed(s, EndMixer(id))
    ensures InNoSidebar(Apply(s, EndMixer(id)), id) <==> id in s.audios || InNoSidebar(s, id)
    ensures id in s.audios ==> Apply(s, EndMixer(id)).audios[id] == None
  {
  }

  /** A participant that EndMixer leaves in the default sidebar. */
  lemma EndMixerMisses(id: Id) returns (r: seq<State>, ops: seq<Op>)
    ensures ops == [Init(8000), AddParticipant(0, id), EndMixer(id)] && IsRun(r, ops)
    ensures !InNoSidebar(r[3], id)
  {
    ops := [Init(8000), AddParticipant(0, id), EndMixer(id)];
    var s1 := Apply(NEW_MIXER, ops[0]);
    var s2 := Apply(s1, ops[1]);
    r := [NEW_MIXER, s1, s2, Apply(s2, ops[2])];
    assert 0 in r[3].sidebars && id in r[3].sidebars[0];
  }

  predicate Readmits(op: Op, id: Id) {
    (op.InitMixer? && op.id == id) || (op.AddParticipant? && op.part == id)
  }

  lemma StaysOut(s: State, op: Op, id: Id)
    requires Allowed(s, op) && InNoSidebar(s, id) && !Readmits(op, id)
    ensures InNoSidebar(Apply(s, op), id)
  {
  }

  /** After EndMixer a participant is heard nowhere until it is explicitly let in again. */
  lemma {:induction false} EndedIsSilent(r: seq<State>, ops: seq<Op>, i: nat, j: nat, id: Id)
    requires IsRun(r, ops) && i <= j < |r| && InNoSidebar(r[i], id)
    requires forall k :: i <= k < j ==> !Readmits(ops[k], id)
    ensures InNoSidebar(r[j], id)
  {
    if i < j {
      EndedIsSilent(r, ops, i, j - 1, id);
      StaysOut(r[j - 1], ops[j - 1], id);
    }
  }

  predicate Expels(s: State, op: Op, id: Id) {
    || (op.EndMixer? && op.id == id)
    || op.Init?
    || op.End?
    || (op.RemoveParticipant? && op.part == id && Some(op.sidebar) == s.default)
  }

  ghost predicate Contributes(s: State, id: Id) {
    Running(s) && id in s.sidebars[s.default.value]
  }

  lemma StaysIn(s: State, op: Op, id: Id)
    requires Inv(s) && Allowed(s, op) && Contributes(s, id) && !Expels(s, op, id)
    ensures Contributes(Apply(s, op), id) && Apply(s, op).default == s.default
  {
  }

  /**
   Whatever it listens to, a participant initialised by operation `i` contributes to the default sidebar until it is
   ended or taken out of it.
   */
  lemma {:induction false} InitialisedContributes(r: seq<State>, ops: seq<Op>, i: nat, j: nat, id: Id)
    requires IsRun(r, ops) && i < j < |r| && ops[i].InitMixer? && ops[i].id == id && id in r[i].audios
    requires forall k :: i < k < j ==> !Expels(r[i], ops[k], id)
    ensures Contributes(r[j], id) && r[j].default == r[i].default
  {
    if i + 1 < j {
      InitialisedContributes(r, ops, i, j - 1, id);
      PointersLive(r, ops, j - 1);
      StaysIn(r[j - 1], ops[j - 1], id);
    }
  }

  // ---------- Listening ----------

  /** A source is sent to the sidebar it asked for exactly when that sidebar is live; otherwise nothing changes. */
  lemma ListensWhereSet(s: State, id: Id, sidebar: int)
    requires id in s.audios
    ensures var s1 := Apply(s, SetMixerSidebar(id, sidebar));
            GetMixerSidebar(s1, id) == if sidebar in s.sidebars then sidebar else GetMixerSidebar(s, id)
  {
  }

  /** The same with the sidebar InitMixer is given. */
  lemma ListensWhereInitialised(s: State, id: Id, sidebar: int)
    requires id in s.audios && Running(s)
    ensures var s1 := Apply(s, InitMixer(id, sidebar));
            GetMixerSidebar(s1, id) == if sidebar in s.sidebars then sidebar else GetMixerSidebar(s, id)
  {
  }

  predicate Retunes(op: Op, id: Id, sidebar: int) {
    || ((op.SetMixerSidebar? || op.InitMixer? || op.EndMixer? || op.DeleteMixer?) && op.id == id)
    || op == DeleteSidebar(sidebar)
    || op.End?
  }

  lemma StaysTuned(s: State, op: Op, id: Id, sidebar: int)
    requires Allowed(s, op) && sidebar >= 0 && GetMixerSidebar(s, id) == sidebar && !Retunes(op, id, sidebar)
    ensures GetMixerSidebar(Apply(s, op), id) == sidebar
  {
  }

  /** Who was sent to a live sidebar listens there until sent elsewhere, ended or deleted, or until it goes. */
  lemma {:induction false} ListensUntilRetuned(r: seq<State>, ops: seq<Op>, i: nat, j: nat, id: Id)
    requires IsRun(r, ops) && i < j < |r| && (ops[i].InitMixer? || ops[i].SetMixerSidebar?) && ops[i].id == id
    requires id in r[i].audios && ops[i].sidebar in r[i].sidebars
    requires forall k :: i < k < j ==> !Retunes(ops[k], id, ops[i].sidebar)
    ensures GetMixerSidebar(r[j], id) == ops[i].sidebar
  {
    if i + 1 < j {
      ListensUntilRetuned(r, ops, i, j - 1, id);
      StaysTuned(r[j - 1], ops[j - 1], id, ops[i].sidebar);
    }
  }

  /** Deleting a sidebar silences exactly its listeners. */
  lemma DeleteSidebarSilences(s: State, sidebar: int, id: Id)
    requires Inv(s) && sidebar in s.sidebars && s.default != Some(sidebar)
    ensures var s1 := Apply(s, DeleteSidebar(sidebar));
            sidebar !in s1.sidebars
            && GetMixerSidebar(s1, id) == if GetMixerSidebar(s, id) == sidebar then -1 else GetMixerSidebar(s, id)
  {
  }
}
