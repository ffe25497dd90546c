/**
 The tracker seen through characters: a line editor that cues speech, the byte tracker as its
 refinement, and a listener who replaces, at each re-said phrase, what they heard from its start.
 */
module TrackerProofs {
  import opened Common
  import opened CorrectionTracker
  import opened TrackerText

  /**
   A phrase of the line, said from character `from` on; a correction that silences the voice; or a line that
   is dropped unsaid.
   */
  datatype Cue = Say(from: nat, raw: Line) | Halt | Drop

  datatype Editor = Editor(line: Line, said: nat, correcting: bool, start: nat, lastChangeMs: nat)

  const BLANK_EDITOR := Editor([], 0, false, 0, 0)

  /** Blanks are trimmed, and a phrase without words stays silent. */
  function Uttered(raw: Line): seq<Action> {
    if HasWords(Trim(Flat(raw))) then [Speak(Trim(Flat(raw)))] else []
  }

  /** The actions a cue becomes. */
  function Render(g: Settings, cue: Cue): seq<Action> {
    match cue
    case Halt => [Stop] + if g.announce then [Speak(g.announcement)] else []
    case Say(_, raw) => Uttered(raw)
    case Drop => []
  }

  function RenderAll(g: Settings, cues: seq<Cue>): seq<Action> {
    if cues == [] then [] else RenderAll(g, cues[..|cues| - 1]) + Render(g, cues[|cues| - 1])
  }

  // ---------- The editor ----------

  function FlushFrom(e: Editor): nat {
    Min(if e.correcting then e.start else e.said, |e.line|)
  }

  function Flush(e: Editor): Editor {
    e.(correcting := false, said := |e.line|)
  }

  function FlushCue(e: Editor): Cue {
    Say(FlushFrom(e), e.line[FlushFrom(e)..])
  }

  function Erase(e: Editor, now: nat): (Editor, seq<Cue>) {
    if e.line == [] then (e, [])
    else
      var line := e.line[..|e.line| - 1];
      if |line| >= e.said then (e.(line := line, lastChangeMs := if e.correcting then now else e.lastChangeMs), [])
      else (Editor(line, |line|, true, SentenceOf(line), now), if e.correcting then [] else [Halt])
  }

  predicate Completes(e: Editor, c: Char) {
    IsPhraseEnd(c) || (IsBlank(c) && CountWords(Flat(e.line[Min(e.said, |e.line|)..])) > MAX_PENDING_WORDS)
  }

  function Insert(e: Editor, c: Char, now: nat): (Editor, seq<Cue>) {
    var e1 := e.(line := e.line + [c]);
    if e.correcting then (e1.(lastChangeMs := now), [])
    else if Completes(e1, c) then (Flush(e1), [FlushCue(e1)])
    else (e1, [])
  }

  function Edit(e: Editor, c: Char, now: nat): (Editor, seq<Cue>) {
    if c == CR then (e, [])
    else if IsLineEnd(c) then (Flush(e).(line := [], said := 0), [FlushCue(e)])
    else if c == BS then Erase(e, now)
    else Insert(e, c, now)
  }

  function Settle(g: Settings, e: Editor, now: nat): (Editor, seq<Cue>) {
    if e.correcting && IsStable(g, e.lastChangeMs, now) then (Flush(e), [FlushCue(e)]) else (e, [])
  }

  /** While correcting, `start` begins the sentence that the lowest deletion reached. */
  ghost predicate EditorOk(e: Editor) {
    && e.said <= |e.line|
    && (e.correcting ==> e.start == SentenceOf(e.line[..e.said]) <= e.said)
  }

  lemma EditKeepsOk(e: Editor, c: Char, now: nat)
    requires EditorOk(e)
    ensures EditorOk(Edit(e, c, now).0)
  {
    var e' := Edit(e, c, now).0;
    if e'.correcting {
      if c == BS && e.line != [] && |e.line| - 1 < e.said {
        SentenceBegins(e'.line);
        assert e'.line[..e'.said] == e'.line;
      } else {
        assert e'.line[..e'.said] == e.line[..e.said];
      }
    }
  }

  // ---------- Bytes refine characters ----------

  ghost predicate Refines(t: Tracker, e: Editor) {
    && e.said <= |e.line| && t.line == Flat(e.line) && t.said == Offset(e.line, e.said)
    && t.correcting == e.correcting && t.lastChangeMs == e.lastChangeMs
    && (e.correcting ==> e.start <= |e.line| && t.correctionStart == Offset(e.line, e.start))
  }

  lemma FlushRefines(g: Settings, t: Tracker, e: Editor)
    requires Refines(t, e)
    ensures Refines(Flushed(t), Flush(e))
    ensures SpokenFrom(t, FlushStart(t)) == Render(g, FlushCue(e))
  {
    var from := FlushFrom(e);
    FlatCut(e.line, from);
    assert e.line[..|e.line|] == e.line;
  }

  lemma EraseUnsaid(g: Settings, t: Tracker, e: Editor, now: nat)
    requires Refines(t, e) && EditorOk(e) && e.line != [] && |e.line| - 1 >= e.said
    ensures Refines(Backspaced(g, t, now).0, Erase(e, now).0) && Backspaced(g, t, now).1 == []
  {
    var line := e.line[..|e.line| - 1];
    ErasedChar(e.line);
    SaidFits(e, line);
    PlainBackspace(g, t, now);
    PlainErase(e, now);
    var t' := t.(line := Flat(line), lastChangeMs := if t.correcting then now else t.lastChangeMs);
    var e' := e.(line := line, lastChangeMs := if e.correcting then now else e.lastChangeMs);
    assert line[..e.said] == e.line[..e.said];
    SamePrefix(t, e, t', e');
  }

  lemma SaidFits(e: Editor, line: Line)
    requires e.line != [] && line == e.line[..|e.line| - 1] && e.said <= |line|
    ensures Offset(e.line, e.said) <= |Flat(line)|
  {
    OffsetGrows(e.line, e.said, |line|);
  }

  lemma PlainErase(e: Editor, now: nat)
    requires e.line != [] && |e.line| - 1 >= e.said
    ensures Erase(e, now)
         == (e.(line := e.line[..|e.line| - 1], lastChangeMs := if e.correcting then now else e.lastChangeMs), [])
  {
  }

  lemma PlainBackspace(g: Settings, t: Tracker, now: nat)
    requires t.line != [] && |Erased(t.line)| >= t.said
    ensures Backspaced(g, t, now)
            == (t.(line := Erased(t.line), lastChangeMs := if t.correcting then now else t.lastChangeMs), [])
  {
  }

  /** A change of the line after everything said. */
  lemma SamePrefix(t: Tracker, e: Editor, t': Tracker, e': Editor)
    requires Refines(t, e) && EditorOk(e) && e.said <= |e'.line| && e'.line[..e.said] == e.line[..e.said]
    requires t'.line == Flat(e'.line) && t'.said == t.said && e'.said == e.said && t'.lastChangeMs == e'.lastChangeMs
    requires t'.correcting == e'.correcting == e.correcting && t'.correctionStart == t.correctionStart
             && e'.start == e.start
    ensures Refines(t', e')
  {
    if e.correcting {
      assert e'.line[..e.start] == e.line[..e.start];
    }
  }

  lemma EraseOpens(g: Settings, t: Tracker, e: Editor, now: nat)
    requires Refines(t, e) && e.line != [] && |e.line| - 1 < e.said && !e.correcting
    ensures Refines(Backspaced(g, t, now).0, Erase(e, now).0) && Backspaced(g, t, now).1 == Render(g, Halt)
  {
    var line := e.line[..|e.line| - 1];
    ErasedChar(e.line);
    OffsetGrows(e.line, |line|, e.said);
    SentenceStartChars(line);
    CorrectionRefines(Backspaced(g, t, now).0, Erase(e, now).0, line);
  }

  /** The state a deletion of said text leaves. */
  lemma CorrectionRefines(t: Tracker, e: Editor, line: Line)
    requires e.line == line && e.said == |line| && e.correcting && e.start == SentenceOf(line) <= |line|
    requires t == Tracker(Flat(line), |Flat(line)|, true, Offset(line, SentenceOf(line)), e.lastChangeMs)
    ensures Refines(t, e)
  {
    assert line[..|line|] == line;
  }

  lemma EraseDeeper(g: Settings, t: Tracker, e: Editor, now: nat)
    requires Refines(t, e) && EditorOk(e) && e.line != [] && |e.line| - 1 < e.said && e.correcting
    ensures Refines(Backspaced(g, t, now).0, Erase(e, now).0) && Backspaced(g, t, now).1 == []
  {
    var line := e.line[..|e.line| - 1];
    ErasedChar(e.line);
    OffsetGrows(e.line, |line|, e.said);
    SentenceStartChars(line);
    DeeperStart(e, line);
    CorrectionRefines(Backspaced(g, t, now).0, Erase(e, now).0, line);
  }

  lemma DeeperStart(e: Editor, line: Line)
    requires EditorOk(e) && e.correcting && e.line != [] && line == e.line[..|e.line| - 1] && |line| < e.said
    ensures SentenceOf(line) <= |line| && Offset(line, SentenceOf(line)) <= Offset(e.line, e.start)
  {
    SentenceBegins(line);
    assert line == e.line[..e.said][..|line|];
    SentenceShrinks(e.line[..e.said], |line|);
    OffsetGrows(e.line, SentenceOf(line), e.start);
    assert line[..SentenceOf(line)] == e.line[..SentenceOf(line)];
  }

  lemma EraseRefines(g: Settings, t: Tracker, e: Editor, now: nat)
    requires Refines(t, e) && EditorOk(e)
    ensures Refines(Backspaced(g, t, now).0, Erase(e, now).0)
    ensures Backspaced(g, t, now).1 == RenderAll(g, Erase(e, now).1)
  {
    if e.line == [] {
    } else if |e.line| - 1 >= e.said {
      EraseUnsaid(g, t, e, now);
    } else {
      if e.correcting {
        EraseDeeper(g, t, e, now);
      } else {
        EraseOpens(g, t, e, now);
        assert [Halt][..0] == [];
      }
    }
  }

  lemma InsertRefines(g: Settings, t: Tracker, e: Editor, c: Char, now: nat)
    requires Refines(t, e) && EditorOk(e)
    ensures Refines(Typed(t, c, now).0, Insert(e, c, now).0)
    ensures Typed(t, c, now).1 == RenderAll(g, Insert(e, c, now).1)
  {
    var e1, t1 := e.(line := e.line + [c]), t.(line := t.line + c);
    FlatSnoc(e.line, c);
    assert e1.line[..e.said] == e.line[..e.said];
    SamePrefix(t, e, t1, e1);
    if !e.correcting {
      CompletesAgree(t1, e1, c);
      FlushRefines(g, t1, e1);
      assert [FlushCue(e1)][..0] == [];
    }
  }

  lemma CompletesAgree(t: Tracker, e: Editor, c: Char)
    requires Refines(t, e)
    ensures Completes(e, c)
       <==> IsPhraseEnd(c) || (IsBlank(c) && CountWords(t.line[Min(t.said, |t.line|)..]) > MAX_PENDING_WORDS)
  {
    FlatCut(e.line, e.said);
  }

  lemma EditRefines(g: Settings, t: Tracker, e: Editor, c: Char, now: nat)
    requires Refines(t, e) && EditorOk(e)
    ensures Refines(Feed(g, t, c, now).0, Edit(e, c, now).0)
    ensures Feed(g, t, c, now).1 == RenderAll(g, Edit(e, c, now).1)
  {
    if c == CR {
    } else if IsLineEnd(c) {
      FlushRefines(g, t, e);
      assert [FlushCue(e)][..0] == [];
      assert Flat([]) == [];
    } else if c == BS {
      EraseRefines(g, t, e, now);
    } else {
      InsertRefines(g, t, e, c, now);
    }
  }

  lemma SettleRefines(g: Settings, t: Tracker, e: Editor, now: nat)
    requires Refines(t, e) && EditorOk(e)
    ensures Refines(Ticked(g, t, now).0, Settle(g, e, now).0) && EditorOk(Settle(g, e, now).0)
    ensures Ticked(g, t, now).1 == RenderAll(g, Settle(g, e, now).1)
  {
    if e.correcting && IsStable(g, e.lastChangeMs, now) {
      FlushRefines(g, t, e);
      assert [FlushCue(e)][..0] == [];
    }
  }

  // ---------- The listener ----------

  /** What is heard once a cue has been spoken: it replaces everything from its start. */
  function Hear(heard: Line, cues: seq<Cue>): Line
    requires |cues| <= 1
  {
    if cues == [] || !cues[0].Say? then heard else heard[..Min(cues[0].from, |heard|)] + cues[0].raw
  }

  /** The letters and digits in what an utterance says. */
  function VoicedIn(actions: seq<Action>): seq<Text> {
    if actions == [] then []
    else (if actions[0].Speak? then Voiced(actions[0].text, 0) else []) + VoicedIn(actions[1..])
  }

  /** What is made out of the Speak actions alone: a phrase replaces the letters from its start on. */
  function MakeOut(aloud: seq<Text>, heard: Line, cues: seq<Cue>): seq<Text>
    requires |cues| <= 1
  {
    if cues == [] || !cues[0].Say? then aloud
    else
      var kept := |Letters(heard[..Min(cues[0].from, |heard|)])|;
      aloud[..Min(kept, |aloud|)] + VoicedIn(Uttered(cues[0].raw))
  }

  /** A finished line: as displayed, as heard, and the letters and digits spoken of it. */
  datatype Page = Page(displayed: Line, heard: Line, aloud: seq<Text>)

  datatype World = World(e: Editor, heard: Line, aloud: seq<Text>, cues: seq<Cue>, pages: seq<Page>)

  const START := World(BLANK_EDITOR, [], [], [], [])

  /** The listener after an edit, which may finish the line. */
  function Listen(w: World, e': Editor, cues: seq<Cue>, finished: bool): World
    requires |cues| <= 1
  {
    var heard, aloud := Hear(w.heard, cues), MakeOut(w.aloud, w.heard, cues);
    if finished then World(e', [], [], w.cues + cues, w.pages + [Page(w.e.line, heard, aloud)])
    else World(e', heard, aloud, w.cues + cues, w.pages)
  }

  function Type(w: World, c: Char, now: nat): World {
    var (e', cues) := Edit(w.e, c, now);
    Listen(w, e', cues, IsLineEnd(c))
  }

  function TypeAll(w: World, cs: Line, now: nat): World
    decreases |cs|
  {
    if cs == [] then w else TypeAll(Type(w, cs[0], now), cs[1..], now)
  }

  function Pause(g: Settings, w: World, now: nat): World {
    var (e', cues) := Settle(g, w.e, now);
    Listen(w, e', cues, false)
  }

  function Forget(w: World): World {
    World(w.e.(line := [], said := 0, correcting := false), [], [], w.cues + [Drop], w.pages)
  }

  /** In step with the line up to what is said or, while correcting, up to the phrase to say again. */
  ghost predicate InStep(e: Editor, heard: Line) {
    if e.correcting then e.start <= |heard| && e.start <= |e.line| && heard[..e.start] == e.line[..e.start]
    else e.said <= |e.line| && heard == e.line[..e.said]
  }

  ghost predicate WorldOk(w: World) {
    && EditorOk(w.e) && InStep(w.e, w.heard)
    && forall i :: 0 <= i < |w.pages| ==> w.pages[i].heard == w.pages[i].displayed
  }

  ghost predicate AloudOk(w: World) {
    && w.aloud == Letters(w.heard)
    && forall i :: 0 <= i < |w.pages| ==> w.pages[i].aloud == Letters(w.pages[i].heard)
  }

  lemma UtteredLetters(raw: Line)
    ensures VoicedIn(Uttered(raw)) == Letters(raw)
  {
    TrimChars(raw);
    HasWordsLetters(Trimmed(raw));
    var cs := Trimmed(raw);
    assert cs[0..] == cs && Offset(cs, 0) == 0 by {
      assert cs[..0] == [];
    }
    VoicedChars(cs, 0);
    assert Uttered(raw) != [] ==> Uttered(raw)[1..] == [];
  }

  /** Silent fragments have no letters, so that what is made out keeps up with what the cues say. */
  lemma MadeOutIsHeard(aloud: seq<Text>, heard: Line, cues: seq<Cue>)
    requires aloud == Letters(heard) && |cues| <= 1
    ensures MakeOut(aloud, heard, cues) == Letters(Hear(heard, cues))
  {
    if cues != [] && cues[0].Say? {
      var from, raw := Min(cues[0].from, |heard|), cues[0].raw;
      assert heard == heard[..from] + heard[from..];
      LettersAppend(heard[..from], heard[from..]);
      LettersAppend(heard[..from], raw);
      UtteredLetters(raw);
    }
  }

  lemma ListenAloud(w: World, e': Editor, cues: seq<Cue>, finished: bool)
    requires AloudOk(w) && |cues| <= 1
    ensures AloudOk(Listen(w, e', cues, finished))
  {
    MadeOutIsHeard(w.aloud, w.heard, cues);
  }

  lemma TypeAloud(w: World, c: Char, now: nat)
    requires AloudOk(w)
    ensures AloudOk(Type(w, c, now))
  {
    ListenAloud(w, Edit(w.e, c, now).0, Edit(w.e, c, now).1, IsLineEnd(c));
  }

  lemma {:induction false} TypeAllAloud(w: World, cs: Line, now: nat)
    requires AloudOk(w)
    ensures AloudOk(TypeAll(w, cs, now))
    decreases |cs|
  {
    if cs != [] {
      TypeAloud(w, cs[0], now);
      TypeAllAloud(Type(w, cs[0], now), cs[1..], now);
    }
  }

  lemma {:induction false} FollowAloud(g: Settings, calls: seq<Call>)
    ensures AloudOk(Follow(g, calls))
  {
    if calls != [] {
      var init := calls[..|calls| - 1];
      FollowAloud(g, init);
      var w := Follow(g, init);
      match calls[|calls| - 1]
      case Add(cs, now) => TypeAllAloud(w, cs, now);
      case Tick(now) => ListenAloud(w, Settle(g, w.e, now).0, Settle(g, w.e, now).1, false);
      case Clear =>
    }
  }

  lemma FlushHeard(e: Editor, heard: Line)
    requires EditorOk(e) && InStep(e, heard)
    ensures Hear(heard, [FlushCue(e)]) == e.line
  {
    var from := FlushFrom(e);
    assert heard[..from] == e.line[..from];
    assert e.line[..from] + e.line[from..] == e.line;
  }

  lemma EraseInStep(e: Editor, heard: Line, now: nat)
    requires EditorOk(e) && InStep(e, heard)
    ensures InStep(Erase(e, now).0, heard)
  {
    if e.line != [] {
      var line := e.line[..|e.line| - 1];
      if |line| >= e.said {
        assert line[..e.said] == e.line[..e.said];
        if e.correcting {
          assert line[..e.start] == e.line[..e.start];
        }
      } else {
        var start := SentenceOf(line);
        SentenceBegins(line);
        assert line[..start] == e.line[..start];
        if e.correcting {
          assert line == e.line[..e.said][..|line|];
          SentenceShrinks(e.line[..e.said], |line|);
          assert heard[..start] == heard[..e.start][..start] == e.line[..e.start][..start];
        } else {
          assert heard[..start] == e.line[..e.said][..start];
        }
      }
    }
  }

  lemma InsertInStep(e: Editor, heard: Line, c: Char, now: nat)
    requires EditorOk(e) && InStep(e, heard)
    ensures InStep(Insert(e, c, now).0, Hear(heard, Insert(e, c, now).1))
  {
    var e1 := e.(line := e.line + [c]);
    if e.correcting {
      assert e1.line[..e.start] == e.line[..e.start];
    } else {
      assert e1.line[..e.said] == e.line[..e.said];
      FlushHeard(e1, heard);
      assert e1.line[..|e1.line|] == e1.line;
    }
  }

  lemma TypeOk(w: World, c: Char, now: nat)
    requires WorldOk(w)
    ensures WorldOk(Type(w, c, now))
  {
    EditKeepsOk(w.e, c, now);
    if c == CR {
    } else if IsLineEnd(c) {
      FlushHeard(w.e, w.heard);
    } else if c == BS {
      EraseInStep(w.e, w.heard, now);
    } else {
      InsertInStep(w.e, w.heard, c, now);
    }
  }

  lemma PauseOk(g: Settings, w: World, now: nat)
    requires WorldOk(w)
    ensures WorldOk(Pause(g, w, now))
  {
    if w.e.correcting && IsStable(g, w.e.lastChangeMs, now) {
      FlushHeard(w.e, w.heard);
      assert w.e.line[..|w.e.line|] == w.e.line;
    }
  }

  // ---------- Whole sessions ----------

  datatype Call = Add(cs: Line, now: nat) | Tick(now: nat) | Clear

  /** The tracker object under a session of calls, and every action it returned. */
  function Track(g: Settings, calls: seq<Call>): (Tracker, seq<Action>) {
    if calls == [] then (FRESH, [])
    else
      var (t, done) := Track(g, calls[..|calls| - 1]);
      match calls[|calls| - 1]
      case Add(cs, now) => (FeedText(g, t, Flat(cs), now).0, done + FeedText(g, t, Flat(cs), now).1)
      case Tick(now) => (Ticked(g, t, now).0, done + Ticked(g, t, now).1)
      case Clear => (Cleared(t), done)
  }

  function Follow(g: Settings, calls: seq<Call>): World {
    if calls == [] then START
    else
      var w := Follow(g, calls[..|calls| - 1]);
      match calls[|calls| - 1]
      case Add(cs, now) => TypeAll(w, cs, now)
      case Tick(now) => Pause(g, w, now)
      case Clear => Forget(w)
  }

  lemma RenderAppend(g: Settings, done: seq<Cue>, cues: seq<Cue>)
    requires |cues| <= 1
    ensures RenderAll(g, done + cues) == RenderAll(g, done) + RenderAll(g, cues)
  {
    if cues == [] {
      assert done + cues == done;
    } else {
      assert (done + cues)[..|done|] == done && cues[..0] == [];
    }
  }

  /** The tracker and the world tell the same story. */
  ghost predicate Agrees(g: Settings, t: Tracker, done: seq<Action>, w: World) {
    Refines(t, w.e) && WorldOk(w) && done == RenderAll(g, w.cues)
  }

  lemma TypeAgrees(g: Settings, t: Tracker, done: seq<Action>, w: World, c: Char, now: nat)
    requires Agrees(g, t, done, w)
    ensures Agrees(g, Feed(g, t, c, now).0, done + Feed(g, t, c, now).1, Type(w, c, now))
  {
    EditRefines(g, t, w.e, c, now);
    RenderAppend(g, w.cues, Edit(w.e, c, now).1);
    TypeOk(w, c, now);
  }

  lemma {:induction false} LineAgrees(g: Settings, t: Tracker, done: seq<Action>, w: World, cs: Line, now: nat)
    requires Agrees(g, t, done, w)
    ensures var (t', done') := FoldLine(Feeding(g, now), t, done, cs); Agrees(g, t', done', TypeAll(w, cs, now))
    decreases |cs|
  {
    if cs != [] {
      TypeAgrees(g, t, done, w, cs[0], now);
      var r := Feed(g, t, cs[0], now);
      LineAgrees(g, r.0, done + r.1, Type(w, cs[0], now), cs[1..], now);
    }
  }

  lemma FeedAgrees(g: Settings, t: Tracker, done: seq<Action>, w: World, cs: Line, now: nat)
    requires Agrees(g, t, done, w)
    ensures var r := FeedText(g, t, Flat(cs), now); Agrees(g, r.0, done + r.1, TypeAll(w, cs, now))
  {
    LineAgrees(g, t, done, w, cs, now);
    FoldFlat(Feeding(g, now), t, cs);
    FoldLineAfter(Feeding(g, now), t, done, cs);
  }

  lemma FoldLineAfter(step: Reaction, t: Tracker, done: seq<Action>, cs: Line)
    ensures FoldLine(step, t, done, cs) == (FoldLine(step, t, [], cs).0, done + FoldLine(step, t, [], cs).1)
  {
    assert cs[..0] == [] && cs[0..] == cs && Flat(cs) + [] == Flat(cs);
    FoldChars(step, t, done, cs, [], 0);
    FoldChars(step, t, [], cs, [], 0);
    FoldAfter(step, t, done, Flat(cs), 0);
  }

  lemma {:induction false} SessionAgrees(g: Settings, calls: seq<Call>)
    ensures var (t, done) := Track(g, calls); Agrees(g, t, done, Follow(g, calls))
  {
    if calls == [] {
      assert Flat([]) == [];
    } else {
      var init := calls[..|calls| - 1];
      SessionAgrees(g, init);
      var (t, done) := Track(g, init);
      var w := Follow(g, init);
      match calls[|calls| - 1]
      case Add(cs, now) =>
        FeedAgrees(g, t, done, w, cs, now);
      case Tick(now) =>
        SettleRefines(g, t, w.e, now);
        RenderAppend(g, w.cues, Settle(g, w.e, now).1);
        PauseOk(g, w, now);
      case Clear =>
        assert Flat([]) == [];
        RenderAppend(g, w.cues, [Drop]);
        assert [Drop][..0] == [];
    }
  }

  /**
   Heard equals displayed: in every session, each finished line was heard exactly as it was displayed, and
   outside a correction the listener has the line as far as it was said.  The actions of the byte tracker
   are the rendering of the cues the listener follows, and the letters and digits in what it actually spoke of
   each line are those of the line displayed.
   */
  lemma HeardIsDisplayed(g: Settings, calls: seq<Call>)
    ensures var w := Follow(g, calls);
            && (forall i :: 0 <= i < |w.pages| ==> w.pages[i].heard == w.pages[i].displayed)
            && (forall i :: 0 <= i < |w.pages| ==> w.pages[i].aloud == Letters(w.pages[i].displayed))
            && (!w.e.correcting ==> w.e.said <= |w.e.line| && w.heard == w.e.line[..w.e.said])
            && Track(g, calls).1 == RenderAll(g, w.cues)
  {
    SessionAgrees(g, calls);
    FollowAloud(g, calls);
  }

  /** What is spoken of a phrase keeps its letters and digits; silence means it had none. */
  lemma RenderKeepsLetters(g: Settings, from: nat, raw: Line)
    ensures Render(g, Say(from, raw)) == if Letters(raw) == [] then [] else [Speak(Flat(Trimmed(raw)))]
    ensures Letters(Trimmed(raw)) == Letters(raw)
  {
    TrimChars(raw);
    HasWordsLetters(Trimmed(raw));
  }

  // ---------- The line is what an ordinary editor shows ----------

  datatype Screen = Screen(line: Line, above: seq<Line>)

  function Show(s: Screen, c: Char): Screen {
    if c == CR then s
    else if IsLineEnd(c) then Screen([], s.above + [s.line])
    else if c == BS then s.(line := if s.line == [] then [] else s.line[..|s.line| - 1])
    else s.(line := s.line + [c])
  }

  function ShowAll(s: Screen, cs: Line): Screen
    decreases |cs|
  {
    if cs == [] then s else ShowAll(Show(s, cs[0]), cs[1..])
  }

  function Display(calls: seq<Call>): Screen {
    if calls == [] then Screen([], [])
    else
      var s := Display(calls[..|calls| - 1]);
      match calls[|calls| - 1]
      case Add(cs, _) => ShowAll(s, cs)
      case Tick(_) => s
      case Clear => s.(line := [])
  }

  ghost predicate OnScreen(w: World, s: Screen) {
    && w.e.line == s.line && |w.pages| == |s.above|
    && forall i :: 0 <= i < |w.pages| ==> w.pages[i].displayed == s.above[i]
  }

  lemma {:induction false} TypeShows(w: World, s: Screen, cs: Line, now: nat)
    requires OnScreen(w, s)
    ensures OnScreen(TypeAll(w, cs, now), ShowAll(s, cs))
    decreases |cs|
  {
    if cs != [] {
      TypeShows(Type(w, cs[0], now), Show(s, cs[0]), cs[1..], now);
    }
  }

  lemma {:induction false} FollowShows(g: Settings, calls: seq<Call>)
    ensures OnScreen(Follow(g, calls), Display(calls))
  {
    if calls != [] {
      var init := calls[..|calls| - 1];
      FollowShows(g, init);
      match calls[|calls| - 1]
      case Add(cs, now) => TypeShows(Follow(g, init), Display(init), cs, now);
      case _ =>
    }
  }

  /** The stored bytes are the UTF-8 of the line an ordinary editor would show after the same input. */
  lemma LineIsDisplay(g: Settings, calls: seq<Call>)
    ensures Track(g, calls).0.line == Flat(Display(calls).line)
  {
    SessionAgrees(g, calls);
    FollowShows(g, calls);
  }

  // ---------- Splitting the input ----------

  /** Cutting the input at a character boundary changes neither the state reached nor the actions returned. */
  lemma SplitAtBoundary(g: Settings, t: Tracker, cs: Line, rest: Text, now: nat)
    ensures var (t1, a1) := FeedText(g, t, Flat(cs), now);
            var (t2, a2) := FeedText(g, t1, rest, now);
            FeedText(g, t, Flat(cs) + rest, now) == (t2, a1 + a2)
  {
    var step := Feeding(g, now);
    assert cs[..0] == [] && cs[0..] == cs;
    FoldChars(step, t, [], cs, rest, 0);
    FoldFlat(step, t, cs);
    var (t1, a1) := FeedText(g, t, Flat(cs), now);
    FoldAfter(step, t1, a1, rest, 0);
  }

  // ---------- Discipline ----------

  /**
   A correction is open exactly while its Halt is the last cue; every Halt is answered by a phrase or a dropped
   line.
   */
  ghost predicate Disciplined(e: Editor, cues: seq<Cue>) {
    && (e.correcting <==> |cues| > 0 && cues[|cues| - 1].Halt?)
    && forall i :: 0 <= i < |cues| - 1 && cues[i].Halt? ==> !cues[i + 1].Halt?
  }

  lemma {:induction false} TypeDisciplined(w: World, cs: Line, now: nat)
    requires Disciplined(w.e, w.cues)
    ensures Disciplined(TypeAll(w, cs, now).e, TypeAll(w, cs, now).cues)
    decreases |cs|
  {
    if cs != [] {
      EditSteps(w.e, cs[0], now);
      DisciplineKept(w.e, w.cues, Type(w, cs[0], now).e, Edit(w.e, cs[0], now).1);
      TypeDisciplined(Type(w, cs[0], now), cs[1..], now);
    }
  }

  /** A Halt opens a correction, a phrase or a dropped line closes it, and nothing else does either. */
  predicate CueFits(e: Editor, cues: seq<Cue>, e': Editor) {
    if cues == [] then e'.correcting == e.correcting
    else |cues| == 1 && if cues[0].Halt? then !e.correcting && e'.correcting else !e'.correcting
  }

  lemma EditSteps(e: Editor, c: Char, now: nat)
    ensures CueFits(e, Edit(e, c, now).1, Edit(e, c, now).0)
  {
  }

  lemma DisciplineKept(e: Editor, cues: seq<Cue>, e': Editor, more: seq<Cue>)
    requires Disciplined(e, cues) && CueFits(e, more, e')
    ensures Disciplined(e', cues + more)
  {
    if more == [] {
      assert cues + more == cues;
    }
  }

  /**
   In every session, each Stop with its announcement is followed by no other speech until the corrected phrase
   is said or the line dropped, and the voice is stopped exactly while a correction is open.
   */
  lemma {:induction false} StopUntilCorrected(g: Settings, calls: seq<Call>)
    ensures Disciplined(Follow(g, calls).e, Follow(g, calls).cues)
  {
    if calls != [] {
      var init := calls[..|calls| - 1];
      StopUntilCorrected(g, init);
      var w := Follow(g, init);
      match calls[|calls| - 1]
      case Add(cs, now) => TypeDisciplined(w, cs, now);
      case Tick(now) => DisciplineKept(w.e, w.cues, Settle(g, w.e, now).0, Settle(g, w.e, now).1);
      case Clear => DisciplineKept(w.e, w.cues, Forget(w).e, [Drop]);
    }
  }

  /** At most five complete words wait, and possibly one being typed. */
  predicate PendingOk(e: Editor) {
    !e.correcting ==> (e.said <= |e.line| && FewWords(Flat(e.line[e.said..])))
  }

  predicate FewWords(pending: Text) {
    CountWords(pending) <= MAX_PENDING_WORDS + if EndsInWord(pending) then 1 else 0
  }

  lemma ErasePending(e: Editor, now: nat)
    requires EditorOk(e) && PendingOk(e)
    ensures PendingOk(Erase(e, now).0)
  {
    if !e.correcting && |e.line| > e.said {
      var c := e.line[|e.line| - 1];
      var pending := e.line[..|e.line| - 1][e.said..];
      assert e.line[e.said..] == pending + [c];
      FlatSnoc(pending, c);
      CountChar(Flat(pending), c);
    }
  }

  lemma InsertPending(e: Editor, c: Char, now: nat)
    requires EditorOk(e) && PendingOk(e)
    ensures PendingOk(Insert(e, c, now).0)
  {
    if !e.correcting {
      var line := e.line + [c];
      assert line[e.said..] == e.line[e.said..] + [c];
      assert line[|line|..] == [];
      FlatSnoc(e.line[e.said..], c);
      CountChar(Flat(e.line[e.said..]), c);
    }
  }

  lemma EditPending(e: Editor, c: Char, now: nat)
    requires EditorOk(e) && PendingOk(e)
    ensures PendingOk(Edit(e, c, now).0)
  {
    if c == BS {
      ErasePending(e, now);
    } else if c != CR && !IsLineEnd(c) {
      InsertPending(e, c, now);
    }
  }

  lemma {:induction false} TypePending(w: World, cs: Line, now: nat)
    requires EditorOk(w.e) && PendingOk(w.e)
    ensures EditorOk(TypeAll(w, cs, now).e) && PendingOk(TypeAll(w, cs, now).e)
    decreases |cs|
  {
    if cs != [] {
      EditKeepsOk(w.e, cs[0], now);
      EditPending(w.e, cs[0], now);
      TypePending(Type(w, cs[0], now), cs[1..], now);
    }
  }

  lemma {:induction false} FollowPending(g: Settings, calls: seq<Call>)
    ensures EditorOk(Follow(g, calls).e) && PendingOk(Follow(g, calls).e)
  {
    if calls != [] {
      var init := calls[..|calls| - 1];
      FollowPending(g, init);
      match calls[|calls| - 1]
      case Add(cs, now) => TypePending(Follow(g, init), cs, now);
      case _ =>
    }
  }

  /** Outside a correction the bytes not yet said never hold more than six words. */
  lemma PendingBounded(g: Settings, calls: seq<Call>)
    ensures var t := Track(g, calls).0;
            !t.correcting ==> t.said <= |t.line| && CountWords(t.line[t.said..]) <= MAX_PENDING_WORDS + 1
  {
    SessionAgrees(g, calls);
    FollowPending(g, calls);
    var e := Follow(g, calls).e;
    FlatCut(e.line, e.said);
  }
}
