/** When the tracker speaks, told by what was typed and when. */
module TrackerHistory {
  import opened Common
  import opened CorrectionTracker
  import opened TrackerText
  import opened TrackerProofs

  // ---------- The time of the last edit ----------

  /** When the display last changed, `at` before the characters `cs` came. */
  function EditedAt(s: Screen, at: nat, cs: Line, now: nat): nat
    decreases |cs|
  {
    if cs == [] then at else EditedAt(Show(s, cs[0]), if Show(s, cs[0]) != s then now else at, cs[1..], now)
  }

  /** When the last character came that changed the display. */
  function LastEdit(calls: seq<Call>): nat {
    if calls == [] then 0
    else
      var init := calls[..|calls| - 1];
      match calls[|calls| - 1]
      case Add(cs, now) => EditedAt(Display(init), LastEdit(init), cs, now)
      case _ => LastEdit(init)
  }

  ghost predicate Clocked(w: World, s: Screen, at: nat) {
    OnScreen(w, s) && (w.e.correcting ==> w.e.lastChangeMs == at)
  }

  lemma TypeClocked(w: World, s: Screen, at: nat, c: Char, now: nat)
    requires Clocked(w, s, at)
    ensures Clocked(Type(w, c, now), Show(s, c), if Show(s, c) != s then now else at)
  {
    assert OnScreen(Type(w, c, now), Show(s, c));
    if Type(w, c, now).e.correcting && c != CR && s.line != [] {
      assert |Show(s, c).line| != |s.line|;
    }
  }

  lemma {:induction false} TypeAllClocked(w: World, s: Screen, at: nat, cs: Line, now: nat)
    requires Clocked(w, s, at)
    ensures Clocked(TypeAll(w, cs, now), ShowAll(s, cs), EditedAt(s, at, cs, now))
    decreases |cs|
  {
    if cs != [] {
      TypeClocked(w, s, at, cs[0], now);
      TypeAllClocked(Type(w, cs[0], now), Show(s, cs[0]), if Show(s, cs[0]) != s then now else at, cs[1..], now);
    }
  }

  lemma {:induction false} FollowClocked(g: Settings, calls: seq<Call>)
    ensures Clocked(Follow(g, calls), Display(calls), LastEdit(calls))
  {
    if calls != [] {
      var init := calls[..|calls| - 1];
      FollowClocked(g, init);
      match calls[|calls| - 1]
      case Add(cs, now) => TypeAllClocked(Follow(g, init), Display(init), LastEdit(init), cs, now);
      case _ =>
    }
  }

  lemma StableExactly(g: Settings, last: nat, now: nat)
    requires last <= now < 0x1_0000_0000_0000_0000 && 0 <= g.stableMs < 0x1_0000_0000_0000_0000
    ensures IsStable(g, last, now) <==> now - last >= g.stableMs
  {
  }

  lemma PauseSays(g: Settings, w: World, now: nat)
    requires WorldOk(w)
    ensures if w.e.correcting && IsStable(g, w.e.lastChangeMs, now)
            then w.e.start <= |w.e.line| && !Pause(g, w, now).e.correcting
                 && Pause(g, w, now).cues == w.cues + [Say(w.e.start, w.e.line[w.e.start..])]
            else Pause(g, w, now) == w
  {
    assert w.cues + [] == w.cues;
  }

  /**
   A tick says the corrected phrase, from its start to the end of the line, exactly when a correction is open and the
   display did not change for as long as configured; otherwise it says nothing.
   */
  lemma TickSays(g: Settings, calls: seq<Call>, now: nat)
    requires LastEdit(calls) <= now < 0x1_0000_0000_0000_0000 && 0 <= g.stableMs < 0x1_0000_0000_0000_0000
    ensures var w, w' := Follow(g, calls), Follow(g, calls + [Tick(now)]);
            if w.e.correcting && now - LastEdit(calls) >= g.stableMs
            then w.e.start <= |w.e.line| && !w'.e.correcting
                 && w'.cues == w.cues + [Say(w.e.start, w.e.line[w.e.start..])]
            else w' == w
  {
    FollowClocked(g, calls);
    FollowOk(g, calls);
    StableExactly(g, LastEdit(calls), now);
    PauseSays(g, Follow(g, calls), now);
    assert (calls + [Tick(now)])[..|calls|] == calls;
  }

  lemma FollowOk(g: Settings, calls: seq<Call>)
    ensures WorldOk(Follow(g, calls))
  {
    SessionAgrees(g, calls);
  }

  // ---------- Characters ----------

  /** The UTF-8 form of a code point, section 3 of RFC 3629. */
  function Utf8(cp: nat): Text
    requires cp < 0x11_0000
  {
    if cp < 0x80 then [cp]
    else if cp < 0x800 then [0xC0 + cp / 64, 0x80 + cp % 64]
    else if cp < 0x1_0000 then [0xE0 + cp / 4096, 0x80 + cp / 64 % 64, 0x80 + cp % 64]
    else [0xF0 + cp / 262144, 0x80 + cp / 4096 % 64, 0x80 + cp / 64 % 64, 0x80 + cp % 64]
  }

  /** Every code point is a character to the tracker. */
  lemma CodePointsAreChars(cp: nat)
    requires cp < 0x11_0000
    ensures WellFormed(Utf8(cp))
  {
  }

  /** So are forms that the standard forbids: longer than needed, or beyond the last code point. */
  lemma LongFormsAreChars(cp: nat)
    ensures cp < 0x800 ==> WellFormed([0xC0 + cp / 64, 0x80 + cp % 64])
    ensures cp < 0x1_0000 ==> WellFormed([0xE0 + cp / 4096, 0x80 + cp / 64 % 64, 0x80 + cp % 64])
    ensures cp < 0x20_0000 ==>
              WellFormed([0xF0 + cp / 262144, 0x80 + cp / 4096 % 64, 0x80 + cp / 64 % 64, 0x80 + cp % 64])
  {
  }

  /** Full stop, question mark, exclamation mark, colon and ellipsis end a phrase, and nothing else does. */
  lemma PhraseEnds(cp: nat)
    requires cp < 0x11_0000
    ensures IsPhraseEnd(Utf8(cp)) <==> cp in {0x2E, 0x3F, 0x21, 0x3A, 0x2026}
  {
  }

  /** ASCII letters and digits are spoken, and everything beyond ASCII but the ellipsis. */
  lemma LettersAre(cp: nat)
    requires cp < 0x11_0000
    ensures IsWordy(Utf8(cp)) <==>
              || 0x30 <= cp <= 0x39 || 0x41 <= cp <= 0x5A || 0x61 <= cp <= 0x7A
              || (cp >= 0x80 && cp != 0x2026)
  {
  }

  predicate IsSpace(b: Byte) {
    b == 0x20 || b == 0x09
  }

  /** Words of a text: bytes other than space and tab that nothing but these, or the start, precedes. */
  function Words(text: Text): nat {
    if text == [] then 0
    else
      var n := |text| - 1;
      Words(text[..n]) + if !IsSpace(text[n]) && (n == 0 || IsSpace(text[n - 1])) then 1 else 0
  }

  lemma {:induction false} WordsCounted(text: Text)
    ensures CountWords(text) == Words(text)
  {
    if text != [] {
      var init, b := text[..|text| - 1], text[|text| - 1];
      WordsCounted(init);
      CountSnoc(init, false, b);
      assert text == init + [b];
    }
  }

  // ---------- What a character makes the tracker say ----------

  /** Line feed or line separator. */
  predicate EndsLine(c: Char) {
    c == Utf8(0x0A) || c == Utf8(0x2028)
  }

  predicate EndsPhrase(c: Char) {
    c == Utf8(0x2E) || c == Utf8(0x3F) || c == Utf8(0x21) || c == Utf8(0x3A) || c == Utf8(0x2026)
  }

  /** The sixth word of the pending text is complete. */
  predicate TooManyWait(pending: Line, c: Char) {
    (c == Utf8(0x20) || c == Utf8(0x09)) && Words(Flat(pending)) > 5
  }

  /**
   What character `c` has to make the tracker say, with the listener at `stand`: a line end says the rest of the line;
   a deletion of something heard stops the voice, once; a phrase end says the pending phrase at once, and so does a
   blank after six words; during a correction, and otherwise, nothing is said.
   */
  function Expected(line: Line, correction: Option<nat>, stand: nat, c: Char): seq<Cue>
    requires stand <= |line| && (correction.Some? ==> correction.value <= |line|)
  {
    if EndsLine(c) then
      var from := if correction.Some? then correction.value else stand;
      [Say(from, line[from..])]
    else if c == Utf8(0x0D) || correction.Some? then []
    else if c == Utf8(0x08) then if line != [] && stand == |line| then [Halt] else []
    else
      var pending := line[stand..] + [c];
      if EndsPhrase(c) || TooManyWait(pending, c) then [Say(stand, pending)] else []
  }

  function Correction(e: Editor): Option<nat> {
    if e.correcting then Some(e.start) else None
  }

  lemma Kinds(c: Char)
    ensures EndsLine(c) == IsLineEnd(c) && EndsPhrase(c) == IsPhraseEnd(c)
    ensures (c == Utf8(0x0D)) == (c == CR) && (c == Utf8(0x08)) == (c == BS)
    ensures (c == Utf8(0x20) || c == Utf8(0x09)) == IsBlank(c)
  {
  }

  lemma CompletesWhen(e: Editor, c: Char)
    requires e.said <= |e.line|
    ensures var pending := e.line[e.said..] + [c];
            && Completes(e.(line := e.line + [c]), c) == (EndsPhrase(c) || TooManyWait(pending, c))
            && (e.line + [c])[e.said..] == pending
  {
    var pending := e.line[e.said..] + [c];
    assert (e.line + [c])[e.said..] == pending;
    WordsCounted(Flat(pending));
    Kinds(c);
  }

  lemma InsertSays(e: Editor, c: Char, now: nat)
    requires EditorOk(e) && !e.correcting
    ensures var pending := e.line[e.said..] + [c];
            Insert(e, c, now).1 == if EndsPhrase(c) || TooManyWait(pending, c) then [Say(e.said, pending)] else []
  {
    CompletesWhen(e, c);
  }

  lemma EraseSays(e: Editor, now: nat)
    requires EditorOk(e) && !e.correcting
    ensures Erase(e, now).1 == if e.line != [] && e.said == |e.line| then [Halt] else []
  {
  }

  lemma EditSays(e: Editor, c: Char, now: nat)
    requires EditorOk(e)
    ensures Correction(e).Some? ==> Correction(e).value <= |e.line|
    ensures Edit(e, c, now).1 == Expected(e.line, Correction(e), e.said, c)
  {
    Kinds(c);
    if !e.correcting {
      EraseSays(e, now);
      InsertSays(e, c, now);
    }
  }

  /** In every session each character makes the tracker say what it has to. */
  lemma CharacterSays(g: Settings, calls: seq<Call>, c: Char, now: nat)
    ensures var w := Follow(g, calls);
            var stand := if w.e.correcting then 0 else |w.heard|;
            && stand <= |w.e.line| && (w.e.correcting ==> w.e.start <= |w.e.line|)
            && Type(w, c, now).cues == w.cues + Expected(w.e.line, Correction(w.e), stand, c)
  {
    FollowOk(g, calls);
    var w := Follow(g, calls);
    EditSays(w.e, c, now);
  }

  /** A deletion of something heard stops the voice and then announces the correction, if announcements are wanted. */
  lemma DeletionStops(g: Settings, calls: seq<Call>, now: nat)
    requires var w := Follow(g, calls); !w.e.correcting && w.e.line != [] && |w.heard| == |w.e.line|
    ensures Track(g, calls + [Add([[0x08]], now)]).1
         == Track(g, calls).1 + [Stop] + if g.announce then [Speak(g.announcement)] else []
  {
    var all := calls + [Add([[0x08]], now)];
    SessionAgrees(g, calls);
    SessionAgrees(g, all);
    DeletionHalts(g, calls, now);
    HaltRendered(g, Follow(g, calls).cues);
  }

  lemma DeletionHalts(g: Settings, calls: seq<Call>, now: nat)
    requires var w := Follow(g, calls); !w.e.correcting && w.e.line != [] && |w.heard| == |w.e.line|
    ensures Follow(g, calls + [Add([[0x08]], now)]).cues == Follow(g, calls).cues + [Halt]
  {
    var all, w := calls + [Add([[0x08]], now)], Follow(g, calls);
    assert all[..|calls|] == calls;
    CharacterSays(g, calls, [0x08], now);
    assert TypeAll(w, [[0x08]], now) == Type(w, [0x08], now) by {
      assert [[0x08]][1..] == [];
    }
  }

  lemma HaltRendered(g: Settings, cues: seq<Cue>)
    ensures RenderAll(g, cues + [Halt])
         == RenderAll(g, cues) + [Stop] + if g.announce then [Speak(g.announcement)] else []
  {
    RenderAppend(g, cues, [Halt]);
    assert [Halt][..0] == [];
  }

  /**
   While a correction is open, the phrase to say again begins at the line's start or right after a phrase end, and
   holds no phrase end up to where the deletions reached.
   */
  lemma CorrectionIsSentence(g: Settings, calls: seq<Call>)
    ensures var e := Follow(g, calls).e;
            e.correcting ==>
              && e.start <= e.said <= |e.line|
              && (e.start > 0 ==> EndsPhrase(e.line[e.start - 1]))
              && forall k :: e.start <= k < e.said ==> !EndsPhrase(e.line[k])
  {
    FollowOk(g, calls);
    var e := Follow(g, calls).e;
    if e.correcting {
      EditorSentence(e);
    }
  }

  lemma EditorSentence(e: Editor)
    requires EditorOk(e) && e.correcting
    ensures e.start <= e.said <= |e.line| && (e.start > 0 ==> EndsPhrase(e.line[e.start - 1]))
    ensures forall k :: e.start <= k < e.said ==> !EndsPhrase(e.line[k])
  {
    var cs := e.line[..e.said];
    SentenceBegins(cs);
    LastSentence(cs, e.start);
    assert forall k :: 0 <= k < e.said ==> cs[k] == e.line[k];
  }

  lemma LastSentence(cs: Line, m: nat)
    requires BeginsLastSentence(cs, m)
    ensures m <= |cs| && (m > 0 ==> EndsPhrase(cs[m - 1])) && forall k :: m <= k < |cs| ==> !EndsPhrase(cs[k])
  {
    if m > 0 {
      Kinds(cs[m - 1]);
    }
    forall k | m <= k < |cs|
      ensures !EndsPhrase(cs[k])
    {
      Kinds(cs[k]);
    }
  }
}
