/**
 `CorrectionTracker`: a typed T.140 line cut into phrases to speak, with corrections.  The tracker
 works on the UTF-8 bytes of the line; `Feed` says what one character does to it, and the class is
 the object that runs this over a received text.
 */
module CorrectionTracker {
  import opened Common

  type Text = seq<Byte>

  const CR: Text := [0x0D]
  const LF: Text := [0x0A]
  const BS: Text := [0x08]
  const LINE_SEPARATOR: Text := [0xE2, 0x80, 0xA8]
  const ELLIPSIS: Text := [0xE2, 0x80, 0xA6]

  const MAX_PENDING_WORDS := 5

  // ---------- Characters of a byte string ----------

  function CharLength(lead: Byte): nat {
    if lead >= 0xF0 then 4 else if lead >= 0xE0 then 3 else if lead >= 0xC0 then 2 else 1
  }

  /** The length of the character at `pos`, which the end of the text may cut short. */
  function LengthAt(text: Text, pos: nat): (n: nat)
    requires pos < |text|
    ensures 0 < n <= |text| - pos
  {
    if CharLength(text[pos]) < |text| - pos then CharLength(text[pos]) else |text| - pos
  }

  /** The character at `pos`, as every loop of the tracker cuts it. */
  function CharAt(text: Text, pos: nat): (c: Text)
    requires pos < |text|
    ensures |c| == LengthAt(text, pos)
  {
    text[pos..pos + LengthAt(text, pos)]
  }

  predicate IsContinuation(b: Byte) {
    0x80 <= b < 0xC0
  }

  function Erased(text: Text): Text
    decreases |text|
  {
    if text == [] then []
    else if |text| > 1 && IsContinuation(text[|text| - 1]) then Erased(text[..|text| - 1])
    else text[..|text| - 1]
  }

  predicate IsPhraseEnd(c: Text) {
    c == [0x2E] || c == [0x3F] || c == [0x21] || c == [0x3A] || c == ELLIPSIS
  }

  predicate IsBlankByte(b: Byte) {
    b == 0x20 || b == 0x09
  }

  predicate IsBlank(c: Text) {
    c == [0x20] || c == [0x09]
  }

  predicate IsAlnum(b: Byte) {
    0x30 <= b <= 0x39 || 0x41 <= b <= 0x5A || 0x61 <= b <= 0x7A
  }

  /** A letter or a digit: what makes a phrase worth speaking. */
  predicate IsWordy(c: Text) {
    if |c| > 1 then c != ELLIPSIS else |c| == 1 && IsAlnum(c[0])
  }

  function TrimLeft(text: Text): Text {
    if text != [] && IsBlankByte(text[0]) then TrimLeft(text[1..]) else text
  }

  function TrimRight(text: Text): Text {
    if text != [] && IsBlankByte(text[|text| - 1]) then TrimRight(text[..|text| - 1]) else text
  }

  function Trim(text: Text): Text {
    TrimRight(TrimLeft(text))
  }

  predicate WordsFrom(text: Text, pos: nat)
    requires pos <= |text|
    decreases |text| - pos
  {
    pos < |text| && (IsWordy(CharAt(text, pos)) || WordsFrom(text, pos + LengthAt(text, pos)))
  }

  predicate HasWords(text: Text) {
    WordsFrom(text, 0)
  }

  /** Runs of non-blank bytes; `inWord` tells whether a run is already open. */
  function CountFrom(text: Text, inWord: bool): nat {
    if text == [] then 0
    else (if !IsBlankByte(text[0]) && !inWord then 1 else 0) + CountFrom(text[1..], !IsBlankByte(text[0]))
  }

  function CountWords(text: Text): nat {
    CountFrom(text, false)
  }

  /** The last position after a phrase end, among the characters from `i` on that end by `pos`. */
  function StartFrom(line: Text, i: nat, pos: nat, start: nat): nat
    requires i <= |line|
    decreases |line| - i
  {
    if i == |line| || i >= pos then start
    else
      var end := i + LengthAt(line, i);
      StartFrom(line, end, pos, if end <= pos && IsPhraseEnd(CharAt(line, i)) then end else start)
  }

  function SentenceStart(line: Text, pos: nat): nat {
    StartFrom(line, 0, pos, 0)
  }

  // ---------- The tracker ----------

  datatype Action = Speak(text: Text) | Stop

  datatype Settings = Settings(stableMs: int, announce: bool, announcement: Text)

  datatype Tracker = Tracker(line: Text, said: nat, correcting: bool, correctionStart: nat, lastChangeMs: nat)

  const FRESH := Tracker([], 0, false, 0, 0)

  function SpokenFrom(t: Tracker, from: nat): seq<Action> {
    var phrase := Trim(t.line[Min(from, |t.line|)..]);
    if HasWords(phrase) then [Speak(phrase)] else []
  }

  /** The phrase that leaves when the pending text, or the corrected one, is flushed. */
  function FlushStart(t: Tracker): nat {
    if t.correcting then t.correctionStart else t.said
  }

  function Flushed(t: Tracker): Tracker {
    t.(correcting := false, said := |t.line|)
  }

  function Backspaced(g: Settings, t: Tracker, now: nat): (Tracker, seq<Action>) {
    var line := Erased(t.line);
    if t.line == [] then (t, [])
    else if |line| >= t.said then
      (t.(line := line, lastChangeMs := if t.correcting then now else t.lastChangeMs), [])
    else if !t.correcting then
      (Tracker(line, |line|, true, SentenceStart(line, |line|), now),
       [Stop] + if g.announce then [Speak(g.announcement)] else [])
    else
      (Tracker(line, |line|, true, Min(SentenceStart(line, |line|), t.correctionStart), now), [])
  }

  function Typed(t: Tracker, c: Text, now: nat): (Tracker, seq<Action>) {
    var t1 := t.(line := t.line + c);
    if t.correcting then (t1.(lastChangeMs := now), [])
    else if IsPhraseEnd(c) || (IsBlank(c) && CountWords(t1.line[Min(t.said, |t1.line|)..]) > MAX_PENDING_WORDS) then
      (Flushed(t1), SpokenFrom(t1, t1.said))
    else (t1, [])
  }

  predicate IsLineEnd(c: Text) {
    c == LF || c == LINE_SEPARATOR
  }

  /** One character of received text. */
  function Feed(g: Settings, t: Tracker, c: Text, now: nat): (Tracker, seq<Action>) {
    if c == CR then (t, [])
    else if IsLineEnd(c) then (Flushed(t).(line := [], said := 0), SpokenFrom(t, FlushStart(t)))
    else if c == BS then Backspaced(g, t, now)
    else Typed(t, c, now)
  }

  type Reaction = (Tracker, Text) -> (Tracker, seq<Action>)

  function Feeding(g: Settings, now: nat): Reaction {
    (t, c) => Feed(g, t, c, now)
  }

  /** The characters of `text` from `pos` on, one after the other, after the actions in `done`. */
  function Fold(step: Reaction, t: Tracker, done: seq<Action>, text: Text, pos: nat): (Tracker, seq<Action>)
    requires pos <= |text|
    decreases |text| - pos
  {
    if pos == |text| then (t, done)
    else
      var (t1, a1) := step(t, CharAt(text, pos));
      Fold(step, t1, done + a1, text, pos + LengthAt(text, pos))
  }

  lemma FoldOnce(g: Settings, t: Tracker, done: seq<Action>, text: Text, pos: nat, now: nat)
    requires pos < |text|
    ensures var r := Feed(g, t, CharAt(text, pos), now);
            Fold(Feeding(g, now), t, done, text, pos)
                == Fold(Feeding(g, now), r.0, done + r.1, text, pos + LengthAt(text, pos))
  {
  }

  /** A text received at time `now`. */
  function FeedText(g: Settings, t: Tracker, text: Text, now: nat): (Tracker, seq<Action>) {
    Fold(Feeding(g, now), t, [], text, 0)
  }

  /** Unsigned 64-bit elapsed time against the configured delay, both as the source compares them. */
  predicate IsStable(g: Settings, lastChangeMs: nat, now: nat) {
    (now - lastChangeMs) % QWORD_RANGE >= g.stableMs % QWORD_RANGE
  }

  function Ticked(g: Settings, t: Tracker, now: nat): (Tracker, seq<Action>) {
    if t.correcting && IsStable(g, t.lastChangeMs, now) then (Flushed(t), SpokenFrom(t, t.correctionStart)) else (t, [])
  }

  function Cleared(t: Tracker): Tracker {
    t.(line := [], said := 0, correcting := false)
  }

  // ---------- The loops ----------

  method EraseLastChar(text: Text) returns (r: Text)
    ensures r == Erased(text)
  {
    if text == [] {
      return text;
    }
    var pos := |text| - 1;
    assert text[..pos + 1] == text;
    while pos > 0 && IsContinuation(text[pos])
      invariant 0 <= pos < |text|
      invariant Erased(text[..pos + 1]) == Erased(text)
    {
      assert text[..pos + 1][..pos] == text[..pos];
      pos := pos - 1;
    }
    assert text[..pos + 1][..pos] == text[..pos];
    r := text[..pos];
  }

  method FindWords(text: Text) returns (found: bool)
    ensures found == HasWords(text)
  {
    var pos := 0;
    while pos < |text|
      invariant 0 <= pos <= |text|
      invariant HasWords(text) == WordsFrom(text, pos)
    {
      var length := LengthAt(text, pos);
      var c := text[pos..pos + length];
      if if length > 1 then c != ELLIPSIS else IsAlnum(c[0]) {
        return true;
      }
      pos := pos + length;
    }
    return false;
  }

  method CountLoop(text: Text) returns (words: nat)
    ensures words == CountWords(text)
  {
    words := 0;
    var inWord := false;
    for i := 0 to |text|
      invariant words + CountFrom(text[i..], inWord) == CountWords(text)
    {
      var blank := IsBlankByte(text[i]);
      assert text[i..][1..] == text[i + 1..];
      if !blank && !inWord {
        words := words + 1;
      }
      inWord := !blank;
    }
  }

  method FindSentenceStart(line: Text, pos: nat) returns (start: nat)
    ensures start == SentenceStart(line, pos)
  {
    start := 0;
    var i := 0;
    while i < pos && i < |line|
      invariant 0 <= i <= |line|
      invariant StartFrom(line, i, pos, start) == SentenceStart(line, pos)
    {
      var length := LengthAt(line, i);
      i := i + length;
      if i <= pos && IsPhraseEnd(line[i - length..i]) {
        start := i;
      }
    }
  }

  // ---------- The object ----------

  class LineTracker {
    const settings: Settings
    var line: Text
    var said: nat
    var correcting: bool
    var correctionStart: nat
    var lastChangeMs: nat

    function View(): Tracker
      reads this
    {
      Tracker(line, said, correcting, correctionStart, lastChangeMs)
    }

    constructor (settings: Settings)
      ensures View() == FRESH && this.settings == settings
    {
      this.settings := settings;
      line, said, correcting, correctionStart, lastChangeMs := [], 0, false, 0, 0;
    }

    method SpeakFrom(actions: seq<Action>, from: nat) returns (r: seq<Action>)
      modifies this`said
      ensures View() == old(View()).(said := |line|)
      ensures r == actions + SpokenFrom(old(View()), from)
    {
      var phrase := Trim(line[Min(from, |line|)..]);
      said := |line|;
      var words := FindWords(phrase);
      r := if words then actions + [Speak(phrase)] else actions;
    }

    method FinishCorrection(actions: seq<Action>) returns (r: seq<Action>)
      modifies this`said, this`correcting
      ensures View() == Flushed(old(View()))
      ensures r == actions + SpokenFrom(old(View()), correctionStart)
    {
      correcting := false;
      r := SpeakFrom(actions, correctionStart);
    }

    method AddChar(actions: seq<Action>, c: Text, now: nat) returns (r: seq<Action>)
      modifies this
      ensures View() == Feed(settings, old(View()), c, now).0
      ensures r == actions + Feed(settings, old(View()), c, now).1
    {
      r := actions;
      if c == CR {
        return;
      }
      if c == LF || c == LINE_SEPARATOR {
        if correcting {
          r := FinishCorrection(r);
        } else {
          r := SpeakFrom(r, said);
        }
        line := [];
        said := 0;
        return;
      }
      if c == BS {
        r := EraseOne(r, now);
        return;
      }
      line := line + c;
      if correcting {
        lastChangeMs := now;
        return;
      }
      if IsPhraseEnd(c) {
        r := SpeakFrom(r, said);
      } else if IsBlank(c) {
        var words := CountLoop(line[Min(said, |line|)..]);
        if words > MAX_PENDING_WORDS {
          r := SpeakFrom(r, said);
        }
      }
    }

    method EraseOne(actions: seq<Action>, now: nat) returns (r: seq<Action>)
      modifies this
      ensures View() == Backspaced(settings, old(View()), now).0
      ensures r == actions + Backspaced(settings, old(View()), now).1
    {
      r := actions;
      if line == [] {
        return;
      }
      line := EraseLastChar(line);
      if |line| < said {
        said := |line|;
        var start := FindSentenceStart(line, |line|);
        if !correcting {
          correcting := true;
          correctionStart := start;
          r := r + [Stop];
          if settings.announce {
            r := r + [Speak(settings.announcement)];
          }
        } else if start < correctionStart {
          correctionStart := start;
        }
      }
      if correcting {
        lastChangeMs := now;
      }
    }

    /** One turn of the loop of Add. */
    method AddAt(actions: seq<Action>, utf8: Text, pos: nat, now: nat) returns (r: seq<Action>)
      requires pos < |utf8|
      modifies this
      ensures Fold(Feeding(settings, now), View(), r, utf8, pos + LengthAt(utf8, pos))
           == Fold(Feeding(settings, now), old(View()), actions, utf8, pos)
    {
      FoldOnce(settings, View(), actions, utf8, pos, now);
      r := AddChar(actions, CharAt(utf8, pos), now);
    }

    method Add(utf8: Text, now: nat) returns (actions: seq<Action>)
      modifies this
      ensures (View(), actions) == FeedText(settings, old(View()), utf8, now)
    {
      actions := [];
      var pos := 0;
      while pos < |utf8|
        invariant 0 <= pos <= |utf8|
        invariant Fold(Feeding(settings, now), View(), actions, utf8, pos) == FeedText(settings, old(View()), utf8, now)
      {
        actions := AddAt(actions, utf8, pos, now);
        pos := pos + LengthAt(utf8, pos);
      }
    }

    method Tick(now: nat) returns (actions: seq<Action>)
      modifies this
      ensures View() == Ticked(settings, old(View()), now).0
      ensures actions == Ticked(settings, old(View()), now).1
    {
      actions := [];
      if correcting && IsStable(settings, lastChangeMs, now) {
        actions := FinishCorrection(actions);
      }
    }

    method Clear()
      modifies this`line, this`said, this`correcting
      ensures View() == Cleared(old(View()))
    {
      line := [];
      said := 0;
      correcting := false;
    }
  }
}
