/** Well-formed UTF-8 as a sequence of characters, and what the tracker's byte loops compute on it. */
module TrackerText {
  import opened Common
  import opened CorrectionTracker

  predicate WellFormed(c: Text) {
    && |c| > 0 && !IsContinuation(c[0]) && |c| == CharLength(c[0])
    && forall i :: 1 <= i < |c| ==> IsContinuation(c[i])
  }

  type Char = c: Text | WellFormed(c) witness [0x61]

  type Line = seq<Char>

  /** The bytes of a line. */
  function Flat(cs: Line): Text {
    if cs == [] then [] else Flat(cs[..|cs| - 1]) + cs[|cs| - 1]
  }

  /** Where character `k` begins. */
  function Offset(cs: Line, k: nat): nat
    requires k <= |cs|
  {
    |Flat(cs[..k])|
  }

  lemma FlatSnoc(cs: Line, c: Char)
    ensures Flat(cs + [c]) == Flat(cs) + c
  {
    assert (cs + [c])[..|cs|] == cs;
  }

  lemma {:induction false} FlatAppend(cs: Line, ds: Line)
    ensures Flat(cs + ds) == Flat(cs) + Flat(ds)
  {
    if ds == [] {
      assert cs + ds == cs;
    } else {
      var init := ds[..|ds| - 1];
      assert cs + ds == (cs + init) + [ds[|ds| - 1]];
      FlatSnoc(cs + init, ds[|ds| - 1]);
      FlatAppend(cs, init);
    }
  }

  lemma FlatCut(cs: Line, k: nat)
    requires k <= |cs|
    ensures Flat(cs) == Flat(cs[..k]) + Flat(cs[k..])
    ensures Offset(cs, k) <= |Flat(cs)| && Flat(cs)[Offset(cs, k)..] == Flat(cs[k..])
            && Flat(cs)[..Offset(cs, k)] == Flat(cs[..k])
  {
    assert cs[..k] + cs[k..] == cs;
    FlatAppend(cs[..k], cs[k..]);
  }

  lemma OffsetWithin(cs: Line, k: nat)
    requires k <= |cs|
    ensures Offset(cs, k) <= |Flat(cs)|
  {
    FlatCut(cs, k);
  }

  lemma FlatHead(cs: Line)
    requires cs != []
    ensures Flat(cs) == cs[0] + Flat(cs[1..])
  {
    var first: Line := [cs[0]];
    assert cs == first + cs[1..];
    FlatAppend(first, cs[1..]);
    FlatOne(cs[0]);
  }

  lemma FlatOne(c: Char)
    ensures Flat([c]) == c
  {
    var none: Line := [];
    FlatSnoc(none, c);
    assert none + [c] == [c];
  }

  lemma OffsetStep(cs: Line, k: nat)
    requires k < |cs|
    ensures Offset(cs, k + 1) == Offset(cs, k) + |cs[k]|
  {
    assert cs[..k + 1] == cs[..k] + [cs[k]];
    FlatSnoc(cs[..k], cs[k]);
  }

  lemma {:induction false} OffsetGrows(cs: Line, i: nat, j: nat)
    requires i <= j <= |cs|
    ensures Offset(cs, i) <= Offset(cs, j) && (i < j ==> Offset(cs, i) < Offset(cs, j))
  {
    if i < j {
      OffsetGrows(cs, i, j - 1);
      OffsetStep(cs, j - 1);
    }
  }

  /** The loops cut well-formed text at its characters. */
  lemma CutAtChar(cs: Line, rest: Text, k: nat)
    requires k < |cs|
    ensures var text := Flat(cs) + rest;
            Offset(cs, k) < |text| && CharAt(text, Offset(cs, k)) == cs[k] && LengthAt(text, Offset(cs, k)) == |cs[k]|
  {
    FlatCut(cs, k);
    FlatHead(cs[k..]);
    var tail := Flat(cs[k..][1..]);
    Regroup(Flat(cs[..k]), cs[k], tail, rest);
    CutBetween(Flat(cs[..k]), cs[k], tail + rest);
  }

  lemma Regroup(a: Text, b: Text, c: Text, rest: Text)
    ensures a + (b + c) + rest == a + (b + (c + rest))
  {
  }

  lemma CutBetween(before: Text, c: Char, after: Text)
    ensures var text := before + (c + after);
            |before| < |text| && CharAt(text, |before|) == c && LengthAt(text, |before|) == |c|
  {
    var text := before + (c + after);
    assert text[|before|] == c[0];
    assert text[|before|..|before| + |c|] == c;
  }

  lemma CutInside(cs: Line, k: nat)
    requires k < |cs|
    ensures Offset(cs, k) < |Flat(cs)| && CharAt(Flat(cs), Offset(cs, k)) == cs[k]
    ensures Offset(cs, k) + LengthAt(Flat(cs), Offset(cs, k)) == Offset(cs, k + 1) <= |Flat(cs)|
  {
    assert Flat(cs) + [] == Flat(cs);
    CutAtChar(cs, [], k);
    OffsetStep(cs, k);
    FlatCut(cs, k + 1);
  }

  // ---------- Deleting a character ----------

  lemma {:induction false} ErasedPart(text: Text, c: Char, k: nat)
    requires 1 <= k <= |c|
    ensures Erased(text + c[..k]) == text
  {
    var t := text + c[..k];
    assert t[|t| - 1] == c[k - 1];
    assert t[..|t| - 1] == text + c[..k - 1];
    if k > 1 {
      ErasedPart(text, c, k - 1);
    } else {
      assert text + c[..0] == text;
    }
  }

  lemma ErasedChar(cs: Line)
    requires cs != []
    ensures Erased(Flat(cs)) == Flat(cs[..|cs| - 1])
  {
    var c := cs[|cs| - 1];
    assert c[..|c|] == c;
    ErasedPart(Flat(cs[..|cs| - 1]), c, |c|);
  }

  // ---------- Sentences ----------

  function SentenceFrom(cs: Line, k: nat, start: nat): nat
    requires k <= |cs|
    decreases |cs| - k
  {
    if k == |cs| then start else SentenceFrom(cs, k + 1, if IsPhraseEnd(cs[k]) then k + 1 else start)
  }

  /** Where the sentence being typed at the end of `cs` begins. */
  function SentenceOf(cs: Line): nat {
    SentenceFrom(cs, 0, 0)
  }

  /** `m` begins the last sentence: a phrase ends just before it, if anything does, and none ends after it. */
  ghost predicate BeginsLastSentence(cs: Line, m: nat) {
    && m <= |cs| && (m == 0 || IsPhraseEnd(cs[m - 1]))
    && forall i :: m <= i < |cs| ==> !IsPhraseEnd(cs[i])
  }

  lemma {:induction false} SentenceFromBegins(cs: Line, k: nat, start: nat)
    requires start <= k <= |cs| && (start == 0 || IsPhraseEnd(cs[start - 1]))
    requires forall i :: start <= i < k ==> !IsPhraseEnd(cs[i])
    ensures BeginsLastSentence(cs, SentenceFrom(cs, k, start))
    decreases |cs| - k
  {
    if k < |cs| {
      SentenceFromBegins(cs, k + 1, if IsPhraseEnd(cs[k]) then k + 1 else start);
    }
  }

  lemma SentenceBegins(cs: Line)
    ensures BeginsLastSentence(cs, SentenceOf(cs))
  {
    SentenceFromBegins(cs, 0, 0);
  }

  /** Shortening a line never moves its last sentence forward. */
  lemma SentenceShrinks(cs: Line, k: nat)
    requires k <= |cs|
    ensures SentenceOf(cs[..k]) <= SentenceOf(cs)
  {
    SentenceBegins(cs);
    SentenceBegins(cs[..k]);
    var m := SentenceOf(cs[..k]);
    if m > 0 {
      assert IsPhraseEnd(cs[m - 1]);
    }
  }

  lemma StartFromStep(line: Text, i: nat, pos: nat, start: nat)
    requires i < |line| && i < pos
    ensures var end := i + LengthAt(line, i);
            StartFrom(line, i, pos, start)
                == StartFrom(line, end, pos, if end <= pos && IsPhraseEnd(CharAt(line, i)) then end else start)
  {
  }

  lemma {:induction false} StartFromChars(cs: Line, k: nat, start: nat)
    requires start <= k <= |cs|
    ensures SentenceFrom(cs, k, start) <= |cs| && Offset(cs, k) <= |Flat(cs)|
    ensures StartFrom(Flat(cs), Offset(cs, k), |Flat(cs)|, Offset(cs, start)) == Offset(cs, SentenceFrom(cs, k, start))
    decreases |cs| - k
  {
    OffsetWithin(cs, k);
    if k == |cs| {
      assert cs[..k] == cs;
    } else {
      CutInside(cs, k);
      var line, i := Flat(cs), Offset(cs, k);
      StartFromStep(line, i, |line|, Offset(cs, start));
      if IsPhraseEnd(cs[k]) {
        StartFromChars(cs, k + 1, k + 1);
      } else {
        StartFromChars(cs, k + 1, start);
      }
    }
  }

  /** The byte scan finds the sentence. */
  lemma SentenceStartChars(cs: Line)
    ensures SentenceOf(cs) <= |cs| && SentenceStart(Flat(cs), |Flat(cs)|) == Offset(cs, SentenceOf(cs))
  {
    assert cs[..0] == [];
    StartFromChars(cs, 0, 0);
  }

  // ---------- Words ----------

  function Letters(cs: Line): Line {
    if cs == [] then [] else Letters(cs[..|cs| - 1]) + if IsWordy(cs[|cs| - 1]) then [cs[|cs| - 1]] else []
  }

  lemma {:induction false} WordsFromChars(cs: Line, k: nat)
    requires k <= |cs| && Offset(cs, k) <= |Flat(cs)|
    ensures WordsFrom(Flat(cs), Offset(cs, k)) <==> exists i :: k <= i < |cs| && IsWordy(cs[i])
    decreases |cs| - k
  {
    if k == |cs| {
      assert cs[..k] == cs;
    } else {
      CutInside(cs, k);
      WordsFromChars(cs, k + 1);
    }
  }

  lemma {:induction false} LettersIff(cs: Line)
    ensures Letters(cs) != [] <==> exists i :: 0 <= i < |cs| && IsWordy(cs[i])
  {
    if cs != [] {
      var init := cs[..|cs| - 1];
      LettersIff(init);
      assert forall i :: 0 <= i < |init| ==> init[i] == cs[i];
    }
  }

  /** A text has words exactly when it holds a letter or a digit. */
  lemma HasWordsLetters(cs: Line)
    ensures HasWords(Flat(cs)) <==> Letters(cs) != []
  {
    assert cs[..0] == [];
    WordsFromChars(cs, 0);
    LettersIff(cs);
  }

  lemma {:induction false} LettersHead(c: Char, cs: Line)
    ensures Letters([c] + cs) == (if IsWordy(c) then [c] else []) + Letters(cs)
  {
    if cs == [] {
      assert [c] + cs == [] + [c];
      assert ([] + [c])[..0] == [];
    } else {
      var all, init := [c] + cs, cs[..|cs| - 1];
      assert all[..|all| - 1] == [c] + init;
      LettersHead(c, init);
    }
  }

  lemma {:induction false} LettersAppend(cs: Line, ds: Line)
    ensures Letters(cs + ds) == Letters(cs) + Letters(ds)
  {
    if ds == [] {
      assert cs + ds == cs;
    } else {
      var init := ds[..|ds| - 1];
      LettersAppend(cs, init);
      assert (cs + ds)[..|cs + ds| - 1] == cs + init;
    }
  }

  /** The letters and digits in a spoken text, as a listener makes them out. */
  function Voiced(text: Text, pos: nat): seq<Text>
    decreases |text| - pos
  {
    if pos >= |text| then []
    else (if IsWordy(CharAt(text, pos)) then [CharAt(text, pos)] else []) + Voiced(text, pos + LengthAt(text, pos))
  }

  lemma {:induction false} VoicedChars(cs: Line, k: nat)
    requires k <= |cs|
    ensures Voiced(Flat(cs), Offset(cs, k)) == Letters(cs[k..])
    decreases |cs| - k
  {
    if k == |cs| {
      assert cs[..k] == cs;
    } else {
      CutInside(cs, k);
      VoicedChars(cs, k + 1);
      assert cs[k..] == [cs[k]] + cs[k + 1..];
      LettersHead(cs[k], cs[k + 1..]);
    }
  }

  function DropLeft(cs: Line): Line {
    if cs != [] && IsBlank(cs[0]) then DropLeft(cs[1..]) else cs
  }

  function DropRight(cs: Line): Line {
    if cs != [] && IsBlank(cs[|cs| - 1]) then DropRight(cs[..|cs| - 1]) else cs
  }

  lemma BlankEdges(cs: Line)
    requires cs != []
    ensures Flat(cs) != []
    ensures IsBlankByte(Flat(cs)[0]) <==> IsBlank(cs[0])
    ensures IsBlankByte(Flat(cs)[|Flat(cs)| - 1]) <==> IsBlank(cs[|cs| - 1])
  {
    FlatHead(cs);
    var c := cs[|cs| - 1];
    assert Flat(cs)[|Flat(cs)| - 1] == c[|c| - 1];
  }

  lemma {:induction false} TrimLeftChars(cs: Line)
    ensures TrimLeft(Flat(cs)) == Flat(DropLeft(cs)) && Letters(DropLeft(cs)) == Letters(cs)
  {
    if cs != [] {
      BlankEdges(cs);
      FlatHead(cs);
      if IsBlank(cs[0]) {
        TrimLeftChars(cs[1..]);
        assert Flat(cs)[1..] == Flat(cs[1..]);
        LettersHead(cs[0], cs[1..]);
        assert cs == [cs[0]] + cs[1..];
      }
    }
  }

  lemma {:induction false} TrimRightChars(cs: Line)
    ensures TrimRight(Flat(cs)) == Flat(DropRight(cs)) && Letters(DropRight(cs)) == Letters(cs)
  {
    if cs != [] {
      BlankEdges(cs);
      var init, last := cs[..|cs| - 1], cs[|cs| - 1];
      if IsBlank(last) {
        TrimRightChars(init);
        assert cs == init + [last] && |last| == 1;
        FlatSnoc(init, last);
        LastByte(Flat(init), last);
      }
    }
  }

  lemma LastByte(text: Text, c: Text)
    requires |c| == 1
    ensures (text + c)[..|text + c| - 1] == text
  {
  }

  function Trimmed(cs: Line): Line {
    DropRight(DropLeft(cs))
  }

  /** Trimming works on characters and loses no letter. */
  lemma TrimChars(cs: Line)
    ensures Trim(Flat(cs)) == Flat(Trimmed(cs)) && Letters(Trimmed(cs)) == Letters(cs)
  {
    TrimLeftChars(cs);
    TrimRightChars(DropLeft(cs));
  }

  // ---------- Counting words ----------

  predicate EndsInWord(text: Text) {
    text != [] && !IsBlankByte(text[|text| - 1])
  }

  lemma {:induction false} CountSnoc(text: Text, inWord: bool, b: Byte)
    ensures CountFrom(text + [b], inWord) == CountFrom(text, inWord)
              + if !IsBlankByte(b) && !(if text == [] then inWord else EndsInWord(text)) then 1 else 0
  {
    if text != [] {
      assert (text + [b])[1..] == text[1..] + [b];
      CountSnoc(text[1..], !IsBlankByte(text[0]), b);
    } else {
      assert (text + [b])[1..] == [];
    }
  }

  lemma {:induction false} CountWordPart(text: Text, c: Char, k: nat)
    requires 1 <= k <= |c| && !IsBlank(c)
    ensures CountWords(text + c[..k]) == CountWords(text) + (if EndsInWord(text) then 0 else 1)
            && EndsInWord(text + c[..k])
  {
    assert text + c[..k] == (text + c[..k - 1]) + [c[k - 1]];
    CountSnoc(text + c[..k - 1], false, c[k - 1]);
    if k > 1 {
      CountWordPart(text, c, k - 1);
    } else {
      assert text + c[..0] == text;
    }
  }

  lemma CountChar(text: Text, c: Char)
    ensures CountWords(text + c) == CountWords(text) + (if IsBlank(c) || EndsInWord(text) then 0 else 1)
    ensures EndsInWord(text + c) <==> !IsBlank(c)
  {
    if IsBlank(c) {
      CountSnoc(text, false, c[0]);
      assert text + c == text + [c[0]];
    } else {
      assert c[..|c|] == c;
      CountWordPart(text, c, |c|);
    }
  }

  // ---------- Feeding text ----------

  lemma FoldStep(step: Reaction, t: Tracker, done: seq<Action>, text: Text, pos: nat)
    requires pos < |text|
    ensures var r := step(t, CharAt(text, pos));
            Fold(step, t, done, text, pos) == Fold(step, r.0, done + r.1, text, pos + LengthAt(text, pos))
  {
  }

  /** The same over a list of characters. */
  function FoldLine(step: Reaction, t: Tracker, done: seq<Action>, cs: Line): (Tracker, seq<Action>)
    decreases |cs|
  {
    if cs == [] then (t, done) else FoldLine(step, step(t, cs[0]).0, done + step(t, cs[0]).1, cs[1..])
  }

  lemma {:induction false} FoldShift(step: Reaction, t: Tracker, done: seq<Action>, x: Text, y: Text, p: nat)
    requires p <= |y|
    ensures Fold(step, t, done, x + y, |x| + p) == Fold(step, t, done, y, p)
    decreases |y| - p
  {
    if p < |y| {
      CharShift(x, y, p);
      var r := step(t, CharAt(y, p));
      FoldShift(step, r.0, done + r.1, x, y, p + LengthAt(y, p));
    }
  }

  lemma CharShift(x: Text, y: Text, p: nat)
    requires p < |y|
    ensures LengthAt(x + y, |x| + p) == LengthAt(y, p) && CharAt(x + y, |x| + p) == CharAt(y, p)
  {
    assert (x + y)[|x| + p] == y[p];
    var n := LengthAt(y, p);
    assert (x + y)[|x| + p..|x| + p + n] == y[p..p + n];
  }

  lemma {:induction false} FoldAfter(step: Reaction, t: Tracker, done: seq<Action>, text: Text, p: nat)
    requires p <= |text|
    ensures Fold(step, t, done, text, p) == (Fold(step, t, [], text, p).0, done + Fold(step, t, [], text, p).1)
    decreases |text| - p
  {
    if p < |text| {
      var (t1, a1) := step(t, CharAt(text, p));
      var q := p + LengthAt(text, p);
      FoldAfter(step, t1, done + a1, text, q);
      FoldAfter(step, t1, [] + a1, text, q);
      var later := Fold(step, t1, [], text, q).1;
      assert done + a1 + later == done + ([] + a1 + later);
    } else {
      assert done + [] == done;
    }
  }

  /** Well-formed text is fed character by character, and what follows it is fed afterwards. */
  lemma {:induction false} FoldChars(step: Reaction, t: Tracker, done: seq<Action>, cs: Line, rest: Text, k: nat)
    requires k <= |cs|
    ensures Offset(cs, k) <= |Flat(cs)|
    ensures var (t1, a1) := FoldLine(step, t, done, cs[k..]);
            Fold(step, t, done, Flat(cs) + rest, Offset(cs, k)) == Fold(step, t1, a1, rest, 0)
    decreases |cs| - k
  {
    FlatCut(cs, k);
    if k == |cs| {
      assert cs[..k] == cs;
      FoldShift(step, t, done, Flat(cs), rest, 0);
    } else {
      CutAtChar(cs, rest, k);
      OffsetStep(cs, k);
      FlatCut(cs, k + 1);
      var r := step(t, cs[k]);
      FoldStep(step, t, done, Flat(cs) + rest, Offset(cs, k));
      FoldChars(step, r.0, done + r.1, cs, rest, k + 1);
      assert cs[k..][1..] == cs[k + 1..];
    }
  }

  lemma FoldFlat(step: Reaction, t: Tracker, cs: Line)
    ensures Fold(step, t, [], Flat(cs), 0) == FoldLine(step, t, [], cs)
  {
    assert cs[..0] == [] && cs[0..] == cs && Flat(cs) + [] == Flat(cs);
    FoldChars(step, t, [], cs, [], 0);
  }
}
