/** Frames are read back as they were written, however the transport cuts them. */
module WebSocketProofs {
  import opened Common
  import opened Octets
  import opened WebSocketFrame

  // ---------- The header ----------

  lemma LengthSet(d: Raw, len: Qword)
    requires d[1] == LowBits(len)
    ensures var d1 := LengthStored(d, len); d1[0] == d[0] && d1[1] == d[1] && PayloadLength(d1) == len
    ensures var d1 := LengthStored(d, len); forall i :: Size(d1) <= i < 14 ==> d1[i] == d[i]
  {
    Widths();
    var d1 := LengthStored(d, len);
    if 126 <= len < 0xFFFF {
      NumberReadBack(len, 2);
      assert d1[2..4] == ToBytes(len, 2);
    } else if 0xFFFF <= len {
      NumberReadBack(len, 8);
      assert d1[2..10] == ToBytes(len, 8);
    }
  }

  lemma MaskSet(d: Raw, mask: Dword)
    requires d[1] < 128
    ensures var d1 := WithMask(d, mask);
            d1[0] == d[0] && d1[1] == d[1] + 128 && KeyOf(d1) == ToBytes(mask, 4) && d1[2..Size(d)] == d[2..Size(d)]
    ensures var d1 := WithMask(d, mask); Size(d1) == Size(d) + 4 && forall i :: Size(d1) <= i < 14 ==> d1[i] == d[i]
  {
    var d1 := WithMask(d, mask);
    var at := 1 + LengthSize(d[1]);
    assert d1[at..at + 4] == ToBytes(mask, 4);
  }

  lemma LengthUnmoved(d: Raw, d1: Raw)
    requires d1[1] % 128 == d[1] && d1[2..Size(d)] == d[2..Size(d)]
    ensures PayloadLength(d1) == PayloadLength(d)
  {
    if d[1] == 126 {
      assert Size(d) == 4;
    } else if d[1] == 127 {
      assert Size(d) == 10;
    }
  }

  predicate EndsInZeros(d: Raw) {
    d == d[..Size(d)] + Filled(0, 14 - Size(d))
  }

  lemma BareHolds(fin: bool, opCode: OpCode, len: Qword)
    ensures var d := Bare(fin, opCode, len);
            IsFin(d) == fin && GetOpCode(d) == opCode && PayloadLength(d) == len && d[1] == LowBits(len)
            && forall i :: Size(d) <= i < 14 ==> d[i] == 0
  {
    var d0 := WithOpCode(WithFin(BLANK, fin), opCode);
    LengthSet(d0[1 := LowBits(len)], len);
  }

  /** A header holds exactly the fields it was made of, and zeros after them. */
  lemma HeaderHolds(fin: bool, opCode: OpCode, len: Qword, mask: Dword)
    ensures var d := NewHeader(fin, opCode, len, mask);
            IsFin(d) == fin && GetOpCode(d) == opCode && PayloadLength(d) == len
            && IsMasked(d) == (mask != 0) && GetMask(d) == mask && Size(d) <= 14 && EndsInZeros(d)
            && (mask != 0 ==> KeyOf(d) == ToBytes(mask, 4))
  {
    BareHolds(fin, opCode, len);
    var d := Bare(fin, opCode, len);
    assert NewHeader(fin, opCode, len, mask) == if mask != 0 then WithMask(d, mask) else d;
    if mask != 0 {
      MaskSet(d, mask);
      LengthUnmoved(d, WithMask(d, mask));
      Widths();
      NumberReadBack(mask, 4);
    }
  }

  /** The shortest of the three length forms that can hold a payload length (section 5.2 of RFC 6455). */
  function ShortestForm(len: Qword): nat {
    if len < 126 then 1 else if len < 0x1_0000 then 3 else 9
  }

  lemma SecondByte(fin: bool, opCode: OpCode, len: Qword, mask: Dword)
    ensures NewHeader(fin, opCode, len, mask)[1] == LowBits(len) + if mask != 0 then 128 else 0
  {
    BareHolds(fin, opCode, len);
    var d := Bare(fin, opCode, len);
    assert NewHeader(fin, opCode, len, mask) == if mask != 0 then WithMask(d, mask) else d;
    if mask != 0 {
      MaskSet(d, mask);
    }
  }

  lemma ShortestLow(len: Qword)
    ensures LengthSize(LowBits(len)) == ShortestForm(len) <==> len != 0xFFFF
  {
  }

  /** The header takes the shortest form of every length but one: 65535 is written on eight bytes instead of two. */
  lemma ShortestExceptOne(fin: bool, opCode: OpCode, len: Qword, mask: Dword)
    ensures LengthSize(NewHeader(fin, opCode, len, mask)[1] % 128) == ShortestForm(len) <==> len != 0xFFFF
  {
    SecondByte(fin, opCode, len, mask);
    ShortestLow(len);
  }

  // ---------- The parser ----------

  function Concat(pieces: seq<Bytes>): Bytes {
    if pieces == [] then [] else Concat(pieces[..|pieces| - 1]) + pieces[|pieces| - 1]
  }

  /** How many bytes of a stream belong to the header it starts with. */
  function Taken(s: Bytes): nat {
    if |s| < 2 then |s| else Min(|s|, SizeFrom(s[1]))
  }

  function Padded(s: Bytes): Raw
    requires |s| <= 14
  {
    s + Filled(0, 14 - |s|)
  }

  /** The parser that holds the first bytes of a header. */
  function Holding(h: Bytes): ParserState
    requires |h| <= 14
  {
    ParserState(Some(Padded(h)), |h|)
  }

  /** The parser that was given the stream `s`. */
  function Reading(s: Bytes): ParserState {
    Holding(s[..Taken(s)])
  }

  lemma Extend(s: Bytes, more: Bytes)
    requires |s| + |more| <= 14
    ensures Overwritten(Padded(s), |s|, more) == Padded(s + more)
  {
  }

  predicate IsStart(h: Bytes) {
    |h| < 2 || |h| <= SizeFrom(h[1])
  }

  lemma HoldingOk(h: Bytes)
    requires IsStart(h) && |h| <= 14
    ensures ParserOk(Holding(h))
  {
  }

  /** How many bytes of a piece go to the two first bytes. */
  function StartShare(h: Bytes, piece: Bytes): nat {
    if |h| < 2 then Min(2 - |h|, |piece|) else 0
  }

  lemma StartStep(h: Bytes, piece: Bytes)
    requires IsStart(h) && |h| <= 14
    ensures ParserOk(Holding(h))
    ensures var c := StartShare(h, piece); Started(Holding(h), piece) == (Padded(h + piece[..c]), |h| + c, c)
  {
    HoldingOk(h);
    var c := StartShare(h, piece);
    if |h| < 2 {
      Extend(h, piece[..c]);
    } else {
      assert h + piece[..0] == h;
    }
  }

  lemma ContinueStep(h: Bytes, piece: Bytes, pos: nat)
    requires pos < |piece| && 2 <= |h| <= SizeFrom(h[1])
    ensures var c := Min(SizeFrom(h[1]) - |h|, |piece| - pos);
            Continued(Padded(h), |h|, piece, pos) == (Holding(h + piece[pos..pos + c]), pos + c)
  {
    Extend(h, piece[pos..pos + Min(SizeFrom(h[1]) - |h|, |piece| - pos)]);
  }

  /** How many bytes of a piece go to the header. */
  function Share(h: Bytes, piece: Bytes): nat
    requires IsStart(h)
  {
    var c := StartShare(h, piece);
    if c < |piece| then c + Min(SizeFrom((h + piece)[1]) - |h| - c, |piece| - c) else c
  }

  lemma ShareBounds(h: Bytes, piece: Bytes)
    requires IsStart(h) && |h| <= 14
    ensures Share(h, piece) <= |piece| && |h| + Share(h, piece) <= 14
  {
  }

  lemma ParseOn(h: Bytes, piece: Bytes)
    requires IsStart(h) && |h| <= 14
    ensures ParserOk(Holding(h)) && Share(h, piece) <= |piece| && |h| + Share(h, piece) <= 14
    ensures Parsed(Holding(h), piece) == (Holding(h + piece[..Share(h, piece)]), Share(h, piece))
  {
    ShareBounds(h, piece);
    StartStep(h, piece);
    var c := StartShare(h, piece);
    if c < |piece| {
      var h1 := h + piece[..c];
      assert h1[1] == (h + piece)[1];
      ContinueStep(h1, piece, c);
      assert h1 + piece[c..Share(h, piece)] == h + piece[..Share(h, piece)];
    }
  }

  /** The header's share of a longer stream. */
  lemma TakenOf(s: Bytes, piece: Bytes)
    ensures var h := s[..Taken(s)];
            IsStart(h) && |h| <= 14 && Share(h, piece) == Taken(s + piece) - Taken(s)
  {
    var h := s[..Taken(s)];
    if |s| < 2 {
      assert h == s;
    } else {
      assert h[1] == s[1] == (s + piece)[1] && (|piece| > 0 ==> (h + piece)[1] == s[1]);
    }
  }

  lemma TakenGrows(s: Bytes, piece: Bytes)
    requires Taken(s) <= Taken(s + piece) <= Taken(s) + |piece|
    ensures s[..Taken(s)] + piece[..Taken(s + piece) - Taken(s)] == (s + piece)[..Taken(s + piece)]
  {
    if Taken(s) < |s| {
      assert Taken(s + piece) == Taken(s);
    } else {
      assert s[..Taken(s)] == s;
    }
  }

  /** Cutting the stream anywhere makes no difference. */
  lemma ParseStep(s: Bytes, piece: Bytes)
    ensures ParserOk(Reading(s))
    ensures Parsed(Reading(s), piece) == (Reading(s + piece), Taken(s + piece) - Taken(s))
  {
    TakenOf(s, piece);
    ParseOn(s[..Taken(s)], piece);
    TakenGrows(s, piece);
  }

  lemma FirstStep(stale: nat, piece: Bytes)
    ensures Parsed(ParserState(None, stale), piece) == (Reading(piece), Taken(piece))
  {
    ParseStep([], piece);
    assert [] + piece == piece;
    assert Padded([]) == BLANK;
  }

  /** The parser after every piece, and the bytes it consumed of them together. */
  function Fed(p: ParserState, pieces: seq<Bytes>): (r: (ParserState, nat))
    requires ParserOk(p)
    ensures ParserOk(r.0)
    decreases |pieces|
  {
    if pieces == [] then (p, 0)
    else
      var (p1, n1) := Fed(p, pieces[..|pieces| - 1]);
      var (p2, n2) := Parsed(p1, pieces[|pieces| - 1]);
      ParsedOk(p1, pieces[|pieces| - 1]);
      (p2, n1 + n2)
  }

  /** A new parser, or one whose last header was taken away, depends only on the stream and not on how it is cut. */
  lemma {:induction false} PiecesParsed(stale: nat, pieces: seq<Bytes>)
    requires pieces != []
    ensures Fed(ParserState(None, stale), pieces) == (Reading(Concat(pieces)), Taken(Concat(pieces)))
    decreases |pieces|
  {
    var init, last := pieces[..|pieces| - 1], pieces[|pieces| - 1];
    if init == [] {
      FirstStep(stale, last);
      assert Concat(pieces) == [] + last == last;
    } else {
      PiecesParsed(stale, init);
      ParseStep(Concat(init), last);
    }
  }

  /** The header is parsed exactly when the stream holds all of it. */
  lemma ParsedWhenWhole(s: Bytes)
    ensures IsParsed(Reading(s)) <==> |s| >= 2 && |s| >= SizeFrom(s[1])
  {
    if |s| >= 2 {
      assert Padded(s[..Taken(s)])[1] == s[1];
    }
  }

  function Wire(d: Raw): Bytes {
    d[..Size(d)]
  }

  /**
   The header round trip: of a header followed by anything, in any pieces, the parser consumes exactly the
   header's size, is done, and rebuilds the header byte for byte.
   */
  lemma HeaderRoundTrip(fin: bool, opCode: OpCode, len: Qword, mask: Dword, rest: Bytes, stale: nat, pieces: seq<Bytes>)
    requires Concat(pieces) == Wire(NewHeader(fin, opCode, len, mask)) + rest
    ensures var d := NewHeader(fin, opCode, len, mask);
            Fed(ParserState(None, stale), pieces) == (ParserState(Some(d), Size(d)), Size(d))
            && IsParsed(ParserState(Some(d), Size(d)))
  {
    var d := NewHeader(fin, opCode, len, mask);
    HeaderHolds(fin, opCode, len, mask);
    PiecesParsed(stale, pieces);
    var s := Concat(pieces);
    assert s[1] == d[1] && s[..Size(d)] == Wire(d);
  }

  // ---------- Masking ----------

  lemma XorBit(a: nat, p: nat, b: nat, q: nat)
    requires p < 2 && q < 2
    ensures Xor(2 * a + p, 2 * b + q) == 2 * Xor(a, b) + if p == q then 0 else 1
  {
    var x, y := 2 * a + p, 2 * b + q;
    assert x / 2 == a && x % 2 == p && y / 2 == b && y % 2 == q;
  }

  lemma {:induction false} XorTwice(a: nat, b: nat)
    ensures Xor(Xor(a, b), b) == a
  {
    if a != 0 || b != 0 {
      var p, q := a % 2, b % 2;
      XorTwice(a / 2, b / 2);
      XorBit(a / 2, p, b / 2, q);
      XorBit(Xor(a / 2, b / 2), if p == q then 0 else 1, b / 2, q);
    }
  }

  lemma MaskedTwice(data: Bytes, key: Key, pos: nat)
    ensures Masked(Masked(data, key, pos), key, pos) == data
  {
    forall i | 0 <= i < |data|
      ensures Masked(Masked(data, key, pos), key, pos)[i] == data[i]
    {
      XorTwice(data[i], key[(pos + i) % 4]);
    }
  }

  lemma MaskedInParts(a: Bytes, b: Bytes, key: Key, pos: nat)
    ensures Masked(a + b, key, pos) == Masked(a, key, pos) + Masked(b, key, pos + |a|)
  {
  }

  /** What a payload looks like in a frame. */
  function Sealed(f: FrameState, payload: Bytes): Bytes {
    if f.masked then Masked(payload, f.key, 0) else payload
  }

  function AppendedAll(f: FrameState, pieces: seq<Bytes>): (r: (FrameState, bool))
    requires FrameOk(f)
    ensures FrameOk(r.0)
    decreases |pieces|
  {
    if pieces == [] then (f, true)
    else
      var (f1, ok1) := AppendedAll(f, pieces[..|pieces| - 1]);
      var (f2, ok2) := Appended(f1, pieces[|pieces| - 1]);
      (f2, ok1 && ok2)
  }

  function WithPayload(f: FrameState, payload: Bytes): FrameState {
    f.(bytes := f.bytes + Sealed(f, payload))
  }

  lemma AppendStep(f: FrameState, payload: Bytes, more: Bytes)
    requires |f.bytes| == f.headerSize && f.headerSize + |payload| + |more| <= f.size
    ensures Appended(WithPayload(f, payload), more) == (WithPayload(f, payload + more), true)
  {
    MaskedInParts(payload, more, f.key, 0);
    var tail := if f.masked then Masked(more, f.key, |payload|) else more;
    assert Sealed(f, payload + more) == Sealed(f, payload) + tail;
    assert f.bytes + Sealed(f, payload + more) == f.bytes + Sealed(f, payload) + tail;
  }

  lemma RefuseStep(f: FrameState, payload: Bytes, more: Bytes)
    requires |f.bytes| == f.headerSize && f.size < f.headerSize + |payload| + |more| < DWORD_RANGE
    ensures !Appended(WithPayload(f, payload), more).1
  {
    assert |WithPayload(f, payload).bytes| == f.headerSize + |payload|;
  }

  predicate Fits(f: FrameState, payload: Bytes) {
    f.headerSize + |payload| <= f.size
  }

  /** Append's check refuses exactly what does not fit, as long as its sum has 32 bits; a wrapped sum is accepted. */
  lemma CheckRight(f: FrameState, n: nat)
    requires InBounds(f) && n < DWORD_RANGE
    ensures (Accepts(f, n) <==> n + |f.bytes| <= f.size) <==> n + |f.bytes| < DWORD_RANGE
    ensures n + |f.bytes| >= DWORD_RANGE ==> Accepts(f, n)
  {
  }

  /**
   Every piece is accepted exactly when the whole payload fits in the declared size, and then any pieces give
   the bytes that one Append of the whole payload gives.
   */
  lemma {:induction false} PiecesAppended(f: FrameState, pieces: seq<Bytes>)
    requires |f.bytes| == f.headerSize <= f.size && f.headerSize + |Concat(pieces)| < DWORD_RANGE
    ensures AppendedAll(f, pieces).1 <==> Fits(f, Concat(pieces))
    ensures Fits(f, Concat(pieces)) ==> AppendedAll(f, pieces).0 == WithPayload(f, Concat(pieces))
    decreases |pieces|
  {
    if pieces == [] {
      assert f.bytes + Sealed(f, []) == f.bytes;
    } else {
      var init, last := pieces[..|pieces| - 1], pieces[|pieces| - 1];
      PiecesAppended(f, init);
      if Fits(f, Concat(pieces)) {
        AppendStep(f, Concat(init), last);
      } else if Fits(f, Concat(init)) {
        RefuseStep(f, Concat(init), last);
      }
    }
  }

  lemma KeyNeverZero(random: Key)
    ensures FromBytes(KeyFor(true, random)) != 0
  {
    FourBytes(random);
    FourBytes(random[0 := 1]);
  }

  /** The mask the header of a frame is made with. */
  function MaskFor(masked: bool, random: Key): Dword {
    FourBytes(KeyFor(masked, random));
    if masked then FromBytes(KeyFor(masked, random)) else 0
  }

  lemma MaskIsKey(random: Key)
    ensures MaskFor(true, random) != 0 && ToBytes(MaskFor(true, random), 4) == KeyFor(true, random)
  {
    KeyNeverZero(random);
    BytesReadBack(KeyFor(true, random));
  }

  lemma FrameStarts(fin: bool, opCode: OpCode, size: Dword, masked: bool, random: Key) returns (d: Raw)
    ensures d == NewHeader(fin, opCode, size, MaskFor(masked, random))
    ensures NewFrame(fin, opCode, size, masked, random)
         == FrameState(Wire(d), (size + Size(d)) % DWORD_RANGE, Size(d), masked, KeyFor(masked, random))
  {
    d := NewHeader(fin, opCode, size, MaskFor(masked, random));
  }

  lemma FrameKey(fin: bool, opCode: OpCode, size: Dword, masked: bool, random: Key, d: Raw)
    requires d == NewHeader(fin, opCode, size, MaskFor(masked, random))
    ensures IsFin(d) == fin && GetOpCode(d) == opCode && PayloadLength(d) == size && IsMasked(d) == masked
    ensures masked ==> KeyOf(d) == KeyFor(masked, random)
  {
    HeaderHolds(fin, opCode, size, MaskFor(masked, random));
    if masked {
      MaskIsKey(random);
    }
  }

  /** A new frame has room for its header, and for its payload, exactly when the sum of their sizes has 32 bits. */
  lemma FrameFits(fin: bool, opCode: OpCode, size: Dword, masked: bool, random: Key)
    ensures var f := NewFrame(fin, opCode, size, masked, random);
            InBounds(f) <==> size + f.headerSize < DWORD_RANGE
    ensures var f := NewFrame(fin, opCode, size, masked, random);
            f.headerSize + size <= f.size <==> size + f.headerSize < DWORD_RANGE
  {
    var d := FrameStarts(fin, opCode, size, masked, random);
  }

  /** The largest payload: nine bytes are allocated for a header of ten, and the check accepts all of the payload. */
  lemma LargestFrame(fin: bool, opCode: OpCode, size: Dword, random: Key)
    requires size == 0xFFFF_FFFF
    ensures var f := NewFrame(fin, opCode, size, false, random);
            f.headerSize == 10 && f.size == 9 && !InBounds(f) && Accepts(f, size)
  {
    var d := FrameStarts(fin, opCode, size, false, random);
    SecondByte(fin, opCode, size, 0);
    assert |Wire(d)| == Size(d) == 10;
  }

  /** An empty frame, all of its two bytes in bounds: the check accepts 2^32 - 2 bytes of payload. */
  lemma EmptyFrameAccepts(fin: bool, opCode: OpCode, random: Key)
    ensures var f := NewFrame(fin, opCode, 0, false, random);
            f.headerSize == f.size == 2 && InBounds(f) && Accepts(f, 0xFFFF_FFFE)
  {
    var d := FrameStarts(fin, opCode, 0, false, random);
    SecondByte(fin, opCode, 0, 0);
    assert |Wire(d)| == Size(d) == 2;
  }

  /**
   The frame round trip: a payload appended in any pieces and received in any pieces.  The receiver's parser
   stops at the end of the header, finds the sender's fields, and the key in it uncovers the payload.
   */
  lemma FrameRoundTrip(fin: bool, opCode: OpCode, masked: bool, random: Key, sent: seq<Bytes>, stale: nat,
      received: seq<Bytes>)
    returns (d: Raw)
    requires |Concat(sent)| < DWORD_RANGE
    requires InBounds(NewFrame(fin, opCode, |Concat(sent)|, masked, random))
    requires Concat(received) == AppendedAll(NewFrame(fin, opCode, |Concat(sent)|, masked, random), sent).0.bytes
    ensures Fed(ParserState(None, stale), received) == (ParserState(Some(d), Size(d)), Size(d))
    ensures IsFin(d) == fin && GetOpCode(d) == opCode && PayloadLength(d) == |Concat(sent)| && IsMasked(d) == masked
    ensures |Concat(received)| == Size(d) + |Concat(sent)|
    ensures var body := Concat(received)[Size(d)..];
            (if masked then Masked(body, KeyOf(d), 0) else body) == Concat(sent)
  {
    var payload := Concat(sent);
    d := FrameStarts(fin, opCode, |payload|, masked, random);
    FrameKey(fin, opCode, |payload|, masked, random, d);
    FrameFits(fin, opCode, |payload|, masked, random);
    var body := SealedFrame(fin, opCode, masked, random, sent, d);
    assert Concat(received)[Size(d)..] == body;
    HeaderRoundTrip(fin, opCode, |payload|, MaskFor(masked, random), body, stale, received);
  }

  lemma SealedFrame(fin: bool, opCode: OpCode, masked: bool, random: Key, sent: seq<Bytes>, d: Raw)
      returns (body: Bytes)
    requires |Concat(sent)| + Size(d) < DWORD_RANGE
    requires NewFrame(fin, opCode, |Concat(sent)|, masked, random)
          == FrameState(Wire(d), (|Concat(sent)| + Size(d)) % DWORD_RANGE, Size(d), masked, KeyFor(masked, random))
    ensures AppendedAll(NewFrame(fin, opCode, |Concat(sent)|, masked, random), sent).0.bytes == Wire(d) + body
    ensures |body| == |Concat(sent)|
    ensures (if masked then Masked(body, KeyFor(masked, random), 0) else body) == Concat(sent)
  {
    var f := FrameState(Wire(d), (|Concat(sent)| + Size(d)) % DWORD_RANGE, Size(d), masked, KeyFor(masked, random));
    body := Sealed(f, Concat(sent));
    PiecesAppended(f, sent);
    MaskedTwice(Concat(sent), f.key, 0);
  }
}
