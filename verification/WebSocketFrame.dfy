/**
 `WebSocketFrameHeader`, its incremental `Parser` and `WebSocketConnection::Frame`.  Flag bits are read and
 set arithmetically: bit 7 of a byte is "at least 128", the seven others are the remainder modulo 128.
 */
module WebSocketFrame {
  import opened Common
  import opened Octets

  type Qword = q: int | 0 <= q < QWORD_RANGE

  type OpCode = o: int | 0 <= o < 16

  /** The fourteen bytes of a header object. */
  type Raw = d: Bytes | |d| == 14 witness seq(14, _ => 0)

  const BLANK: Raw := Filled(0, 14)

  // ---------- The header ----------

  predicate IsFin(d: Raw) {
    d[0] >= 128
  }

  function GetOpCode(d: Raw): OpCode {
    d[0] % 16
  }

  predicate IsMasked(d: Raw) {
    d[1] >= 128
  }

  /** Bytes 1 up to the end of the length, from the low bits of byte 1. */
  function LengthSize(low: nat): (n: nat)
    ensures 1 <= n <= 9
  {
    if low == 126 then 3 else if low == 127 then 9 else 1
  }

  function SizeFrom(second: Byte): (n: nat)
    ensures 2 <= n <= 14
  {
    1 + LengthSize(second % 128) + if second >= 128 then 4 else 0
  }

  function Size(d: Raw): nat {
    SizeFrom(d[1])
  }

  function PayloadLength(d: Raw): nat {
    var low := d[1] % 128;
    if low == 126 then FromBytes(d[2..4]) else if low == 127 then FromBytes(d[2..10]) else low
  }

  /** The four mask bytes of a masked header. */
  function KeyOf(d: Raw): Bytes {
    var at := 1 + LengthSize(d[1] % 128);
    d[at..at + 4]
  }

  function GetMask(d: Raw): nat {
    if IsMasked(d) then FromBytes(KeyOf(d)) else 0
  }

  function WithFin(d: Raw, fin: bool): Raw {
    d[0 := d[0] % 128 + if fin then 128 else 0]
  }

  function WithOpCode(d: Raw, opCode: OpCode): Raw {
    d[0 := (if d[0] >= 128 then 128 else 0) + opCode]
  }

  /** a | b, bit by bit. */
  function Or(a: nat, b: nat): nat {
    if a == 0 && b == 0 then 0 else 2 * Or(a / 2, b / 2) + if a % 2 == 1 || b % 2 == 1 then 1 else 0
  }

  predicate IsPower(bound: nat) {
    bound == 1 || bound == 2 || bound == 4 || bound == 8 || bound == 16 || bound == 32 || bound == 64
    || bound == 128 || bound == 256
  }

  lemma {:induction false} OrBelow(a: nat, b: nat, bound: nat)
    requires a < bound && b < bound && IsPower(bound)
    ensures Or(a, b) < bound
  {
    if bound > 1 {
      OrBelow(a / 2, b / 2, bound / 2);
    }
  }

  function OrByte(a: Byte, b: Byte): Byte {
    OrBelow(a, b, 256);
    Or(a, b)
  }

  /** What the length puts into the second byte. */
  function LowBits(len: Qword): (b: Byte)
    ensures b < 128
  {
    if len < 126 then len else if len < 0xFFFF then 126 else 127
  }

  function LengthStored(d: Raw, len: Qword): Raw {
    if len < 126 then d
    else if len < 0xFFFF then Overwritten(d, 2, ToBytes(len, 2))
    else Overwritten(d, 2, ToBytes(len, 8))
  }

  function WithLength(d: Raw, len: Qword): Raw {
    LengthStored(d[1 := OrByte(d[1], LowBits(len))], len)
  }

  function WithMask(d: Raw, mask: Dword): Raw {
    var d1 := d[1 := if d[1] < 128 then d[1] + 128 else d[1]];
    Overwritten(d1, 1 + LengthSize(d1[1] % 128), ToBytes(mask, 4))
  }

  lemma {:induction false} OrZero(b: nat)
    ensures Or(0, b) == b
  {
    if b > 0 {
      OrZero(b / 2);
    }
  }

  lemma FreshLength(d: Raw, len: Qword)
    requires d[1] == 0
    ensures WithLength(d, len) == LengthStored(d[1 := LowBits(len)], len)
  {
    OrZero(LowBits(len));
  }

  /** A header without mask: the second byte is zero when the length comes. */
  function Bare(fin: bool, opCode: OpCode, len: Qword): Raw {
    LengthStored(WithOpCode(WithFin(BLANK, fin), opCode)[1 := LowBits(len)], len)
  }

  function NewHeader(fin: bool, opCode: OpCode, len: Qword, mask: Dword): Raw {
    var d := Bare(fin, opCode, len);
    if mask != 0 then WithMask(d, mask) else d
  }

  class FrameHeader {
    const data: array<Byte>

    constructor Empty()
      ensures fresh(data) && data[..] == BLANK
    {
      data := new Byte[14](_ => 0);
    }

    constructor (fin: bool, opCode: OpCode, len: Qword, mask: Dword)
      ensures fresh(data) && data[..] == NewHeader(fin, opCode, len, mask)
    {
      data := new Byte[14](_ => 0);
      new;
      assert data[..] == BLANK;
      SetFin(fin);
      SetOpCode(opCode);
      FreshLength(data[..], len);
      SetPayloadLength(len);
      if mask != 0 {
        SetMask(mask);
      }
    }

    method Store(at: nat, bytes: Bytes)
      requires at + |bytes| <= data.Length
      modifies data
      ensures data[..] == Overwritten(old(data[..]), at, bytes)
    {
      forall i | 0 <= i < |bytes| {
        data[at + i] := bytes[i];
      }
    }

    method SetFin(fin: bool)
      requires data.Length == 14
      modifies data
      ensures data[..] == WithFin(old(data[..]), fin)
    {
      data[0] := data[0] % 128 + if fin then 128 else 0;
    }

    method SetOpCode(opCode: OpCode)
      requires data.Length == 14
      modifies data
      ensures data[..] == WithOpCode(old(data[..]), opCode)
    {
      data[0] := (if data[0] >= 128 then 128 else 0) + opCode;
    }

    method SetPayloadLength(len: Qword)
      requires data.Length == 14
      modifies data
      ensures data[..] == WithLength(old(data[..]), len)
    {
      if len < 126 {
        data[1] := OrByte(data[1], len);
      } else if len < 0xFFFF {
        data[1] := OrByte(data[1], 126);
        Store(2, ToBytes(len, 2));
      } else {
        data[1] := OrByte(data[1], 127);
        Store(2, ToBytes(len, 8));
      }
    }

    method SetMask(mask: Dword)
      requires data.Length == 14
      modifies data
      ensures data[..] == WithMask(old(data[..]), mask)
    {
      data[1] := if data[1] < 128 then data[1] + 128 else data[1];
      Store(1 + LengthSize(data[1] % 128), ToBytes(mask, 4));
    }
  }

  // ---------- The incremental parser ----------

  datatype ParserState = ParserState(header: Option<Raw>, len: nat)

  const NEW_PARSER := ParserState(None, 0)

  /** With fewer than two bytes the size is not known yet. */
  predicate ParserOk(p: ParserState) {
    p.header.Some? ==> p.len < 2 || p.len <= Size(p.header.value)
  }

  predicate IsParsed(p: ParserState) {
    p.header.Some? && Size(p.header.value) == p.len
  }

  /** Copies what the two first bytes still miss. */
  function Started(p: ParserState, data: Bytes): (Raw, nat, nat)
    requires ParserOk(p)
  {
    var (d, len) := match p.header case None => (BLANK, 0) case Some(d) => (d, p.len);
    if len < 2 then
      var c := Min(2 - len, |data|);
      (Overwritten(d, len, data[..c]), len + c, c)
    else (d, len, 0)
  }

  /** Copies what the rest of the header still misses, from position `pos` of the data on. */
  function Continued(d: Raw, len: nat, data: Bytes, pos: nat): (ParserState, nat)
    requires pos <= |data| && (pos < |data| ==> len <= Size(d))
  {
    if pos < |data| then
      var c := Min(Size(d) - len, |data| - pos);
      (ParserState(Some(Overwritten(d, len, data[pos..pos + c])), len + c), pos + c)
    else (ParserState(Some(d), len), pos)
  }

  /** Parse: the new state and the bytes consumed.  A parsed header that was not taken away consumes nothing. */
  function Parsed(p: ParserState, data: Bytes): (ParserState, nat)
    requires ParserOk(p)
  {
    var (d, len, pos) := Started(p, data);
    Continued(d, len, data, pos)
  }

  lemma ParsedOk(p: ParserState, data: Bytes)
    requires ParserOk(p)
    ensures ParserOk(Parsed(p, data).0) && Parsed(p, data).0.header.Some?
  {
  }

  class HeaderParser {
    var header: FrameHeader?
    var len: nat

    ghost function Repr(): set<object>
      reads this
    {
      if header == null then {this} else {this, header, header.data}
    }

    ghost predicate Valid()
      reads this, Repr()
    {
      header != null ==> header.data.Length == 14 && (len < 2 || len <= Size(header.data[..]))
    }

    ghost function View(): (p: ParserState)
      requires Valid()
      reads this, Repr()
      ensures ParserOk(p)
    {
      ParserState(if header == null then None else Some(header.data[..]), len)
    }

    constructor ()
      ensures Valid() && View() == NEW_PARSER
    {
      header, len := null, 0;
    }

    method Begin(data: Bytes) returns (pos: nat)
      requires Valid()
      modifies Repr()
      ensures header != null && header.data.Length == 14 && fresh(Repr() - old(Repr()))
      ensures (header.data[..], len, pos) == Started(old(View()), data)
    {
      pos := 0;
      if header == null {
        header := new FrameHeader.Empty();
        len := 0;
      }
      if len < 2 {
        var c := Min(2 - len, |data|);
        header.Store(len, data[..c]);
        len := len + c;
        pos := c;
      }
    }

    method Continue(data: Bytes, start: nat) returns (pos: nat)
      requires header != null && header.data.Length == 14 && len <= 14
      requires start <= |data| && (start < |data| ==> len <= Size(header.data[..]))
      modifies this`len, header.data
      ensures (ParserState(Some(header.data[..]), len), pos) == Continued(old(header.data[..]), old(len), data, start)
    {
      pos := start;
      if pos < |data| {
        var c := Min(SizeFrom(header.data[1]) - len, |data| - pos);
        header.Store(len, data[pos..pos + c]);
        len := len + c;
        pos := pos + c;
      }
    }

    method Parse(data: Bytes) returns (pos: nat)
      requires Valid()
      modifies Repr()
      ensures header != null && Valid() && fresh(Repr() - old(Repr()))
      ensures (ParserState(Some(header.data[..]), len), pos) == Parsed(old(View()), data)
    {
      ParsedOk(View(), data);
      var start := Begin(data);
      pos := Continue(data, start);
    }

    method ConsumeHeader() returns (h: FrameHeader?)
      requires Valid()
      modifies this
      ensures Valid() && h == old(header) && View() == ParserState(None, old(len))
    {
      h := header;
      header := null;
    }
  }

  // ---------- The frame ----------

  /** a ^ b, bit by bit. */
  function Xor(a: nat, b: nat): nat {
    if a == 0 && b == 0 then 0 else 2 * Xor(a / 2, b / 2) + if a % 2 == b % 2 then 0 else 1
  }

  lemma {:induction false} XorBelow(a: nat, b: nat, bound: nat)
    requires a < bound && b < bound && IsPower(bound)
    ensures Xor(a, b) < bound
  {
    if bound > 1 {
      XorBelow(a / 2, b / 2, bound / 2);
    }
  }

  function XorByte(a: Byte, b: Byte): Byte {
    XorBelow(a, b, 256);
    Xor(a, b)
  }

  type Key = k: Bytes | |k| == 4 witness [0, 0, 0, 0]

  /** Payload bytes from position `pos` of the frame on, under the key. */
  function Masked(data: Bytes, key: Key, pos: nat): Bytes {
    seq(|data|, i requires 0 <= i < |data| => XorByte(data[i], key[(pos + i) % 4]))
  }

  /** The key the frame uses, out of four random bytes: never zero, since a zero mask reads as no mask. */
  function KeyFor(masked: bool, random: Key): Key {
    if !masked then [0, 0, 0, 0] else if FromBytes(random) == 0 then random[0 := 1] else random
  }

  /** `bytes`: all that was written; `size`: the number of bytes allocated for them. */
  datatype FrameState = FrameState(bytes: Bytes, size: Dword, headerSize: nat, masked: bool, key: Key)

  predicate FrameOk(f: FrameState) {
    f.headerSize <= |f.bytes|
  }

  /** Nothing was written past what is allocated. */
  predicate InBounds(f: FrameState) {
    |f.bytes| <= f.size
  }

  /** Append's check; the sum has 32 bits. */
  predicate Accepts(f: FrameState, n: nat) {
    (n + |f.bytes|) % DWORD_RANGE <= f.size
  }

  function Grown(f: FrameState, data: Bytes): FrameState
    requires FrameOk(f)
  {
    f.(bytes := f.bytes + if f.masked then Masked(data, f.key, |f.bytes| - f.headerSize) else data)
  }

  function Appended(f: FrameState, data: Bytes): (FrameState, bool)
    requires FrameOk(f)
  {
    if !Accepts(f, |data|) then (f, false) else (Grown(f, data), true)
  }

  function NewFrame(fin: bool, opCode: OpCode, size: Dword, masked: bool, random: Key): FrameState {
    var key := KeyFor(masked, random);
    FourBytes(key);
    var d := NewHeader(fin, opCode, size, if masked then FromBytes(key) else 0);
    FrameState(d[..Size(d)], (size + Size(d)) % DWORD_RANGE, Size(d), masked, key)
  }

  lemma FourBytes(key: Key)
    ensures FromBytes(key) == ((key[0] * 256 + key[1]) * 256 + key[2]) * 256 + key[3] < DWORD_RANGE
  {
    assert key[..3][..2] == key[..2] && key[..2][..1] == key[..1] && key[..1][..0] == [];
    assert FromBytes(key[..1]) == 256 * FromBytes([]) + key[0];
    assert FromBytes(key[..2]) == 256 * FromBytes(key[..1]) + key[1];
    assert FromBytes(key[..3]) == 256 * FromBytes(key[..2]) + key[2];
  }

  lemma NoWrap(sum: nat, size: Dword)
    requires sum < DWORD_RANGE && sum % DWORD_RANGE <= size
    ensures sum <= size
  {
  }

  class Frame {
    const data: array<Byte>
    const size: Dword
    var length: nat
    const headerSize: nat
    const masked: bool
    const key: Key

    ghost predicate Valid()
      reads this
    {
      data.Length == size && headerSize <= length <= size
    }

    ghost function View(): (f: FrameState)
      requires Valid()
      reads this, data
      ensures FrameOk(f) && InBounds(f)
    {
      FrameState(data[..length], size, headerSize, masked, key)
    }

    /**
     Without payload, as for a pong; the payload, if any, is appended next.  Where the sum of the sizes wraps
     around, the source writes the header outside its buffer.
     */
    constructor (fin: bool, opCode: OpCode, size: Dword, masked: bool, random: Key)
      requires InBounds(NewFrame(fin, opCode, size, masked, random))
      ensures Valid() && fresh(data) && View() == NewFrame(fin, opCode, size, masked, random)
    {
      var key := KeyFor(masked, random);
      FourBytes(key);
      var header := new FrameHeader(fin, opCode, size, if masked then FromBytes(key) else 0);
      var n := SizeFrom(header.data[1]);
      var total := (size + n) % DWORD_RANGE;
      var bytes := new Byte[total](_ => 0);
      forall i | 0 <= i < n {
        bytes[i] := header.data[i];
      }
      assert bytes[..n] == header.data[..n];
      this.data, this.size, length, headerSize, this.masked, this.key := bytes, total, n, n, masked, key;
    }

    method WritePlain(bytes: Bytes)
      requires length + |bytes| <= data.Length
      modifies data
      ensures data[..length + |bytes|] == old(data[..length]) + bytes
    {
      forall i | 0 <= i < |bytes| {
        data[length + i] := bytes[i];
      }
    }

    method WriteMasked(bytes: Bytes)
      requires headerSize <= length && length + |bytes| <= data.Length
      modifies data
      ensures data[..length + |bytes|] == old(data[..length]) + Masked(bytes, key, length - headerSize)
    {
      var pos := length - headerSize;
      for i := 0 to |bytes|
        invariant forall j :: 0 <= j < length ==> data[j] == old(data[j])
        invariant forall j :: 0 <= j < i ==> data[length + j] == XorByte(bytes[j], key[(pos + j) % 4])
      {
        data[length + i] := XorByte(bytes[i], key[(pos + i) % 4]);
      }
      ghost var got, tail := data[..length + |bytes|], Masked(bytes, key, pos);
      forall k | 0 <= k < |got|
        ensures got[k] == (old(data[..length]) + tail)[k]
      {
        if k >= length {
          assert data[length + (k - length)] == tail[k - length];
        }
      }
    }

    /** Writes the bytes after the first `length`, under the key if there is one. */
    method Write(bytes: Bytes)
      requires headerSize <= length && length + |bytes| <= data.Length
      modifies data
      ensures data[..length + |bytes|] == old(data[..length])
                                          + if masked then Masked(bytes, key, length - headerSize) else bytes
    {
      if masked {
        WriteMasked(bytes);
      } else {
        WritePlain(bytes);
      }
    }

    method Grow(bytes: Bytes)
      requires Valid() && length + |bytes| <= size
      modifies this`length, data
      ensures length == old(length) + |bytes|
      ensures data[..length] == Grown(old(View()), bytes).bytes
    {
      ghost var f := View();
      assert |f.bytes| == length;
      Write(bytes);
      length := length + |bytes|;
    }

    /** Where the sum of the sizes wraps around, the source writes the payload outside its buffer. */
    method Append(bytes: Bytes) returns (ok: bool)
      requires Valid() && |bytes| + length < DWORD_RANGE
      modifies this, data
      ensures Valid()
      ensures (View(), ok) == Appended(old(View()), bytes)
    {
      if (|bytes| + length) % DWORD_RANGE > size {
        return false;
      }
      NoWrap(|bytes| + length, size);
      Grow(bytes);
      return true;
    }
  }
}
