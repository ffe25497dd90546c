/** The bytes of a frame as sections 5.2 and 5.3 of RFC 6455 lay them out. */
module WebSocketWire {
  import opened Common
  import opened Octets
  import opened WebSocketFrame
  import opened WebSocketProofs

  /** The seven bits of payload length and what follows them. */
  predicate LengthOnWire(low: nat, ext: Bytes, len: nat) {
    || (low <= 125 && len == low && ext == [])
    || (low == 126 && |ext| == 2 && len == Number16(ext))
    || (low == 127 && |ext| == 8 && len == Number64(ext))
  }

  /** FIN, three reserved bits that are zero, opcode; MASK, length; the masking key if there is one. */
  predicate HeaderOnWire(w: Bytes, fin: bool, opCode: OpCode, len: nat, key: Bytes) {
    && |w| >= 2 + |key|
    && w[0] == (if fin then 0x80 else 0) + opCode
    && w[1] / 128 == (if key != [] then 1 else 0)
    && LengthOnWire(w[1] % 128, w[2..|w| - |key|], len)
    && w[|w| - |key|..] == key
  }

  lemma LengthBytes(fin: bool, opCode: OpCode, len: Qword)
    ensures var d := Bare(fin, opCode, len);
            && d[0] == (if fin then 0x80 else 0) + opCode && d[1] < 128
            && LengthOnWire(d[1], d[2..Size(d)], len)
  {
    var d := Bare(fin, opCode, len);
    if 126 <= len < 0xFFFF {
      BigEndian2(len);
      assert d[2..4] == ToBytes(len, 2);
    } else if len >= 0xFFFF {
      BigEndian8(len);
      assert d[2..10] == ToBytes(len, 8);
    }
  }

  /** A header is made as the standard lays it out, for every 64-bit length. */
  lemma HeaderMade(fin: bool, opCode: OpCode, len: Qword, mask: Dword)
    ensures var key := if mask == 0 then [] else ToBytes(mask, 4);
            HeaderOnWire(Wire(NewHeader(fin, opCode, len, mask)), fin, opCode, len, key)
    ensures mask != 0 ==> Number32(ToBytes(mask, 4)) == mask
  {
    LengthBytes(fin, opCode, len);
    var d := Bare(fin, opCode, len);
    if mask == 0 {
      assert Wire(d)[2..|Wire(d)|] == d[2..Size(d)];
      assert Wire(d)[|Wire(d)|..] == [];
    } else {
      MaskSet(d, mask);
      BigEndian4(mask);
      KeyedHeader(d, WithMask(d, mask), ToBytes(mask, 4));
    }
  }

  lemma KeyedHeader(d: Raw, d1: Raw, key: Bytes)
    requires d[1] < 128 && |key| == 4 && Size(d) + 4 == Size(d1) <= 14
    requires d1[0] == d[0] && d1[1] == d[1] + 128 && KeyOf(d1) == key && d1[2..Size(d)] == d[2..Size(d)]
    ensures var w := Wire(d1);
            && |w| == Size(d1) && w[0] == d[0] && w[1] == d[1] + 128
            && w[2..|w| - 4] == d[2..Size(d)] && w[|w| - 4..] == key
  {
    var w := Wire(d1);
    assert w[2..|w| - 4] == d1[2..Size(d)];
    assert w[|w| - 4..] == d1[Size(d1) - 4..Size(d1)];
  }

  /** Bit `k` of a number. */
  function Bit(n: nat, k: nat): nat {
    if k == 0 then n % 2 else Bit(n / 2, k - 1)
  }

  lemma {:induction false} XorBits(a: nat, b: nat, k: nat)
    ensures Bit(Xor(a, b), k) == if Bit(a, k) == Bit(b, k) then 0 else 1
    decreases k
  {
    var p, q := a % 2, b % 2;
    XorBit(a / 2, p, b / 2, q);
    assert 2 * (a / 2) + p == a && 2 * (b / 2) + q == b;
    if k > 0 {
      XorBits(a / 2, b / 2, k - 1);
    }
  }

  lemma {:induction false} OrBits(a: nat, b: nat, k: nat)
    ensures Bit(Or(a, b), k) == if Bit(a, k) == 0 && Bit(b, k) == 0 then 0 else 1
    decreases k
  {
    if a == 0 && b == 0 {
      ZeroBits(k);
    } else {
      var p := if a % 2 == 1 || b % 2 == 1 then 1 else 0;
      assert Or(a, b) == 2 * Or(a / 2, b / 2) + p;
      assert Or(a, b) / 2 == Or(a / 2, b / 2) && Or(a, b) % 2 == p;
      if k > 0 {
        OrBits(a / 2, b / 2, k - 1);
      }
    }
  }

  lemma {:induction false} ZeroBits(k: nat)
    ensures Bit(0, k) == 0
  {
    if k > 0 {
      ZeroBits(k - 1);
    }
  }

  /** Whatever a header holds, each setter changes its own bits and no others. */
  lemma SettersApart(d: Raw, fin: bool, opCode: OpCode, mask: Dword)
    ensures var d1 := WithFin(d, fin);
            IsFin(d1) == fin && d1[0] % 128 == d[0] % 128 && d1[1..] == d[1..]
    ensures var d1 := WithOpCode(d, opCode);
            IsFin(d1) == IsFin(d) && d1[0] % 128 == opCode && d1[1..] == d[1..]
    ensures var d1, at := WithMask(d, mask), Size(d) - if IsMasked(d) then 4 else 0;
            && IsMasked(d1) && d1[1] % 128 == d[1] % 128 && d1[0] == d[0]
            && d1[2..at] == d[2..at] && d1[at..at + 4] == ToBytes(mask, 4) && d1[at + 4..] == d[at + 4..]
  {
  }

  /** Each bit of `x` is the exclusive or of those of `a` and `b`. */
  ghost predicate IsXor(x: Byte, a: Byte, b: Byte) {
    forall k: nat :: k < 8 ==> Bit(x, k) == if Bit(a, k) == Bit(b, k) then 0 else 1
  }

  /**
   A whole frame, its payload appended in any pieces: the header of the standard, then octet i of the payload, under
   octet i mod 4 of the masking key in the header if there is one.
   */
  lemma FrameMade(fin: bool, opCode: OpCode, masked: bool, random: Key, sent: seq<Bytes>) returns (h: nat)
    requires |Concat(sent)| < DWORD_RANGE
    requires InBounds(NewFrame(fin, opCode, |Concat(sent)|, masked, random))
    ensures var payload := Concat(sent);
            var w := AppendedAll(NewFrame(fin, opCode, |payload|, masked, random), sent).0.bytes;
            && (if masked then 6 else 2) <= h && |w| == h + |payload|
            && HeaderOnWire(w[..h], fin, opCode, |payload|, if masked then w[h - 4..h] else [])
            && (!masked ==> w[h..] == payload)
            && (masked ==> w[h - 4..h] == if random == [0, 0, 0, 0] then [1, 0, 0, 0] else random)
            && (masked ==> forall i :: 0 <= i < |payload| ==> IsXor(w[h + i], payload[i], w[h - 4 + i % 4]))
  {
    var payload := Concat(sent);
    var head, key := FrameBytes(fin, opCode, masked, random, sent);
    h := |head|;
    var w := AppendedAll(NewFrame(fin, opCode, |payload|, masked, random), sent).0.bytes;
    assert w[..h] == head;
    if masked {
      assert w[h - 4..h] == head[h - 4..];
      MaskedBody(w, head, payload, key);
      KeyIsRandom(random);
    }
  }

  lemma FrameBytes(fin: bool, opCode: OpCode, masked: bool, random: Key, sent: seq<Bytes>)
      returns (head: Bytes, key: Key)
    requires |Concat(sent)| < DWORD_RANGE
    requires InBounds(NewFrame(fin, opCode, |Concat(sent)|, masked, random))
    ensures HeaderOnWire(head, fin, opCode, |Concat(sent)|, if masked then key else [])
    ensures key == KeyFor(masked, random)
    ensures AppendedAll(NewFrame(fin, opCode, |Concat(sent)|, masked, random), sent).0.bytes
         == head + if masked then Masked(Concat(sent), key, 0) else Concat(sent)
  {
    var payload := Concat(sent);
    var d := FrameStarts(fin, opCode, |payload|, masked, random);
    FrameFits(fin, opCode, |payload|, masked, random);
    HeaderMade(fin, opCode, |payload|, MaskFor(masked, random));
    head, key := Wire(d), KeyFor(masked, random);
    PiecesAppended(NewFrame(fin, opCode, |payload|, masked, random), sent);
    if masked {
      MaskIsKey(random);
    }
  }

  /** The random key is used as it is, but for one that would read as no mask. */
  lemma KeyIsRandom(random: Key)
    ensures KeyFor(true, random) == if random == [0, 0, 0, 0] then [1, 0, 0, 0] else random
  {
    FourBytes(random);
  }

  lemma MaskedBody(w: Bytes, head: Bytes, payload: Bytes, key: Key)
    requires w == head + Masked(payload, key, 0) && |head| >= 4 && head[|head| - 4..] == key
    ensures var h := |head|;
            forall i :: 0 <= i < |payload| ==> IsXor(w[h + i], payload[i], w[h - 4 + i % 4])
  {
    var h := |head|;
    forall i | 0 <= i < |payload|
      ensures IsXor(w[h + i], payload[i], w[h - 4 + i % 4])
    {
      assert w[h - 4 + i % 4] == head[h - 4..][i % 4];
      assert w[h + i] == Masked(payload, key, 0)[i];
      MaskedOctet(payload, key, i);
    }
  }

  lemma MaskedOctet(payload: Bytes, key: Key, i: nat)
    requires i < |payload|
    ensures IsXor(Masked(payload, key, 0)[i], payload[i], key[i % 4])
  {
    forall k: nat | k < 8
      ensures Bit(Masked(payload, key, 0)[i], k) == if Bit(payload[i], k) == Bit(key[i % 4], k) then 0 else 1
    {
      XorBits(payload[i], key[i % 4], k);
    }
  }
}
