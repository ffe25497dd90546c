/**
 The exponent and mantissa of a bitrate in RTCP feedback: `TempMaxMediaStreamBitrateField` (17 bits of mantissa)
 and the receiver estimated maximum bitrate (18 bits).
 */
module BitrateCoding {
  import opened Common
  import opened Octets

  // ---------- Shifts ----------

  /** x << e */
  function Scaled(x: nat, e: nat): nat {
    if e == 0 then x else 2 * Scaled(x, e - 1)
  }

  /** x >> e */
  function Halved(x: nat, e: nat): nat {
    if e == 0 then x else Halved(x, e - 1) / 2
  }

  /** The loop's choice: the first exponent below `rounds` at which the scaled largest mantissa covers the bitrate. */
  ghost predicate Chosen(top: nat, bitrate: nat, e: nat) {
    bitrate <= Scaled(top, e) && forall i :: 0 <= i < e ==> bitrate > Scaled(top, i)
  }

  method FindExponent(top: nat, bitrate: nat, rounds: nat) returns (e: nat)
    ensures (Chosen(top, bitrate, e) && e < rounds)
            || (e == 0 && forall i :: 0 <= i < rounds ==> bitrate > Scaled(top, i))
  {
    for i := 0 to rounds
      invariant forall j :: 0 <= j < i ==> bitrate > Scaled(top, j)
    {
      if bitrate <= Scaled(top, i) {
        return i;
      }
    }
    return 0;
  }

  const TMMBR_TOP := 0x1FFFF

  /** 0x1FFFF << 14; one more place overflows the source's `int`. */
  const TMMBR_LIMIT := 0x7FFF_C000

  const REMB_TOP := 0x3FFFF

  lemma ScaledQuad(x: nat, e: nat)
    ensures Scaled(x, e + 4) == 16 * Scaled(x, e)
  {
    assert Scaled(x, e + 2) == 4 * Scaled(x, e);
  }

  lemma ScaledMid(x: nat)
    ensures Scaled(x, 14) == 0x4000 * x
  {
    assert Scaled(x, 1) == 2 * x && Scaled(x, 2) == 2 * Scaled(x, 1);
    ScaledQuad(x, 2);
    ScaledQuad(x, 6);
    ScaledQuad(x, 10);
  }

  // ---------- The TMMBR field ----------

  type Word = w: int | 0 <= w < 0x1_0000

  datatype Tmmbr = Tmmbr(ssrc: Dword, exp: Byte, mantissa: Dword, overhead: Word)

  /** The 17 bits of mantissa and the 9 of overhead are spread over bytes 4 to 7. */
  function Mantissa(b4: nat, b5: nat, b6: nat): nat {
    (b4 % 4 * 256 + b5) * 128 + b6 / 2
  }

  function Overhead(b6: nat, b7: nat): nat {
    b6 % 2 * 256 + b7
  }

  function Byte4(exp: nat, mantissa: nat): Byte {
    exp * 4 % 256 + mantissa / 0x8000 % 4
  }

  function Byte6(mantissa: nat, overhead: nat): Byte {
    mantissa * 2 % 256 + overhead / 256 % 2
  }

  function Serialized(f: Tmmbr): seq<Byte> {
    ToBytes(f.ssrc, 4) +
    [Byte4(f.exp, f.mantissa), f.mantissa / 128 % 256, Byte6(f.mantissa, f.overhead), f.overhead % 256]
  }

  function Parsed(d: seq<Byte>): Tmmbr
    requires |d| >= 8
  {
    Tmmbr(Get4(d[..4]), d[4] / 4, Mantissa(d[4], d[5], d[6]), Overhead(d[6], d[7]))
  }

  class TmmbrField {
    var ssrc: Dword
    var exp: Byte
    var mantissa: Dword
    var overhead: Word

    function View(): Tmmbr
      reads this
    {
      Tmmbr(ssrc, exp, mantissa, overhead)
    }

    constructor ()
      ensures View() == Tmmbr(0, 0, 0, 0)
    {
      ssrc, exp, mantissa, overhead := 0, 0, 0, 0;
    }

    /**
     Beyond the limit the comparison overflows, and the loop may stop at any exponent; the shift by one of 32 or more
     may give any mantissa.
     */
    method SetBitrate(bitrate: Dword)
      modifies `exp, `mantissa
      ensures exp < 64 && (exp < 32 ==> mantissa == Halved(bitrate, exp))
      ensures bitrate <= TMMBR_LIMIT ==> exp <= 14 && Chosen(TMMBR_TOP, bitrate, exp)
    {
      ScaledMid(TMMBR_TOP);
      var e := FindExponent(TMMBR_TOP, bitrate, 64);
      if bitrate > TMMBR_LIMIT {
        e :| 0 <= e < 64;
      }
      exp := e;
      HalvedShrinks(bitrate, e);
      mantissa := *;
      if e < 32 {
        mantissa := Halved(bitrate, e);
      }
    }

    method Parse(data: array<Byte>) returns (n: nat)
      modifies this
      ensures data.Length < 8 ==> n == 0 && View() == old(View())
      ensures data.Length >= 8 ==> n == 8 && View() == Parsed(data[..])
    {
      if data.Length < 8 {
        return 0;
      }
      ssrc := Get4(data[..4]);
      exp := data[4] / 4;
      mantissa := data[4] % 4;
      mantissa := mantissa * 256 + data[5];
      var low: nat := data[6];
      mantissa := mantissa * 128 + low / 2;
      overhead := low % 2;
      overhead := overhead * 256 + data[7];
      return 8;
    }

    method Serialize(data: array<Byte>) returns (n: nat)
      modifies data
      ensures data.Length < 8 ==> n == 0 && data[..] == old(data[..])
      ensures data.Length >= 8 ==> n == 8 && data[..] == Serialized(View()) + old(data[8..])
    {
      if data.Length < 8 {
        return 0;
      }
      StoreDword(data, 0, ssrc);
      data[4] := Byte4(exp, mantissa);
      data[5] := mantissa / 128 % 256;
      data[6] := Byte6(mantissa, overhead);
      data[7] := overhead % 256;
      assert data[..4] == ToBytes(ssrc, 4);
      assert data[..8] == data[..4] + [data[4], data[5], data[6], data[7]];
      return 8;
    }
  }

  lemma {:induction false} HalvedShrinks(x: nat, e: nat)
    ensures Halved(x, e) <= x
  {
    if e > 0 {
      HalvedShrinks(x, e - 1);
    }
  }

  // ---------- The REMB payload ----------

  function SsrcBytes(ssrcs: seq<Dword>): (b: seq<Byte>)
    ensures |b| == 4 * |ssrcs|
  {
    if ssrcs == [] then [] else SsrcBytes(ssrcs[..|ssrcs| - 1]) + ToBytes(ssrcs[|ssrcs| - 1], 4)
  }

  function RateByte(exp: nat, mantissa: nat): Byte {
    exp * 4 % 256 + mantissa / 0x1_0000 % 4
  }

  /** 'R', 'E', 'M', 'B', the number of streams and the bitrate. */
  function RembStart(num: Byte, exp: nat, mantissa: nat): (b: seq<Byte>)
    ensures |b| == 8
  {
    [82, 69, 77, 66, num, RateByte(exp, mantissa), mantissa / 256 % 256, mantissa % 256]
  }

  function RembBytes(ssrcs: seq<Dword>, exp: nat, mantissa: nat): seq<Byte>
    requires |ssrcs| <= 255
  {
    RembStart(|ssrcs|, exp, mantissa) + SsrcBytes(ssrcs)
  }

  /** At most 255 streams: their number is one byte. */
  function Announced(ssrcs: seq<Dword>): seq<Dword> {
    if |ssrcs| < 255 then ssrcs else ssrcs[..255]
  }

  method CreateRemb(ssrcs: seq<Dword>, bitrate: Dword) returns (payload: array<Byte>, exp: Byte, mantissa: Dword)
    ensures exp <= 15 && Chosen(REMB_TOP, bitrate, exp) && mantissa == Halved(bitrate, exp)
    ensures fresh(payload) && payload[..] == RembBytes(Announced(ssrcs), exp, mantissa)
  {
    ScaledMid(REMB_TOP);
    assert Scaled(REMB_TOP, 15) == 2 * Scaled(REMB_TOP, 14);
    var e := FindExponent(REMB_TOP, bitrate, 32);
    exp := e;
    HalvedShrinks(bitrate, e);
    mantissa := Halved(bitrate, e);
    var num := if |ssrcs| < 255 then |ssrcs| else 255;
    assert Announced(ssrcs) == ssrcs[..num];
    payload := FillRemb(ssrcs[..num], exp, mantissa);
  }

  method FillRemb(ssrcs: seq<Dword>, exp: nat, mantissa: nat) returns (payload: array<Byte>)
    requires |ssrcs| <= 255
    ensures fresh(payload) && payload[..] == RembBytes(ssrcs, exp, mantissa)
  {
    payload := new Byte[8 + 4 * |ssrcs|](_ => 0);
    payload[0], payload[1], payload[2], payload[3] := 82, 69, 77, 66;
    payload[4] := |ssrcs|;
    payload[5] := RateByte(exp, mantissa);
    payload[6] := mantissa / 256 % 256;
    payload[7] := mantissa % 256;
    assert payload[..8] == RembStart(|ssrcs|, exp, mantissa);
    StoreSsrcs(payload, ssrcs);
  }

  method StoreSsrcs(payload: array<Byte>, ssrcs: seq<Dword>)
    requires payload.Length == 8 + 4 * |ssrcs|
    modifies payload
    ensures payload[..] == old(payload[..8]) + SsrcBytes(ssrcs)
  {
    for i := 0 to |ssrcs|
      invariant payload[..8 + 4 * i] == old(payload[..8]) + SsrcBytes(ssrcs[..i])
    {
      StoreDword(payload, 8 + 4 * i, ssrcs[i]);
      SsrcBytesNext(ssrcs, i);
    }
    assert ssrcs[..|ssrcs|] == ssrcs && payload[..] == payload[..8 + 4 * |ssrcs|];
  }

  lemma SsrcBytesNext(ssrcs: seq<Dword>, i: nat)
    requires i < |ssrcs|
    ensures SsrcBytes(ssrcs[..i + 1]) == SsrcBytes(ssrcs[..i]) + ToBytes(ssrcs[i], 4)
  {
    assert ssrcs[..i + 1][..i] == ssrcs[..i];
  }

  /** set4 */
  method StoreDword(data: array<Byte>, at: nat, d: Dword)
    requires at + 4 <= data.Length
    modifies data
    ensures data[..at + 4] == old(data[..at]) + ToBytes(d, 4) && data[at + 4..] == old(data[at + 4..])
  {
    var word := ToBytes(d, 4);
    forall i | 0 <= i < 4 {
      data[at + i] := word[i];
    }
    assert data[at..at + 4] == word;
  }

  // ---------- What the coding keeps ----------

  lemma {:induction false} ScaledAdds(x: nat, y: nat, e: nat)
    ensures Scaled(x + y, e) == Scaled(x, e) + Scaled(y, e)
  {
    if e > 0 {
      ScaledAdds(x, y, e - 1);
    }
  }

  lemma {:induction false} ScaledOrder(x: nat, y: nat, e: nat)
    ensures x <= y <==> Scaled(x, e) <= Scaled(y, e)
  {
    if e > 0 {
      ScaledOrder(x, y, e - 1);
    }
  }

  lemma {:induction false} ScaledDouble(x: nat, e: nat)
    ensures Scaled(2 * x, e) == 2 * Scaled(x, e)
  {
    ScaledAdds(x, x, e);
  }

  /** Shifting down and up again loses less than 2^e. */
  lemma {:induction false} Truncated(x: nat, e: nat)
    ensures Scaled(Halved(x, e), e) <= x < Scaled(Halved(x, e) + 1, e)
  {
    if e > 0 {
      Truncated(x, e - 1);
      var h := Halved(x, e - 1);
      ScaledDouble(h / 2, e - 1);
      ScaledDouble(h / 2 + 1, e - 1);
      ScaledOrder(2 * (h / 2), h, e - 1);
      ScaledOrder(h + 1, 2 * (h / 2) + 2, e - 1);
    }
  }

  /** The mantissa fits, the coded rate never exceeds the true one and falls short by less than 2^e. */
  lemma CodingBounds(top: nat, bitrate: nat, e: nat)
    requires Chosen(top, bitrate, e)
    ensures Halved(bitrate, e) <= top
    ensures Scaled(Halved(bitrate, e), e) <= bitrate < Scaled(Halved(bitrate, e), e) + Scaled(1, e)
  {
    Truncated(bitrate, e);
    ScaledAdds(Halved(bitrate, e), 1, e);
    ScaledOrder(Halved(bitrate, e), top, e);
  }

  lemma HalvedReaches(top: nat, bitrate: nat, e: nat)
    requires bitrate > Scaled(top, e)
    ensures Halved(bitrate, e) >= top
  {
    Truncated(bitrate, e);
    ScaledOrder(Halved(bitrate, e) + 1, top, e);
  }

  /** No precision is wasted beyond one bit: a scaled mantissa uses at least half of its range. */
  lemma MantissaUsed(top: nat, bitrate: nat, e: nat)
    requires Chosen(top, bitrate, e) && e > 0
    ensures Halved(bitrate, e) >= top / 2
  {
    HalvedReaches(top, bitrate, e - 1);
  }

  lemma {:induction false} ScaledReaches(top: nat, e: nat)
    requires top > 0
    ensures Scaled(top, e) > e
  {
    if e > 0 {
      ScaledReaches(top, e - 1);
    }
  }

  lemma {:induction false} FirstChosen(top: nat, bitrate: nat, n: nat) returns (e: nat)
    requires bitrate <= Scaled(top, n)
    ensures Chosen(top, bitrate, e)
  {
    e := 0;
    while bitrate > Scaled(top, e)
      invariant e <= n && forall i :: 0 <= i < e ==> bitrate > Scaled(top, i)
      decreases n - e
    {
      e := e + 1;
    }
  }

  /** Every rate has an exponent, and only one. */
  lemma ExponentExists(top: nat, bitrate: nat) returns (e: nat)
    requires top > 0
    ensures Chosen(top, bitrate, e) && forall i: nat :: Chosen(top, bitrate, i) ==> i == e
  {
    ScaledReaches(top, bitrate);
    e := FirstChosen(top, bitrate, bitrate);
    forall i: nat | Chosen(top, bitrate, i)
      ensures i == e
    {
      assert !(i < e && bitrate > Scaled(top, i)) && !(e < i && bitrate > Scaled(top, e));
    }
  }

  /** TMMBR: exponent zero exactly for rates of 17 bits; a larger rate keeps 16 bits at least, and 17 at most. */
  lemma TmmbrPrecision(bitrate: nat, e: nat)
    requires Chosen(TMMBR_TOP, bitrate, e)
    ensures (e == 0 <==> bitrate <= 0x1FFFF) && Halved(bitrate, e) <= 0x1FFFF
    ensures e > 0 ==> Halved(bitrate, e) >= 0xFFFF
  {
    CodingBounds(TMMBR_TOP, bitrate, e);
    if e > 0 {
      MantissaUsed(TMMBR_TOP, bitrate, e);
      assert bitrate > Scaled(TMMBR_TOP, 0);
    }
  }

  /** The limit is the last rate whose exponent is at most 14. */
  lemma LimitExact(bitrate: nat, e: nat)
    requires Chosen(TMMBR_TOP, bitrate, e)
    ensures e <= 14 <==> bitrate <= TMMBR_LIMIT
  {
    ScaledMid(TMMBR_TOP);
    if e <= 14 {
      ScaledGrows(TMMBR_TOP, e, 14);
    } else {
      assert bitrate > Scaled(TMMBR_TOP, 14);
    }
  }

  /** REMB: the same with one bit more. */
  lemma RembPrecision(bitrate: nat, e: nat)
    requires Chosen(REMB_TOP, bitrate, e)
    ensures (e == 0 <==> bitrate <= 0x3FFFF) && Halved(bitrate, e) <= 0x3FFFF
    ensures e > 0 ==> Halved(bitrate, e) >= 0x1FFFF
  {
    CodingBounds(REMB_TOP, bitrate, e);
    if e > 0 {
      MantissaUsed(REMB_TOP, bitrate, e);
      assert bitrate > Scaled(REMB_TOP, 0);
    }
  }

  lemma {:induction false} HalvedFalls(bitrate: nat, i: nat, e: nat)
    requires i <= e
    ensures Halved(bitrate, i) >= Halved(bitrate, e)
    decreases e
  {
    if i < e {
      HalvedFalls(bitrate, i, e - 1);
    }
  }

  ghost predicate LeastFitting(top: nat, bitrate: nat, e: nat) {
    Halved(bitrate, e) <= top && forall i :: 0 <= i < e ==> Halved(bitrate, i) > top
  }

  /** Between a scaled largest mantissa and the power of two after it. */
  predicate InGap(top: nat, bitrate: nat, k: nat) {
    Scaled(top, k) < bitrate < Scaled(top + 1, k)
  }

  lemma {:induction false} ScaledGrows(x: nat, i: nat, e: nat)
    requires i <= e
    ensures Scaled(x, i) <= Scaled(x, e)
    decreases e
  {
    if i < e {
      ScaledGrows(x, i, e - 1);
    }
  }

  /** Gaps lie right below the chosen exponent. */
  lemma GapPlace(top: nat, bitrate: nat, e: nat, k: nat)
    requires top >= 1 && Chosen(top, bitrate, e) && InGap(top, bitrate, k)
    ensures k == e - 1
  {
    if k >= e {
      ScaledGrows(top, e, k);
    } else if k < e - 1 {
      ScaledGrows(top, k + 1, e - 1);
      ScaledDouble(top, k);
      ScaledOrder(top + 1, 2 * top, k);
    }
  }

  lemma LeastBelow(top: nat, bitrate: nat, e: nat)
    requires Chosen(top, bitrate, e) && e > 0
    ensures LeastFitting(top, bitrate, e) <==> !InGap(top, bitrate, e - 1)
  {
    CodingBounds(top, bitrate, e);
    var h := Halved(bitrate, e - 1);
    HalvedReaches(top, bitrate, e - 1);
    Truncated(bitrate, e - 1);
    ScaledOrder(top + 1, h, e - 1);
    ScaledOrder(h + 1, top + 1, e - 1);
    forall i | 0 <= i < e
      ensures Halved(bitrate, i) >= h
    {
      HalvedFalls(bitrate, i, e - 1);
    }
  }

  /**
   The chosen exponent is the least whose mantissa fits, except for the rates between a scaled largest mantissa
   and the next power of two: those give one more bit away than they need.
   */
  lemma LeastExceptGaps(top: nat, bitrate: nat, e: nat)
    requires top >= 1 && Chosen(top, bitrate, e)
    ensures LeastFitting(top, bitrate, e) <==> !exists k: nat :: InGap(top, bitrate, k)
  {
    if e > 0 {
      LeastBelow(top, bitrate, e);
    } else {
      CodingBounds(top, bitrate, e);
    }
    if k: nat :| InGap(top, bitrate, k) {
      GapPlace(top, bitrate, e, k);
    }
  }

  /** 0x3FFFF is such a rate: 1 would do, 2 is chosen, and the lowest bit is lost. */
  lemma GapExample(bitrate: nat)
    requires bitrate == 0x3FFFF
    ensures Chosen(TMMBR_TOP, bitrate, 2) && Halved(bitrate, 1) <= TMMBR_TOP
            && Scaled(Halved(bitrate, 2), 2) == bitrate - 3
  {
    assert Scaled(TMMBR_TOP, 1) == 0x3FFFE && Scaled(TMMBR_TOP, 2) == 0x7FFFC;
    assert Halved(bitrate, 1) == 0x1FFFF && Halved(bitrate, 2) == 0xFFFF;
    assert Scaled(0xFFFF, 1) == 0x1FFFE;
  }

  lemma {:induction false} HalvedScaled(x: nat, e: nat)
    ensures Halved(Scaled(x, e), e) == x
  {
    if e > 0 {
      HalvedDouble(Scaled(x, e - 1), e - 1);
      HalvedScaled(x, e - 1);
    }
  }

  lemma {:induction false} HalvedDouble(y: nat, e: nat)
    ensures Halved(2 * y, e) / 2 == Halved(y, e)
  {
    if e > 0 {
      HalvedDouble(y, e - 1);
    }
  }

  lemma {:induction false} ScaledTwice(x: nat, d: nat, e: nat)
    ensures Scaled(Scaled(x, d), e) == Scaled(x, d + e)
  {
    if e > 0 {
      ScaledTwice(x, d, e - 1);
    }
  }

  /** A rate that was coded once is coded without loss from then on, as when a received limit is sent on. */
  lemma RecodedExactly(top: nat, mantissa: nat, exp: nat, e: nat)
    requires mantissa <= top && Chosen(top, Scaled(mantissa, exp), e)
    ensures Scaled(Halved(Scaled(mantissa, exp), e), e) == Scaled(mantissa, exp)
  {
    ScaledOrder(mantissa, top, exp);
    assert e <= exp;
    ScaledTwice(mantissa, exp - e, e);
    HalvedScaled(Scaled(mantissa, exp - e), e);
  }

  // ---------- The wire ----------

  /** What the eight bytes keep of a field: six bits of exponent, seventeen of mantissa and nine of overhead. */
  function Kept(f: Tmmbr): Tmmbr {
    Tmmbr(f.ssrc, f.exp % 64, f.mantissa % 0x2_0000, f.overhead % 512)
  }

  lemma BitsWritten(m: nat)
    ensures (m / 0x8000 % 4 * 256 + m / 128 % 256) * 128 + m % 128 == m % 0x2_0000
  {
    HighPart(m);
    LowTen(m / 128);
    LowSeventeen(m);
  }

  lemma HighPart(m: nat)
    ensures m / 0x8000 == m / 128 / 256
  {
    var q := m / 128;
    assert m == 0x8000 * (q / 256) + (128 * (q % 256) + m % 128);
  }

  lemma LowSeventeen(m: nat)
    ensures m / 128 % 1024 * 128 + m % 128 == m % 0x2_0000
  {
    var q := m / 128;
    assert m == 0x2_0000 * (q / 1024) + (128 * (q % 1024) + m % 128);
  }

  lemma LowTen(q: nat)
    ensures q / 256 % 4 * 256 + q % 256 == q % 1024
  {
  }

  lemma Byte6Written(m: nat, o: nat)
    ensures Byte6(m, o) / 2 == m % 128 && Byte6(m, o) % 2 == o / 256 % 2
  {
    assert m * 2 % 256 == 2 * (m % 128);
  }

  lemma Byte4Written(exp: nat, m: nat)
    ensures Byte4(exp, m) / 4 == exp % 64 && Byte4(exp, m) % 4 == m / 0x8000 % 4
  {
    assert exp * 4 % 256 == 4 * (exp % 64);
  }

  lemma OverheadWritten(o: nat)
    ensures o / 256 % 2 * 256 + o % 256 == o % 512
  {
  }

  /** The field crosses the wire up to the bits the wire has. */
  lemma TmmbrRoundTrip(f: Tmmbr)
    ensures Parsed(Serialized(f)) == Kept(f)
  {
    DwordReadBack(f.ssrc);
    assert Serialized(f)[..4] == ToBytes(f.ssrc, 4);
    Byte4Written(f.exp, f.mantissa);
    Byte6Written(f.mantissa, f.overhead);
    BitsWritten(f.mantissa);
    OverheadWritten(f.overhead);
  }

  /**
   The field on the wire (section 4.2.1.1 of RFC 5104): the source number, then six bits of exponent, seventeen of
   mantissa and nine of overhead.
   */
  lemma TmmbrOnWire(f: Tmmbr)
    ensures Number32(Serialized(f)[..4]) == f.ssrc
    ensures Number32(Serialized(f)[4..])
         == f.exp % 64 * 0x400_0000 + f.mantissa % 0x2_0000 * 0x200 + f.overhead % 0x200
  {
    var w := Serialized(f);
    BigEndian4(f.ssrc);
    assert w[..4] == ToBytes(f.ssrc, 4);
    Byte4Written(f.exp, f.mantissa);
    Byte6Written(f.mantissa, f.overhead);
    BitsWritten(f.mantissa);
    OverheadWritten(f.overhead);
    var b4: nat, b6: nat := w[4], w[6];
    assert b4 == b4 / 4 * 4 + b4 % 4 && b6 == b6 / 2 * 2 + b6 % 2;
  }

  lemma MantissaRead(b4: nat, b5: nat, b6: nat)
    requires b4 < 256 && b5 < 256 && b6 < 256
    ensures var m := Mantissa(b4, b5, b6); m / 0x8000 == b4 % 4 && m / 128 % 256 == b5 && m % 128 == b6 / 2
  {
    var m := Mantissa(b4, b5, b6);
    assert m / 128 == b4 % 4 * 256 + b5;
    assert m / 0x8000 == m / 128 / 256;
  }

  lemma Byte4Read(b4: nat, m: nat)
    requires b4 < 256 && m / 0x8000 == b4 % 4
    ensures Byte4(b4 / 4, m) == b4
  {
  }

  lemma Byte6Read(b6: nat, b7: nat, m: nat)
    requires b6 < 256 && b7 < 256 && m % 128 == b6 / 2
    ensures Byte6(m, Overhead(b6, b7)) == b6 && Overhead(b6, b7) % 256 == b7
  {
    assert m * 2 % 256 == 2 * (m % 128);
  }

  /** And back: the bytes determine the field and are determined by it. */
  lemma TmmbrBytesRoundTrip(d: seq<Byte>)
    requires |d| == 8
    ensures Serialized(Parsed(d)) == d
  {
    WordReadBack(d[..4]);
    var m := Mantissa(d[4], d[5], d[6]);
    MantissaRead(d[4], d[5], d[6]);
    Byte4Read(d[4], m);
    Byte6Read(d[6], d[7], m);
  }

  /** A rate within the limit, and an overhead of nine bits, cross the wire unchanged. */
  lemma TmmbrCarries(ssrc: Dword, bitrate: Dword, overhead: Word, e: Byte)
    requires bitrate <= TMMBR_LIMIT && overhead < 512 && Chosen(TMMBR_TOP, bitrate, e) && e < 64
    ensures var m := Halved(bitrate, e);
            m <= TMMBR_TOP && Parsed(Serialized(Tmmbr(ssrc, e, m, overhead))) == Tmmbr(ssrc, e, m, overhead)
  {
    CodingBounds(TMMBR_TOP, bitrate, e);
    FieldKept(Tmmbr(ssrc, e, Halved(bitrate, e), overhead));
    TmmbrRoundTrip(Tmmbr(ssrc, e, Halved(bitrate, e), overhead));
  }

  lemma FieldKept(f: Tmmbr)
    requires f.exp < 64 && f.mantissa <= TMMBR_TOP && f.overhead < 512
    ensures Kept(f) == f
  {
  }

  /** A reader of the REMB message (section 2.2 of draft-alvestrand-rmcat-remb-03). */
  datatype Remb = Remb(ssrcs: seq<Dword>, exp: nat, mantissa: nat)

  function ReadSsrcs(b: seq<Byte>, count: nat): seq<Dword>
    requires |b| >= 4 * count
  {
    if count == 0 then []
    else
      var at := 4 * (count - 1);
      ReadSsrcs(b, count - 1) + [Get4(b[at..at + 4])]
  }

  function RembMantissa(b5: nat, b6: nat, b7: nat): nat {
    (b5 % 4 * 256 + b6) * 256 + b7
  }

  function ReadRemb(b: seq<Byte>): Option<Remb> {
    if |b| < 8 || b[..4] != [82, 69, 77, 66] then None
    else
      var num: nat := b[4];
      if |b| != 8 + 4 * num then None
      else Some(Remb(ReadSsrcs(b[8..], num), b[5] / 4, RembMantissa(b[5], b[6], b[7])))
  }

  lemma RateRead(exp: nat, m: nat)
    requires exp < 64 && m <= REMB_TOP
    ensures RateByte(exp, m) / 4 == exp && RembMantissa(RateByte(exp, m), m / 256 % 256, m % 256) == m
  {
    assert RateByte(exp, m) % 4 == m / 0x1_0000;
  }

  lemma {:induction false} ReadPrefix(b: seq<Byte>, rest: seq<Byte>, count: nat)
    requires |b| >= 4 * count
    ensures ReadSsrcs(b + rest, count) == ReadSsrcs(b, count)
  {
    if count > 0 {
      ReadPrefix(b, rest, count - 1);
      var at := 4 * (count - 1);
      assert (b + rest)[at..at + 4] == b[at..at + 4];
    }
  }

  lemma ReadLast(b: seq<Byte>, word: seq<Byte>, count: nat)
    requires |b| == 4 * count && |word| == 4
    ensures ReadSsrcs(b + word, count + 1) == ReadSsrcs(b, count) + [Get4(word)]
  {
    ReadPrefix(b, word, count);
    assert (b + word)[4 * count..4 * count + 4] == word;
  }

  lemma {:induction false} SsrcsRead(ssrcs: seq<Dword>)
    ensures ReadSsrcs(SsrcBytes(ssrcs), |ssrcs|) == ssrcs
  {
    if ssrcs != [] {
      var init, last := ssrcs[..|ssrcs| - 1], ssrcs[|ssrcs| - 1];
      SsrcsRead(init);
      DwordReadBack(last);
      ReadLast(SsrcBytes(init), ToBytes(last, 4), |init|);
      assert ssrcs == init + [last];
    }
  }

  lemma RembRead(ssrcs: seq<Dword>, e: nat, m: nat)
    requires |ssrcs| <= 255 && e < 64 && m <= 0x3FFFF
    ensures ReadRemb(RembBytes(ssrcs, e, m)) == Some(Remb(ssrcs, e, m))
  {
    RateRead(e, m);
    SsrcsRead(ssrcs);
    var start, b := RembStart(|ssrcs|, e, m), RembBytes(ssrcs, e, m);
    assert b[..4] == start[..4] == [82, 69, 77, 66];
    assert b[8..] == SsrcBytes(ssrcs);
  }

  /** Every 32-bit rate, and the first 255 of the streams, are what a receiver of the message reads. */
  lemma RembCarries(ssrcs: seq<Dword>, bitrate: Dword, e: Byte)
    requires Chosen(REMB_TOP, bitrate, e) && e < 64
    ensures |Announced(ssrcs)| <= 255
    ensures var m := Halved(bitrate, e);
            m <= 0x3FFFF
            && ReadRemb(RembBytes(Announced(ssrcs), e, m)) == Some(Remb(ssrcs[..Min(255, |ssrcs|)], e, m))
  {
    CodingBounds(REMB_TOP, bitrate, e);
    RembRead(Announced(ssrcs), e, Halved(bitrate, e));
    assert ssrcs[..|ssrcs|] == ssrcs;
  }
}
