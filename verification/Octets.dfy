/** Numbers as big-endian bytes: the get and set helpers of the wire formats. */
module Octets {
  import opened Common

  type Bytes = seq<Byte>

  function Pow256(n: nat): (p: nat)
    ensures p > 0
  {
    if n == 0 then 1 else 256 * Pow256(n - 1)
  }

  /** set2, set4, set8: the `width` low bytes of `n`, most significant first. */
  function ToBytes(n: nat, width: nat): (b: Bytes)
    ensures |b| == width
  {
    if width == 0 then [] else ToBytes(n / 256, width - 1) + [n % 256]
  }

  /** get2, get4, get8 */
  function FromBytes(b: Bytes): nat {
    if b == [] then 0 else 256 * FromBytes(b[..|b| - 1]) + b[|b| - 1]
  }

  lemma Widths()
    ensures Pow256(2) == 0x1_0000 && Pow256(4) == DWORD_RANGE && Pow256(8) == QWORD_RANGE
  {
    assert Pow256(2) == 0x1_0000;
    assert Pow256(4) == 0x1_0000 * Pow256(2);
    assert Pow256(6) == 0x1_0000 * Pow256(4);
    assert Pow256(8) == 0x1_0000 * Pow256(6);
  }

  lemma {:induction false} NumberReadBack(n: nat, width: nat)
    requires n < Pow256(width)
    ensures FromBytes(ToBytes(n, width)) == n
  {
    if width > 0 {
      NumberReadBack(n / 256, width - 1);
      assert ToBytes(n, width)[..width - 1] == ToBytes(n / 256, width - 1);
    }
  }

  lemma {:induction false} BytesReadBack(b: Bytes)
    ensures FromBytes(b) < Pow256(|b|) && ToBytes(FromBytes(b), |b|) == b
  {
    if b != [] {
      BytesReadBack(b[..|b| - 1]);
    }
  }

  lemma DwordReadBack(d: Dword)
    ensures FromBytes(ToBytes(d, 4)) == d
  {
    Widths();
    NumberReadBack(d, 4);
  }

  lemma WordReadBack(b: Bytes)
    requires |b| == 4
    ensures FromBytes(b) < DWORD_RANGE && ToBytes(FromBytes(b), 4) == b
  {
    Widths();
    BytesReadBack(b);
  }

  /** get4 */
  function Get4(b: Bytes): Dword
    requires |b| == 4
  {
    WordReadBack(b);
    FromBytes(b)
  }

  // ---------- The first byte is the most significant ----------

  function Number16(w: Bytes): nat
    requires |w| == 2
  {
    var a: nat, b: nat := w[0], w[1];
    256 * a + b
  }

  function Number32(w: Bytes): nat
    requires |w| == 4
  {
    var a: nat, b: nat, c: nat, d: nat := w[0], w[1], w[2], w[3];
    0x100_0000 * a + 0x1_0000 * b + 256 * c + d
  }

  function Number64(w: Bytes): nat
    requires |w| == 8
  {
    0x1_0000_0000 * Number32(w[..4]) + Number32(w[4..])
  }

  lemma ReadAs16(w: Bytes)
    requires |w| == 2
    ensures FromBytes(w) == Number16(w)
  {
    assert w[..1][..0] == [];
    assert FromBytes(w[..1]) == 256 * FromBytes([]) + w[0];
  }

  lemma {:induction false} FromBytesCut(a: Bytes, b: Bytes)
    ensures FromBytes(a + b) == FromBytes(a) * Pow256(|b|) + FromBytes(b)
  {
    if b == [] {
      assert a + b == a;
    } else {
      var init := b[..|b| - 1];
      assert (a + b)[..|a + b| - 1] == a + init;
      FromBytesCut(a, init);
      assert Pow256(|b|) == 256 * Pow256(|init|);
      Scaled(FromBytes(a), Pow256(|init|));
    }
  }

  lemma Scaled(a: nat, p: nat)
    ensures 256 * (a * p) == a * (256 * p)
  {
  }

  lemma ReadAs32(w: Bytes)
    requires |w| == 4
    ensures FromBytes(w) == Number32(w)
  {
    assert w == w[..2] + w[2..];
    FromBytesCut(w[..2], w[2..]);
    ReadAs16(w[..2]);
    ReadAs16(w[2..]);
    Widths();
  }

  lemma ReadAs64(w: Bytes)
    requires |w| == 8
    ensures FromBytes(w) == Number64(w)
  {
    assert w == w[..4] + w[4..];
    FromBytesCut(w[..4], w[4..]);
    ReadAs32(w[..4]);
    ReadAs32(w[4..]);
    Widths();
  }

  lemma BigEndian2(n: nat)
    requires n < 0x1_0000
    ensures Number16(ToBytes(n, 2)) == n
  {
    Widths();
    NumberReadBack(n, 2);
    ReadAs16(ToBytes(n, 2));
  }

  lemma BigEndian4(n: nat)
    requires n < 0x1_0000_0000
    ensures Number32(ToBytes(n, 4)) == n
  {
    Widths();
    NumberReadBack(n, 4);
    ReadAs32(ToBytes(n, 4));
  }

  lemma BigEndian8(n: nat)
    requires n < 0x1_0000_0000_0000_0000
    ensures Number64(ToBytes(n, 8)) == n
  {
    Widths();
    NumberReadBack(n, 8);
    ReadAs64(ToBytes(n, 8));
  }
}
