/**
 `BitReader`, `BitWritter` and `ExpGolombDecoder`.  A 32-bit word is the sequence of its bits, most
 significant first, so that the shifts and masks of the source are slices of sequences.
 */
module BitStream {
  import opened Common

  type Bits = seq<bool>

  type Word = w: Bits | |w| == 32 witness seq(32, _ => false)

  type Octet = o: Bits | |o| == 8 witness seq(8, _ => false)

  function Zeros(n: nat): (z: Bits)
    ensures |z| == n && forall i :: 0 <= i < n ==> !z[i]
  {
    Filled(false, n)
  }

  /** w << n */
  function Shl(w: Word, n: nat): Word
    requires n <= 32
  {
    seq(32, i requires 0 <= i < 32 => i + n < 32 && w[i + n])
  }

  /** w >> n */
  function Shr(w: Word, n: nat): Word
    requires n <= 32
  {
    seq(32, i requires 0 <= i < 32 => i >= n && w[i - n])
  }

  function Or(a: Word, b: Word): Word {
    seq(32, i requires 0 <= i < 32 => a[i] || b[i])
  }

  /** w & (0xFFFFFFFF >> (32 - n)): the `n` low bits. */
  function Low(w: Word, n: nat): Word
    requires n <= 32
  {
    seq(32, i requires 0 <= i < 32 => i >= 32 - n && w[i])
  }

  function And(a: Word, b: Word): Word {
    seq(32, i requires 0 <= i < 32 => a[i] && b[i])
  }

  /** The bits of consecutive bytes. */
  function Spread(bytes: seq<Octet>): (b: Bits)
    ensures |b| == 8 * |bytes|
  {
    if bytes == [] then [] else Spread(bytes[..|bytes| - 1]) + bytes[|bytes| - 1]
  }

  // ---------- BitWritter ----------

  /** `room`: bytes left in the buffer; the `cached` low bits of `cache` are still to be written. */
  datatype Writer = Writer(bytes: seq<Octet>, room: nat, cache: Word, cached: nat)

  function NewWriter(size: nat): Writer {
    Writer([], size, Zeros(32), 0)
  }

  /** Byte `i` of the `n` low bytes of a word. */
  function ByteOf(w: Word, n: nat, i: nat): Octet
    requires i < n <= 4
  {
    var at := 32 - 8 * n + 8 * i;
    w[at..at + 8]
  }

  /** set1 to set4 */
  function LowBytes(w: Word, n: nat): seq<Octet>
    requires n <= 4
  {
    seq(n, i requires 0 <= i < n => ByteOf(w, n, i))
  }

  /** None stands for the exception on a full buffer. */
  function FlushCache(w: Writer): Option<Writer>
    requires w.cached <= 32
  {
    if w.cached == 0 then Some(w)
    else if w.cached > w.room * 8 then None
    else if w.cached % 8 == 0 then
      var n := w.cached / 8;
      Some(Writer(w.bytes + LowBytes(w.cache, n), w.room - n, w.cache, 0))
    else Some(w.(cached := 0))
  }

  /** w & (0xFFFFFFFF >> cached); on a full cache C++ leaves the shifted mask undefined, and `undef` is what it is. */
  function Room(w: Word, cached: nat, undef: Word): Word
    requires cached <= 32
  {
    if cached < 32 then Low(w, 32 - cached) else And(w, undef)
  }

  function Put(w: Writer, n: nat, v: Word, undef: Word): Option<Writer>
    requires w.cached <= 32 && 1 <= n <= 31
  {
    if n + w.cached > 32 then
      var a := 32 - w.cached;
      var b := n - a;
      match FlushCache(w.(cache := Or(Shl(w.cache, a), Room(Shr(v, b), w.cached, undef)), cached := 32))
      case None => None
      case Some(w1) => Some(w1.(cache := Low(v, b), cached := b))
    else Some(w.(cache := Or(Shl(w.cache, n), Low(v, n)), cached := w.cached + n))
  }

  function Padding(cached: nat): (n: nat)
    ensures n < 8 && (cached + n) % 8 == 0
  {
    (8 - cached % 8) % 8
  }

  /** Align puts zeros into a cache that is not full. */
  function Flush(w: Writer): Option<Writer>
    requires w.cached <= 32
  {
    if w.cached % 8 == 0 then FlushCache(w)
    else
      match Put(w, Padding(w.cached), Zeros(32), Zeros(32))
      case None => None
      case Some(w1) => if w1.cached <= 32 then FlushCache(w1) else None
  }

  // ---------- BitReader ----------

  /** The `cached` high bits of `cache` come before the bytes of `buffer`. */
  datatype Reader = Reader(buffer: seq<Octet>, cache: Word, cached: nat)

  function NewReader(buffer: seq<Octet>): Reader {
    Reader(buffer, Zeros(32), 0)
  }

  function Left(r: Reader): nat {
    r.cached + |r.buffer| * 8
  }

  /** None stands for the exception on an empty buffer. */
  function Cache(r: Reader): Option<Reader> {
    if |r.buffer| == 0 then None
    else
      var n := Min(4, |r.buffer|);
      Some(Reader(r.buffer[n..], Spread(r.buffer[..n]) + Zeros(32 - 8 * n), 8 * n))
  }

  /** `cached` is a byte in the source: reading more than it holds wraps it around. */
  function GetCached(r: Reader, n: nat): (Reader, Word)
    requires n <= 32
  {
    if n == 0 then (r, Zeros(32))
    else (r.(cache := Shl(r.cache, n), cached := (r.cached - n) % 256), Shr(r.cache, 32 - n))
  }

  function Get(r: Reader, n: nat): Option<(Reader, Word)>
    requires n <= 31
  {
    if n > r.cached then
      match Cache(r)
      case None => None
      case Some(r1) =>
        var (r2, rest) := GetCached(r1, n - r.cached);
        Some((r2, Or(Shr(r.cache, 32 - n), rest)))
    else Some(GetCached(r, n))
  }

  // ---------- Exp-Golomb ----------

  /** The number a string of bits denotes. */
  function Value(b: Bits): nat {
    if b == [] then 0 else 2 * Value(b[..|b| - 1]) + if b[|b| - 1] then 1 else 0
  }

  function Pow2(n: nat): (p: nat)
    ensures p > 0
  {
    if n == 0 then 1 else 2 * Pow2(n - 1)
  }

  lemma BitTaken(r: Reader)
    requires r.cached <= 32
    ensures Get(r, 1).Some? ==> var r1 := Get(r, 1).value.0; r1.cached <= 32 && Left(r1) == Left(r) - 1
  {
  }

  /** The zeros before the first one; None if the stream ends first. */
  function LeadingZeros(r: Reader, len: nat): Option<(Reader, nat)>
    requires r.cached <= 32
    decreases Left(r)
  {
    BitTaken(r);
    match Get(r, 1)
    case None => None
    case Some((r1, bit)) => if bit == Zeros(32) then LeadingZeros(r1, len + 1) else Some((r1, len))
  }

  /** The suffix; more than 30 zeros overflow the source's `1 << len`, and None stands for that as well. */
  function DecodeSuffix(r: Reader, len: nat): Option<(Reader, nat)> {
    if len > 30 then None
    else
      match Get(r, len)
      case None => None
      case Some((r', value)) => Some((r', Pow2(len) - 1 + Value(value)))
  }

  function DecodeUe(r: Reader): Option<(Reader, nat)>
    requires r.cached <= 32
  {
    match LeadingZeros(r, 0)
    case None => None
    case Some((r1, len)) => DecodeSuffix(r1, len)
  }

  // ---------- The objects ----------

  class BitReader {
    var buffer: seq<Octet>
    var cache: Word
    var cached: nat

    function View(): Reader
      reads this
    {
      Reader(buffer, cache, cached)
    }

    constructor (data: seq<Octet>)
      ensures View() == NewReader(data)
    {
      buffer, cache, cached := data, Zeros(32), 0;
    }

    method LoadCache() returns (ok: bool)
      modifies this
      ensures match Cache(old(View()))
              case None => !ok && View() == old(View())
              case Some(r) => ok && View() == r
    {
      if |buffer| > 3 {
        assert Zeros(0) == [];
        assert Spread(buffer[..4]) + Zeros(32 - 8 * 4) == Spread(buffer[..4]);
        cache, cached, buffer := Spread(buffer[..4]), 32, buffer[4..];
      } else if |buffer| == 3 {
        cache, cached, buffer := Spread(buffer[..3]) + Zeros(8), 24, buffer[3..];
      } else if |buffer| == 2 {
        cache, cached, buffer := Spread(buffer[..2]) + Zeros(16), 16, buffer[2..];
      } else if |buffer| == 1 {
        cache, cached, buffer := Spread(buffer[..1]) + Zeros(24), 8, buffer[1..];
      } else {
        return false;
      }
      ok := true;
    }

    method TakeCached(n: nat) returns (x: Word)
      requires n <= 32
      modifies this
      ensures (View(), x) == GetCached(old(View()), n)
    {
      if n == 0 {
        return Zeros(32);
      }
      x := Shr(cache, 32 - n);
      cache := Shl(cache, n);
      cached := (cached - n) % 256;
    }

    method Read(n: nat) returns (x: Option<Word>)
      requires n <= 31
      modifies this
      ensures match Get(old(View()), n)
              case None => View() == old(View()) && x == None
              case Some((r, y)) => View() == r && x == Some(y)
    {
      if n > cached {
        var a := n - cached;
        var high := Shr(cache, 32 - n);
        var ok := LoadCache();
        if !ok {
          return None;
        }
        var low := TakeCached(a);
        return Some(Or(high, low));
      }
      var all := TakeCached(n);
      return Some(all);
    }

    method CountZeros() returns (zeros: Option<nat>)
      requires cached <= 32
      modifies this
      ensures match LeadingZeros(old(View()), 0)
              case None => zeros == None
              case Some((r, len)) => View() == r && zeros == Some(len)
    {
      var len := 0;
      var bit := Read(1);
      while bit == Some(Zeros(32))
        invariant cached <= 32
        invariant LeadingZeros(old(View()), 0) ==
                    match bit
                    case None => None
                    case Some(b) => if b == Zeros(32) then LeadingZeros(View(), len + 1) else Some((View(), len))
        decreases Left(View()), bit.Some?
      {
        len := len + 1;
        BitTaken(View());
        bit := Read(1);
      }
      return if bit == None then None else Some(len);
    }

    method ReadSuffix(len: nat) returns (k: Option<nat>)
      modifies this
      ensures match DecodeSuffix(old(View()), len)
              case None => k == None
              case Some((r, v)) => View() == r && k == Some(v)
    {
      if len > 30 {
        return None;
      }
      var value := Read(len);
      if value == None {
        return None;
      }
      return Some(Pow2(len) - 1 + Value(value.value));
    }

    method Decode() returns (k: Option<nat>)
      requires cached <= 32
      modifies this
      ensures match DecodeUe(old(View()))
              case None => k == None
              case Some((r, v)) => View() == r && k == Some(v)
    {
      var zeros := CountZeros();
      if zeros == None {
        return None;
      }
      k := ReadSuffix(zeros.value);
    }
  }

  class BitWriter {
    var data: array<Octet>
    var bufferLen: nat
    var bufferSize: nat
    var cache: Word
    var cached: nat
    const undef: Word

    ghost predicate Valid()
      reads this
    {
      bufferLen + bufferSize == data.Length && cached <= 32
    }

    function View(): Writer
      requires Valid()
      reads this, data
    {
      Writer(data[..bufferLen], bufferSize, cache, cached)
    }

    constructor (data: array<Octet>, undef: Word)
      ensures Valid() && View() == NewWriter(data.Length) && this.data == data && this.undef == undef
    {
      this.data, this.undef := data, undef;
      bufferLen, bufferSize := 0, data.Length;
      cache, cached := Zeros(32), 0;
    }

    /** False stands for the exception. */
    method WriteCache() returns (ok: bool)
      requires Valid()
      modifies this, data
      ensures Valid() && data == old(data)
      ensures match FlushCache(old(View()))
              case None => !ok && View() == old(View())
              case Some(w) => ok && View() == w
    {
      if cached == 0 {
        return true;
      }
      if cached > bufferSize * 8 {
        return false;
      }
      if cached % 8 == 0 {
        var n := cached / 8;
        for i := 0 to n
          invariant unchanged(this) && data == old(data)
          invariant data[..bufferLen + i] == old(data[..bufferLen]) + LowBytes(cache, n)[..i]
        {
          data[bufferLen + i] := ByteOf(cache, n, i);
        }
        bufferLen, bufferSize := bufferLen + n, bufferSize - n;
      }
      cached := 0;
      return true;
    }

    method Write(n: nat, v: Word) returns (ok: bool)
      requires Valid() && 1 <= n <= 31
      modifies this, data
      ensures Valid() && data == old(data)
      ensures match Put(old(View()), n, v, undef)
              case None => !ok
              case Some(w) => ok && View() == w
    {
      if n + cached > 32 {
        var a := 32 - cached;
        var b := n - a;
        ghost var w := View();
        cache := Or(Shl(cache, a), Room(Shr(v, b), cached, undef));
        cached := 32;
        assert View() == w.(cache := cache, cached := 32);
        ok := WriteCache();
        if !ok {
          return;
        }
        cache := Low(v, b);
        cached := b;
      } else {
        cache := Or(Shl(cache, n), Low(v, n));
        cached := cached + n;
        ok := true;
      }
    }

    method Finish() returns (ok: bool)
      requires Valid()
      modifies this, data
      ensures Valid() && data == old(data)
      ensures match Flush(old(View()))
              case None => !ok
              case Some(w) => ok && View() == w
    {
      if cached % 8 != 0 {
        var pad := if cached > 24 then 32 - cached
                   else if cached > 16 then 24 - cached
                   else if cached > 8 then 16 - cached
                   else 8 - cached;
        assert pad == Padding(cached);
        ok := Write(pad, Zeros(32));
        if !ok {
          return;
        }
      }
      ok := WriteCache();
    }
  }
}
