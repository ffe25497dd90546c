/** What is put into a bit stream comes out of it, across every refill of the caches. */
module BitStreamProofs {
  import opened Common
  import opened BitStream

  // ---------- Words and bytes ----------

  lemma {:induction false} SpreadAppend(a: seq<Octet>, b: seq<Octet>)
    ensures Spread(a + b) == Spread(a) + Spread(b)
  {
    if b == [] {
      assert a + b == a;
    } else {
      var init := b[..|b| - 1];
      assert (a + b)[..|a + b| - 1] == a + init;
      SpreadAppend(a, init);
    }
  }

  lemma SpreadSnoc(a: seq<Octet>, o: Octet)
    ensures Spread(a + [o]) == Spread(a) + o
  {
    assert (a + [o])[..|a|] == a;
  }

  lemma Cut(b: Bits, i: nat, j: nat, k: nat)
    requires i <= j <= k <= |b|
    ensures b[i..k] == b[i..j] + b[j..k]
  {
  }

  lemma {:induction false} LowBytesPrefix(w: Word, n: nat, k: nat)
    requires k <= n <= 4
    ensures Spread(LowBytes(w, n)[..k]) == w[32 - 8 * n..32 - 8 * n + 8 * k]
  {
    if k > 0 {
      var at := 32 - 8 * n;
      LowBytesPrefix(w, n, k - 1);
      SpreadTake(LowBytes(w, n), k);
      Cut(w, at, at + 8 * (k - 1), at + 8 * k);
    }
  }

  lemma SpreadTake(bytes: seq<Octet>, k: nat)
    requires 0 < k <= |bytes|
    ensures Spread(bytes[..k]) == Spread(bytes[..k - 1]) + bytes[k - 1]
  {
    assert bytes[..k] == bytes[..k - 1] + [bytes[k - 1]];
    SpreadSnoc(bytes[..k - 1], bytes[k - 1]);
  }

  lemma SpreadLowBytes(w: Word, n: nat)
    requires n <= 4
    ensures Spread(LowBytes(w, n)) == w[32 - 8 * n..]
  {
    assert LowBytes(w, n)[..n] == LowBytes(w, n);
    LowBytesPrefix(w, n, n);
  }

  /** Shifting in `n` bits under the `m` low bits of a word. */
  lemma ShiftIn(c: Word, v: Word, m: nat, n: nat)
    requires m + n <= 32
    ensures Or(Shl(c, n), Low(v, n))[32 - m - n..] == c[32 - m..] + v[32 - n..]
  {
    var got, want := Or(Shl(c, n), Low(v, n))[32 - m - n..], c[32 - m..] + v[32 - n..];
    forall i | 0 <= i < |got|
      ensures got[i] == want[i]
    {
    }
  }

  // ---------- The writer ----------

  predicate WriterOk(w: Writer) {
    w.cached <= 32
  }

  /** Everything put so far. */
  function Written(w: Writer): Bits
    requires WriterOk(w)
  {
    Spread(w.bytes) + w.cache[32 - w.cached..]
  }

  function Size(w: Writer): nat {
    |w.bytes| + w.room
  }

  lemma FlushKeeps(w: Writer)
    requires WriterOk(w) && w.cached % 8 == 0
    ensures FlushCache(w).Some? <==> w.cached <= w.room * 8
    ensures FlushCache(w).Some? ==>
              var w' := FlushCache(w).value;
              WriterOk(w') && w'.cached == 0 && Spread(w'.bytes) == Written(w) && Size(w') == Size(w)
  {
    if w.cached > 0 && w.cached <= w.room * 8 {
      var n := w.cached / 8;
      SpreadLowBytes(w.cache, n);
      SpreadAppend(w.bytes, LowBytes(w.cache, n));
    }
  }

  /** Whether Put leaves the stream with the `n` low bits of the value at its end. */
  predicate Appends(w: Writer, n: nat, v: Word, undef: Word)
    requires WriterOk(w) && 1 <= n <= 31
  {
    var r := Put(w, n, v, undef);
    r.Some? ==> WriterOk(r.value) && Written(r.value) == Written(w) + v[32 - n..] && Size(r.value) == Size(w)
  }

  /** The bits of the value above its `n` low ones would fall onto ones of the cache. */
  ghost predicate Harmless(cache: Word, n: nat, v: Word)
    requires n <= 32
  {
    forall i :: n <= i < 32 && Shr(v, n)[i] ==> cache[i]
  }

  lemma Spilled(w: Writer, a: nat, b: nat, v: Word, undef: Word) returns (full: Writer)
    requires WriterOk(w) && a == 32 - w.cached && b >= 1 && a + b <= 31
    ensures full == w.(cache := Or(Shl(w.cache, a), Room(Shr(v, b), w.cached, undef)), cached := 32)
    ensures w.cached < 32 ==> full.cache == w.cache[32 - w.cached..] + v[32 - a - b..32 - b]
    ensures w.cached == 32 && Harmless(w.cache, b, v) ==> full.cache == w.cache
  {
    full := w.(cache := Or(Shl(w.cache, a), Room(Shr(v, b), w.cached, undef)), cached := 32);
    if w.cached < 32 {
      ShiftIn(w.cache, Shr(v, b), w.cached, a);
      assert Shr(v, b)[32 - a..] == v[32 - a - b..32 - b];
      assert full.cache[0..] == full.cache;
    } else if Harmless(w.cache, b, v) {
      assert Shl(w.cache, 0) == w.cache;
      forall i | 0 <= i < 32
        ensures full.cache[i] == w.cache[i]
      {
        assert Shr(v, b)[i] ==> i >= b;
      }
    }
  }

  lemma SpilledRest(w: Writer, full: Writer, b: nat, v: Word, n: nat)
    requires WriterOk(w) && full.cached == 32 && full.bytes == w.bytes && 1 <= b <= n <= 31 && n == b + 32 - w.cached
    requires full.cache == w.cache[32 - w.cached..] + v[32 - n..32 - b]
    ensures Spread(w.bytes) + full.cache + Low(v, b)[32 - b..] == Written(w) + v[32 - n..]
  {
    assert Low(v, b)[32 - b..] == v[32 - b..];
    assert v[32 - n..] == v[32 - n..32 - b] + v[32 - b..];
  }

  lemma PutSpills(w: Writer, n: nat, v: Word, undef: Word, full: Writer)
    requires WriterOk(w) && 1 <= n <= 31 && n + w.cached > 32
    requires full == w.(cache := Or(Shl(w.cache, 32 - w.cached), Room(Shr(v, n + w.cached - 32), w.cached, undef)),
             cached := 32)
    ensures var b := n + w.cached - 32;
            Put(w, n, v, undef)
                == match FlushCache(full) case None => None case Some(w1) => Some(w1.(cache := Low(v, b), cached := b))
  {
  }

  lemma PutAcross(w: Writer, n: nat, v: Word, undef: Word)
    requires WriterOk(w) && 1 <= n <= 31 && n + w.cached > 32
    ensures Put(w, n, v, undef).Some? <==> w.room >= 4
    ensures w.cached < 32 || Harmless(w.cache, n, v) ==> Appends(w, n, v, undef)
  {
    var a := 32 - w.cached;
    var b := n - a;
    var full := Spilled(w, a, b, v, undef);
    PutSpills(w, n, v, undef, full);
    FlushKeeps(full);
    assert full.cache[0..] == full.cache;
    if w.cached < 32 || Harmless(w.cache, n, v) {
      assert w.cached == 32 ==> w.cache[0..] == w.cache && v[32 - n..32 - b] == [];
      SpilledRest(w, full, b, v, n);
    }
  }

  /**
   Where Put succeeds, and that it appends on a cache with room or with harmless bits, whatever the undefined
   mask is.
   */
  lemma PutAppends(w: Writer, n: nat, v: Word, undef: Word)
    requires WriterOk(w) && 1 <= n <= 31
    ensures Put(w, n, v, undef).Some? <==> n + w.cached <= 32 || w.room >= 4
    ensures w.cached < 32 || Harmless(w.cache, n, v) ==> Appends(w, n, v, undef)
  {
    if n + w.cached > 32 {
      PutAcross(w, n, v, undef);
    } else {
      var w' := PutWithin(w, n, v, undef);
    }
  }

  /** A value that fits in the cache. */
  lemma PutWithin(w: Writer, n: nat, v: Word, undef: Word) returns (w': Writer)
    requires WriterOk(w) && 1 <= n <= 31 && n + w.cached <= 32
    ensures Put(w, n, v, undef) == Some(w') && w'.cached == w.cached + n && w'.room == w.room && w'.bytes == w.bytes
    ensures Written(w') == Written(w) + v[32 - n..]
  {
    w' := w.(cache := Or(Shl(w.cache, n), Low(v, n)), cached := w.cached + n);
    ShiftIn(w.cache, v, w.cached, n);
    Assoc(Spread(w.bytes), w.cache[32 - w.cached..], v[32 - n..]);
  }

  function Ones(): Word {
    seq(32, _ => true)
  }

  /** On a full cache, a bit of the value that falls onto a zero of the cache is written over it by a mask of ones. */
  lemma FullCacheSpoiled(w: Writer, n: nat, v: Word)
    requires WriterOk(w) && w.cached == 32 && w.room >= 4 && 1 <= n <= 31 && !Harmless(w.cache, n, v)
    ensures !Appends(w, n, v, Ones())
  {
    var full := Spilled(w, 0, n, v, Ones());
    FlushKeeps(full);
    var i :| n <= i < 32 && Shr(v, n)[i] && !w.cache[i];
    assert Shl(w.cache, 0) == w.cache;
    assert full.cache[0..] == full.cache && w.cache[0..] == w.cache;
    assert full.cache[i];
    var bits := Written(Put(w, n, v, Ones()).value);
    assert bits[|Spread(w.bytes)| + i] == full.cache[i];
    assert (Written(w) + v[32 - n..])[|Spread(w.bytes)| + i] == w.cache[i];
  }

  /**
   Put appends whatever C++ makes of the undefined mask, exactly with room in the cache or harmless bits above
   the value.
   */
  lemma PutAppendsExactly(w: Writer, n: nat, v: Word)
    requires WriterOk(w) && 1 <= n <= 31 && w.room >= 4
    ensures (forall undef :: Appends(w, n, v, undef)) <==> w.cached < 32 || Harmless(w.cache, n, v)
  {
    if w.cached < 32 || Harmless(w.cache, n, v) {
      forall undef
        ensures Appends(w, n, v, undef)
      {
        PutAppends(w, n, v, undef);
      }
    } else {
      FullCacheSpoiled(w, n, v);
    }
  }

  /** A value that fits in its width is always harmless. */
  lemma FittingHarmless(cache: Word, n: nat, v: Word)
    requires 1 <= n <= 31 && v[..32 - n] == Zeros(32 - n)
    ensures Harmless(cache, n, v)
  {
    forall i | n <= i < 32
      ensures !Shr(v, n)[i]
    {
      assert Shr(v, n)[i] == v[..32 - n][i - n];
    }
  }

  /** Two fields of 16 bits fill the cache; 0x1FF in 8 bits then changes what was already put. */
  lemma SpoiledInput(v: Word) returns (w: Writer)
    requires v == Zeros(23) + Ones()[..9]
    ensures Put(NewWriter(8), 16, Zeros(32), Ones()).Some?
    ensures Put(Put(NewWriter(8), 16, Zeros(32), Ones()).value, 16, Zeros(32), Ones()) == Some(w)
    ensures WriterOk(w) && w.cached == 32 && !Appends(w, 8, v, Ones())
  {
    PutZeros(NewWriter(8), 16, Ones());
    var w1 := NewWriter(8).(cached := 16);
    PutZeros(w1, 16, Ones());
    w := w1.(cached := 32);
    assert Shr(v, 8)[31] && !w.cache[31];
    FullCacheSpoiled(w, 8, v);
  }

  lemma PutZeros(w: Writer, n: nat, undef: Word)
    requires w.cache == Zeros(32) && 1 <= n <= 31 && n + w.cached <= 32
    ensures Put(w, n, Zeros(32), undef) == Some(w.(cached := w.cached + n))
  {
    var word := Or(Shl(Zeros(32), n), Low(Zeros(32), n));
    forall i | 0 <= i < 32
      ensures word[i] == Zeros(32)[i]
    {
    }
    assert word == Zeros(32);
  }

  lemma Padded(w: Writer) returns (w1: Writer)
    requires WriterOk(w) && w.cached % 8 != 0
    ensures WriterOk(w1) && Flush(w) == FlushCache(w1) && w1.cached == w.cached + Padding(w.cached) && w1.room == w.room
    ensures Written(w1) == Written(w) + Zeros(Padding(w.cached)) && Size(w1) == Size(w)
  {
    PaddingFits(w.cached);
    w1 := PutWithin(w, Padding(w.cached), Zeros(32), Zeros(32));
    FlushAfterPad(w, w1);
    ZeroTail(Padding(w.cached));
  }

  lemma PaddingFits(cached: nat)
    requires cached <= 32 && cached % 8 != 0
    ensures 1 <= Padding(cached) <= 31 && Padding(cached) + cached <= 32
  {
  }

  lemma FlushAfterPad(w: Writer, w1: Writer)
    requires w.cached <= 32 && w.cached % 8 != 0 && w1.cached <= 32 && 1 <= Padding(w.cached) <= 31
    requires Put(w, Padding(w.cached), Zeros(32), Zeros(32)) == Some(w1)
    ensures Flush(w) == FlushCache(w1)
  {
  }

  lemma ZeroTail(n: nat)
    requires n <= 32
    ensures Zeros(32)[32 - n..] == Zeros(n)
  {
  }

  lemma AlignedFlush(w: Writer)
    requires WriterOk(w) && w.cached % 8 == 0
    ensures Flush(w) == FlushCache(w) && Written(w) + Zeros(Padding(w.cached)) == Written(w)
  {
    assert Padding(w.cached) == 0 && Zeros(0) == [];
  }

  /** Flush pads with zeros to a whole byte and writes everything out. */
  lemma FlushPads(w: Writer)
    requires WriterOk(w)
    ensures Flush(w).Some? <==> w.cached + Padding(w.cached) <= w.room * 8
    ensures Flush(w).Some? ==>
              var w' := Flush(w).value; Spread(w'.bytes) == Written(w) + Zeros(Padding(w.cached)) && Size(w') == Size(w)
  {
    if w.cached % 8 == 0 {
      AlignedFlush(w);
      FlushKeeps(w);
    } else {
      var w1 := Padded(w);
      FlushKeeps(w1);
    }
  }

  // ---------- The reader ----------

  ghost predicate ReaderOk(r: Reader) {
    r.cached <= 32 && forall i :: r.cached <= i < 32 ==> !r.cache[i]
  }

  /** Everything still to be read. */
  function Rest(r: Reader): Bits
    requires r.cached <= 32
  {
    r.cache[..r.cached] + Spread(r.buffer)
  }

  /** A word holding the value of at most 32 bits. */
  function AsWord(b: Bits): Word
    requires |b| <= 32
  {
    Zeros(32 - |b|) + b
  }

  lemma CachedTakes(r: Reader, n: nat) returns (r': Reader, x: Word)
    requires ReaderOk(r) && n <= r.cached && n <= 32
    ensures GetCached(r, n) == (r', x) && ReaderOk(r') && Rest(r') == Rest(r)[n..] && x == AsWord(Rest(r)[..n])
  {
    var got := GetCached(r, n);
    r', x := got.0, got.1;
    if n == 0 {
      assert Rest(r)[..0] == [] && Zeros(32) + [] == Zeros(32);
    } else {
      assert r'.cache[..r'.cached] == r.cache[n..r.cached];
      assert Rest(r)[..n] == r.cache[..n];
    }
  }

  lemma CacheLoads(r: Reader) returns (r1: Reader)
    requires ReaderOk(r) && |r.buffer| > 0
    ensures Cache(r) == Some(r1) && ReaderOk(r1) && Rest(r1) == Spread(r.buffer)
    ensures r1.cached == 8 * Min(4, |r.buffer|)
  {
    r1 := Cache(r).value;
    var n := Min(4, |r.buffer|);
    assert r.buffer == r.buffer[..n] + r.buffer[n..];
    SpreadAppend(r.buffer[..n], r.buffer[n..]);
  }

  lemma JoinWords(c: Word, m: nat, y: Bits)
    requires m + |y| <= 32 && forall i :: m <= i < 32 ==> !c[i]
    ensures Or(Shr(c, 32 - m - |y|), AsWord(y)) == AsWord(c[..m] + y)
  {
    var w := Or(Shr(c, 32 - m - |y|), AsWord(y));
    forall i | 0 <= i < 32
      ensures w[i] == AsWord(c[..m] + y)[i]
    {
    }
  }

  lemma TakeAcross(a: Bits, b: Bits, n: nat)
    requires |a| <= n <= |a| + |b|
    ensures (a + b)[..n] == a + b[..n - |a|] && (a + b)[n..] == b[n - |a|..]
  {
  }

  /** Within what is left, Get returns the next `n` bits and leaves the others. */
  lemma GetTakes(r: Reader, n: nat) returns (r': Reader, x: Word)
    requires ReaderOk(r) && n <= 31 && n <= Left(r)
    ensures Get(r, n) == Some((r', x)) && ReaderOk(r') && Rest(r') == Rest(r)[n..] && x == AsWord(Rest(r)[..n])
  {
    if n > r.cached {
      r', x := GetAcross(r, n);
    } else {
      r', x := CachedTakes(r, n);
    }
  }

  lemma GetAcross(r: Reader, n: nat) returns (r': Reader, x: Word)
    requires ReaderOk(r) && r.cached < n <= 31 && n <= Left(r)
    ensures Get(r, n) == Some((r', x)) && ReaderOk(r') && Rest(r') == Rest(r)[n..] && x == AsWord(Rest(r)[..n])
  {
    var a := n - r.cached;
    var r1 := CacheLoads(r);
    var low;
    r', low := CachedTakes(r1, a);
    x := Or(Shr(r.cache, 32 - n), low);
    GetJoins(r, n, r1, r', low);
    AcrossBits(r.cache, r.cached, Rest(r1), n);
    assert Rest(r) == r.cache[..r.cached] + Rest(r1);
  }

  /** The rest of the cache and the start of what was loaded. */
  lemma AcrossBits(c: Word, m: nat, rest: Bits, n: nat)
    requires m < n <= 31 && n - m <= |rest| && forall i :: m <= i < 32 ==> !c[i]
    ensures Or(Shr(c, 32 - n), AsWord(rest[..n - m])) == AsWord((c[..m] + rest)[..n])
    ensures (c[..m] + rest)[n..] == rest[n - m..]
  {
    JoinWords(c, m, rest[..n - m]);
    TakeAcross(c[..m], rest, n);
  }

  lemma GetJoins(r: Reader, n: nat, r1: Reader, r': Reader, low: Word)
    requires r.cached < n <= 31 && Cache(r) == Some(r1) && GetCached(r1, n - r.cached) == (r', low)
    ensures Get(r, n) == Some((r', Or(Shr(r.cache, 32 - n), low)))
  {
  }

  /**
   Past the end, only an empty buffer is noticed: with one to three bytes left the count of cached bits wraps
   around.
   */
  lemma OverrunNoticed(r: Reader, n: nat)
    requires ReaderOk(r) && n <= 31 && n > Left(r)
    ensures Get(r, n).None? <==> |r.buffer| == 0
    ensures Get(r, n).Some? ==> Get(r, n).value.0.cached > 32
  {
  }

  /** Nine bits of a stream of eight: no exception, and 255 bits are thought to be cached. */
  lemma OverrunMissed(o: Octet)
    ensures Get(NewReader([o]), 9).Some? && Get(NewReader([o]), 9).value.0.cached == 255
  {
  }

  // ---------- The round trip ----------

  datatype AnyField = Field(width: nat, value: Word)

  /** A width the functions take, and a value that fits in it. */
  type Field = f: AnyField | 1 <= f.width <= 31 && f.value[..32 - f.width] == Zeros(32 - f.width)
    witness Field(1, Zeros(32))

  function Total(fs: seq<Field>): nat {
    if fs == [] then 0 else Total(fs[..|fs| - 1]) + fs[|fs| - 1].width
  }

  function FieldBits(f: Field): (b: Bits)
    ensures |b| == f.width
  {
    f.value[32 - f.width..]
  }

  function Image(fs: seq<Field>): (b: Bits)
    ensures |b| == Total(fs)
  {
    if fs == [] then [] else Image(fs[..|fs| - 1]) + FieldBits(fs[|fs| - 1])
  }

  function PutAll(w: Writer, fs: seq<Field>, undef: Word): (r: Option<Writer>)
    requires WriterOk(w)
    ensures r.Some? ==> WriterOk(r.value)
    decreases |fs|
  {
    if fs == [] then Some(w)
    else
      var f := fs[|fs| - 1];
      match PutAll(w, fs[..|fs| - 1], undef)
      case None => None
      case Some(w1) => Put(w1, f.width, f.value, undef)
  }

  lemma {:induction false} PutAllWrites(size: nat, fs: seq<Field>, undef: Word)
    requires Total(fs) <= 8 * size
    ensures PutAll(NewWriter(size), fs, undef).Some?
    ensures var w := PutAll(NewWriter(size), fs, undef).value; Written(w) == Image(fs) && Size(w) == size
    decreases |fs|
  {
    if fs != [] {
      var f := fs[|fs| - 1];
      PutAllWrites(size, fs[..|fs| - 1], undef);
      var w := PutAll(NewWriter(size), fs[..|fs| - 1], undef).value;
      FittingHarmless(w.cache, f.width, f.value);
      PutAppends(w, f.width, f.value, undef);
    }
  }

  function GetAll(r: Reader, fs: seq<Field>): Option<seq<Word>>
    decreases |fs|
  {
    if fs == [] then Some([])
    else
      match Get(r, fs[0].width)
      case None => None
      case Some((r1, x)) => (match GetAll(r1, fs[1..]) case None => None case Some(xs) => Some([x] + xs))
  }

  function Values(fs: seq<Field>): seq<Word> {
    if fs == [] then [] else [fs[0].value] + Values(fs[1..])
  }

  lemma {:induction false} ImageHead(fs: seq<Field>)
    requires fs != []
    ensures Image(fs) == FieldBits(fs[0]) + Image(fs[1..])
    decreases |fs|
  {
    if |fs| == 1 {
      assert fs[..0] == [] && fs[1..] == [];
    } else {
      var init, last := fs[..|fs| - 1], fs[|fs| - 1];
      ImageHead(init);
      assert init[1..] == fs[1..][..|fs[1..]| - 1];
      Assoc(FieldBits(fs[0]), Image(init[1..]), FieldBits(last));
    }
  }

  lemma Assoc(a: Bits, b: Bits, c: Bits)
    ensures a + b + c == a + (b + c)
  {
  }

  lemma ImageStarts(fs: seq<Field>, b: Bits)
    requires fs != [] && Image(fs) <= b
    ensures FieldBits(fs[0]) <= b && fs[0].width <= |b| && Image(fs[1..]) <= b[fs[0].width..]
  {
    ImageHead(fs);
  }

  lemma GetField(r: Reader, f: Field) returns (r1: Reader)
    requires ReaderOk(r) && FieldBits(f) <= Rest(r)
    ensures Get(r, f.width) == Some((r1, f.value)) && ReaderOk(r1) && Rest(r1) == Rest(r)[f.width..]
  {
    var x;
    r1, x := GetTakes(r, f.width);
    assert Rest(r)[..f.width] == FieldBits(f);
    assert f.value == f.value[..32 - f.width] + FieldBits(f);
  }

  lemma {:induction false} GetAllReads(r: Reader, fs: seq<Field>)
    requires ReaderOk(r) && Image(fs) <= Rest(r)
    ensures GetAll(r, fs) == Some(Values(fs))
    decreases |fs|
  {
    if fs != [] {
      ImageStarts(fs, Rest(r));
      var r1 := GetField(r, fs[0]);
      GetAllReads(r1, fs[1..]);
    }
  }

  lemma WholeBytes(bytes: nat, cached: nat, room: nat)
    requires cached <= 8 * room
    ensures cached + Padding(cached) <= room * 8
    ensures forall n :: 8 * n == 8 * bytes + cached + Padding(cached) ==> n == (8 * bytes + cached + 7) / 8
  {
  }

  /**
   The bit stream round trip: any list of fields that fits in the buffer is written without failure into
   ceil(total / 8) bytes, from which the same widths read the same values back.
   */
  lemma RoundTrip(size: nat, fs: seq<Field>, undef: Word)
    requires Total(fs) <= 8 * size
    ensures PutAll(NewWriter(size), fs, undef).Some? && Flush(PutAll(NewWriter(size), fs, undef).value).Some?
    ensures var bytes := Flush(PutAll(NewWriter(size), fs, undef).value).value.bytes;
            |bytes| == (Total(fs) + 7) / 8 && GetAll(NewReader(bytes), fs) == Some(Values(fs))
  {
    PutAllWrites(size, fs, undef);
    var w := PutAll(NewWriter(size), fs, undef).value;
    FlushPads(w);
    WholeBytes(|w.bytes|, w.cached, w.room);
    var bytes := Flush(w).value.bytes;
    assert Rest(NewReader(bytes)) == Spread(bytes);
    GetAllReads(NewReader(bytes), fs);
  }

  // ---------- Exp-Golomb ----------

  /** The binary digits of a number, without leading zeros. */
  function Binary(n: nat): Bits {
    if n == 0 then [] else Binary(n / 2) + [n % 2 == 1]
  }

  /** The ue(v) code of `k` (section 9.1 of ITU-T H.264): the digits of k + 1 after as many zeros, less one. */
  function UeCode(k: nat): Bits {
    var digits := Binary(k + 1);
    if digits == [] then [] else Zeros(|digits| - 1) + digits
  }

  lemma {:induction false} BinaryValue(n: nat)
    ensures Value(Binary(n)) == n && (n > 0 ==> Binary(n) != [] && Binary(n)[0])
  {
    if n > 0 {
      BinaryValue(n / 2);
      assert Binary(n)[..|Binary(n)| - 1] == Binary(n / 2);
    }
  }

  lemma {:induction false} BinaryLength(n: nat, m: nat)
    requires n < Pow2(m)
    ensures |Binary(n)| <= m
  {
    if n > 0 && m > 0 {
      BinaryLength(n / 2, m - 1);
    }
  }

  lemma {:induction false} ValueSplit(b: Bits)
    requires b != []
    ensures Value(b) == (if b[0] then Pow2(|b| - 1) else 0) + Value(b[1..])
  {
    if |b| > 1 {
      var init := b[..|b| - 1];
      ValueSplit(init);
      assert init[1..] == b[1..][..|b| - 2];
    }
  }

  lemma {:induction false} ValueAsWord(b: Bits)
    requires |b| <= 32
    ensures Value(AsWord(b)) == Value(b)
  {
    ValueZeros(32 - |b|, b);
  }

  lemma {:induction false} ValueZeros(n: nat, b: Bits)
    ensures Value(Zeros(n) + b) == Value(b)
    decreases n + |b|
  {
    var all := Zeros(n) + b;
    if b != [] {
      assert all[..|all| - 1] == Zeros(n) + b[..|b| - 1];
      ValueZeros(n, b[..|b| - 1]);
    } else if n > 0 {
      assert all[..|all| - 1] == Zeros(n - 1) + [];
      ValueZeros(n - 1, b);
    }
  }

  lemma TakeBit(r: Reader) returns (r1: Reader)
    requires ReaderOk(r) && Rest(r) != []
    ensures ReaderOk(r1) && Rest(r1) == Rest(r)[1..] && Get(r, 1) == Some((r1, AsWord([Rest(r)[0]])))
  {
    var x;
    r1, x := GetTakes(r, 1);
    assert Rest(r)[..1] == [Rest(r)[0]];
  }

  lemma BitWord(bit: bool)
    ensures AsWord([bit]) == Zeros(32) <==> !bit
  {
    assert AsWord([bit])[31] == bit;
  }

  lemma {:induction false} ZerosCounted(r: Reader, zeros: nat, len: nat) returns (r': Reader)
    requires ReaderOk(r) && Zeros(zeros) + [true] <= Rest(r)
    ensures LeadingZeros(r, len) == Some((r', len + zeros)) && ReaderOk(r') && Rest(r') == Rest(r)[zeros + 1..]
    decreases zeros
  {
    assert (Zeros(zeros) + [true])[0] == (zeros == 0);
    var r1 := TakeBit(r);
    BitWord(zeros == 0);
    if zeros == 0 {
      r' := r1;
    } else {
      assert (Zeros(zeros) + [true])[1..] == Zeros(zeros - 1) + [true];
      r' := ZerosCounted(r1, zeros - 1, len + 1);
    }
  }

  lemma SuffixDecodes(r: Reader, suffix: Bits) returns (r': Reader)
    requires ReaderOk(r) && |suffix| <= 30 && suffix <= Rest(r)
    ensures DecodeSuffix(r, |suffix|) == Some((r', Pow2(|suffix|) - 1 + Value(suffix)))
    ensures ReaderOk(r') && Rest(r') == Rest(r)[|suffix|..]
  {
    var x;
    r', x := GetTakes(r, |suffix|);
    assert Rest(r)[..|suffix|] == suffix;
    ValueAsWord(suffix);
    SuffixValue(r, |suffix|, r', x);
  }

  lemma SuffixValue(r: Reader, len: nat, r': Reader, x: Word)
    requires len <= 30 && Get(r, len) == Some((r', x))
    ensures DecodeSuffix(r, len) == Some((r', Pow2(len) - 1 + Value(x)))
  {
  }

  /** Any prefix of at most 30 zeros, a one and as many bits: what it denotes, and that no other bit is consumed. */
  lemma UeDecodes(r: Reader, suffix: Bits) returns (r': Reader)
    requires ReaderOk(r) && |suffix| <= 30 && Zeros(|suffix|) + [true] + suffix <= Rest(r)
    ensures DecodeUe(r) == Some((r', Pow2(|suffix|) - 1 + Value(suffix)))
    ensures ReaderOk(r') && Rest(r') == Rest(r)[2 * |suffix| + 1..]
  {
    StartsWithBoth(Zeros(|suffix|) + [true], suffix, Rest(r));
    var r1 := ZerosCounted(r, |suffix|, 0);
    r' := SuffixDecodes(r1, suffix);
  }

  lemma StartsWithBoth(a: Bits, b: Bits, all: Bits)
    requires a + b <= all
    ensures a <= all && b <= all[|a|..] && all[|a|..][|b|..] == all[|a| + |b|..]
  {
  }

  lemma Pow2Quad(n: nat)
    ensures Pow2(n + 4) == 16 * Pow2(n)
  {
    assert Pow2(n + 2) == 4 * Pow2(n);
  }

  lemma {:induction false} Pow2Quads(q: nat)
    requires q <= 7
    ensures Pow2(3 + 4 * q) == [8, 0x80, 0x800, 0x8000, 0x8_0000, 0x80_0000, 0x800_0000, 0x8000_0000][q]
  {
    if q > 0 {
      Pow2Quads(q - 1);
      Pow2Quad(3 + 4 * (q - 1));
    } else {
      assert Pow2(1) == 2;
    }
  }

  lemma UeDigits(k: nat)
    requires k + 1 < 0x8000_0000
    ensures |Binary(k + 1)| <= 31
  {
    Pow2Quads(7);
    BinaryLength(k + 1, 31);
  }

  lemma UeParts(k: nat) returns (suffix: Bits)
    ensures UeCode(k) == Zeros(|suffix|) + [true] + suffix && |suffix| + 1 == |Binary(k + 1)|
    ensures k == Pow2(|suffix|) - 1 + Value(suffix)
  {
    var digits := Binary(k + 1);
    BinaryValue(k + 1);
    ValueSplit(digits);
    suffix := digits[1..];
    assert digits == [true] + suffix;
  }

  /** The ue(v) round trip, for every number whose code has at most 30 leading zeros. */
  lemma UeRoundTrip(r: Reader, k: nat) returns (r': Reader)
    requires ReaderOk(r) && k + 1 < 0x8000_0000 && UeCode(k) <= Rest(r)
    ensures DecodeUe(r) == Some((r', k)) && ReaderOk(r') && Rest(r') == Rest(r)[|UeCode(k)|..]
  {
    UeDigits(k);
    var suffix := UeParts(k);
    r' := UeDecodes(r, suffix);
  }
}
