/** One tick of the audio mixer: the sample clock, the sum of a sidebar and what each participant hears of it. */
module MixMinus {

  type Sample = s: int | -32768 <= s < 32768

  const BUFFER := 4096

  /** A sample buffer of the mixer. */
  type Buffer = b: seq<Sample> | |b| == BUFFER witness seq(BUFFER, _ => 0)

  /** _mm_adds_epi16 and _mm_subs_epi16 lane by lane, and the scalar clipping. */
  function Saturate(x: int): Sample {
    if x > 32767 then 32767 else if x < -32768 then -32768 else x
  }

  function Distance(a: int, b: int): nat {
    if a < b then b - a else a - b
  }

  /** Clipping gives the sample nearest to a value. */
  lemma NearestSample(x: int, s: Sample)
    ensures Distance(x, Saturate(x)) <= Distance(x, s)
  {
  }

  function Plus(a: int, b: int): Sample {
    Saturate(a + b)
  }

  function Minus(a: int, b: int): Sample {
    Saturate(a - b)
  }

  /** Groups of eight lanes: the vector loops run to the end of the last group. */
  function Padded(len: nat): (n: nat)
    ensures len <= n < len + 8 && (len <= BUFFER ==> n <= BUFFER)
  {
    8 * ((len + 7) / 8)
  }

  function Subtracted(mixed: Buffer, own: Buffer, n: nat): Buffer {
    seq(BUFFER, i requires 0 <= i < BUFFER => if i < n then Minus(mixed[i], own[i]) else own[i])
  }

  function Added(mixed: Buffer, samples: Buffer, n: nat): Buffer {
    seq(BUFFER, i requires 0 <= i < BUFFER => if i < n then Plus(mixed[i], samples[i]) else mixed[i])
  }

  /** What a participant of the sidebar it listens to is sent: the mix without itself, then the mix alone. */
  function Heard(mixed: Buffer, own: Buffer, len: nat, numSamples: nat): seq<Sample>
    requires numSamples <= BUFFER
  {
    seq(numSamples, i requires 0 <= i < numSamples => if i < len then Minus(mixed[i], own[i]) else mixed[i])
  }

  // ---------- The loops ----------

  method SubtractScalar(mixed: array<Sample>, buffer: array<Sample>, len: nat)
    requires mixed != buffer && mixed.Length == buffer.Length == BUFFER && len <= BUFFER
    modifies buffer
    ensures buffer[..] == Subtracted(mixed[..], old(buffer[..]), len)
  {
    for i := 0 to len
      invariant buffer[..] == Subtracted(mixed[..], old(buffer[..]), i)
    {
      var diff: int := mixed[i];
      diff := diff - buffer[i];
      if diff > 32767 {
        diff := 32767;
      } else if diff < -32768 {
        diff := -32768;
      }
      buffer[i] := diff;
    }
  }

  method SubtractWide(mixed: array<Sample>, buffer: array<Sample>, len: nat)
    requires mixed != buffer && mixed.Length == buffer.Length == BUFFER && len <= BUFFER
    modifies buffer
    ensures buffer[..] == Subtracted(mixed[..], old(buffer[..]), Padded(len))
  {
    var groups := (len + 7) / 8;
    for g := 0 to groups
      invariant buffer[..] == Subtracted(mixed[..], old(buffer[..]), 8 * g)
    {
      forall j | 0 <= j < 8 {
        buffer[8 * g + j] := Minus(mixed[8 * g + j], buffer[8 * g + j]);
      }
    }
  }

  /** Both builds, with and without SSE2, send the same samples. */
  method MinusOwn(mixed: array<Sample>, buffer: array<Sample>, len: nat, numSamples: nat, wide: bool)
    requires mixed != buffer && mixed.Length == buffer.Length == BUFFER && len <= numSamples <= BUFFER
    modifies buffer
    ensures buffer[..numSamples] == Heard(mixed[..], old(buffer[..]), len, numSamples)
  {
    if wide {
      SubtractWide(mixed, buffer, len);
    } else {
      SubtractScalar(mixed, buffer, len);
    }
    if len < numSamples {
      forall i | len <= i < numSamples {
        buffer[i] := mixed[i];
      }
    }
  }

  method AddWide(mixed: array<Sample>, samples: array<Sample>, len: nat)
    requires mixed != samples && mixed.Length == samples.Length == BUFFER && len <= BUFFER
    modifies mixed
    ensures mixed[..] == Added(old(mixed[..]), samples[..], Padded(len))
  {
    var groups := (len + 7) / 8;
    for g := 0 to groups
      invariant mixed[..] == Added(old(mixed[..]), samples[..], 8 * g)
    {
      forall j | 0 <= j < 8 {
        mixed[8 * g + j] := Plus(mixed[8 * g + j], samples[8 * g + j]);
      }
    }
  }

  // ---------- The memset after the samples received ----------

  /** A sample whose low byte was zeroed. */
  function HighByte(s: Sample): Sample {
    s - s % 256
  }

  /** The size given is a number of samples where memset takes bytes: only half of the rest is cleared. */
  function Cleaned(buffer: Buffer, len: nat): Buffer
    requires len <= BUFFER
  {
    var bytes := BUFFER - len;
    seq(BUFFER, i requires 0 <= i < BUFFER =>
      if len <= i < len + bytes / 2 then 0
      else if i == len + bytes / 2 && bytes % 2 == 1 then HighByte(buffer[i])
      else buffer[i])
  }

  /** Byte `b` of a buffer in memory, two to a sample, the low one first. */
  function ByteOf(buffer: Buffer, b: nat): nat
    requires b < 2 * BUFFER
  {
    if b % 2 == 0 then buffer[b / 2] % 256 else buffer[b / 2] / 256 % 256
  }

  /** The memset: as many bytes as samples are missing go to zero after the samples received, and no other byte does. */
  lemma CleanedBytes(buffer: Buffer, len: nat, b: nat)
    requires len <= BUFFER && b < 2 * BUFFER
    ensures ByteOf(Cleaned(buffer, len), b) == if 2 * len <= b < len + BUFFER then 0 else ByteOf(buffer, b)
  {
    var s: int := buffer[b / 2];
    assert (s - s % 256) % 256 == 0 && (s - s % 256) / 256 == s / 256;
  }

  ghost predicate ZeroPadding(samples: Buffer, len: nat) {
    forall i :: len <= i < Padded(len) && i < BUFFER ==> samples[i] == 0
  }

  lemma ClearedEnough(buffer: Buffer, len: nat)
    requires len <= BUFFER - 8 || len == BUFFER
    ensures ZeroPadding(Cleaned(buffer, len), len)
  {
    var bytes := BUFFER - len;
    assert Padded(len) <= len + bytes / 2 || Padded(len) == len;
  }

  lemma NotCleared(len: nat) returns (stale: Buffer)
    requires BUFFER - 8 < len < BUFFER
    ensures !ZeroPadding(Cleaned(stale, len), len)
  {
    stale := seq(BUFFER, _ => 256);
    var i := BUFFER - 1;
    assert Padded(len) == BUFFER;
    assert Cleaned(stale, len)[i] == 256;
  }

  /** The cleared part covers the lanes past the end for whatever was in the buffer, except in its last group. */
  lemma PaddingCleared(len: nat)
    requires len <= BUFFER
    ensures (forall stale :: ZeroPadding(Cleaned(stale, len), len)) <==> len <= BUFFER - 8 || len == BUFFER
  {
    if len <= BUFFER - 8 || len == BUFFER {
      forall stale
        ensures ZeroPadding(Cleaned(stale, len), len)
      {
        ClearedEnough(stale, len);
      }
    } else {
      var stale := NotCleared(len);
    }
  }

  // ---------- The mix ----------

  /** A participant of a sidebar at one tick: its buffer and how much of it was received. */
  datatype Talker = Talker(samples: Buffer, len: nat)

  function Silence(): Buffer {
    seq(BUFFER, _ => 0)
  }

  /** The sidebar's buffer after its participants in turn, with eight lanes at a time or one. */
  function Mixed(talkers: seq<Talker>, wide: bool): Buffer {
    if talkers == [] then Silence()
    else
      var t := talkers[|talkers| - 1];
      Added(Mixed(talkers[..|talkers| - 1], wide), t.samples, if wide then Padded(t.len) else t.len)
  }

  lemma LanesAgree(mixed: Buffer, t: Talker)
    requires ZeroPadding(t.samples, t.len)
    ensures Added(mixed, t.samples, Padded(t.len)) == Added(mixed, t.samples, t.len)
  {
    var a, b := Added(mixed, t.samples, Padded(t.len)), Added(mixed, t.samples, t.len);
    forall i | 0 <= i < BUFFER
      ensures a[i] == b[i]
    {
    }
  }

  /** With cleared padding, eight lanes at a time mix what one at a time mixes. */
  lemma {:induction false} WideMixIsScalarMix(talkers: seq<Talker>)
    requires forall k :: 0 <= k < |talkers| ==> ZeroPadding(talkers[k].samples, talkers[k].len)
    ensures Mixed(talkers, true) == Mixed(talkers, false)
  {
    if talkers != [] {
      WideMixIsScalarMix(talkers[..|talkers| - 1]);
      LanesAgree(Mixed(talkers[..|talkers| - 1], true), talkers[|talkers| - 1]);
    }
  }

  /** With what is left in a last, incomplete group the vector build mixes in samples that were not received. */
  lemma WideMixDiffers(t: Talker)
    requires BUFFER - 8 < t.len < BUFFER && t.samples[t.len] != 0
    ensures Mixed([t], false)[t.len] == 0 && Mixed([t], true)[t.len] == t.samples[t.len]
  {
    assert [t][..0] == [];
  }

  function At(t: Talker, i: nat): int
    requires i < BUFFER
  {
    if i < t.len then t.samples[i] else 0
  }

  function Sum(talkers: seq<Talker>, i: nat): int
    requires i < BUFFER
  {
    if talkers == [] then 0 else Sum(talkers[..|talkers| - 1], i) + At(talkers[|talkers| - 1], i)
  }

  /** No partial sum leaves the sixteen bits. */
  predicate NoClip(talkers: seq<Talker>, i: nat)
    requires i < BUFFER
  {
    talkers == [] || (-32768 <= Sum(talkers, i) <= 32767 && NoClip(talkers[..|talkers| - 1], i))
  }

  lemma {:induction false} MixIsSum(talkers: seq<Talker>, i: nat)
    requires i < BUFFER && NoClip(talkers, i)
    ensures Mixed(talkers, false)[i] == Sum(talkers, i)
  {
    if talkers != [] {
      MixIsSum(talkers[..|talkers| - 1], i);
    }
  }

  lemma {:induction false} SumWithout(talkers: seq<Talker>, p: nat, i: nat)
    requires p < |talkers| && i < BUFFER
    ensures Sum(talkers[..p] + talkers[p + 1..], i) == Sum(talkers, i) - At(talkers[p], i)
  {
    var others, init := talkers[..p] + talkers[p + 1..], talkers[..|talkers| - 1];
    if p == |talkers| - 1 {
      assert others == init;
    } else {
      SumWithout(init, p, i);
      var last, rest := talkers[|talkers| - 1], init[..p] + init[p + 1..];
      assert talkers[p + 1..] == init[p + 1..] + [last];
      assert others == rest + [last];
      assert others[..|others| - 1] == rest;
    }
  }

  /** What a source holds after it was read: what arrived, then the half-cleared rest of the last tick. */
  function Received(got: seq<Sample>, stale: Buffer): Talker
    requires |got| <= BUFFER
  {
    Talker(Cleaned(got + stale[|got|..], |got|), |got|)
  }

  ghost predicate WellRead(talkers: seq<Talker>) {
    forall k :: 0 <= k < |talkers| ==>
      exists got, stale :: |got| <= BUFFER && (|got| <= BUFFER - 8 || |got| == BUFFER)
          && talkers[k] == Received(got, stale)
  }

  /**
   A tick of the SSE2 build: wherever no partial sum clips, a participant hears the sum of the others, clipped to
   sixteen bits, and nothing of itself.
   */
  lemma HearsTheOthers(talkers: seq<Talker>, p: nat, numSamples: nat, i: nat)
    requires WellRead(talkers) && p < |talkers| && i < numSamples <= BUFFER && NoClip(talkers, i)
    ensures Heard(Mixed(talkers, true), talkers[p].samples, talkers[p].len, numSamples)[i]
         == Saturate(Sum(talkers[..p] + talkers[p + 1..], i))
  {
    forall k | 0 <= k < |talkers|
      ensures ZeroPadding(talkers[k].samples, talkers[k].len)
    {
      var got, stale :| |got| <= BUFFER && (|got| <= BUFFER - 8 || |got| == BUFFER)
          && talkers[k] == Received(got, stale);
      ClearedEnough(got + stale[|got|..], |got|);
    }
    WideMixIsScalarMix(talkers);
    MixIsSum(talkers, i);
    SumWithout(talkers, p, i);
  }

  /** A tick of the other build: the same, whatever the buffers hold after the samples received. */
  lemma HearsTheOthersScalar(talkers: seq<Talker>, p: nat, numSamples: nat, i: nat)
    requires p < |talkers| && i < numSamples <= BUFFER && NoClip(talkers, i)
    ensures Heard(Mixed(talkers, false), talkers[p].samples, talkers[p].len, numSamples)[i]
         == Saturate(Sum(talkers[..p] + talkers[p + 1..], i))
  {
    MixIsSum(talkers, i);
    SumWithout(talkers, p, i);
  }

  /** Between two talkers, one hears the other as it is exactly when their sum does not clip. */
  lemma TwoTalkersClip(a: Talker, b: Talker, i: nat, numSamples: nat)
    requires i < numSamples <= BUFFER && i < a.len && i < b.len
    ensures Heard(Mixed([a, b], false), a.samples, a.len, numSamples)[i] == b.samples[i]
            <==> -32768 <= At(a, i) + At(b, i) <= 32767
  {
    assert [a, b][..1] == [a] && [a][..0] == [];
    assert Mixed([a], false)[i] == a.samples[i];
  }

  // ---------- The sample clock ----------

  /** Samples due since the start, `t` microseconds ago. */
  function Due(rate: nat, t: nat): nat {
    t * rate / 1_000_000
  }

  /** After whole seconds exactly as many times the rate is due. */
  lemma DueEachSecond(rate: nat, secs: nat)
    ensures Due(rate, 1_000_000 * secs) == rate * secs
  {
    assert 1_000_000 * secs * rate == 1_000_000 * (rate * secs);
  }

  /** `DWORD numSamples`, then the cap, when `before` samples were due at the last tick. */
  function Tick(before: nat, now: nat): nat
    requires before <= now
  {
    var n := (now - before) % 0x1_0000_0000;
    if n > BUFFER then BUFFER else n
  }

  lemma TickBounds(before: nat, now: nat)
    requires before <= now
    ensures before + Tick(before, now) <= now
    ensures before + Tick(before, now) == now <==> now <= before + BUFFER
  {
  }

  /** The number of samples has 32 bits before it is capped. */
  lemma TickWraps(before: nat, now: nat)
    requires before <= now
    ensures Tick(before, now + 0x1_0000_0000) == Tick(before, now)
  {
  }

  lemma DueGrows(rate: nat, s: nat, t: nat)
    requires s <= t
    ensures Due(rate, s) <= Due(rate, t)
  {
    assert (t - s) * rate >= 0;
    assert t * rate == s * rate + (t - s) * rate;
  }

  class SampleClock {
    const rate: nat
    var prev: nat

    constructor (rate: nat)
      ensures this.rate == rate && prev == 0
    {
      this.rate := rate;
      prev := 0;
    }

    method Advance(curr: nat) returns (n: nat)
      requires prev <= curr
      modifies this
      ensures prev == curr && Due(rate, old(prev)) <= Due(rate, curr)
              && n == Tick(Due(rate, old(prev)), Due(rate, curr))
    {
      DueGrows(rate, prev, curr);
      n := (curr * rate / 1_000_000 - prev * rate / 1_000_000) % 0x1_0000_0000;
      prev := curr;
      if n > BUFFER {
        n := BUFFER;
      }
    }
  }

  /** Readings of a monotonic clock. */
  predicate Monotonic(times: seq<nat>) {
    forall i, j :: 0 <= i < j < |times| ==> times[i] <= times[j]
  }

  function Last(times: seq<nat>): nat {
    if times == [] then 0 else times[|times| - 1]
  }

  function Issued(rate: nat, times: seq<nat>): nat
    requires Monotonic(times)
  {
    if times == [] then 0
    else
      var init := times[..|times| - 1];
      DueGrows(rate, Last(init), Last(times));
      Issued(rate, init) + Tick(Due(rate, Last(init)), Due(rate, Last(times)))
  }

  /** No tick came so late that more samples were due than a buffer holds. */
  predicate NeverCapped(rate: nat, times: seq<nat>) {
    times == []
    || (Due(rate, Last(times)) <= Due(rate, Last(times[..|times| - 1])) + BUFFER
        && NeverCapped(rate, times[..|times| - 1]))
  }

  /** Rounding never drifts: the samples issued are those due, except exactly when some tick was capped. */
  lemma {:induction false} ClockNeverDrifts(rate: nat, times: seq<nat>)
    requires Monotonic(times)
    ensures Issued(rate, times) <= Due(rate, Last(times))
    ensures Issued(rate, times) == Due(rate, Last(times)) <==> NeverCapped(rate, times)
  {
    if times != [] {
      var init := times[..|times| - 1];
      ClockNeverDrifts(rate, init);
      DueGrows(rate, Last(init), Last(times));
      TickBounds(Due(rate, Last(init)), Due(rate, Last(times)));
    }
  }

  /** One tick 100 ms late at 48 kHz: 4800 samples are due, and a buffer of them is issued. */
  lemma LateTickLoses()
    ensures Due(48000, 100_000) == 4800 && Issued(48000, [100_000]) == BUFFER < 4800
    ensures !NeverCapped(48000, [100_000])
  {
    assert [100_000][..0] == [];
  }
}
