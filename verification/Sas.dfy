/** A voice of the mixer: ADPCM stream, envelope and resampler (sascore.c). */
module Sas {
  import opened Options

  // ---- the block stream

  /** Guest memory as bytes, and the sample data a voice was given. */
  datatype Source = Source(read: nat -> nat, addr: nat, size: nat, loop: bool)

  /** Where the decoder is between two blocks. */
  datatype Decoder = Decoder(pos: nat, loopPos: nat, endPending: bool, h1: int, h2: int)

  const START := Decoder(0, 0, false, 0, 0)

  function F0(filter: nat): int {
    if filter == 1 then 60 else if filter == 2 then 115 else if filter == 3 then 98 else if filter == 4 then 122 else 0
  }

  function F1(filter: nat): int {
    if filter == 2 then -52 else if filter == 3 then -55 else if filter == 4 then -60 else 0
  }

  function Clamp16(v: int): int { if v > 32767 then 32767 else if v < -32768 then -32768 else v }

  function Pow2(n: nat): nat
    ensures Pow2(n) > 0
  {
    if n == 0 then 1 else 2 * Pow2(n - 1)
  }

  /** The i-th nibble of the block's data, low half first, as a signed sample on top of a 16-bit word. */
  function Nibble(byte: nat, i: nat): int {
    var n := if i % 2 == 1 then byte / 16 % 16 else byte % 16;
    4096 * (if n < 8 then n else n - 16)
  }

  /** One sample: the shifted nibble and the prediction from the two before it. */
  function Predict(nibble: int, shift: nat, filter: nat, h1: int, h2: int): int {
    Clamp16(nibble / Pow2(shift) + (F0(filter) * h1 + F1(filter) * h2) / 64)
  }

  /** The first n samples of a block whose data starts at `at`. */
  function Samples(read: nat -> nat, at: nat, shift: nat, filter: nat, h1: int, h2: int, n: nat): (r: seq<int>)
    ensures |r| == n
  {
    if n == 0 then [] else
      var r := Samples(read, at, shift, filter, h1, h2, n - 1);
      r + [Predict(Nibble(read(at + (n - 1) / 2), n - 1), shift, filter, Back(r, 1, h1, h2), Back(r, 2, h1, h2))]
  }

  /** The sample k before the next one; before the block it comes from the history. */
  function Back(r: seq<int>, k: nat, h1: int, h2: int): int
    requires 1 <= k <= 2
  {
    if |r| >= k then r[|r| - k] else if k == 1 || |r| == 1 then h1 else h2
  }

  function Filter(header: nat): nat { if header / 16 % 16 > 4 then 0 else header / 16 % 16 }

  /** The block is a loop's first; it is a loop's last; a loop's last repeats. */
  predicate Starts(flags: nat) { flags / 4 % 2 == 1 }

  predicate Ends(flags: nat) { flags % 2 == 1 }

  predicate Repeats(flags: nat) { flags / 2 % 2 == 1 }

  /** The next block's 28 samples and where the decoder is after it; none at the end of the data. */
  function DecodeNext(src: Source, d: Decoder): Option<(seq<int>, Decoder)> {
    var at := src.addr + d.pos;
    if d.endPending || d.pos + 16 > src.size || src.read(at + 1) == 7 then None else
      var flags := src.read(at + 1);
      var block := Samples(src.read, at + 2, src.read(at) % 16, Filter(src.read(at)), d.h1, d.h2, 28);
      var loopPos := if Starts(flags) then d.pos else d.loopPos;
      var repeats := Ends(flags) && Repeats(flags) && src.loop;
      Some((block,
            Decoder(if repeats then loopPos else d.pos + 16, loopPos, Ends(flags) && !repeats, block[27], block[26])))
  }

  /** What the header and the flags of a block make of it. */
  lemma NextIs(src: Source, d: Decoder, header: nat, flags: nat)
    requires DecodeNext(src, d).Some? && header == src.read(src.addr + d.pos) && flags == src.read(src.addr + d.pos + 1)
    ensures
      var block := Samples(src.read, src.addr + d.pos + 2, header % 16, Filter(header), d.h1, d.h2, 28);
      var loopPos := if Starts(flags) then d.pos else d.loopPos;
      var repeats := Ends(flags) && Repeats(flags) && src.loop;
      DecodeNext(src, d) == Some((block, Decoder(if repeats then loopPos else d.pos + 16, loopPos,
                                                 Ends(flags) && !repeats, block[27], block[26])))
  {
    hide Samples, Filter, Starts, Ends, Repeats;
  }

  /** The decoder after n blocks. */
  function After(src: Source, n: nat): Option<Decoder> {
    if n == 0 then Some(START) else
      match After(src, n - 1)
      case None => None
      case Some(d) => match DecodeNext(src, d)
        case None => None
        case Some(next) => Some(next.1)
  }

  /** Block n of the stream, loops followed. */
  function Block(src: Source, n: nat): Option<seq<int>> {
    match After(src, n)
    case None => None
    case Some(d) => match DecodeNext(src, d)
      case None => None
      case Some(next) => Some(next.0)
  }

  /** The stream has sample m. */
  predicate Has(src: Source, m: nat) { Block(src, m / 28).Some? }

  lemma BlockLength(src: Source, n: nat)
    ensures Block(src, n).Some? ==> |Block(src, n).value| == 28
  {
    hide Samples;
  }

  function Sample(src: Source, m: nat): int
    requires Has(src, m)
  {
    BlockLength(src, m / 28);
    Block(src, m / 28).value[m % 28]
  }

  /** No block follows a missing one. */
  lemma {:induction false} MissingStaysMissing(src: Source, n: nat, k: nat)
    requires Block(src, n).None?
    ensures Block(src, n + k).None?
    decreases k
  {
    hide DecodeNext;
    if k > 0 {
      MissingStaysMissing(src, n, k - 1);
    }
  }

  // ---- the envelope

  datatype Stage = Off | Attack | Decay | Sustain | Release

  datatype Envelope = Envelope(stage: Stage, level: int, attack: int, decay: int, sustain: int, release: int)

  const FULL := 0x4000_0000

  function EnvStep(e: Envelope): Envelope {
    match e.stage
    case Attack =>
      if e.level + e.attack >= FULL then e.(level := FULL, stage := Decay) else e.(level := e.level + e.attack)
    case Decay =>
      if e.level - e.decay <= e.sustain then e.(level := e.sustain, stage := Sustain)
      else e.(level := e.level - e.decay)
    case Release =>
      if e.level - e.release <= 0 then e.(level := 0, stage := Off) else e.(level := e.level - e.release)
    case _ => e
  }

  /** This step releases the voice for good. */
  predicate Releases(e: Envelope) { e.stage == Release && e.level - e.release <= 0 }

  predicate EnvFair(e: Envelope) {
    0 <= e.level <= FULL && 0 <= e.sustain <= FULL && 0 <= e.attack <= FULL && 0 <= e.decay <= FULL
      && 0 <= e.release <= FULL
  }

  // ---- a voice, ideally

  /** acc counts source samples in 1/4096ths since key-on. */
  datatype Play = Play(acc: nat, env: Envelope, on: bool)

  /** What sample m sounds like at an envelope level. */
  function Scaled(sample: int, level: int): int { sample * (level / 0x4_0000) / 4096 }

  predicate Sounds(src: Source, p: Play) { p.on && Has(src, p.acc / 4096) }

  const SPAN: nat := 0x1_0000_0000

  /** What SetPitch stores. */
  type Pitch = p: nat | p < SPAN

  /** One step by the pitch: the fraction and the pitch are added in 32 bits. */
  function Stepped(acc: nat, pitch: Pitch): nat { acc - acc % 4096 + (acc % 4096 + pitch) % SPAN }

  function Tick(src: Source, pitch: Pitch, p: Play): Play
    requires Sounds(src, p)
  {
    var acc := Stepped(p.acc, pitch);
    Play(acc, EnvStep(p.env), !Releases(p.env) && Has(src, acc / 4096))
  }

  /** The voice after n output samples; one that has ended stays as it is. */
  function PlayAfter(src: Source, pitch: Pitch, p: Play, n: nat): Play
    decreases n
  {
    if n == 0 then p
    else if !Sounds(src, p) then p.(on := false)
    else PlayAfter(src, pitch, Tick(src, pitch, p), n - 1)
  }

  /** The output samples it contributes, before volume: fewer than n when it ends. */
  function Track(src: Source, pitch: Pitch, p: Play, n: nat): (r: seq<int>)
    ensures |r| <= n
    decreases n
  {
    if n == 0 || !Sounds(src, p) then [] else
      [Scaled(Sample(src, p.acc / 4096), EnvStep(p.env).level)] + Track(src, pitch, Tick(src, pitch, p), n - 1)
  }

  function EnvAfter(e: Envelope, n: nat): Envelope
    decreases n
  {
    if n == 0 then e else EnvAfter(EnvStep(e), n - 1)
  }

  /** Rendering n then m samples is rendering n + m. */
  lemma {:induction false} ChunksJoin(src: Source, pitch: Pitch, p: Play, n: nat, m: nat)
    ensures PlayAfter(src, pitch, p, n + m) == PlayAfter(src, pitch, PlayAfter(src, pitch, p, n), m)
    ensures Track(src, pitch, p, n + m) == Track(src, pitch, p, n) + Track(src, pitch, PlayAfter(src, pitch, p, n), m)
    decreases n
  {
    hide Tick, Has, Sample, Scaled, EnvStep;
    if n > 0 && Sounds(src, p) {
      ChunksJoin(src, pitch, Tick(src, pitch, p), n - 1, m);
    }
  }

  /** Where k steps take a voice. */
  function AccAfter(acc: nat, pitch: Pitch, k: nat): nat
    decreases k
  {
    if k == 0 then acc else AccAfter(Stepped(acc, pitch), pitch, k - 1)
  }

  /** One of the first k steps leaves 32 bits. */
  predicate Wraps(acc: nat, pitch: Pitch, k: nat)
    decreases k
  {
    k > 0 && (acc % 4096 + pitch >= SPAN || Wraps(Stepped(acc, pitch), pitch, k - 1))
  }

  /** k steps are k times the pitch exactly if none wraps; a step that wraps falls 2^32 short. */
  lemma {:induction false} StepsExactly(acc: nat, pitch: Pitch, k: nat)
    ensures AccAfter(acc, pitch, k) <= acc + k * pitch
    ensures AccAfter(acc, pitch, k) == acc + k * pitch <==> !Wraps(acc, pitch, k)
    decreases k
  {
    if k > 0 {
      StepExactly(acc, pitch);
      hide Stepped;
      StepsExactly(Stepped(acc, pitch), pitch, k - 1);
      assert acc + k * pitch == (acc + pitch) + (k - 1) * pitch;
    }
  }

  lemma StepExactly(acc: nat, pitch: Pitch)
    ensures Stepped(acc, pitch) == acc + pitch - if acc % 4096 + pitch < 0x1_0000_0000 then 0 else 0x1_0000_0000
  {
  }

  /** Only a pitch above 0xFFFFF000 can. */
  lemma {:induction false} LowPitchNeverWraps(acc: nat, pitch: Pitch, k: nat)
    requires pitch <= 0xFFFF_F000
    ensures !Wraps(acc, pitch, k)
    decreases k
  {
    hide Stepped;
    if k > 0 { LowPitchNeverWraps(Stepped(acc, pitch), pitch, k - 1); }
  }

  /** floor((acc + k * pitch) / 4096): the source sample under output sample k. */
  function Position(acc: nat, pitch: Pitch, k: nat): nat { (acc + k * pitch) / 4096 }

  /** Output sample k of a voice is the source sample that k steps take it to, at the envelope's level after k + 1
      steps; as long as no step wraps that is sample floor((acc + k * pitch) / 4096). */
  lemma {:induction false} ResamplingExact(src: Source, pitch: Pitch, p: Play, n: nat, k: nat)
    requires k < |Track(src, pitch, p, n)|
    ensures
      var m := AccAfter(p.acc, pitch, k) / 4096;
      && Has(src, m) && Track(src, pitch, p, n)[k] == Scaled(Sample(src, m), EnvAfter(p.env, k + 1).level)
      && (!Wraps(p.acc, pitch, k) ==> m == Position(p.acc, pitch, k))
    decreases k
  {
    hide Has, Sample, Scaled, EnvStep, Stepped;
    StepsExactly(p.acc, pitch, k);
    if k > 0 {
      ResamplingExact(src, pitch, Tick(src, pitch, p), n - 1, k - 1);
    }
  }

  /** The stream has the source samples under output samples 0 to k. */
  ghost predicate Streams(src: Source, pitch: Pitch, acc: nat, k: nat) {
    forall j: nat :: j <= k ==> Has(src, AccAfter(acc, pitch, j) / 4096)
  }

  /** None of the first k steps releases the voice for good. */
  ghost predicate Holding(e: Envelope, k: nat) { forall j: nat :: j < k ==> !Releases(EnvAfter(e, j)) }

  lemma StreamsOn(src: Source, pitch: Pitch, acc: nat, k: nat)
    ensures Streams(src, pitch, acc, 0) <==> Has(src, acc / 4096)
    ensures k > 0 ==> (Streams(src, pitch, acc, k) <==>
                       Has(src, acc / 4096) && Streams(src, pitch, Stepped(acc, pitch), k - 1))
  {
    hide Has, Stepped;
    var here: nat := 0;
    assert AccAfter(acc, pitch, here) == acc;
    if k > 0 && Has(src, acc / 4096) && Streams(src, pitch, Stepped(acc, pitch), k - 1) {
      forall j: nat | j <= k ensures Has(src, AccAfter(acc, pitch, j) / 4096) {
        if j > 0 { assert AccAfter(acc, pitch, j) == AccAfter(Stepped(acc, pitch), pitch, j - 1); }
      }
    }
    if k > 0 && Streams(src, pitch, acc, k) {
      assert Has(src, AccAfter(acc, pitch, here) / 4096);
      forall j: nat | j <= k - 1 ensures Has(src, AccAfter(Stepped(acc, pitch), pitch, j) / 4096) {
        assert AccAfter(acc, pitch, j + 1) == AccAfter(Stepped(acc, pitch), pitch, j);
      }
    }
  }

  lemma HoldingOn(e: Envelope, k: nat)
    ensures Holding(e, 0)
    ensures k > 0 ==> (Holding(e, k) <==> !Releases(e) && Holding(EnvStep(e), k - 1))
  {
    hide EnvStep, Releases;
    var here: nat := 0;
    assert EnvAfter(e, here) == e;
    if k > 0 && !Releases(e) && Holding(EnvStep(e), k - 1) {
      forall j: nat | j < k ensures !Releases(EnvAfter(e, j)) {
        if j > 0 { assert EnvAfter(e, j) == EnvAfter(EnvStep(e), j - 1); }
      }
    }
    if k > 0 && Holding(e, k) {
      assert !Releases(EnvAfter(e, here));
      forall j: nat | j < k - 1 ensures !Releases(EnvAfter(EnvStep(e), j)) {
        assert EnvAfter(e, j + 1) == EnvAfter(EnvStep(e), j);
      }
    }
  }

  /** A voice puts out sample k exactly if it is on, its stream has every source sample up to there, and no step before
      it has released it for good. */
  lemma {:induction false} TrackGoesOn(src: Source, pitch: Pitch, p: Play, n: nat, k: nat)
    requires k < n
    ensures k < |Track(src, pitch, p, n)| <==> p.on && Streams(src, pitch, p.acc, k) && Holding(p.env, k)
    decreases k
  {
    hide Has, Sample, Scaled, EnvStep, Stepped, Releases, Streams, Holding;
    StreamsOn(src, pitch, p.acc, k);
    HoldingOn(p.env, k);
    if k > 0 && Sounds(src, p) {
      var q := Tick(src, pitch, p);
      StreamsOn(src, pitch, q.acc, k - 1);
      TrackGoesOn(src, pitch, q, n - 1, k - 1);
      if Streams(src, pitch, q.acc, k - 1) { StreamsFirst(src, pitch, q.acc, k - 1); }
    }
  }

  lemma StreamsFirst(src: Source, pitch: Pitch, acc: nat, k: nat)
    requires Streams(src, pitch, acc, k)
    ensures Has(src, acc / 4096)
  {
    hide Has;
    var here: nat := 0;
    assert Has(src, AccAfter(acc, pitch, here) / 4096);
  }

  /** A voice whose envelope does not run out ends exactly where its stream does. */
  lemma {:induction false} EndsWithStream(src: Source, pitch: Pitch, p: Play, n: nat)
    requires p.on && p.env.stage != Release && p.env.stage != Off
    ensures var t: nat := |Track(src, pitch, p, n)|; t < n ==> !Has(src, AccAfter(p.acc, pitch, t) / 4096)
    decreases n
  {
    hide Has, Sample, Scaled, Stepped;
    if n > 0 && Sounds(src, p) {
      var q := Tick(src, pitch, p);
      if q.on {
        EndsWithStream(src, pitch, q, n - 1);
      }
    }
  }

  predicate Int32(x: int) { -0x8000_0000 <= x < 0x8000_0000 }

  /** A 32-bit level, whatever rates the game has set, scales a sample within 32 bits. A level in range scales it
      within 16; and rates and levels in range keep the envelope in range. */
  lemma EnvStaysFair(e: Envelope, sample: int)
    requires -32768 <= sample <= 32767
    ensures Int32(e.level) ==> Int32(sample * (e.level / 0x4_0000)) && Int32(Scaled(sample, e.level))
    ensures 0 <= e.level <= FULL ==> -32768 <= Scaled(sample, e.level) <= 32767
    ensures EnvFair(e) ==> EnvFair(EnvStep(e))
  {
    var f := e.level / 0x4_0000;
    assert Int32(e.level) ==> -8192 <= f <= 8191;
    assert 0 <= e.level <= FULL ==> 0 <= f <= 4096;
    if 0 <= e.level <= FULL { Bounded(sample, f, 0, 4096); }
    if Int32(e.level) { Bounded(sample, f, -8192, 8191); }
  }

  lemma Bounded(sample: int, f: int, lo: int, hi: int)
    requires lo <= f <= hi && lo <= 0 <= hi
    ensures if sample >= 0 then sample * lo <= sample * f <= sample * hi else sample * hi <= sample * f <= sample * lo
  {
  }

  /** The next addition stays in 32 bits exactly if the rate leaves it the room: an attack below the distance to the
      end of the range on its own side, a fall likewise. Fair envelopes always do. */
  lemma EnvOverflowsExactly(e: Envelope)
    requires Int32(e.level) && Int32(e.attack) && Int32(e.decay) && Int32(e.release)
    ensures Int32(Unclamped(e)) <==>
            match e.stage
            case Attack => if e.level >= 0 then e.attack < 0x8000_0000 - e.level else e.attack >= -0x8000_0000 - e.level
            case Decay => Falls(e.level, e.decay)
            case Release => Falls(e.level, e.release)
            case _ => true
    ensures EnvFair(e) && Rising(e) ==> Int32(Unclamped(e)) && EnvFair(EnvStep(e)) && Rising(EnvStep(e))
  {
  }

  /** An attack that has reached the top is over. */
  predicate Rising(e: Envelope) { e.stage == Attack ==> e.level < FULL }

  /** There is room to fall by the rate: a negative rate can only leave the range at the top, a positive one below. */
  predicate Falls(level: int, rate: int) {
    if level >= 0 then rate > level - 0x8000_0000 else rate <= level + 0x8000_0000
  }

  /** The next level before it is clamped. */
  function Unclamped(e: Envelope): int {
    match e.stage
    case Attack => e.level + e.attack
    case Decay => e.level - e.decay
    case Release => e.level - e.release
    case _ => e.level
  }

  lemma {:induction false} SamplesFit(read: nat -> nat, at: nat, shift: nat, filter: nat, h1: int, h2: int, n: nat,
                                      i: nat)
    requires i < n
    ensures -32768 <= Samples(read, at, shift, filter, h1, h2, n)[i] <= 32767
    decreases n
  {
    hide Nibble, Pow2, F0, F1, Back;
    if i < n - 1 { SamplesFit(read, at, shift, filter, h1, h2, n - 1, i); }
  }

  // ---- what the samples are made of

  /** The two nibbles of a byte, low half first, are the two halves of the byte. */
  lemma NibblesMakeByte(b: nat, i: nat)
    requires b < 256 && i % 2 == 0
    ensures Nibble(b, i) / 4096 % 16 + 16 * (Nibble(b, i + 1) / 4096 % 16) == b
    ensures Nibble(b, i) % 4096 == 0 && -32768 <= Nibble(b, i) <= 28672
    ensures Nibble(b, i + 1) % 4096 == 0 && -32768 <= Nibble(b, i + 1) <= 28672
  {
    HalfNibble(b, i);
    HalfNibble(b, i + 1);
    hide Nibble;
  }

  lemma HalfNibble(b: nat, i: nat)
    requires b < 256
    ensures Nibble(b, i) / 4096 % 16 == if i % 2 == 0 then b % 16 else b / 16
    ensures Nibble(b, i) % 4096 == 0 && -32768 <= Nibble(b, i) <= 28672
  {
    var n := if i % 2 == 0 then b % 16 else b / 16;
    var v := if n < 8 then n else n - 16;
    assert Nibble(b, i) == 4096 * v;
    assert 4096 * v / 4096 == v && 4096 * v % 4096 == 0;
  }

  /** The weights of the five filters, in 64ths. */
  const WEIGHTS: seq<(int, int)> := [(0, 0), (60, 0), (115, -52), (98, -55), (122, -60)]

  /** What an arithmetic shift right by n divides by. */
  const SHIFTS: seq<nat> := [1, 2, 4, 8, 16, 32, 64, 128, 256, 512, 1024, 2048, 4096, 8192, 16384, 32768]

  lemma {:induction false} Shifts(n: nat)
    requires n < 16
    ensures Pow2(n) == SHIFTS[n]
  {
    if n > 0 { Shifts(n - 1); }
  }

  /** Sample k of a block in the bytes of memory: the signed half of its byte, shifted, and the weighted two samples
      before it, held to 16 bits. */
  ghost predicate SampleAt(read: nat -> nat, at: nat, h1: int, h2: int, s: seq<int>, k: nat)
    requires k < |s| && forall x: nat :: read(x) < 256
  {
    var header, byte := read(at), read(at + 2 + k / 2);
    var half := if k % 2 == 0 then byte % 16 else byte / 16;
    var signed := if half >= 8 then half - 16 else half;
    var (w1, w2) := WEIGHTS[if header / 16 <= 4 then header / 16 else 0];
    var last := if k >= 1 then s[k - 1] else h1;
    var before := if k >= 2 then s[k - 2] else if k == 1 then h1 else h2;
    var v := 4096 * signed / SHIFTS[header % 16] + (w1 * last + w2 * before) / 64;
    s[k] == if v > 32767 then 32767 else if v < -32768 then -32768 else v
  }

  lemma PredictIs(byte: nat, k: nat, shift: nat, header: nat, h1: int, h2: int)
    requires byte < 256 && shift < 16 && header < 256
    ensures
      var half := if k % 2 == 0 then byte % 16 else byte / 16;
      var signed := if half >= 8 then half - 16 else half;
      var (w1, w2) := WEIGHTS[if header / 16 <= 4 then header / 16 else 0];
      var v := 4096 * signed / SHIFTS[shift] + (w1 * h1 + w2 * h2) / 64;
      Predict(Nibble(byte, k), shift, Filter(header), h1, h2) ==
      if v > 32767 then 32767 else if v < -32768 then -32768 else v
  {
    hide Pow2;
    Shifts(shift);
  }

  lemma SampleStays(read: nat -> nat, at: nat, h1: int, h2: int, r: seq<int>, s: seq<int>, k: nat)
    requires k < |r| <= |s| && s[..|r|] == r && (forall x: nat :: read(x) < 256) && SampleAt(read, at, h1, h2, r, k)
    ensures SampleAt(read, at, h1, h2, s, k)
  {
    assert s[k] == r[k] && (k >= 1 ==> s[k - 1] == r[k - 1]) && (k >= 2 ==> s[k - 2] == r[k - 2]);
  }

  lemma {:induction false} SamplesAre(read: nat -> nat, at: nat, h1: int, h2: int, n: nat, k: nat)
    requires k < n && forall x: nat :: read(x) < 256
    ensures SampleAt(read, at, h1, h2, Samples(read, at + 2, read(at) % 16, Filter(read(at)), h1, h2, n), k)
    decreases n
  {
    hide Predict, Nibble, Filter, SampleAt;
    var header := read(at);
    var s := Samples(read, at + 2, header % 16, Filter(header), h1, h2, n);
    var r := Samples(read, at + 2, header % 16, Filter(header), h1, h2, n - 1);
    if k < n - 1 {
      SamplesAre(read, at, h1, h2, n - 1, k);
      SampleStays(read, at, h1, h2, r, s, k);
    } else {
      LastSample(read, at, h1, h2, r, s);
    }
  }

  lemma LastSample(read: nat -> nat, at: nat, h1: int, h2: int, r: seq<int>, s: seq<int>)
    requires forall x: nat :: read(x) < 256
    requires var n := |r|;
      s == r + [Predict(Nibble(read(at + 2 + n / 2), n), read(at) % 16, Filter(read(at)),
                        Back(r, 1, h1, h2), Back(r, 2, h1, h2))]
    ensures SampleAt(read, at, h1, h2, s, |r|)
  {
    hide Predict, Nibble, Filter;
    var n := |r|;
    PredictIs(read(at + 2 + n / 2), n, read(at) % 16, read(at), Back(r, 1, h1, h2), Back(r, 2, h1, h2));
  }

  /** A block in the bytes of memory: sixteen of them inside the data, not the terminator and not after a last block;
      its samples; and where the next one is. Flag bit 2 marks a loop's start, bit 0 its end, bit 1 that it repeats. */
  lemma BlockIs(src: Source, d: Decoder)
    requires forall x: nat :: src.read(x) < 256
    ensures
      var at, flags := src.addr + d.pos, src.read(src.addr + d.pos + 1);
      && (DecodeNext(src, d).Some? <==> !d.endPending && d.pos + 16 <= src.size && flags != 7)
      && (DecodeNext(src, d).Some? ==>
            var (s, d') := DecodeNext(src, d).value;
            var loop := if flags % 8 >= 4 then d.pos else d.loopPos;
            && |s| == 28 && (forall k: nat :: k < 28 ==> SampleAt(src.read, at, d.h1, d.h2, s, k))
            && d'.h1 == s[27] && d'.h2 == s[26] && d'.loopPos == loop
            && d'.pos == (if flags % 4 == 3 && src.loop then loop else d.pos + 16)
            && (d'.endPending <==> flags % 2 == 1 && !(flags % 4 == 3 && src.loop)))
  {
    hide Samples, Filter, SampleAt;
    if DecodeNext(src, d).Some? {
      var at, s := src.addr + d.pos, DecodeNext(src, d).value.0;
      forall k: nat | k < 28
        ensures SampleAt(src.read, at, d.h1, d.h2, s, k)
      {
        SamplesAre(src.read, src.addr + d.pos, d.h1, d.h2, 28, k);
      }
    }
  }

  /** A level at full leaves a sample as it is, and one at 0 silences it; between them it is rounded down. */
  lemma ScaledIs(sample: int, level: nat)
    requires level <= 0x4000_0000
    ensures Scaled(sample, 0x4000_0000) == sample && Scaled(sample, 0) == 0
    ensures 4096 * Scaled(sample, level) <= sample * (level / 0x4_0000) < 4096 * Scaled(sample, level) + 4096
  {
  }

  // ---- the curve of the envelope

  /** An attack rises by its rate each sample until a step reaches the top; there the decay begins. */
  lemma {:induction false} AttackCurve(e: Envelope, n: nat)
    requires e.stage == Attack && e.attack >= 0 && e.level + n * e.attack < 0x4000_0000
    ensures EnvAfter(e, n) == e.(level := e.level + n * e.attack)
    ensures e.level + (n + 1) * e.attack >= 0x4000_0000 ==>
            EnvAfter(e, n + 1) == e.(level := 0x4000_0000, stage := Decay)
    decreases n
  {
    if n > 0 {
      var f := e.(level := e.level + e.attack);
      Fewer(n, e.attack);
      assert EnvStep(e) == f;
      AttackCurve(f, n - 1);
      assert f.level + (n - 1) * e.attack == e.level + n * e.attack;
      assert f.level + n * e.attack == e.level + (n + 1) * e.attack;
    } else {
      assert EnvAfter(e, 1) == EnvAfter(EnvStep(e), 0) == EnvStep(e);
    }
  }

  lemma Fewer(n: nat, rate: int)
    requires n > 0 && rate >= 0
    ensures rate <= n * rate && n * rate == rate + (n - 1) * rate
  {
  }

  /** A decay falls by its rate to the sustain level, which it then keeps. */
  lemma {:induction false} DecayCurve(e: Envelope, n: nat)
    requires e.stage == Decay && e.decay >= 0 && e.level - n * e.decay > e.sustain
    ensures EnvAfter(e, n) == e.(level := e.level - n * e.decay)
    ensures e.level - (n + 1) * e.decay <= e.sustain ==>
            EnvAfter(e, n + 1) == e.(level := e.sustain, stage := Sustain)
    decreases n
  {
    if n > 0 {
      var f := e.(level := e.level - e.decay);
      Fewer(n, e.decay);
      assert EnvStep(e) == f;
      DecayCurve(f, n - 1);
      assert f.level - (n - 1) * e.decay == e.level - n * e.decay;
      assert f.level - n * e.decay == e.level - (n + 1) * e.decay;
    } else {
      assert EnvAfter(e, 1) == EnvAfter(EnvStep(e), 0) == EnvStep(e);
    }
  }

  /** A release falls by its rate to 0, where the voice is off. */
  lemma {:induction false} ReleaseCurve(e: Envelope, n: nat)
    requires e.stage == Release && e.release >= 0 && e.level - n * e.release > 0
    ensures EnvAfter(e, n) == e.(level := e.level - n * e.release)
    ensures e.level - (n + 1) * e.release <= 0 ==> EnvAfter(e, n + 1) == e.(level := 0, stage := Off)
    ensures Releases(EnvAfter(e, n)) <==> e.level - (n + 1) * e.release <= 0
    decreases n
  {
    if n > 0 {
      var f := e.(level := e.level - e.release);
      Fewer(n, e.release);
      assert EnvStep(e) == f;
      ReleaseCurve(f, n - 1);
      assert f.level - (n - 1) * e.release == e.level - n * e.release;
      assert f.level - n * e.release == e.level - (n + 1) * e.release;
    } else {
      assert EnvAfter(e, 1) == EnvAfter(EnvStep(e), 0) == EnvStep(e);
    }
  }

  /** A sustained level stays, and so does one that is off. */
  lemma {:induction false} SustainCurve(e: Envelope, n: nat)
    requires e.stage == Sustain || e.stage == Off
    ensures EnvAfter(e, n) == e
    decreases n
  {
    if n > 0 { SustainCurve(EnvStep(e), n - 1); }
  }
}
