/** A voice record and the inner loop of render, changed sample by sample (sascore.c). */
module VoiceC {
  import opened Options
  import opened Sas

  class Voice {
    const decoded: array<int>
    var addr: nat
    var size: nat
    var loop: bool
    var pos: nat
    var loopPos: nat
    var endPending: bool
    var sampleIdx: nat
    var hist1: int
    var hist2: int
    var decodedValid: bool
    var pitch: Pitch
    var frac: nat
    var volL: int
    var volR: int
    var env: Envelope
    var playing: bool
    var ended: bool
    var paused: bool
    ghost var acc: nat

    ghost function Src(read: nat -> nat): Source
      reads `addr, `size, `loop
    {
      Source(read, addr, size, loop)
    }

    ghost function Dec(): Decoder
      reads `pos, `loopPos, `endPending, `hist1, `hist2
    {
      Decoder(pos, loopPos, endPending, hist1, hist2)
    }

    /** The voice is at source sample acc / 4096, with that sample's block decoded. */
    ghost predicate AtSample(read: nat -> nat, m: nat)
      reads `addr, `size, `loop, `pos, `loopPos, `endPending, `hist1, `hist2, `sampleIdx, decoded
    {
      && decoded.Length == 28 && sampleIdx == m % 28
      && After(Src(read), m / 28 + 1) == Some(Dec()) && Block(Src(read), m / 28) == Some(decoded[..])
    }

    ghost predicate Valid(read: nat -> nat)
      reads `addr, `size, `loop, `pos, `loopPos, `endPending, `hist1, `hist2, `sampleIdx, `playing, `frac, `acc,
            `decodedValid, decoded
    {
      && decoded.Length == 28
      && (playing ==>
            && frac == acc % 4096
            && (if decodedValid then AtSample(read, acc / 4096)
                else acc < 4096 && sampleIdx == 0 && Dec() == START))
    }

    ghost function State(): Play
      reads `acc, `env, `playing
    {
      Play(acc, env, playing)
    }

    /** hle_SetKeyOn. */
    method KeyOn(read: nat -> nat)
      requires decoded.Length == 28
      modifies this`playing, this`ended, this`pos, this`loopPos, this`endPending, this`sampleIdx, this`frac, this`hist1,
               this`hist2, this`decodedValid, this`env, this`acc, this`paused
      ensures Valid(read) && State() == Play(0, env, true) && !paused
      ensures env == old(env).(level := 0, stage := Attack,
                               attack := if old(env).attack == 0 then 0x0100_0000 else old(env).attack)
    {
      hide After, Block, AtSample;
      Rewind();
      playing, ended, paused, frac := true, false, false, 0;
      env := env.(level := 0, stage := Attack);
      if env.attack == 0 { env := env.(attack := FULL / 64); }
      acc := 0;
    }

    /** Back to the first block of the data, as SetVoice and KeyOn both do. */
    method Rewind()
      modifies this`pos, this`loopPos, this`endPending, this`sampleIdx, this`hist1, this`hist2, this`decodedValid
      ensures Dec() == START && sampleIdx == 0 && !decodedValid
    {
      pos, loopPos, endPending := 0, 0, false;
      sampleIdx := 0;
      hist1, hist2 := 0, 0;
      decodedValid := false;
    }

    /** decode_block. */
    method DecodeBlock(read: nat -> nat) returns (ok: bool)
      requires decoded.Length == 28
      modifies this`pos, this`loopPos, this`endPending, this`hist1, this`hist2, this`decodedValid, decoded
      ensures match DecodeNext(Src(read), old(Dec()))
              case None => !ok && Dec() == old(Dec()) && decodedValid == old(decodedValid)
                && decoded[..] == old(decoded[..])
              case Some(next) => ok && decodedValid && decoded[..] == next.0 && Dec() == next.1
    {
      hide Samples, Filter, Predict, Nibble;
      ok := false;
      if endPending { return; }
      if pos + 16 > size { return; }
      var flags := read(addr + pos + 1);
      if flags == 7 { return; }
      DecodeData(read);
      ok := true;
    }

    /** The block under the decoder, which is there and is not the terminator. */
    method DecodeData(read: nat -> nat)
      requires decoded.Length == 28 && DecodeNext(Src(read), Dec()).Some?
      modifies this`pos, this`loopPos, this`endPending, this`hist1, this`hist2, this`decodedValid, decoded
      ensures decodedValid && Some((decoded[..], Dec())) == DecodeNext(Src(read), old(Dec()))
    {
      hide DecodeNext, Samples, Filter, Starts, Ends, Repeats;
      var at := addr + pos;
      var header, flags := read(at), read(at + 1);
      NotPending(read);
      NextIs(Src(read), Dec(), header, flags);
      var shift := header % 16;
      var filter := header / 16 % 16;
      if filter > 4 { filter := 0; }
      IsFilter(header, filter);
      if Starts(flags) { loopPos := pos; }
      DecodeSamples(read, at + 2, shift, filter);
      FollowFlags(flags);
      decodedValid := true;
    }

    lemma NotPending(read: nat -> nat)
      requires DecodeNext(Src(read), Dec()).Some?
      ensures !endPending
    {
      hide Samples;
    }

    /** Past the block: a loop end repeats from the loop start, if the voice loops, or else is the last block. */
    method FollowFlags(flags: nat)
      modifies this`pos, this`endPending
      ensures var repeats := Ends(flags) && Repeats(flags) && loop;
              && pos == (if repeats then loopPos else old(pos) + 16)
              && endPending == (old(endPending) || (Ends(flags) && !repeats))
    {
      pos := pos + 16;
      if Ends(flags) {
        if Repeats(flags) && loop { pos := loopPos; } else { endPending := true; }
      }
    }

    static lemma IsFilter(header: nat, filter: nat)
      requires filter == if header / 16 % 16 > 4 then 0 else header / 16 % 16
      ensures filter == Filter(header)
    {
    }

    /** The 28 samples, each predicted from the history the one before left. */
    method DecodeSamples(read: nat -> nat, at: nat, shift: nat, filter: nat)
      requires decoded.Length == 28
      modifies this`hist1, this`hist2, decoded
      ensures decoded[..] == Samples(read, at, shift, filter, old(hist1), old(hist2), 28)
      ensures hist1 == decoded[27] && hist2 == decoded[26]
    {
      hide Predict, Nibble;
      var i := 0;
      while i < 28
        invariant 0 <= i <= 28
        invariant decoded[..i] == Samples(read, at, shift, filter, old(hist1), old(hist2), i)
        invariant hist1 == Back(decoded[..i], 1, old(hist1), old(hist2))
        invariant hist2 == Back(decoded[..i], 2, old(hist1), old(hist2))
      {
        var s := Predict(Nibble(read(at + i / 2), i), shift, filter, hist1, hist2);
        decoded[i] := s;
        assert decoded[..i + 1] == decoded[..i] + [s];
        hist2 := hist1;
        hist1 := s;
        i := i + 1;
      }
      assert decoded[..28] == decoded[..];
    }

    /** step_envelope. */
    method StepEnvelope() returns (level: int)
      modifies this`env, this`playing, this`ended
      ensures env == EnvStep(old(env)) && level == env.level && playing == (old(playing) && !Releases(old(env)))
    {
      match env.stage {
      case Attack =>
        env := env.(level := env.level + env.attack);
        if env.level >= FULL { env := env.(level := FULL, stage := Decay); }
      case Decay =>
        env := env.(level := env.level - env.decay);
        if env.level <= env.sustain { env := env.(level := env.sustain, stage := Sustain); }
      case Release =>
        env := env.(level := env.level - env.release);
        if env.level <= 0 {
          env := env.(level := 0, stage := Off);
          playing, ended := false, true;
        }
      case _ =>
      }
      level := env.level;
    }

    /** Before a sample is mixed: the first block, when none is decoded yet. */
    method Prepare(read: nat -> nat)
      requires Valid(read) && playing
      modifies this`pos, this`loopPos, this`endPending, this`hist1, this`hist2, this`decodedValid, this`sampleIdx,
               this`playing, this`ended, decoded
      ensures playing == Has(Src(read), acc / 4096) && Valid(read)
      ensures playing ==> decodedValid && AtSample(read, acc / 4096)
    {
      hide DecodeNext, Samples;
      if !decodedValid || sampleIdx >= 28 {
        First(read);
        sampleIdx := 0;
        var ok := DecodeBlock(read);
        if !ok { playing, ended := false, true; }
      }
    }

    lemma First(read: nat -> nat)
      ensures After(Src(read), 0) == Some(START)
      ensures DecodeNext(Src(read), START).None? ==> Block(Src(read), 0).None?
      ensures DecodeNext(Src(read), START).Some? ==>
        Block(Src(read), 0) == Some(DecodeNext(Src(read), START).value.0)
        && After(Src(read), 1) == Some(DecodeNext(Src(read), START).value.1)
    {
      hide DecodeNext;
    }

    /** One source sample on, into the next block if need be. */
    method Advance(read: nat -> nat, ghost m: nat) returns (ok: bool)
      requires AtSample(read, m) && decodedValid
      modifies this`pos, this`loopPos, this`endPending, this`hist1, this`hist2, this`decodedValid, this`sampleIdx,
               decoded
      ensures ok == Has(Src(read), m + 1) && (ok ==> AtSample(read, m + 1) && decodedValid)
      ensures decoded.Length == 28
    {
      hide DecodeNext, Samples, After, Block;
      Crossing(m);
      sampleIdx := sampleIdx + 1;
      ok := true;
      if sampleIdx >= 28 {
        NextBlock(read, m / 28);
        sampleIdx := 0;
        ok := DecodeBlock(read);
      }
    }

    static lemma Crossing(m: nat)
      ensures if m % 28 == 27 then (m + 1) / 28 == m / 28 + 1 && (m + 1) % 28 == 0
              else (m + 1) / 28 == m / 28 && (m + 1) % 28 == m % 28 + 1
    {
    }

    lemma NextBlock(read: nat -> nat, b: nat)
      requires After(Src(read), b + 1) == Some(Dec())
      ensures DecodeNext(Src(read), Dec()).None? ==> Block(Src(read), b + 1).None?
      ensures DecodeNext(Src(read), Dec()).Some? ==>
        Block(Src(read), b + 1) == Some(DecodeNext(Src(read), Dec()).value.0)
        && After(Src(read), b + 2) == Some(DecodeNext(Src(read), Dec()).value.1)
    {
      hide DecodeNext;
    }

    lemma SteppedBy(acc: nat, pitch: Pitch)
      ensures Stepped(acc, pitch) == 4096 * (acc / 4096) + (acc % 4096 + pitch) % SPAN
    {
    }

    /** The step by pitch, source sample by source sample; it stops at the first missing block. */
    method Resample(read: nat -> nat)
      requires AtSample(read, acc / 4096) && decodedValid && frac == acc % 4096
      modifies this`pos, this`loopPos, this`endPending, this`hist1, this`hist2, this`decodedValid, this`sampleIdx,
               this`playing, this`ended, this`frac, this`acc, decoded
      ensures acc == Stepped(old(acc), pitch) && decoded.Length == 28
      ensures playing == (old(playing) && Has(Src(read), acc / 4096))
      ensures playing ==> decodedValid && AtSample(read, acc / 4096) && frac == acc % 4096
    {
      hide AtSample, Has, Stepped;
      ghost var src := Src(read);
      ghost var m: nat := acc / 4096;
      DecodedSize(read, m);
      SteppedBy(acc, pitch);
      frac := (frac + pitch) % SPAN;
      acc := Stepped(acc, pitch);
      while frac >= 0x1000
        invariant acc == Stepped(old(acc), pitch) == 4096 * m + frac && Src(read) == src
        invariant playing == old(playing) && decoded.Length == 28
        invariant decodedValid && AtSample(read, m)
      {
        frac := frac - 0x1000;
        var ok := Advance(read, m);
        m := m + 1;
        if !ok {
          Missing(src, m, acc / 4096);
          playing, ended := false, true;
          return;
        }
      }
      HasIt(read, m);
      assert acc / 4096 == m;
    }

    lemma DecodedSize(read: nat -> nat, m: nat)
      requires AtSample(read, m)
      ensures decoded.Length == 28
    {
    }

    static lemma Missing(src: Source, m: nat, n: nat)
      requires !Has(src, m) && m <= n
      ensures !Has(src, n)
    {
      hide Block;
      MissingStaysMissing(src, m / 28, n / 28 - m / 28);
    }

    /** Whatever the calls before, a playing voice with a block decoded is at a sample of its stream, in the block. */
    lemma PlayingHasIt(read: nat -> nat)
      requires Valid(read) && playing && decodedValid
      ensures sampleIdx < 28 && Has(Src(read), acc / 4096) && decoded[sampleIdx] == Sample(Src(read), acc / 4096)
    {
      hide AtSample, Has;
      HasIt(read, acc / 4096);
    }

    lemma HasIt(read: nat -> nat, m: nat)
      requires AtSample(read, m)
      ensures Has(Src(read), m) && sampleIdx < 28 && decoded[sampleIdx] == Sample(Src(read), m)
    {
      hide Block, After;
    }

    /** One output sample of a voice that sounds. */
    method MixSample(read: nat -> nat) returns (s: int)
      requires Valid(read) && playing && decodedValid
      modifies this`pos, this`loopPos, this`endPending, this`hist1, this`hist2, this`decodedValid, this`sampleIdx,
               this`playing, this`ended, this`frac, this`acc, this`env, decoded
      ensures Has(Src(read), old(acc) / 4096)
              && s == Scaled(Sample(Src(read), old(acc) / 4096), EnvStep(old(env)).level)
      ensures Valid(read) && Sounds(Src(read), old(State())) && State() == Tick(Src(read), pitch, old(State()))
      ensures playing ==> decodedValid
    {
      hide AtSample, Has, Sample;
      HasIt(read, acc / 4096);
      s := decoded[sampleIdx];
      var level := StepEnvelope();
      s := s * (level / 0x4_0000) / 4096;
      Resample(read);
    }

    /** One turn of the inner loop; `track` is what has been mixed so far. */
    method RenderSample(read: nat -> nat, mixL: array<int>, mixR: array<int>, i: nat, ghost track: seq<int>,
                        ghost wasL: seq<int>, ghost wasR: seq<int>)
      returns (ghost more: seq<int>)
      requires Valid(read) && playing && |track| == i < mixL.Length && i < mixR.Length
      requires mixL != mixR && mixL != decoded && mixR != decoded
      requires Added(mixL, wasL, track, volL) && Added(mixR, wasR, track, volR)
      modifies this`pos, this`loopPos, this`endPending, this`hist1, this`hist2, this`decodedValid, this`sampleIdx,
               this`playing, this`ended, this`frac, this`acc, this`env, decoded, mixL, mixR
      ensures Valid(read) && Added(mixL, wasL, track + more, volL) && Added(mixR, wasR, track + more, volR)
      ensures if Has(Src(read), old(acc) / 4096) then
                Sounds(Src(read), old(State())) && State() == Tick(Src(read), pitch, old(State()))
                && more == [Scaled(Sample(Src(read), old(acc) / 4096), EnvStep(old(env)).level)]
              else State() == old(State()).(on := false) && more == []
    {
      hide Valid, Has, Sample, Tick, Sounds, AtSample, Scaled, EnvStep;
      Prepare(read);
      if !playing {
        more := [];
        assert track + [] == track;
        return;
      }
      ghost var l, r := mixL[..], mixR[..];
      var s := MixSample(read);
      assert mixL[..] == l && mixR[..] == r;
      mixL[i] := mixL[i] + s * volL / 4096;
      mixR[i] := mixR[i] + s * volR / 4096;
      more := [s];
    }

    /** The inner loop of render: what the voice contributes to the mix. */
    method Render(read: nat -> nat, mixL: array<int>, mixR: array<int>, samples: nat)
      requires Valid(read) && playing
      requires samples <= mixL.Length && samples <= mixR.Length && mixL != mixR && mixL != decoded && mixR != decoded
      modifies this`pos, this`loopPos, this`endPending, this`hist1, this`hist2, this`decodedValid, this`sampleIdx,
               this`playing, this`ended, this`frac, this`acc, this`env, decoded, mixL, mixR
      ensures Valid(read) && State() == PlayAfter(Src(read), pitch, old(State()), samples)
      ensures var t := Track(Src(read), pitch, old(State()), samples);
              && Added(mixL, old(mixL[..]), t, volL) && Added(mixR, old(mixR[..]), t, volR)
    {
      hide Valid, Track, PlayAfter, Tick, Sounds, Has, Sample, Scaled, EnvStep, Added;
      ghost var src, start := Src(read), State();
      ghost var done: seq<int> := [];
      var i := 0;
      NothingAdded(mixL, volL);
      NothingAdded(mixR, volR);
      assert done + Track(src, pitch, start, samples) == Track(src, pitch, start, samples);
      while i < samples && playing
        invariant 0 <= i <= samples && (playing ==> |done| == i) && Valid(read) && Src(read) == src
        invariant Track(src, pitch, start, samples) == done + Track(src, pitch, State(), samples - i)
        invariant PlayAfter(src, pitch, start, samples) == PlayAfter(src, pitch, State(), samples - i)
        invariant Added(mixL, old(mixL[..]), done, volL) && Added(mixR, old(mixR[..]), done, volR)
      {
        ghost var p := State();
        TrackStep(src, pitch, p, samples - i);
        ghost var more := RenderSample(read, mixL, mixR, i, done, old(mixL[..]), old(mixR[..]));
        TrackJoin(done, more, Track(src, pitch, p, samples - i), Track(src, pitch, State(), samples - i - 1));
        if more == [] { TrackSilent(src, pitch, State(), samples - i - 1); }
        done := done + more;
        i := i + 1;
      }
      if playing { TrackNone(src, pitch, State()); } else { TrackSilent(src, pitch, State(), samples - i); }
      assert done + [] == done;
    }
  }

  lemma NothingAdded(mix: array<int>, vol: int)
    ensures Added(mix, mix[..], [], vol)
  {
  }

  lemma TrackJoin(done: seq<int>, more: seq<int>, whole: seq<int>, rest: seq<int>)
    ensures whole == more + rest ==> done + whole == (done + more) + rest
  {
  }

  /** The buffer has the track added to it, at this volume, from its start. */
  ghost predicate Added(mix: array<int>, was: seq<int>, track: seq<int>, vol: int)
    reads mix
  {
    && mix.Length == |was| && |track| <= |was|
    && (forall i: nat :: i < |was| ==> mix[i] == was[i] + if i < |track| then track[i] * vol / 4096 else 0)
  }

  lemma TrackNone(src: Source, pitch: Pitch, p: Play)
    ensures Track(src, pitch, p, 0) == [] && PlayAfter(src, pitch, p, 0) == p
  {
  }

  lemma TrackStep(src: Source, pitch: Pitch, p: Play, n: nat)
    requires n > 0 && p.on
    ensures if Has(src, p.acc / 4096) then
              Sounds(src, p)
              && Track(src, pitch, p, n) == [Scaled(Sample(src, p.acc / 4096), EnvStep(p.env).level)]
                                            + Track(src, pitch, Tick(src, pitch, p), n - 1)
              && PlayAfter(src, pitch, p, n) == PlayAfter(src, pitch, Tick(src, pitch, p), n - 1)
            else Track(src, pitch, p, n) == [] && PlayAfter(src, pitch, p, n) == p.(on := false)
  {
    hide Has, Sample, Scaled, EnvStep, Tick;
  }

  lemma TrackSilent(src: Source, pitch: Pitch, p: Play, n: nat)
    requires !p.on
    ensures Track(src, pitch, p, n) == [] && PlayAfter(src, pitch, p, n) == p
  {
    hide Has, Sample, Tick;
  }
}
