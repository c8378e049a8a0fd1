/** render: every voice that sounds, added into one mix (sascore.c). */
module MixerC {
  import opened Sas
  import opened VoiceC

  /** What one voice adds to one side of the mix. */
  datatype Part = Part(track: seq<int>, vol: int)

  function Gain(p: Part, i: nat): int { if i < |p.track| then p.track[i] * p.vol / 4096 else 0 }

  function Sum(ps: seq<Part>, i: nat): int
  {
    if ps == [] then 0 else Sum(ps[..|ps| - 1], i) + Gain(ps[|ps| - 1], i)
  }

  /** A volume of 0x1000 leaves a track as it is. */
  lemma UnityVolume(track: seq<int>, i: nat)
    ensures Gain(Part(track, 0x1000), i) == if i < |track| then track[i] else 0
  {
  }

  lemma SumStep(ps: seq<Part>, n: nat, i: nat)
    requires n < |ps|
    ensures Sum(ps[..n + 1], i) == Sum(ps[..n], i) + Gain(ps[n], i)
  {
    assert ps[..n + 1][..n] == ps[..n];
  }

  /** The voice is rendered: it plays, is not paused and has data. */
  ghost predicate Sounding(v: Voice)
    reads v
  {
    v.playing && !v.paused && v.addr != 0
  }

  ghost function Ahead(v: Voice, read: nat -> nat, samples: nat): Play
    reads v
  {
    if Sounding(v) then PlayAfter(v.Src(read), v.pitch, v.State(), samples) else v.State()
  }

  ghost function Left(v: Voice, read: nat -> nat, samples: nat): Part
    reads v
  {
    if Sounding(v) then Part(Track(v.Src(read), v.pitch, v.State(), samples), v.volL) else Part([], 0)
  }

  ghost function Right(v: Voice, read: nat -> nat, samples: nat): Part
    reads v
  {
    if Sounding(v) then Part(Track(v.Src(read), v.pitch, v.State(), samples), v.volR) else Part([], 0)
  }

  /** The mix holds the first n parts in its first `samples` places, and what it held in the others. */
  ghost predicate Holds(mix: array<int>, was: seq<int>, ps: seq<Part>, n: nat, samples: nat)
    requires n <= |ps|
    reads mix
  {
    && mix.Length == |was| && samples <= |was|
    && (forall i: nat :: i < |was| ==> mix[i] == if i < samples then Sum(ps[..n], i) else was[i])
  }

  class Mixer {
    const voices: seq<Voice>        // g_voice

    constructor (voices: seq<Voice>)
      ensures this.voices == voices
    {
      this.voices := voices;
    }

    /** No two voices, and no voice and a mix, share a buffer. */
    ghost predicate Apart(mixL: array<int>, mixR: array<int>)
    {
      && mixL != mixR
      && (forall k: nat :: k < |voices| ==> voices[k].decoded != mixL && voices[k].decoded != mixR)
      && (forall j: nat, k: nat :: j < k < |voices| ==>
          voices[j] != voices[k] && voices[j].decoded != voices[k].decoded)
    }

    /** The voices from n on are as a render call found them. */
    ghost predicate Waiting(n: nat, read: nat -> nat, samples: nat, after: seq<Play>, l: seq<Part>, r: seq<Part>)
      requires |after| == |l| == |r| <= |voices|
      reads voices, set k | 0 <= k < |voices| :: voices[k].decoded
    {
      forall k: nat {:trigger voices[k]} :: n <= k < |after| ==>
        && voices[k].Valid(read)
        && Ahead(voices[k], read, samples) == after[k]
        && Left(voices[k], read, samples) == l[k] && Right(voices[k], read, samples) == r[k]
    }

    ghost predicate Rendered(n: nat, read: nat -> nat, after: seq<Play>)
      requires n <= |after| <= |voices|
      reads voices, set k | 0 <= k < |voices| :: voices[k].decoded
    {
      forall k: nat {:trigger voices[k]} :: k < n ==> voices[k].Valid(read) && voices[k].State() == after[k]
    }

    /** Where a render call takes the first n voices, and what each adds to either side. */
    ghost function Aheads(n: nat, read: nat -> nat, samples: nat): (r: seq<Play>)
      requires n <= |voices|
      reads voices
      ensures |r| == n && forall k: nat {:trigger r[k]} :: k < n ==> r[k] == Ahead(voices[k], read, samples)
    {
      if n == 0 then [] else Aheads(n - 1, read, samples) + [Ahead(voices[n - 1], read, samples)]
    }

    ghost function Lefts(n: nat, read: nat -> nat, samples: nat): (r: seq<Part>)
      requires n <= |voices|
      reads voices
      ensures |r| == n && forall k: nat {:trigger r[k]} :: k < n ==> r[k] == Left(voices[k], read, samples)
    {
      if n == 0 then [] else Lefts(n - 1, read, samples) + [Left(voices[n - 1], read, samples)]
    }

    ghost function Rights(n: nat, read: nat -> nat, samples: nat): (r: seq<Part>)
      requires n <= |voices|
      reads voices
      ensures |r| == n && forall k: nat {:trigger r[k]} :: k < n ==> r[k] == Right(voices[k], read, samples)
    {
      if n == 0 then [] else Rights(n - 1, read, samples) + [Right(voices[n - 1], read, samples)]
    }

    /** One turn of the outer loop. */
    method RenderVoice(n: nat, read: nat -> nat, mixL: array<int>, mixR: array<int>, samples: nat,
                       ghost after: seq<Play>, ghost l: seq<Part>, ghost r: seq<Part>, ghost wasL: seq<int>,
                       ghost wasR: seq<int>)
      requires Apart(mixL, mixR) && n < |after| == |l| == |r| <= |voices|
      requires Waiting(n, read, samples, after, l, r) && Rendered(n, read, after)
      requires Holds(mixL, wasL, l, n, samples) && Holds(mixR, wasR, r, n, samples)
      modifies voices[n], voices[n].decoded, mixL, mixR
      ensures Waiting(n + 1, read, samples, after, l, r) && Rendered(n + 1, read, after)
      ensures Holds(mixL, wasL, l, n + 1, samples) && Holds(mixR, wasR, r, n + 1, samples)
    {
      hide PlayAfter, Track, Sum, Voice.AtSample;
      var v := voices[n];
      if v.playing && !v.paused && v.addr != 0 {
        ghost var midL, midR := mixL[..], mixR[..];
        v.Render(read, mixL, mixR, samples);
        OneMore(mixL, midL, wasL, l, n, samples);
        OneMore(mixR, midR, wasR, r, n, samples);
      } else {
        NoneMore(mixL, wasL, l, n, samples);
        NoneMore(mixR, wasR, r, n, samples);
      }
    }

    /** render: the mixes cleared, then each of the first `max` voices in turn. */
    method Render(max: nat, read: nat -> nat, mixL: array<int>, mixR: array<int>, samples: nat)
      requires Apart(mixL, mixR) && max <= |voices| && samples <= mixL.Length && samples <= mixR.Length
      requires forall k: nat {:trigger voices[k]} :: k < max ==>
                 voices[k].Valid(read)
      modifies voices, (set k | 0 <= k < |voices| :: voices[k].decoded), mixL, mixR
      ensures forall k: nat {:trigger voices[k]} :: k < max ==>
                voices[k].Valid(read) && voices[k].State() == old(Ahead(voices[k], read, samples))
      ensures Holds(mixL, old(mixL[..]), old(Lefts(max, read, samples)), max, samples)
      ensures Holds(mixR, old(mixR[..]), old(Rights(max, read, samples)), max, samples)
    {
      hide PlayAfter, Track, Sum, Voice.Valid, Ahead, Left, Right;
      ghost var after := Aheads(max, read, samples);
      ghost var l := Lefts(max, read, samples);
      ghost var r := Rights(max, read, samples);
      ghost var wasL, wasR := mixL[..], mixR[..];
      Clear(mixL, samples);
      Clear(mixR, samples);
      NoSum(mixL, wasL, l, samples);
      NoSum(mixR, wasR, r, samples);
      var vi := 0;
      while vi < max
        invariant 0 <= vi <= max && Waiting(vi, read, samples, after, l, r) && Rendered(vi, read, after)
        invariant Holds(mixL, wasL, l, vi, samples) && Holds(mixR, wasR, r, vi, samples)
      {
        RenderVoice(vi, read, mixL, mixR, samples, after, l, r, wasL, wasR);
        vi := vi + 1;
      }
    }
  }

  /** memset of the first samples. */
  method Clear(mix: array<int>, samples: nat)
    requires samples <= mix.Length
    modifies mix
    ensures forall i: nat :: i < mix.Length ==> mix[i] == if i < samples then 0 else old(mix[i])
  {
    for i := 0 to samples
      invariant forall j: nat :: j < mix.Length ==> mix[j] == if j < i then 0 else old(mix[j])
    {
      mix[i] := 0;
    }
  }

  lemma NoSum(mix: array<int>, was: seq<int>, ps: seq<Part>, samples: nat)
    requires mix.Length == |was| && samples <= |was|
    requires forall i: nat :: i < |was| ==> mix[i] == if i < samples then 0 else was[i]
    ensures Holds(mix, was, ps, 0, samples)
  {
  }

  lemma OneMore(mix: array<int>, mid: seq<int>, was: seq<int>, ps: seq<Part>, n: nat, samples: nat)
    requires n < |ps| && |mid| == |was| && samples <= |was| && |ps[n].track| <= samples
    requires forall i: nat :: i < |was| ==> mid[i] == if i < samples then Sum(ps[..n], i) else was[i]
    requires Added(mix, mid, ps[n].track, ps[n].vol)
    ensures Holds(mix, was, ps, n + 1, samples)
  {
    forall i: nat | i < |was|
      ensures mix[i] == if i < samples then Sum(ps[..n + 1], i) else was[i]
    {
      SumStep(ps, n, i);
    }
  }

  lemma NoneMore(mix: array<int>, was: seq<int>, ps: seq<Part>, n: nat, samples: nat)
    requires n < |ps| && Holds(mix, was, ps, n, samples) && ps[n].track == []
    ensures Holds(mix, was, ps, n + 1, samples)
  {
    forall i: nat | i < |was|
      ensures mix[i] == if i < samples then Sum(ps[..n + 1], i) else was[i]
    {
      SumStep(ps, n, i);
    }
  }
}
