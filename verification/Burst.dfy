/** A run in which the fast start contains no audio although audio has arrived since the last key frame. */
module Burst {
  import opened Bytes
  import opened Media
  import opened TsPackets
  import opened TsRoundTrip
  import opened Hls
  import H = Hls

  const TAIL: seq<byte> := [0, 0, 0, 0, 0, 0, 0, 0, 0]

  const KEY: Input := H.Media(Payload(Video, true, 0, 0, [0, 0, 0, 14, 0x65, 1, 2, 3, 4, 5, 6, 7, 8, 9, 10, 11, 12, 13]), TAIL)

  const SOUND: Input := H.Media(Payload(Audio, false, 0, 0, [0xAF, 1, 0x21]), TAIL)

  /** `n` times the same input. */
  function Times(i: Input, n: nat): seq<Input> {
    if n == 0 then [] else Times(i, n - 1) + [i]
  }

  lemma Snoc(ins: seq<Input>, i: Input)
    requires LegalRun(ins) && Legal(Run(ins), i)
    ensures LegalRun(ins + [i]) && Run(ins + [i]) == Step(Run(ins), i)
  {
    assert (ins + [i])[..|ins|] == ins;
  }

  lemma AlwaysAcceptable(h: Hls, i: Input)
    requires h.config == Config([], [], None) && i in {KEY, SOUND}
    ensures Acceptable(h, i)
  {
    assert |Raw(KEY.p)| == 14 && |Raw(SOUND.p)| == 1;
    assert |Prefix(Frame(KEY.p, h.config))| == 12;
  }

  /** Nothing but `n` key frames so far, `segments` segments, no audio. */
  predicate AfterKeys(h: Hls, n: nat) {
    && h.config == Config([], [], None) && h.preFpsMs == 1
    && h.video.first == 0 && |h.video.items| == n && h.videoFps == n
    && h.audio == Window(0, []) && h.preAudio == 0 && h.audioFps == 0
    && h.ts.first == 0 && h.preVideo == (if n == 0 then 0 else n - 1) && h.tsSeq == (if n < 2 then 0 else n - 2)
    && |h.ts.items| == (if n < 2 then n else n - 1) && Steady(h)
  }

  lemma KeyStep(h: Hls, n: nat)
    requires AfterKeys(h, n) && n < 799
    ensures Legal(h, KEY) && AfterKeys(Step(h, KEY), n + 1)
  {
    hide H.PacketTs;
    AlwaysAcceptable(h, KEY);
    StartGopCuts(h, KEY.p);
    var g := StartGop(h, KEY.p);
    PacketTsShape(g.(video := g.video.Push(KEY.p)), KEY);
  }

  lemma {:induction false} KeyRun(ins: seq<Input>, n: nat)
    requires LegalRun(ins) && AfterKeys(Run(ins), 0) && n <= 799
    ensures LegalRun(ins + Times(KEY, n)) && AfterKeys(Run(ins + Times(KEY, n)), n)
    decreases n
  {
    hide LegalRun, Run, AfterKeys, Step, Legal;
    if n == 0 {
      assert ins + [] == ins;
    } else {
      KeyRun(ins, n - 1);
      var before := ins + Times(KEY, n - 1);
      KeyStep(Run(before), n - 1);
      Snoc(before, KEY);
      assert ins + (Times(KEY, n - 1) + [KEY]) == before + [KEY];
    }
  }

  /** More than ten segments, and `n` audio frames of which none has been evicted. */
  predicate AfterSounds(h: Hls, n: nat) {
    && h.config == Config([], [], None) && h.preFpsMs == 1
    && h.audio.first == 0 && |h.audio.items| == n && h.audioFps == n && h.preAudio == 0
    && |h.ts.items| > 10 && Steady(h)
  }

  lemma SoundStep(h: Hls, n: nat)
    requires AfterSounds(h, n) && n < 799
    ensures Legal(h, SOUND) && AfterSounds(Step(h, SOUND), n + 1)
  {
    hide H.PacketTs;
    AlwaysAcceptable(h, SOUND);
    PacketTsShape(h.(audio := h.audio.Push(SOUND.p)), SOUND);
  }

  lemma {:induction false} SoundRun(ins: seq<Input>, n: nat)
    requires LegalRun(ins) && AfterSounds(Run(ins), 0) && n <= 799
    ensures LegalRun(ins + Times(SOUND, n)) && AfterSounds(Run(ins + Times(SOUND, n)), n)
    decreases n
  {
    hide LegalRun, Run, AfterSounds, Step, Legal;
    if n == 0 {
      assert ins + [] == ins;
    } else {
      SoundRun(ins, n - 1);
      var before := ins + Times(SOUND, n - 1);
      SoundStep(Run(before), n - 1);
      Snoc(before, SOUND);
      assert ins + (Times(SOUND, n - 1) + [SOUND]) == before + [SOUND];
    }
  }

  /** The frame counters have just been set back, so that the next frame finds the queue too long. */
  lemma LastSound(h: Hls)
    requires AfterSounds(h, 21)
    ensures Legal(h, Tick(2)) && Legal(Step(h, Tick(2)), SOUND)
    ensures var h' := Step(Step(h, Tick(2)), SOUND); h'.audio.first == 1 && h'.preAudio == 0
  {
    hide H.PacketTs;
    var t := Step(h, Tick(2));
    AlwaysAcceptable(t, SOUND);
    PacketTsShape(t.(audio := t.audio.Push(SOUND.p)), SOUND);
  }

  const KEYS: seq<Input> := [Tick(1)] + Times(KEY, 12)
  const SOUNDS: seq<Input> := KEYS + Times(SOUND, 21)
  const LOSSY: seq<Input> := SOUNDS + [Tick(2)] + [SOUND]

  lemma {:induction false} SoundsArrived(ins: seq<Input>, n: nat, kind: Kind)
    ensures Kept(Arrived(ins + Times(SOUND, n)), kind) == if kind == Audio then Kept(Arrived(ins), kind) + PayloadTimes(n)
                                                          else Kept(Arrived(ins), kind)
    decreases n
  {
    hide Arrived, Kept;
    if n == 0 {
      assert ins + [] == ins;
      assert Kept(Arrived(ins), kind) + [] == Kept(Arrived(ins), kind);
    } else {
      SoundsArrived(ins, n - 1, kind);
      ArrivedStep(ins + Times(SOUND, n - 1), SOUND, kind);
      assert ins + (Times(SOUND, n - 1) + [SOUND]) == ins + Times(SOUND, n - 1) + [SOUND];
      assert Kept(Arrived(ins), kind) + (PayloadTimes(n - 1) + [SOUND.p]) == Kept(Arrived(ins), kind) + PayloadTimes(n - 1) + [SOUND.p];
    }
  }

  function PayloadTimes(n: nat): (ps: seq<Payload>)
    ensures |ps| == n
  {
    if n == 0 then [] else PayloadTimes(n - 1) + [SOUND.p]
  }

  lemma KeyArrived(ins: seq<Input>, n: nat)
    requires n > 0
    ensures Keys(Kept(Arrived(ins + Times(KEY, n)), Video)) > 0
  {
    hide Arrived, Kept;
    var before := ins + Times(KEY, n - 1);
    ArrivedStep(before, KEY, Video);
    assert ins + (Times(KEY, n - 1) + [KEY]) == before + [KEY];
    KeysSnoc(Kept(Arrived(before), Video), KEY.p);
  }

  lemma FirstTick()
    ensures LegalRun([Tick(1)]) && AfterKeys(Run([Tick(1)]), 0)
  {
    Snoc([], Tick(1));
    assert [] + [Tick(1)] == [Tick(1)];
  }

  lemma KeysThenSounds(h: Hls)
    requires AfterKeys(h, 12)
    ensures AfterSounds(h, 0)
  {
  }

  /**
   Twelve key frames, then 22 audio frames, with the frame counters set back before the last of them: one frame is
   evicted, and the fast start has none of the 22 audio frames since the last key frame.
   */
  lemma {:induction false} BurstLosesAudio()
    ensures LegalRun(LOSSY)
    ensures Keys(Kept(Arrived(LOSSY), Video)) > 0 && Run(LOSSY).preAudio == 0 && |Kept(Arrived(LOSSY), Audio)| >= 22
    ensures Kept(FastOut(Run(LOSSY)), Audio) == []
  {
    hide LegalRun, Run, AfterKeys, AfterSounds, Step, Legal, Times, Arrived, Kept, FastOut, Keys;
    FirstTick();
    KeyRun([Tick(1)], 12);
    KeysThenSounds(Run(KEYS));
    SoundRun(KEYS, 21);
    LastSound(Run(SOUNDS));
    Snoc(SOUNDS, Tick(2));
    Snoc(SOUNDS + [Tick(2)], SOUND);
    KeyArrived([Tick(1)], 12);
    SoundsArrived(KEYS, 21, Video);
    SoundsArrived(KEYS, 21, Audio);
    ArrivedStep(SOUNDS, Tick(2), Video);
    ArrivedStep(SOUNDS, Tick(2), Audio);
    ArrivedStep(SOUNDS + [Tick(2)], SOUND, Video);
    ArrivedStep(SOUNDS + [Tick(2)], SOUND, Audio);
    FastOutIsLastGop(LOSSY);
  }
}
