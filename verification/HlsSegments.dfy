/** How the live queues of the HLS muxer follow the arrivals: when a segment is cut, how long it is, and what is evicted. */
module HlsSegments {
  import opened Bytes
  import opened Media
  import opened TsPackets
  import opened TsRoundTrip
  import opened Hls

  // ---------------------------------------------------------------------------------------------
  // Durations
  // ---------------------------------------------------------------------------------------------

  function DtsOf(x: Sent): nat {
    x.frame.p.dts
  }

  /** A segment lasts from its first frame to its last one. */
  predicate Timed(m: TsMedia) {
    m.frames != [] && m.firstDts == DtsOf(m.frames[0]) && m.duration == DtsOf(Last(m.frames)) - DtsOf(m.frames[0])
  }

  predicate AllTimed(h: Hls) {
    forall k :: 0 <= k < |h.ts.items| ==> Timed(h.ts.items[k])
  }

  lemma PackedIsTimed(h: Hls, i: Input)
    requires i.Media? && Acceptable(h, i) && Poised(h) && AllTimed(h)
    ensures AllTimed(PacketTs(h, i))
  {
    hide Packets;
    var o := Opened(h, i.p);
    var items := o.ts.items;
    var m, x := o.ts.At(h.tsSeq), SentOf(h, i);
    assert forall k :: 0 <= k < |items| - 1 ==> Timed(items[k]);
    assert Last(m.frames + [x]) == x;
    assert m.frames != [] ==> (m.frames + [x])[0] == m.frames[0];
  }

  lemma CountedIsTimed(h: Hls)
    requires AllTimed(h) && h.ts.items != [] && h.video.items != []
    ensures AllTimed(CountVideo(h))
  {
  }

  lemma StepIsTimed(h: Hls, i: Input)
    requires Steady(h) && Legal(h, i) && AllTimed(h)
    ensures AllTimed(Step(h, i))
  {
    hide PacketTs, Timed, CountVideo, StartGop;
    if i.Media? {
      if i.p.kind == Audio {
        var g := h.(audio := h.audio.Push(i.p));
        PackedIsTimed(g, i);
        PacketTsShape(g, i);
      } else {
        StartGopCuts(h, i.p);
        var g := StartGop(h, i.p);
        var g' := g.(video := g.video.Push(i.p));
        PackedIsTimed(g', i);
        PacketTsShape(g', i);
        CountedIsTimed(PacketTs(g', i));
      }
    }
  }

  lemma {:induction false} SegmentsAreTimed(ins: seq<Input>)
    requires LegalRun(ins)
    ensures AllTimed(Run(ins))
    decreases |ins|
  {
    hide Step, Timed;
    if ins != [] {
      SegmentsAreTimed(ins[..|ins| - 1]);
      StepIsTimed(Run(ins[..|ins| - 1]), Last(ins));
    }
  }

  /** In every run the playlist gives each segment that it names the time from its first frame to its last one. */
  lemma {:induction false} PlaylistTellsDurations(ins: seq<Input>, k: nat)
    requires LegalRun(ins) && Run(ins).m3u8.Some? && k < 3
    ensures var h := Run(ins);
            && |h.m3u8.value| == 3 && h.ts.Has(h.m3u8.value[k].name)
            && var m := h.ts.At(h.m3u8.value[k].name);
               m.frames != [] && h.m3u8.value[k].duration == DtsOf(Last(m.frames)) - DtsOf(m.frames[0])
  {
    hide Run, LegalRun, Playable;
    PlaylistIsLive(ins);
    SegmentsAreTimed(ins);
  }

  // ---------------------------------------------------------------------------------------------
  // Cuts
  // ---------------------------------------------------------------------------------------------

  /** The place of the last key frame among video frames, or 0. */
  function KeyPlace(video: seq<Payload>): nat {
    if video == [] then 0 else if Last(video).iFrame then |video| - 1 else KeyPlace(video[..|video| - 1])
  }

  /** Every key frame starts a segment but the first one, and the one behind a key frame that was the very first frame. */
  function Cuts(video: seq<Payload>): nat {
    if video == [] then 0
    else Cuts(video[..|video| - 1]) + if Last(video).iFrame && KeyPlace(video[..|video| - 1]) > 0 then 1 else 0
  }

  /** The segments so far have been cut at the key frames, and as many are gone as key frames have been evicted. */
  predicate Cut(h: Hls, video: seq<Payload>) {
    && Tails(h.video, video)
    && h.preVideo == KeyPlace(video) && h.tsSeq == Cuts(video) && h.ts.first == Keys(video[..h.video.first])
  }

  lemma CutSnoc(video: seq<Payload>, p: Payload)
    ensures KeyPlace(video + [p]) == if p.iFrame then |video| else KeyPlace(video)
    ensures Cuts(video + [p]) == Cuts(video) + if p.iFrame && KeyPlace(video) > 0 then 1 else 0
  {
    assert (video + [p])[..|video|] == video;
  }

  lemma EvictedIsCut(h: Hls, video: seq<Payload>)
    requires Cut(h, video) && h.ts.items != [] && h.video.items != []
    ensures Cut(CountVideo(h), video)
  {
    hide Cuts, KeyPlace;
    TailsPop(h.video, video);
    var n := h.video.first;
    assert video[..n + 1] == video[..n] + [video[n]] && video[n] == h.video.items[0];
    KeysSnoc(video[..n], video[n]);
  }

  lemma StepIsCut(h: Hls, i: Input, video: seq<Payload>)
    requires Steady(h) && Legal(h, i) && Cut(h, video)
    ensures Cut(Step(h, i), if i.Media? && i.p.kind == Video then video + [i.p] else video)
  {
    hide PacketTs, CountVideo, Cuts, KeyPlace, Keys;
    if i.Media? {
      if i.p.kind == Audio {
        PacketTsShape(h.(audio := h.audio.Push(i.p)), i);
      } else {
        StartGopCuts(h, i.p);
        CutSnoc(video, i.p);
        TailsPush(h.video, video, i.p);
        var g := StartGop(h, i.p);
        var g' := g.(video := g.video.Push(i.p));
        PacketTsShape(g', i);
        assert (video + [i.p])[..h.video.first] == video[..h.video.first];
        EvictedIsCut(PacketTs(g', i), video + [i.p]);
      }
    }
  }

  /** In every run. */
  lemma {:induction false} SegmentsFollowKeyFrames(ins: seq<Input>)
    requires LegalRun(ins)
    ensures Cut(Run(ins), Kept(Arrived(ins), Video))
    decreases |ins|
  {
    hide Step, Cut, Kept;
    if ins == [] {
      NothingCut();
    } else {
      var init, i := ins[..|ins| - 1], Last(ins);
      SegmentsFollowKeyFrames(init);
      StepIsCut(Run(init), i, Kept(Arrived(init), Video));
      ArrivedStep(init, i, Video);
      assert ins == init + [i];
    }
  }

  lemma NothingCut()
    ensures Cut(INITIAL, Kept(Arrived([]), Video))
  {
  }

  // ---------------------------------------------------------------------------------------------
  // Eviction
  // ---------------------------------------------------------------------------------------------

  /** More than ten segments were queued behind each of the inputs from number `n` on. */
  predicate Crowded(ins: seq<Input>, n: nat)
    requires LegalRun(ins)
    decreases |ins|
  {
    |ins| <= n || (|Run(ins).ts.items| > 10 && Crowded(ins[..|ins| - 1], n))
  }

  lemma StepIsBounded(h: Hls, i: Input, limit: nat)
    requires Steady(h) && Legal(h, i) && |Step(h, i).ts.items| > 10 && limit >= 799
    ensures |h.video.items| <= limit ==> |Step(h, i).video.items| <= limit
    ensures |h.audio.items| <= limit ==> |Step(h, i).audio.items| <= limit
  {
    hide PacketTs;
    if i.Media? {
      if i.p.kind == Audio {
        PacketTsShape(h.(audio := h.audio.Push(i.p)), i);
      } else {
        StartGopCuts(h, i.p);
        var g := StartGop(h, i.p);
        PacketTsShape(g.(video := g.video.Push(i.p)), i);
      }
    }
  }

  /** As long as there are more than ten segments, no queue grows beyond 799 frames, or beyond what it had before. */
  lemma {:induction false} QueuesAreBounded(ins: seq<Input>, n: nat, limit: nat)
    requires LegalRun(ins) && n <= |ins| && LegalRun(ins[..n]) && Crowded(ins, n) && limit >= 799
    requires |Run(ins[..n]).video.items| <= limit && |Run(ins[..n]).audio.items| <= limit
    ensures |Run(ins).video.items| <= limit && |Run(ins).audio.items| <= limit
    decreases |ins|
  {
    hide Step, Legal;
    if n == |ins| {
      assert ins[..n] == ins;
    } else {
      var init := ins[..|ins| - 1];
      assert init[..n] == ins[..n];
      QueuesAreBounded(init, n, limit);
      StepIsBounded(Run(init), Last(ins), limit);
    }
  }

  /** In a second with frames of its stream, a queue that holds more than twenty times as many does not grow. */
  lemma TwentySecondsAreEnough(h: Hls, i: Input)
    requires Steady(h) && Legal(h, i) && i.Media? && |Step(h, i).ts.items| > 10
    ensures i.p.kind == Audio && |h.audio.items| >= 20 * (h.audioFps + 1) ==> |Step(h, i).audio.items| <= |h.audio.items|
    ensures i.p.kind == Video && |h.video.items| >= 20 * (h.videoFps + 1) ==> |Step(h, i).video.items| <= |h.video.items|
  {
    hide PacketTs;
    if i.p.kind == Audio {
      PacketTsShape(h.(audio := h.audio.Push(i.p)), i);
    } else {
      StartGopCuts(h, i.p);
      var g := StartGop(h, i.p);
      PacketTsShape(g.(video := g.video.Push(i.p)), i);
    }
  }

  /** Nothing is evicted early: a queue of fewer than 800 frames, and of less than 20 seconds, keeps every frame. */
  lemma NothingEvictedEarly(h: Hls, i: Input)
    requires Steady(h) && Legal(h, i) && i.Media?
    ensures i.p.kind == Audio && |h.audio.items| < 799 && |h.audio.items| < 20 * (h.audioFps + 1) ==>
              Step(h, i).audio == h.audio.Push(i.p)
    ensures i.p.kind == Video && |h.video.items| < 799 && |h.video.items| < 20 * (h.videoFps + 1) ==>
              Step(h, i).video == h.video.Push(i.p)
    ensures |Step(h, i).ts.items| <= 10 && i.p.kind == Audio ==> Step(h, i).audio == h.audio.Push(i.p)
  {
    hide PacketTs;
    if i.p.kind == Audio {
      PacketTsShape(h.(audio := h.audio.Push(i.p)), i);
    } else {
      StartGopCuts(h, i.p);
      var g := StartGop(h, i.p);
      PacketTsShape(g.(video := g.video.Push(i.p)), i);
    }
  }

  // ---------------------------------------------------------------------------------------------
  // Frames per second
  // ---------------------------------------------------------------------------------------------

  /** The time of the last tick, or 0. */
  function LastTick(ins: seq<Input>): nat {
    if ins == [] then 0 else if Last(ins).Tick? then Last(ins).nowMs else LastTick(ins[..|ins| - 1])
  }

  /** The frames of a stream since the last tick but the first one. */
  function SinceTick(ins: seq<Input>, kind: Kind): nat {
    if ins == [] then 0
    else
      var init, i := ins[..|ins| - 1], Last(ins);
      if i.Tick? && LastTick(init) != 0 then 0
      else SinceTick(init, kind) + if i.Media? && i.p.kind == kind then 1 else 0
  }

  lemma StepCounts(h: Hls, i: Input)
    requires Steady(h) && Legal(h, i)
    ensures var h' := Step(h, i);
            && h'.preFpsMs == (if i.Tick? then i.nowMs else h.preFpsMs)
            && h'.videoFps == (if i.Tick? && h.preFpsMs != 0 then 0 else if i.Media? && i.p.kind == Video then h.videoFps + 1 else h.videoFps)
            && h'.audioFps == (if i.Tick? && h.preFpsMs != 0 then 0 else if i.Media? && i.p.kind == Audio then h.audioFps + 1 else h.audioFps)
  {
    hide PacketTs;
    if i.Media? {
      if i.p.kind == Audio {
        PacketTsShape(h.(audio := h.audio.Push(i.p)), i);
      } else {
        StartGopCuts(h, i.p);
        var g := StartGop(h, i.p);
        PacketTsShape(g.(video := g.video.Push(i.p)), i);
      }
    }
  }

  /** The numbers that the twenty seconds are reckoned with. */
  lemma {:induction false} FpsAreCounted(ins: seq<Input>)
    requires LegalRun(ins)
    ensures var h := Run(ins);
            h.preFpsMs == LastTick(ins) && h.videoFps == SinceTick(ins, Video) && h.audioFps == SinceTick(ins, Audio)
    decreases |ins|
  {
    hide Step, Legal;
    if ins != [] {
      FpsAreCounted(ins[..|ins| - 1]);
      StepCounts(Run(ins[..|ins| - 1]), Last(ins));
    }
  }

  // ---------------------------------------------------------------------------------------------
  // The order of the fast start
  // ---------------------------------------------------------------------------------------------

  /** No audio comes behind video of the same time or a later one. */
  predicate AudioFirst(ps: seq<Payload>) {
    forall i, j :: 0 <= i < j < |ps| && ps[i].kind == Video && ps[j].kind == Audio ==> ps[i].dts < ps[j].dts
  }

  lemma {:induction false} MergeHolds(audio: seq<Payload>, video: seq<Payload>, t: nat)
    requires AllOfKind(audio, Audio) && AllOfKind(video, Video) && forall i :: 0 <= i < |audio| ==> t < audio[i].dts
    ensures forall j :: 0 <= j < |Merge(audio, video)| && Merge(audio, video)[j].kind == Audio ==> t < Merge(audio, video)[j].dts
    decreases |audio| + |video|
  {
    if audio != [] && video != [] {
      if audio[0].dts > video[0].dts {
        MergeHolds(audio, video[1..], t);
      } else {
        MergeHolds(audio[1..], video, t);
      }
    }
  }

  /** Of frames with one time the audio goes out before the video. */
  lemma {:induction false} AudioGoesFirst(audio: seq<Payload>, video: seq<Payload>)
    requires AllOfKind(audio, Audio) && AllOfKind(video, Video) && Sorted(audio)
    ensures AudioFirst(Merge(audio, video))
    decreases |audio| + |video|
  {
    if audio != [] && video != [] {
      if audio[0].dts > video[0].dts {
        AudioGoesFirst(audio, video[1..]);
        MergeHolds(audio, video[1..], video[0].dts);
        FirstInFront(video[0], Merge(audio, video[1..]));
      } else {
        AudioGoesFirst(audio[1..], video);
        FirstInFront(audio[0], Merge(audio[1..], video));
      }
    }
  }

  lemma FirstInFront(p: Payload, ps: seq<Payload>)
    requires AudioFirst(ps)
    requires p.kind == Video ==> forall j :: 0 <= j < |ps| && ps[j].kind == Audio ==> p.dts < ps[j].dts
    ensures AudioFirst([p] + ps)
  {
  }
}
