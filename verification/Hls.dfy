/**
 The live queues of the HLS muxer as a state machine: recent frames with the place of the latest key frame, the
 transport stream segments, and the playlist that names three of them.
 */
module Hls {
  import opened Bytes
  import opened Media
  import opened TsPackets
  import opened TsRoundTrip

  /** A map with consecutive keys: the items and the key of the first one. */
  datatype Window<T> = Window(first: nat, items: seq<T>) {
    function Next(): nat {
      first + |items|
    }

    predicate Has(k: nat) {
      first <= k < Next()
    }

    function At(k: nat): T
      requires Has(k)
    {
      items[k - first]
    }

    function Push(x: T): Window<T> {
      Window(first, items + [x])
    }

    function Pop(): Window<T>
      requires items != []
    {
      Window(first + 1, items[1..])
    }
  }

  /** A segment: its times in milliseconds, the counters it started with, and the frames packed into it. */
  datatype TsMedia = TsMedia(firstDts: nat, duration: int, counters: Counters, frames: seq<Sent>)

  datatype Entry = Entry(name: nat, duration: int)

  datatype Hls = Hls(
    video: Window<Payload>, audio: Window<Payload>, videoFps: nat, audioFps: nat, preFpsMs: nat,
    preVideo: nat, preAudio: nat, config: Config,
    ts: Window<TsMedia>, tsSeq: nat, counters: Counters, m3u8: Option<seq<Entry>>)

  const INITIAL := Hls(Window(0, []), Window(0, []), 0, 0, 0, 0, 0, Config([], [], None),
                   Window(0, []), 0, Counters(0, 0, 0, 0), None)

  datatype Input =
    | Media(p: Payload, tail: seq<byte>)
    | NewSets(sps: seq<byte>, pps: seq<byte>)
    | NewAdts(adts: seq<byte>)
    | Tick(nowMs: nat)

  // ---------------------------------------------------------------------------------------------
  // Steps
  // ---------------------------------------------------------------------------------------------

  /** The playlist names the three latest segments, once there are three. */
  function UpdateM3U8(h: Hls): Hls {
    if |h.ts.items| < 3 then h
    else
      var n := h.ts.Next() - 1;
      h.(m3u8 := Some([Entry(n - 2, h.ts.At(n - 2).duration), Entry(n - 1, h.ts.At(n - 1).duration),
                       Entry(n, h.ts.At(n).duration)]))
  }

  /** The segment under way, opened with the two program tables if need be. */
  function Opened(h: Hls, p: Payload): Hls {
    if h.ts.Has(h.tsSeq) then h
    else
      h.(ts := h.ts.Push(TsMedia(p.dts, 0, h.counters, [])),
         counters := h.counters.(pat := h.counters.pat + 1, pmt := h.counters.pmt + 1))
  }

  /** The input can be packed, in the configuration that the muxer has reached. */
  predicate Acceptable(h: Hls, i: Input) {
    i.Media? ==> Packable(Frame(i.p, h.config)) && |i.tail| >= SLACK
  }

  function SentOf(h: Hls, i: Input): Sent
    requires i.Media? && Acceptable(h, i)
  {
    Sent(Frame(i.p, h.config), i.tail)
  }

  /** The segment under way is the last one, or is yet to be opened behind the last one. */
  predicate Poised(h: Hls) {
    h.ts.Next() == h.tsSeq || (h.ts.items != [] && h.ts.Next() == h.tsSeq + 1)
  }

  /** Packs a frame into the segment under way. */
  function PacketTs(h: Hls, i: Input): Hls
    requires i.Media? && Acceptable(h, i) && Poised(h)
  {
    var o := Opened(h, i.p);
    var m, x := o.ts.At(h.tsSeq), SentOf(h, i);
    var n := |Packets(x, Count(o.counters, i.p.kind))|;
    o.(ts := Window(o.ts.first, o.ts.items[..|o.ts.items| - 1]
                                + [m.(duration := i.p.dts - m.firstDts, frames := m.frames + [x])]),
       counters := CountOn(o.counters, i.p.kind, n))
  }

  /** A queue is full when it holds 20 seconds, or 800 frames; only then, and with enough segments, it loses frames. */
  predicate Full(q: Window<Payload>, fps: nat, h: Hls) {
    ((fps != 0 && |q.items| > 20 * fps) || |q.items| >= 800) && |h.ts.items| > 10
  }

  function CountAudio(h: Hls): Hls {
    var h' := h.(audioFps := h.audioFps + 1);
    if Full(h'.audio, h'.audioFps, h') then h'.(audio := h'.audio.Pop()) else h'
  }

  function OnAudio(h: Hls, i: Input): Hls
    requires Steady(h) && i.Media? && i.p.kind == Audio && Acceptable(h, i)
  {
    CountAudio(PacketTs(h.(audio := h.audio.Push(i.p)), i))
  }

  /** A key frame starts a new segment, except for the first one, and one with number 0 that it follows. */
  function StartGop(h: Hls, p: Payload): Hls {
    if !p.iFrame then h
    else
      var cut := if h.preVideo != 0 then UpdateM3U8(h).(tsSeq := h.tsSeq + 1) else h;
      cut.(preVideo := h.video.Next(), preAudio := h.audio.Next())
  }

  /** With an evicted key frame goes the earliest segment. */
  function EvictVideo(h: Hls): Hls
    requires h.video.items != [] && h.ts.items != []
  {
    h.(ts := if h.video.items[0].iFrame then h.ts.Pop() else h.ts, video := h.video.Pop())
  }

  function CountVideo(h: Hls): Hls {
    var h' := h.(videoFps := h.videoFps + 1);
    if Full(h'.video, h'.videoFps, h') then EvictVideo(h') else h'
  }

  function OnVideo(h: Hls, i: Input): Hls
    requires Steady(h) && i.Media? && i.p.kind == Video && Acceptable(h, i)
  {
    var g := StartGop(h, i.p);
    CountVideo(PacketTs(g.(video := g.video.Push(i.p)), i))
  }

  function OnTick(h: Hls, nowMs: nat): Hls {
    if h.preFpsMs == 0 then h.(preFpsMs := nowMs) else h.(preFpsMs := nowMs, videoFps := 0, audioFps := 0)
  }

  /** The segment under way is the last one. */
  predicate Steady(h: Hls) {
    if h.ts.items == [] then h.tsSeq == h.ts.first == 0 && h.preVideo == 0 else h.ts.Next() == h.tsSeq + 1
  }

  predicate Legal(h: Hls, i: Input) {
    && Acceptable(h, i)
    && (i.NewAdts? ==> |i.adts| == 7)
  }

  function Step(h: Hls, i: Input): Hls
    requires Steady(h) && Legal(h, i)
  {
    match i
    case Media(p, _) => if p.kind == Audio then OnAudio(h, i) else OnVideo(h, i)
    case NewSets(sps, pps) => h.(config := h.config.(sps := sps, pps := pps))
    case NewAdts(adts) => h.(config := h.config.(adts := Some(adts)))
    case Tick(nowMs) => OnTick(h, nowMs)
  }

  /** Packing touches only the segment under way and the counters. */
  lemma PacketTsShape(h: Hls, i: Input)
    requires i.Media? && Acceptable(h, i) && Poised(h)
    ensures var h' := PacketTs(h, i);
            && h' == h.(ts := h'.ts, counters := h'.counters)
            && h'.ts.first == h.ts.first && h'.ts.items != [] && h'.ts.Next() == h.tsSeq + 1
            && (forall k: nat :: h.ts.Has(k) && k < h.tsSeq ==> h'.ts.At(k) == h.ts.At(k))
  {
    hide Packets;
  }

  lemma StaysSteady(h: Hls, i: Input)
    requires Steady(h) && Legal(h, i)
    ensures Steady(Step(h, i))
  {
    hide PacketTs;
    if i.Media? {
      if i.p.kind == Audio {
        PacketTsShape(h.(audio := h.audio.Push(i.p)), i);
      } else {
        var g := StartGop(h, i.p);
        PacketTsShape(g.(video := g.video.Push(i.p)), i);
      }
    }
  }

  predicate LegalRun(ins: seq<Input>)
    decreases |ins|, 0
  {
    ins == [] || (LegalRun(ins[..|ins| - 1]) && Legal(Run(ins[..|ins| - 1]), Last(ins)))
  }

  function Run(ins: seq<Input>): (h: Hls)
    requires LegalRun(ins)
    ensures Steady(h)
    decreases |ins|, 1
  {
    if ins == [] then INITIAL
    else
      StaysSteady(Run(ins[..|ins| - 1]), Last(ins));
      Step(Run(ins[..|ins| - 1]), Last(ins))
  }

  /** The payloads that have arrived. */
  function Arrived(ins: seq<Input>): seq<Payload> {
    if ins == [] then []
    else if Last(ins).Media? then Arrived(ins[..|ins| - 1]) + [Last(ins).p]
    else Arrived(ins[..|ins| - 1])
  }

  // ---------------------------------------------------------------------------------------------
  // What every step keeps
  // ---------------------------------------------------------------------------------------------

  function Keys(ps: seq<Payload>): nat {
    if ps == [] then 0 else Keys(ps[..|ps| - 1]) + if Last(ps).iFrame then 1 else 0
  }

  /** The queue is the end of everything that has arrived on the stream. */
  predicate Tails(q: Window<Payload>, all: seq<Payload>) {
    q.first <= |all| && q.items == all[q.first..]
  }

  /** `k` is the place of the last key frame. */
  predicate LastKey(all: seq<Payload>, k: nat) {
    k < |all| && all[k].iFrame && forall j :: k < j < |all| ==> !all[j].iFrame
  }

  /** Nothing has been evicted while there was one segment; after that there are at least as many key frames as segments. */
  predicate EnoughKeys(h: Hls) {
    if h.tsSeq == 0 then h.video.first == 0 && |h.ts.items| <= 1 else Keys(h.video.items) >= |h.ts.items|
  }

  predicate Retains(h: Hls, all: seq<Payload>) {
    && Tails(h.video, all) && Steady(h) && EnoughKeys(h)
    && (if Keys(all) == 0 then h.preVideo == 0 && h.tsSeq == 0 else LastKey(all, h.preVideo) && h.video.first <= h.preVideo)
  }

  lemma {:induction false} KeysDrop(ps: seq<Payload>)
    requires ps != []
    ensures Keys(ps) == Keys(ps[1..]) + if ps[0].iFrame then 1 else 0
    decreases |ps|
  {
    if |ps| > 1 {
      KeysDrop(ps[..|ps| - 1]);
      assert ps[1..][..|ps| - 2] == ps[..|ps| - 1][1..];
    } else {
      assert ps[..0] == [] && ps[1..] == [];
    }
  }

  lemma {:induction false} KeysSuffix(all: seq<Payload>, i: nat)
    requires i <= |all|
    ensures Keys(all[i..]) <= Keys(all)
    decreases i
  {
    if i == 0 {
      assert all[0..] == all;
    } else {
      KeysSuffix(all, i - 1);
      KeysDrop(all[i - 1..]);
      assert all[i - 1..][1..] == all[i..];
    }
  }

  lemma {:induction false} HasKey(ps: seq<Payload>, k: nat)
    requires k < |ps| && ps[k].iFrame
    ensures Keys(ps) > 0
    decreases |ps|
  {
    if k < |ps| - 1 {
      HasKey(ps[..|ps| - 1], k);
    }
  }

  lemma {:induction false} NoKeys(ps: seq<Payload>)
    requires forall j :: 0 <= j < |ps| ==> !ps[j].iFrame
    ensures Keys(ps) == 0
    decreases |ps|
  {
    if ps != [] {
      NoKeys(ps[..|ps| - 1]);
    }
  }

  lemma {:induction false} KeysSnoc(ps: seq<Payload>, p: Payload)
    ensures Keys(ps + [p]) == Keys(ps) + if p.iFrame then 1 else 0
  {
    assert (ps + [p])[..|ps|] == ps;
  }

  lemma TailsPush(q: Window<Payload>, all: seq<Payload>, p: Payload)
    requires Tails(q, all)
    ensures Tails(q.Push(p), all + [p]) && q.Next() == |all|
  {
    assert (all + [p])[q.first..] == all[q.first..] + [p];
  }

  lemma TailsPop(q: Window<Payload>, all: seq<Payload>)
    requires Tails(q, all) && q.items != []
    ensures Tails(q.Pop(), all)
  {
    assert all[q.first..][1..] == all[q.first + 1..];
  }

  /** A window with more than one key frame does not start with the last one. */
  lemma {:induction false} MoreThanOne(q: Window<Payload>, all: seq<Payload>, k: nat)
    requires Tails(q, all) && LastKey(all, k) && q.first <= k && Keys(q.items) > 1
    ensures q.first < k
  {
    if q.first == k {
      KeysDrop(q.items);
      forall j | 0 <= j < |q.items[1..]| ensures !q.items[1..][j].iFrame {
        assert q.items[1..][j] == all[k + 1 + j];
      }
      NoKeys(q.items[1..]);
    }
  }

  /** Once a key frame has arrived the last one stays in the queue, whatever is evicted. */
  lemma {:induction false} EvictionRetains(h: Hls, all: seq<Payload>)
    requires Retains(h, all) && |h.ts.items| > 10 && h.video.items != []
    ensures Retains(EvictVideo(h), all)
  {
    KeysDrop(h.video.items);
    TailsPop(h.video, all);
    if Keys(all) > 0 {
      MoreThanOne(h.video, all, h.preVideo);
    }
  }

  lemma {:induction false} LastKeyStays(all: seq<Payload>, p: Payload, k: nat)
    requires LastKey(all, k) && !p.iFrame
    ensures LastKey(all + [p], k)
  {
  }

  /** After a key frame has closed a segment and before the frame is packed. */
  lemma {:induction false} VideoPushed(h: Hls, all: seq<Payload>, p: Payload)
    requires Retains(h, all) && p.kind == Video
    ensures var g := StartGop(h, p);
            var g' := g.(video := g.video.Push(p));
            && Tails(g'.video, all + [p]) && Poised(g') && g'.ts == h.ts && g'.config == h.config
            && (if Keys(all + [p]) == 0 then g'.preVideo == 0 && g'.tsSeq == 0
                else LastKey(all + [p], g'.preVideo) && g'.video.first <= g'.preVideo)
            && (if g'.tsSeq == 0 then g'.video.first == 0 && |g'.ts.items| <= 1
                else Keys(g'.video.items) >= |g'.ts.items| + if g'.ts.Next() == g'.tsSeq then 1 else 0)
  {
    TailsPush(h.video, all, p);
    KeysSnoc(all, p);
    KeysSnoc(h.video.items, p);
    if p.iFrame {
      assert LastKey(all + [p], |all|);
      if h.preVideo != 0 && h.tsSeq == 0 {
        assert all[0..] == all;
        assert h.video.items == all;
      }
    } else if Keys(all) > 0 {
      LastKeyStays(all, p, h.preVideo);
    }
  }

  lemma {:induction false} VideoRetains(h: Hls, i: Input, all: seq<Payload>)
    requires Retains(h, all) && Legal(h, i) && i.Media? && i.p.kind == Video
    ensures Retains(OnVideo(h, i), all + [i.p])
  {
    hide PacketTs, Keys, LastKey, StartGop, EvictVideo;
    var g := StartGop(h, i.p);
    var g' := g.(video := g.video.Push(i.p));
    VideoPushed(h, all, i.p);
    PacketTsShape(g', i);
    var packed := PacketTs(g', i);
    var h' := packed.(videoFps := packed.videoFps + 1);
    assert Retains(h', all + [i.p]);
    if Full(h'.video, h'.videoFps, h') {
      EvictionRetains(h', all + [i.p]);
    }
  }

  lemma {:induction false} StepRetains(h: Hls, i: Input, all: seq<Payload>)
    requires Retains(h, all) && Legal(h, i)
    ensures Retains(Step(h, i), if i.Media? && i.p.kind == Video then all + [i.p] else all)
  {
    hide PacketTs, Keys, LastKey, StartGop, OnVideo, Tails;
    StaysSteady(h, i);
    if i.Media? {
      if i.p.kind == Audio {
        PacketTsShape(h.(audio := h.audio.Push(i.p)), i);
      } else {
        VideoRetains(h, i, all);
      }
    }
  }

  /**
   Retention: in every run the video queue is the end of all arrivals, and from the first key frame on it contains the
   last key frame, at the place the muxer has noted.
   */
  lemma {:induction false} LastGopIsRetained(ins: seq<Input>)
    requires LegalRun(ins)
    ensures Retains(Run(ins), Kept(Arrived(ins), Video))
    decreases |ins|
  {
    hide Step, Kept;
    if ins == [] {
      NothingRetained();
      var none: seq<Payload> := [];
      assert none[0..] == none;
    } else {
      var init, i := ins[..|ins| - 1], Last(ins);
      LastGopIsRetained(init);
      StepRetains(Run(init), i, Kept(Arrived(init), Video));
      ArrivedStep(init, i, Video);
      assert init + [i] == ins;
    }
  }

  lemma NothingRetained()
    ensures Kept(Arrived([]), Video) == [] && Retains(INITIAL, [])
  {
  }

  lemma ArrivedStep(init: seq<Input>, i: Input, kind: Kind)
    ensures Kept(Arrived(init + [i]), kind)
            == if i.Media? && i.p.kind == kind then Kept(Arrived(init), kind) + [i.p] else Kept(Arrived(init), kind)
  {
    assert (init + [i])[..|init|] == init;
    if i.Media? {
      assert (Arrived(init) + [i.p])[..|Arrived(init)|] == Arrived(init);
    }
  }

  lemma {:induction false} AudioTails(ins: seq<Input>)
    requires LegalRun(ins)
    ensures Tails(Run(ins).audio, Kept(Arrived(ins), Audio)) && Run(ins).preAudio <= |Kept(Arrived(ins), Audio)|
    decreases |ins|
  {
    if ins == [] {
      var none: seq<Payload> := [];
      assert none[0..] == none;
    } else {
      var init, i := ins[..|ins| - 1], Last(ins);
      AudioTails(init);
      AudioStep(Run(init), i, Kept(Arrived(init), Audio));
      ArrivedStep(init, i, Audio);
      assert init + [i] == ins;
    }
  }

  lemma AudioStep(h: Hls, i: Input, all: seq<Payload>)
    requires Tails(h.audio, all) && h.preAudio <= |all| && Steady(h) && Legal(h, i)
    ensures var all' := if i.Media? && i.p.kind == Audio then all + [i.p] else all;
            Tails(Step(h, i).audio, all') && Step(h, i).preAudio <= |all'|
  {
    hide PacketTs;
    if i.Media? {
      if i.p.kind == Audio {
        TailsPush(h.audio, all, i.p);
        PacketTsShape(h.(audio := h.audio.Push(i.p)), i);
        TailsPop(h.audio.Push(i.p), all + [i.p]);
      } else {
        var g := StartGop(h, i.p);
        PacketTsShape(g.(video := g.video.Push(i.p)), i);
      }
    }
  }

  /** How many audio frames arrived before the last key frame. */
  function AudioBeforeKey(all: seq<Payload>): nat {
    if all == [] then 0
    else if Last(all).kind == Video && Last(all).iFrame then |Kept(all[..|all| - 1], Audio)|
    else AudioBeforeKey(all[..|all| - 1])
  }

  lemma AudioPlaceStep(h: Hls, i: Input)
    requires Steady(h) && Legal(h, i)
    ensures Step(h, i).preAudio == if i.Media? && i.p.kind == Video && i.p.iFrame then h.audio.Next() else h.preAudio
  {
    hide PacketTs;
    if i.Media? {
      if i.p.kind == Audio {
        PacketTsShape(h.(audio := h.audio.Push(i.p)), i);
      } else {
        var g := StartGop(h, i.p);
        PacketTsShape(g.(video := g.video.Push(i.p)), i);
      }
    }
  }

  /** The place of the audio that is noted with a key frame: all audio that had arrived before it. */
  lemma {:induction false} AudioPlaceIsNoted(ins: seq<Input>)
    requires LegalRun(ins)
    ensures Run(ins).preAudio == AudioBeforeKey(Arrived(ins))
    decreases |ins|
  {
    hide Step, Kept;
    if ins != [] {
      var init, i := ins[..|ins| - 1], Last(ins);
      AudioPlaceIsNoted(init);
      AudioPlaceStep(Run(init), i);
      AudioTails(init);
      if i.Media? {
        assert (Arrived(init) + [i.p])[..|Arrived(init)|] == Arrived(init);
      }
    }
  }

  // ---------------------------------------------------------------------------------------------
  // The fast start
  // ---------------------------------------------------------------------------------------------

  /** The queue from a place on, if that place is still in it. */
  function From(q: Window<Payload>, k: nat): seq<Payload> {
    if q.Has(k) then q.items[k - q.first..] else []
  }

  /** Both streams in one, by decoding time; audio goes first when the times are equal. */
  function Merge(audio: seq<Payload>, video: seq<Payload>): seq<Payload>
    decreases |audio| + |video|
  {
    if audio == [] then video
    else if video == [] then audio
    else if audio[0].dts > video[0].dts then [video[0]] + Merge(audio, video[1..])
    else [audio[0]] + Merge(audio[1..], video)
  }

  function FastOut(h: Hls): seq<Payload> {
    Merge(From(h.audio, h.preAudio), From(h.video, h.preVideo))
  }

  predicate AllOfKind(ps: seq<Payload>, kind: Kind) {
    forall i :: 0 <= i < |ps| ==> ps[i].kind == kind
  }

  lemma {:induction false} KeptCons(p: Payload, ps: seq<Payload>, kind: Kind)
    ensures Kept([p] + ps, kind) == if p.kind == kind then [p] + Kept(ps, kind) else Kept(ps, kind)
    decreases |ps|
  {
    var s := [p] + ps;
    if ps == [] {
      assert s[..|s| - 1] == [] && s == [p];
    } else {
      assert s[..|s| - 1] == [p] + ps[..|ps| - 1] && Last(s) == Last(ps);
      KeptCons(p, ps[..|ps| - 1], kind);
      if Last(ps).kind == kind {
        assert [p] + Kept(ps[..|ps| - 1], kind) + [Last(ps)] == [p] + (Kept(ps[..|ps| - 1], kind) + [Last(ps)]);
      }
    }
  }

  lemma {:induction false} KeptPure(ps: seq<Payload>, of: Kind, kind: Kind)
    requires AllOfKind(ps, of)
    ensures Kept(ps, kind) == if of == kind then ps else []
    decreases |ps|
  {
    if ps != [] {
      var init := ps[..|ps| - 1];
      KeptPure(init, of, kind);
      if of == kind {
        assert Kept(ps, kind) == init + [Last(ps)] == ps;
      } else {
        assert Kept(ps, kind) == Kept(init, kind);
      }
    }
  }

  /** Merging keeps both streams whole and in order. */
  lemma {:induction false} MergeKeeps(audio: seq<Payload>, video: seq<Payload>, kind: Kind)
    requires AllOfKind(audio, Audio) && AllOfKind(video, Video)
    ensures Kept(Merge(audio, video), kind) == if kind == Audio then audio else video
    decreases |audio| + |video|
  {
    if audio == [] {
      KeptPure(video, Video, kind);
    } else if video == [] {
      KeptPure(audio, Audio, kind);
    } else if audio[0].dts > video[0].dts {
      MergeKeeps(audio, video[1..], kind);
      KeptCons(video[0], Merge(audio, video[1..]), kind);
      assert video == [video[0]] + video[1..];
    } else {
      MergeKeeps(audio[1..], video, kind);
      KeptCons(audio[0], Merge(audio[1..], video), kind);
      assert audio == [audio[0]] + audio[1..];
    }
  }

  predicate Sorted(ps: seq<Payload>) {
    forall i, j :: 0 <= i < j < |ps| ==> ps[i].dts <= ps[j].dts
  }

  predicate AtLeast(t: nat, ps: seq<Payload>) {
    forall i :: 0 <= i < |ps| ==> t <= ps[i].dts
  }

  lemma {:induction false} MergeAtLeast(t: nat, audio: seq<Payload>, video: seq<Payload>)
    requires AtLeast(t, audio) && AtLeast(t, video)
    ensures AtLeast(t, Merge(audio, video))
    decreases |audio| + |video|
  {
    if audio != [] && video != [] {
      if audio[0].dts > video[0].dts {
        MergeAtLeast(t, audio, video[1..]);
      } else {
        MergeAtLeast(t, audio[1..], video);
      }
    }
  }

  /** Merging two streams in order of time gives one in order of time. */
  lemma {:induction false} MergeSorts(audio: seq<Payload>, video: seq<Payload>)
    requires Sorted(audio) && Sorted(video)
    ensures Sorted(Merge(audio, video))
    decreases |audio| + |video|
  {
    if audio != [] && video != [] {
      if audio[0].dts > video[0].dts {
        MergeSorts(audio, video[1..]);
        MergeAtLeast(video[0].dts, audio, video[1..]);
      } else {
        MergeSorts(audio[1..], video);
        MergeAtLeast(audio[0].dts, audio[1..], video);
      }
    }
  }

  lemma {:induction false} KeptIsPure(ps: seq<Payload>, kind: Kind)
    ensures AllOfKind(Kept(ps, kind), kind)
    decreases |ps|
  {
    if ps != [] {
      KeptIsPure(ps[..|ps| - 1], kind);
    }
  }

  lemma SuffixPure(ps: seq<Payload>, k: nat, kind: Kind)
    requires AllOfKind(ps, kind) && k <= |ps|
    ensures AllOfKind(ps[k..], kind) && AllOfKind([], kind)
  {
  }

  lemma NothingSorted()
    ensures Sorted([])
  {
  }

  lemma FromTail(q: Window<Payload>, all: seq<Payload>, k: nat)
    requires Tails(q, all)
    ensures From(q, k) == if q.first <= k < |all| then all[k..] else []
  {
    if q.first <= k < |all| {
      assert all[q.first..][k - q.first..] == all[k..];
    }
  }

  /**
   The fast start contains all video from the last key frame on, and all audio from the place noted with it if that is
   still in the queue; each in order, and the whole in order of time if both streams are.
   */
  lemma {:induction false} FastOutIsLastGop(ins: seq<Input>)
    requires LegalRun(ins) && Keys(Kept(Arrived(ins), Video)) > 0
    ensures var h, video, audio := Run(ins), Kept(Arrived(ins), Video), Kept(Arrived(ins), Audio);
            && LastKey(video, h.preVideo) && Kept(FastOut(h), Video) == video[h.preVideo..]
            && h.preAudio <= |audio|
            && Kept(FastOut(h), Audio) == (if h.audio.first <= h.preAudio then audio[h.preAudio..] else [])
            && (Sorted(video[h.preVideo..]) && Sorted(audio[h.preAudio..]) ==> Sorted(FastOut(h)))
  {
    hide Merge, Sorted, Kept, Arrived, AllOfKind;
    var h, video, audio := Run(ins), Kept(Arrived(ins), Video), Kept(Arrived(ins), Audio);
    LastGopIsRetained(ins);
    AudioTails(ins);
    FromTail(h.video, video, h.preVideo);
    FromTail(h.audio, audio, h.preAudio);
    KeptIsPure(Arrived(ins), Video);
    KeptIsPure(Arrived(ins), Audio);
    SuffixPure(video, h.preVideo, Video);
    SuffixPure(audio, h.preAudio, Audio);
    var a, v := From(h.audio, h.preAudio), From(h.video, h.preVideo);
    NothingSorted();
    MergeKeeps(a, v, Video);
    MergeKeeps(a, v, Audio);
    if Sorted(video[h.preVideo..]) && Sorted(audio[h.preAudio..]) {
      MergeSorts(a, v);
    }
  }

  // ---------------------------------------------------------------------------------------------
  // Segments and the playlist
  // ---------------------------------------------------------------------------------------------

  /** The playlist of the three segments before the one under way. */
  function LastThree(h: Hls): Option<seq<Entry>>
    requires h.tsSeq >= 3 && h.ts.first + 3 <= h.tsSeq <= h.ts.Next()
  {
    Some([Entry(h.tsSeq - 3, h.ts.At(h.tsSeq - 3).duration), Entry(h.tsSeq - 2, h.ts.At(h.tsSeq - 2).duration),
          Entry(h.tsSeq - 1, h.ts.At(h.tsSeq - 1).duration)])
  }

  /** The playlist names the three segments before the one under way, with their durations, and all are still there. */
  predicate Playable(h: Hls) {
    if h.tsSeq < 3 then h.m3u8 == None && (h.ts.items != [] ==> h.ts.first == 0)
    else
      && h.ts.first + 3 <= h.tsSeq && h.ts.Next() == h.tsSeq + 1
      && h.m3u8 == LastThree(h)
  }

  lemma PlayableAfterCut(h: Hls, p: Payload)
    requires Playable(h) && Steady(h)
    ensures var g := StartGop(h, p);
            && g.ts == h.ts && g.config == h.config && Poised(g) && (g.ts.items != [] ==> g.tsSeq < 3 ==> g.ts.first == 0)
            && (g.tsSeq < 3 ==> g.m3u8 == None)
            && (g.tsSeq >= 3 ==>
                  && g.ts.first + 3 <= g.tsSeq
                  && g.m3u8 == LastThree(g))
            && (g.ts.items == [] ==> g.ts.first == 0)
  {
  }

  lemma PlayablePacked(g: Hls, h': Hls)
    requires Poised(g) && (g.ts.items != [] ==> g.tsSeq < 3 ==> g.ts.first == 0) && (g.tsSeq < 3 ==> g.m3u8 == None)
    requires g.tsSeq >= 3 ==> g.ts.first + 3 <= g.tsSeq && g.m3u8 == LastThree(g)
    requires h'.ts.items != [] && h'.ts.Next() == g.tsSeq + 1 && h'.tsSeq == g.tsSeq && h'.m3u8 == g.m3u8
    requires h'.ts.first == g.ts.first && (g.ts.items == [] ==> g.ts.first == 0)
    requires forall k: nat :: g.ts.Has(k) && k < g.tsSeq ==> h'.ts.At(k) == g.ts.At(k)
    ensures Playable(h')
  {
  }

  lemma PlayableEvicted(h: Hls)
    requires Playable(h) && |h.ts.items| > 10 && h.video.items != [] && Steady(h)
    ensures Playable(EvictVideo(h))
  {
  }

  lemma PlayableVideo(h: Hls, i: Input)
    requires Playable(h) && Steady(h) && Legal(h, i) && i.Media? && i.p.kind == Video
    ensures Playable(OnVideo(h, i))
  {
    hide PacketTs, StartGop, EvictVideo, Playable;
    var g := StartGop(h, i.p);
    PlayableAfterCut(h, i.p);
    var g' := g.(video := g.video.Push(i.p));
    PacketTsShape(g', i);
    var packed := PacketTs(g', i);
    PlayablePacked(g', packed);
    var h' := packed.(videoFps := packed.videoFps + 1);
    PlayableSame(packed, h');
    if Full(h'.video, h'.videoFps, h') {
      PlayableEvicted(h');
    }
  }

  lemma PlayableSame(h: Hls, h': Hls)
    requires Playable(h) && h'.ts == h.ts && h'.tsSeq == h.tsSeq && h'.m3u8 == h.m3u8
    ensures Playable(h')
  {
  }

  lemma PlayableStep(h: Hls, i: Input)
    requires Playable(h) && Steady(h) && Legal(h, i)
    ensures Playable(Step(h, i))
  {
    hide PacketTs, OnVideo;
    if i.Media? {
      if i.p.kind == Audio {
        PacketTsShape(h.(audio := h.audio.Push(i.p)), i);
      } else {
        PlayableVideo(h, i);
      }
    }
  }

  predicate Named(h: Hls, entries: seq<Entry>) {
    && |entries| == 3
    && forall k :: 0 <= k < 3 ==> h.ts.Has(entries[k].name) && entries[k].duration == h.ts.At(entries[k].name).duration
  }

  /** In every reachable state each segment that the playlist names is in the segment queue. */
  lemma {:induction false} PlaylistIsLive(ins: seq<Input>)
    requires LegalRun(ins)
    ensures var h := Run(ins);
            && Playable(h)
            && (h.m3u8.Some? ==> Named(h, h.m3u8.value))
    decreases |ins|
  {
    hide Step;
    if ins != [] {
      PlaylistIsLive(ins[..|ins| - 1]);
      PlayableStep(Run(ins[..|ins| - 1]), Last(ins));
    }
  }

  /** Every segment but the very first starts with a key frame. */
  predicate KeyStarts(h: Hls) {
    forall k: nat :: k < h.ts.Next() && h.ts.Has(k) ==> h.ts.At(k).frames != [] && (k > 0 ==> h.ts.At(k).frames[0].frame.p.iFrame)
  }

  lemma PacketTsOpens(h: Hls, i: Input)
    requires i.Media? && Acceptable(h, i) && Poised(h)
    ensures var m := PacketTs(h, i).ts.At(h.tsSeq);
            m.frames == (if h.ts.Has(h.tsSeq) then h.ts.At(h.tsSeq).frames else []) + [SentOf(h, i)]
  {
    hide Packets;
  }

  lemma KeyStartsPacked(h: Hls, i: Input)
    requires i.Media? && Acceptable(h, i) && Poised(h) && KeyStarts(h)
    requires !h.ts.Has(h.tsSeq) && h.tsSeq > 0 ==> i.p.iFrame
    ensures KeyStarts(PacketTs(h, i))
  {
    hide PacketTs;
    PacketTsShape(h, i);
    PacketTsOpens(h, i);
    var h' := PacketTs(h, i);
    forall k: nat | h'.ts.Has(k)
      ensures h'.ts.At(k).frames != [] && (k > 0 ==> h'.ts.At(k).frames[0].frame.p.iFrame)
    {
      if k < h.tsSeq {
        assert h.ts.Has(k);
      }
    }
  }

  /** Dropping the earliest segments keeps the property. */
  lemma KeyStartsDropped(h: Hls, h': Hls)
    requires KeyStarts(h) && forall k: nat :: h'.ts.Has(k) ==> h.ts.Has(k) && h.ts.At(k) == h'.ts.At(k)
    ensures KeyStarts(h')
  {
  }

  lemma StartGopCuts(h: Hls, p: Payload)
    requires Steady(h)
    ensures var g := StartGop(h, p);
            && g.ts == h.ts && g.config == h.config && g.counters == h.counters && g.video == h.video && g.audio == h.audio
            && Poised(g) && (g.tsSeq == h.tsSeq || (p.iFrame && g.tsSeq == h.tsSeq + 1))
            && (h.ts.items == [] ==> g.tsSeq == 0)
  {
  }

  lemma CountVideoDrops(h: Hls)
    requires Steady(h) && h.ts.items != [] && h.video.items != []
    ensures forall k: nat :: CountVideo(h).ts.Has(k) ==> h.ts.Has(k) && h.ts.At(k) == CountVideo(h).ts.At(k)
  {
  }

  lemma KeyStartsVideo(h: Hls, i: Input)
    requires KeyStarts(h) && Steady(h) && Legal(h, i) && i.Media? && i.p.kind == Video
    ensures KeyStarts(OnVideo(h, i))
  {
    hide PacketTs, KeyStarts, StartGop, CountVideo;
    StartGopCuts(h, i.p);
    var g := StartGop(h, i.p);
    var g' := g.(video := g.video.Push(i.p));
    PacketTsShape(g', i);
    KeyStartsDropped(h, g');
    KeyStartsPacked(g', i);
    CountVideoDrops(PacketTs(g', i));
    KeyStartsDropped(PacketTs(g', i), OnVideo(h, i));
  }

  lemma KeyStartsStep(h: Hls, i: Input)
    requires KeyStarts(h) && Steady(h) && Legal(h, i)
    ensures KeyStarts(Step(h, i))
  {
    hide PacketTs, OnVideo, KeyStarts;
    if i.Media? {
      if i.p.kind == Audio {
        var g := h.(audio := h.audio.Push(i.p));
        PacketTsShape(g, i);
        KeyStartsDropped(h, g);
        KeyStartsPacked(g, i);
        KeyStartsDropped(PacketTs(g, i), Step(h, i));
      } else {
        KeyStartsVideo(h, i);
      }
    } else {
      KeyStartsDropped(h, Step(h, i));
    }
  }

  lemma {:induction false} SegmentsStartWithKeyFrames(ins: seq<Input>)
    requires LegalRun(ins)
    ensures KeyStarts(Run(ins))
    decreases |ins|
  {
    hide Step;
    if ins != [] {
      SegmentsStartWithKeyFrames(ins[..|ins| - 1]);
      KeyStartsStep(Run(ins[..|ins| - 1]), Last(ins));
    }
  }
}
