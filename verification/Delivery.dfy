/** From the muxer's queue of segments to the frames that a reader gets out of each of them. */
module Delivery {
  import opened Bytes
  import opened Media
  import opened AnnexB
  import opened TsPackets
  import opened TsReader
  import opened TsRoundTrip
  import opened TsFrames
  import opened Hls
  import H = Hls
  import opened HlsPackets
  import Publisher
  import AvcRecord

  // ---------------------------------------------------------------------------------------------
  // What the segments hold
  // ---------------------------------------------------------------------------------------------

  function PayloadsOf(xs: seq<Sent>): seq<Payload> {
    if xs == [] then [] else PayloadsOf(xs[..|xs| - 1]) + [Last(xs).frame.p]
  }

  /** The payloads in a queue of segments, in order. */
  function Held(items: seq<TsMedia>): seq<Payload> {
    if items == [] then [] else Held(items[..|items| - 1]) + PayloadsOf(Last(items).frames)
  }

  predicate Suffix(s: seq<Payload>, all: seq<Payload>) {
    |s| <= |all| && s == all[|all| - |s|..]
  }

  lemma PayloadsSnoc(xs: seq<Sent>, x: Sent)
    ensures PayloadsOf(xs + [x]) == PayloadsOf(xs) + [x.frame.p]
  {
    assert (xs + [x])[..|xs|] == xs;
  }

  lemma HeldSnoc(items: seq<TsMedia>, m: TsMedia)
    ensures Held(items + [m]) == Held(items) + PayloadsOf(m.frames)
  {
    assert (items + [m])[..|items|] == items;
  }

  lemma {:induction false} HeldDrop(items: seq<TsMedia>)
    requires items != []
    ensures Held(items) == PayloadsOf(items[0].frames) + Held(items[1..])
    decreases |items|
  {
    hide PayloadsOf;
    if |items| > 1 {
      var init, m := items[..|items| - 1], Last(items);
      HeldDrop(init);
      assert init[1..] + [m] == items[1..];
      HeldSnoc(init[1..], m);
      assert PayloadsOf(items[0].frames) + Held(init[1..]) + PayloadsOf(m.frames)
          == PayloadsOf(items[0].frames) + (Held(init[1..]) + PayloadsOf(m.frames));
    } else {
      assert items[..0] == [] && items[1..] == [];
      assert [] + PayloadsOf(items[0].frames) == PayloadsOf(items[0].frames) + [];
    }
  }

  lemma SuffixSnoc(s: seq<Payload>, all: seq<Payload>, p: Payload)
    requires Suffix(s, all)
    ensures Suffix(s + [p], all + [p])
  {
  }

  lemma SuffixShorter(a: seq<Payload>, b: seq<Payload>, all: seq<Payload>)
    requires Suffix(a + b, all)
    ensures Suffix(b, all)
  {
    assert b == (a + b)[|a|..];
  }

  /** Packing adds the frame behind everything else. */
  lemma PackedIsHeld(h: Hls, i: Input)
    requires i.Media? && Acceptable(h, i) && Poised(h)
    ensures Held(H.PacketTs(h, i).ts.items) == Held(h.ts.items) + [i.p]
  {
    hide Packets, Held, PayloadsOf;
    var o := Opened(h, i.p);
    var m, x := o.ts.At(h.tsSeq), SentOf(h, i);
    var init := o.ts.items[..|o.ts.items| - 1];
    assert o.ts.items == init + [m];
    var m' := m.(duration := i.p.dts - m.firstDts, frames := m.frames + [x]);
    assert H.PacketTs(h, i).ts.items == init + [m'];
    HeldSnoc(init, m);
    HeldSnoc(init, m');
    PayloadsSnoc(m.frames, x);
    assert Held(init) + (PayloadsOf(m.frames) + [i.p]) == Held(init) + PayloadsOf(m.frames) + [i.p];
    if !h.ts.Has(h.tsSeq) {
      HeldSnoc(h.ts.items, TsMedia(i.p.dts, 0, h.counters, []));
      NoPayloads();
      assert Held(h.ts.items) + [] == Held(h.ts.items);
    }
  }

  lemma NoPayloads()
    ensures PayloadsOf([]) == []
  {
  }

  lemma CountVideoHolds(h: Hls, all: seq<Payload>)
    requires Suffix(Held(h.ts.items), all) && h.ts.items != [] && h.video.items != []
    ensures Suffix(Held(CountVideo(h).ts.items), all)
  {
    hide Held, PayloadsOf, Suffix;
    HeldDrop(h.ts.items);
    SuffixShorter(PayloadsOf(h.ts.items[0].frames), Held(h.ts.items[1..]), all);
  }

  lemma StepHolds(h: Hls, i: Input, all: seq<Payload>)
    requires Steady(h) && Legal(h, i) && Suffix(Held(h.ts.items), all)
    ensures Suffix(Held(Step(h, i).ts.items), if i.Media? then all + [i.p] else all)
  {
    hide H.PacketTs, Held, Suffix, CountVideo, StartGop;
    if i.Media? {
      SuffixSnoc(Held(h.ts.items), all, i.p);
      if i.p.kind == Audio {
        PacketTsShape(h.(audio := h.audio.Push(i.p)), i);
        PackedIsHeld(h.(audio := h.audio.Push(i.p)), i);
      } else {
        StartGopCuts(h, i.p);
        var g := StartGop(h, i.p);
        var g' := g.(video := g.video.Push(i.p));
        PacketTsShape(g', i);
        PackedIsHeld(g', i);
        CountVideoHolds(H.PacketTs(g', i), all + [i.p]);
      }
    }
  }

  /** In every run the segments hold the end of everything that has arrived, each frame once and in order. */
  lemma {:induction false} SegmentsHoldArrivals(ins: seq<Input>)
    requires LegalRun(ins)
    ensures Suffix(Held(Run(ins).ts.items), Arrived(ins))
    decreases |ins|
  {
    hide Step;
    if ins != [] {
      SegmentsHoldArrivals(ins[..|ins| - 1]);
      StepHolds(Run(ins[..|ins| - 1]), Last(ins), Arrived(ins[..|ins| - 1]));
    }
  }

  // ---------------------------------------------------------------------------------------------
  // What comes out of a segment
  // ---------------------------------------------------------------------------------------------

  /** Times that survive, well-formed video, and audio with an ADTS header that has no checksum. */
  predicate Deliverable(x: Sent) {
    && x.frame.p.pts * 90 < 0x4000_0000 && x.frame.p.dts * 90 < 0x4000_0000
    && if KindOf(x) == Video then WellFormed(x) else x.frame.config.adts.Some? && x.frame.config.adts.value[1] % 2 == 1
  }

  /** The frame as the reader hands it out: behind a start code, or behind the two-byte audio tag. */
  function Out(x: Sent): Event {
    var p := x.frame.p;
    if KindOf(x) == Video then FrameOut(Video, p.iFrame, p.dts, p.pts, CODE + (Raw(p) + Surplus(x)))
    else FrameOut(Audio, true, p.pts, p.pts, [0xAF, 1] + Raw(p))
  }

  /** Parameter sets are announced before a key frame, the audio configuration before every audio frame. */
  function Announced(x: Sent): seq<Event>
    requires Deliverable(x)
  {
    if KindOf(x) == Audio then [HeaderOut(Audio, AudioConfig(Lead(x.frame)))]
    else if x.frame.p.iFrame then [HeaderOut(Video, Join([x.frame.config.sps, x.frame.config.pps]))]
    else []
  }

  predicate AllDeliverable(xs: seq<Sent>) {
    forall i :: 0 <= i < |xs| ==> Deliverable(xs[i])
  }

  function OutAll(xs: seq<Sent>): seq<Event>
    requires AllDeliverable(xs)
  {
    if xs == [] then [] else Announced(xs[0]) + [Out(xs[0])] + OutAll(xs[1..])
  }

  lemma TwoEvents(a: Event, b: Event)
    ensures [a] + [b] == [a, b] && [] + [b] == [b]
  {
  }

  lemma VideoReadsAsOut(x: Sent)
    requires Deliverable(x) && KindOf(x) == Video
    ensures EventsOf(x) == Some(Announced(x) + [Out(x)])
  {
    hide EventsOf, WellFormed, Surplus, TimeRead, Join, Raw;
    VideoFrameIsDelivered(x);
    TwoEvents(HeaderOut(Video, Join([x.frame.config.sps, x.frame.config.pps])), Out(x));
  }

  lemma AudioReadsAsOut(x: Sent)
    requires Deliverable(x) && KindOf(x) == Audio
    ensures EventsOf(x) == Some(Announced(x) + [Out(x)])
  {
    hide EventsOf, AudioConfig, AudioTime, Raw, Stamp, ReadStamp;
    AudioFrameIsDelivered(x);
    TwoEvents(HeaderOut(Audio, AudioConfig(Lead(x.frame))), Out(x));
  }

  lemma ReadsAsOut(x: Sent)
    requires Deliverable(x)
    ensures EventsOf(x) == Some(Announced(x) + [Out(x)])
  {
    hide EventsOf, Deliverable, Announced, Out;
    if KindOf(x) == Video {
      VideoReadsAsOut(x);
    } else {
      AudioReadsAsOut(x);
    }
  }

  lemma {:induction false} AllRead(xs: seq<Sent>)
    requires AllDeliverable(xs)
    ensures Readable(xs) && EventsOfAll(xs) == OutAll(xs)
    decreases |xs|
  {
    hide EventsOf, Deliverable, Announced, Out;
    forall i | 0 <= i < |xs| ensures EventsOf(xs[i]).Some? {
      ReadsAsOut(xs[i]);
    }
    if xs != [] {
      ReadsAsOut(xs[0]);
      AllRead(xs[1..]);
    }
  }

  lemma {:induction false} StreamIsDeliverable(xs: seq<Sent>, kind: Kind)
    requires AllDeliverable(xs)
    ensures AllDeliverable(StreamOf(xs, kind)) && AllDeliverable(AllButLast(StreamOf(xs, kind)))
    decreases |xs|
  {
    hide Deliverable;
    if xs != [] {
      StreamIsDeliverable(xs[1..], kind);
    }
  }

  function LastOf(s: seq<Sent>): seq<Sent> {
    if s == [] then [] else [Last(s)]
  }

  lemma LastBehind(pending: seq<Sent>, x: Sent, s: seq<Sent>)
    ensures LastOf(pending + ([x] + s)) == LastOf([x] + s)
  {
  }

  lemma {:induction false} LastOfStream(latest: Latest, xs: seq<Sent>, kind: Kind)
    ensures PendingFrame(LatestAfter(latest, xs), kind) == LastOf(PendingFrame(latest, kind) + StreamOf(xs, kind))
    decreases |xs|
  {
    hide LastOf;
    if xs != [] {
      var next, s := latest[KindOf(xs[0]) := xs[0]], StreamOf(xs[1..], kind);
      LastOfStream(next, xs[1..], kind);
      if KindOf(xs[0]) == kind {
        LastBehind(PendingFrame(latest, kind), xs[0], s);
        assert PendingFrame(next, kind) == [xs[0]];
      } else {
        assert PendingFrame(next, kind) == PendingFrame(latest, kind);
      }
    } else {
      assert PendingFrame(latest, kind) + [] == PendingFrame(latest, kind);
      LastPending(latest, kind);
    }
  }

  lemma LastPending(latest: Latest, kind: Kind)
    ensures LastOf(PendingFrame(latest, kind)) == PendingFrame(latest, kind)
  {
  }

  /** The unit that is still pending after a list of frames of one stream. */
  function PendingUnit(s: seq<Sent>): seq<byte> {
    if s == [] then [] else Pes(Last(s))
  }

  /**
   The bytes of a segment, fed to a fresh reader, give back every frame of either stream but the last, in order, with
   its bytes, its times and what announces it; the last one is complete but still pending.
   */
  lemma {:induction false} SegmentIsDelivered(m: TsMedia, kind: Kind)
    requires AllDeliverable(m.frames)
    ensures AllWhole(SegmentOf(m)) && AllDeliverable(AllButLast(StreamOf(m.frames, kind)))
    ensures var r := ParseTs(FRESH, StreamBytes(SegmentOf(m)));
            && r.Some?
            && EventsIn(r.value.out, kind) == OutAll(AllButLast(StreamOf(m.frames, kind)))
            && Pending(r.value, PidOf(kind)) == PendingUnit(StreamOf(m.frames, kind))
  {
    hide ParseTs, AllWhole, StreamBytes, SegmentPackets, Pes, EventsOf, Deliverable, Seen, StreamOf, OutAll;
    var xs := m.frames;
    AllRead(xs);
    SegmentIsRead(xs, m.counters);
    StreamsDoNotMix(map[], xs, kind);
    StreamIsDeliverable(xs, kind);
    AllRead(AllButLast(StreamOf(xs, kind)));
    LastOfStream(map[], xs, kind);
    assert PendingFrame(map[], kind) + StreamOf(xs, kind) == StreamOf(xs, kind);
  }

  /** Every segment of every run, whatever has been evicted. */
  lemma {:induction false} EverySegmentIsDelivered(ins: seq<Input>, k: nat, kind: Kind)
    requires LegalRun(ins) && Run(ins).ts.Has(k) && AllDeliverable(Run(ins).ts.At(k).frames)
    ensures var m := Run(ins).ts.At(k);
            && AllWhole(SegmentOf(m)) && AllDeliverable(AllButLast(StreamOf(m.frames, kind)))
            && var r := ParseTs(FRESH, StreamBytes(SegmentOf(m)));
               && r.Some?
               && EventsIn(r.value.out, kind) == OutAll(AllButLast(StreamOf(m.frames, kind)))
               && Pending(r.value, PidOf(kind)) == PendingUnit(StreamOf(m.frames, kind))
    ensures Suffix(Held(Run(ins).ts.items), Arrived(ins))
  {
    SegmentIsDelivered(Run(ins).ts.At(k), kind);
    SegmentsHoldArrivals(ins);
  }

  // ---------------------------------------------------------------------------------------------
  // Parameter sets, all the way round
  // ---------------------------------------------------------------------------------------------

  lemma FreeIsFreeAtEnd(u: seq<byte>)
    requires Free(u)
    ensures FreeAtEnd(u)
  {
  }

  lemma SetsAreClean(sps: seq<byte>, pps: seq<byte>)
    requires Free(sps) && Free(pps) && pps != []
    ensures Clean([sps, pps])
  {
    hide Free, FreeAtEnd;
    FreeIsFreeAtEnd(pps);
  }

  /**
   The header that the reader gathers from a key frame gives the muxer that receives it the parameter sets that the
   sending muxer packed before the frame.
   */
  lemma HeaderIsRecovered(x: Sent, before: AvcRecord.Sets)
    requires Deliverable(x) && KindOf(x) == Video && x.frame.p.iFrame
    ensures Announced(x) == [HeaderOut(Video, Join([x.frame.config.sps, x.frame.config.pps]))]
    ensures Publisher.SetsOf(Announced(x)[0].data, before) == Some(AvcRecord.Sets(x.frame.config.sps, x.frame.config.pps))
  {
    hide Clean, Join, Publisher.SetsOf, Surplus, Free, FreeAtEnd;
    SetsAreClean(x.frame.config.sps, x.frame.config.pps);
    Publisher.ParameterSetsSurvive(x.frame.config.sps, x.frame.config.pps, before);
  }

  // ---------------------------------------------------------------------------------------------
  // A frame that does not come out byte for byte
  // ---------------------------------------------------------------------------------------------

  const PLAIN_DATA: seq<byte> := [0, 0, 0, 8, 0x41, 1, 2, 3, 4, 5, 6, 7]
  const PLAIN: Payload := Payload(Video, false, 0, 0, PLAIN_DATA)
  const BEHIND: seq<byte> := [0xFF, 0xFF, 0xFF, 0xFF, 0xFF, 0xFF, 0xFF, 0xFF, 0xFF]
  const PLAIN_SENT: Sent := Sent(Frame(PLAIN, Config([], [], None)), BEHIND)

  lemma PlainIsDeliverable()
    ensures Deliverable(PLAIN_SENT) && Surplus(PLAIN_SENT) == [0xFF, 0xFF, 0xFF, 0xFF, 0xFF, 0xFF]
    ensures Raw(PLAIN) == [0x41, 1, 2, 3, 4, 5, 6, 7] && KindOf(PLAIN_SENT) == Video
  {
    hide Copied, FrameEnd;
    var x := PLAIN_SENT;
    assert |Raw(PLAIN)| == 8;
    SurplusLength(x);
    SixCopied(x.frame);
    assert Surplus(x) == BEHIND[..6];
  }

  lemma SixCopied(f: Frame)
    requires Packable(f) && f.p.kind == Video && |Raw(f.p)| < 151
    ensures Copied(f) == 6
  {
  }

  lemma {:induction false} TwoPlainFrames()
    ensures var ins := [H.Media(PLAIN, BEHIND), H.Media(PLAIN, BEHIND)];
            && LegalRun(ins) && Run(ins).ts.Has(0) && Run(ins).ts.At(0).frames == [PLAIN_SENT, PLAIN_SENT]
  {
    hide H.PacketTs;
    var i := H.Media(PLAIN, BEHIND);
    var one, two := [i], [i, i];
    assert one[..0] == [] && two[..1] == one;
    PlainStep(INITIAL, i, []);
    PlainStep(Run(one), i, [PLAIN_SENT]);
  }

  /** One more plain frame in the first segment. */
  lemma PlainStep(h: Hls, i: Input, before: seq<Sent>)
    requires i == H.Media(PLAIN, BEHIND) && h.config == Config([], [], None) && Steady(h) && h.ts.first == 0 && h.tsSeq == 0
    requires h.ts.items == [] ==> before == []
    requires h.ts.items != [] ==> |h.ts.items| == 1 && h.ts.items[0].frames == before
    ensures Legal(h, i)
    ensures var h' := Step(h, i);
            && h'.config == h.config && Steady(h') && h'.ts.first == 0 && h'.tsSeq == 0 && |h'.ts.items| == 1
            && h'.ts.items[0].frames == before + [PLAIN_SENT]
  {
    hide H.PacketTs;
    assert |Raw(PLAIN)| == 8;
    assert Acceptable(h, i);
    var g := h.(video := h.video.Push(PLAIN));
    PacketTsShape(g, i);
    PacketTsOpens(g, i);
    assert [] + [PLAIN_SENT] == [PLAIN_SENT];
  }

  /**
   A reachable run with a frame of eight bytes: what the reader hands out is the frame followed by six bytes from behind
   it in memory.
   */
  lemma {:induction false} FrameIsPadded()
    ensures var ins := [H.Media(PLAIN, BEHIND), H.Media(PLAIN, BEHIND)];
            && LegalRun(ins) && Run(ins).ts.Has(0)
            && var m := Run(ins).ts.At(0);
               && AllWhole(SegmentOf(m))
               && var r := ParseTs(FRESH, StreamBytes(SegmentOf(m)));
                  && r.Some?
                  && EventsIn(r.value.out, Video)
                     == [FrameOut(Video, false, 0, 0,
                                  CODE + ([0x41, 1, 2, 3, 4, 5, 6, 7] + [0xFF, 0xFF, 0xFF, 0xFF, 0xFF, 0xFF]))]
  {
    hide ParseTs, AllWhole, StreamBytes, SegmentPackets, Deliverable, LegalRun, Run, EventsIn, Surplus;
    TwoPlainFrames();
    PlainIsDeliverable();
    var m := Run([H.Media(PLAIN, BEHIND), H.Media(PLAIN, BEHIND)]).ts.At(0);
    SegmentIsDelivered(m, Video);
    PlainStream();
    PlainOut();
  }

  lemma PlainStream()
    ensures AllButLast(StreamOf([PLAIN_SENT, PLAIN_SENT], Video)) == [PLAIN_SENT]
  {
    var xs := [PLAIN_SENT, PLAIN_SENT];
    assert xs[1..] == [PLAIN_SENT] && xs[1..][1..] == [];
    assert StreamOf([PLAIN_SENT], Video) == [PLAIN_SENT] + StreamOf([], Video);
    assert [PLAIN_SENT] + [] == [PLAIN_SENT];
  }

  lemma PlainOut()
    requires Deliverable(PLAIN_SENT)
    ensures OutAll([PLAIN_SENT])
            == [FrameOut(Video, false, 0, 0, CODE + ([0x41, 1, 2, 3, 4, 5, 6, 7] + [0xFF, 0xFF, 0xFF, 0xFF, 0xFF, 0xFF]))]
  {
    hide Deliverable, Surplus;
    PlainIsDeliverable();
    assert [PLAIN_SENT][1..] == [];
    assert Announced(PLAIN_SENT) == [];
    assert [] + [Out(PLAIN_SENT)] + [] == [Out(PLAIN_SENT)];
  }
}
