/** The HLS muxer itself: queues and segments in ordered maps, counters and packets made in place. */
module MediaMuxer {
  import opened Bytes
  import opened Media
  import opened BitIO
  import opened BoxWriter
  import opened TsPackets
  import opened TsRoundTrip
  import opened TsWriter
  import opened TsTables
  import opened Hls
  import H = Hls
  import opened HlsPackets
  import opened TsReader
  import opened AnnexB
  import opened Publisher
  import AvcRecord

  // ---------------------------------------------------------------------------------------------
  // Windows as maps
  // ---------------------------------------------------------------------------------------------

  function Keyed<T>(w: Window<T>): map<nat, T> {
    map k: nat | w.first <= k < w.Next() :: w.At(k)
  }

  lemma KeyedPush<T>(w: Window<T>, x: T)
    ensures Keyed(w.Push(x)) == Keyed(w)[w.Next() := x]
  {
    var a, b := Keyed(w.Push(x)), Keyed(w)[w.Next() := x];
    forall k: nat ensures k in a <==> k in b {
      assert w.Push(x).Next() == w.Next() + 1;
    }
    forall k | k in a ensures a[k] == b[k] {
      assert a[k] == (w.items + [x])[k - w.first];
    }
  }

  lemma KeyedPop<T>(w: Window<T>)
    requires w.items != []
    ensures Keyed(w.Pop()) == Keyed(w) - {w.first} && w.first in Keyed(w) && Keyed(w)[w.first] == w.items[0]
    ensures MinKey(Keyed(w).Keys) == w.first
  {
    assert w.Pop().Next() == w.Next();
    forall k: nat | w.first < k < w.Next() ensures w.Pop().At(k) == w.At(k) {
    }
    assert w.first in Keyed(w).Keys;
  }

  lemma {:induction false} KeyedSize<T>(w: Window<T>)
    ensures |Keyed(w)| == |w.items|
    decreases |w.items|
  {
    if w.items == [] {
      assert Keyed(w) == map[];
    } else {
      var init := Window(w.first, w.items[..|w.items| - 1]);
      KeyedSize(init);
      KeyedPush(init, w.items[|w.items| - 1]);
      assert init.items + [w.items[|w.items| - 1]] == w.items;
      MapGrows(Keyed(init), init.Next(), w.items[|w.items| - 1]);
    }
  }

  // ---------------------------------------------------------------------------------------------
  // Segments as bytes
  // ---------------------------------------------------------------------------------------------

  datatype TsRecord = TsRecord(firstDts: nat, duration: int, data: seq<byte>)

  lemma SegmentIsWhole(m: TsMedia)
    ensures AllWhole(SegmentOf(m))
  {
    hide AllPackets, TableContents;
    AllPacketsWhole(m.frames, m.counters);
  }

  function SegmentData(m: TsMedia): seq<byte> {
    SegmentIsWhole(m);
    StreamBytes(SegmentOf(m))
  }

  function RecordOf(m: TsMedia): TsRecord {
    TsRecord(m.firstDts, m.duration, SegmentData(m))
  }

  ghost predicate TsTied(q: map<nat, TsRecord>, w: Window<TsMedia>) {
    && (forall k: nat :: k in q <==> w.Has(k))
    && forall k: nat :: k in q ==> q[k] == RecordOf(w.At(k))
  }

  lemma TsHas(q: map<nat, TsRecord>, w: Window<TsMedia>, k: nat)
    requires TsTied(q, w)
    ensures k in q <==> w.Has(k)
    ensures k in q ==> q[k] == RecordOf(w.At(k))
  {
  }

  /** One segment is replaced or added. */
  lemma TsUpdated(q: map<nat, TsRecord>, w: Window<TsMedia>, w': Window<TsMedia>, at: nat, record: TsRecord)
    requires TsTied(q, w) && w'.Has(at) && RecordOf(w'.At(at)) == record
    requires forall k: nat :: k != at ==> (w'.Has(k) <==> w.Has(k)) && (w.Has(k) ==> w'.At(k) == w.At(k))
    ensures TsTied(q[at := record], w')
  {
    hide RecordOf;
  }

  lemma {:induction false} StreamAppend(a: seq<Packet>, b: seq<Packet>)
    requires AllWhole(a) && AllWhole(b)
    ensures AllWhole(a + b) && StreamBytes(a + b) == StreamBytes(a) + StreamBytes(b)
    decreases |a|
  {
    hide PacketBytes;
    if a == [] {
      assert a + b == b;
    } else {
      assert (a + b)[1..] == a[1..] + b;
      StreamAppend(a[1..], b);
      Associate(PacketBytes(a[0]), StreamBytes(a[1..]), StreamBytes(b));
    }
  }

  lemma NothingInFront(ks: seq<Packet>)
    requires AllWhole(ks)
    ensures [] + StreamBytes(ks) == StreamBytes(ks)
  {
  }

  lemma NoneLeft(packets: seq<byte>)
    ensures packets + StreamBytes([]) == packets
  {
  }

  lemma StreamCons(k: Packet, rest: seq<Packet>)
    requires Whole(k) && AllWhole(rest)
    ensures AllWhole([k] + rest) && StreamBytes([k] + rest) == PacketBytes(k) + StreamBytes(rest)
  {
    assert ([k] + rest)[1..] == rest;
  }

  // ---------------------------------------------------------------------------------------------
  // Program tables and ADTS headers that are kept and patched
  // ---------------------------------------------------------------------------------------------

  /** Only the counter changes from one copy of a table to the next. */
  lemma TablePatched(pid: nat, n: nat, m: nat, contents: seq<byte>)
    requires pid < 0x2000
    ensures TableBytes(pid, n, contents)[3 := 0x10 + m % 16] == TableBytes(pid, m, contents)
  {
    PatchCounter([0x47], BigEndian(2, 0x4000 + pid), 0x10 + n % 16, 0x10 + m % 16, contents);
  }

  lemma PatchCounter(a: seq<byte>, b: seq<byte>, x: byte, y: byte, c: seq<byte>)
    requires |a| == 1 && |b| == 2
    ensures (a + b + [x] + c)[3 := y] == a + b + [y] + c
  {
  }

  /** The kept copy of a table with another counter. */
  function Patched(s: seq<byte>, counter: nat): seq<byte> {
    if |s| < 4 then s else s[3 := 0x10 + counter % 16]
  }

  lemma TablesPatched(n: nat, m: nat)
    ensures Patched(PatBytes(n), m) == PatBytes(m) && Patched(PmtBytes(n), m) == PmtBytes(m)
    ensures |PatBytes(n)| >= 4 && |PmtBytes(n)| >= 4
  {
    hide TableContents;
    TablePatched(0, n, m, TableContents(PAT_SECTION));
    TablePatched(PMT_PID, n, m, TableContents(PMT_SECTION));
  }

  /** The length that an earlier frame left in the ADTS header does not matter. */
  lemma SameFrame(f: Frame, g: Frame, data: seq<byte>, c: nat, counter: nat)
    requires Packable(g) && f.p == g.p && f.config.sps == g.config.sps && f.config.pps == g.config.pps
    requires (f.config.adts.Some? <==> g.config.adts.Some?)
    requires f.config.adts.Some? ==> SameAdts(f.config.adts.value, g.config.adts.value)
    requires |Raw(g.p)| + SLACK <= |data| && c == counter % 16
    ensures Packable(f) && Lead(f) == Lead(g) && FirstCount(f) == FirstCount(g)
    ensures FirstPacket(f, data, c) == FirstPacket(g, data, counter)
    ensures f.p.kind == Audio && f.config.adts.Some? ==> SameAdts(f.config.adts.value, f.config.adts.value)
    ensures f.p.kind == Audio && f.config.adts.Some? ==> SameAdts(Lead(f), g.config.adts.value)
  {
    hide Adts, PesHeader, FirstAdaptation;
    if f.p.kind == Audio && f.config.adts.Some? {
      AdtsAgain(f.config.adts.value, g.config.adts.value, |Raw(f.p)| + 7);
    }
  }

  lemma SameNext(p: Payload, data: seq<byte>, i: nat, c: nat, counter: nat)
    requires i < |Raw(p)| && |Raw(p)| + SLACK <= |data| && c == counter % 16
    ensures NextPacket(p.kind, data, |Raw(p)|, i, c) == NextPacket(p.kind, data, |Raw(p)|, i, counter)
  {
    hide NextAdaptation;
  }

  lemma {:induction false} TsSize(q: map<nat, TsRecord>, w: Window<TsMedia>)
    requires TsTied(q, w)
    ensures |q| == |w.items|
  {
    hide RecordOf;
    KeyedSize(w);
    assert q.Keys == Keyed(w).Keys;
    assert |q.Keys| == |q| && |Keyed(w).Keys| == |Keyed(w)|;
  }

  lemma LastSegment(q: map<nat, TsRecord>, w: Window<TsMedia>, newest: nat)
    requires TsTied(q, w) && newest in q && forall k :: k in q.Keys ==> k <= newest
    ensures newest == w.Next() - 1
  {
    hide RecordOf;
    assert w.Next() - 1 in q.Keys;
  }

  lemma Durations(w: Window<TsMedia>)
    ensures forall k: nat :: w.Has(k) ==> RecordOf(w.At(k)).duration == w.At(k).duration
  {
  }

  /** What is not about segments and counters does not matter to them. */
  lemma SameSegments(h: Hls, h': Hls)
    requires InStep(h) && h'.ts == h.ts && h'.counters == h.counters
    ensures InStep(h')
  {
  }

  lemma TsPop(q: map<nat, TsRecord>, w: Window<TsMedia>)
    requires TsTied(q, w) && w.items != []
    ensures q.Keys != {} && MinKey(q.Keys) == w.first && TsTied(q - {w.first}, w.Pop())
  {
    hide RecordOf;
    assert w.first in q.Keys;
    forall k: nat | w.Pop().Has(k) ensures w.Pop().At(k) == w.At(k) {
    }
  }

  lemma EvictInStep(h: Hls)
    requires InStep(h) && |h.ts.items| > 10 && h.video.items != [] && Steady(h)
    ensures InStep(EvictVideo(h)) && Steady(EvictVideo(h))
  {
    InStepSame(h, EvictVideo(h));
  }

  lemma StillSteady(h: Hls, h': Hls)
    requires h'.ts == h.ts && h'.tsSeq == h.tsSeq && h'.preVideo == h.preVideo
    ensures (Steady(h') <==> Steady(h)) && (Poised(h') <==> Poised(h))
  {
  }

  lemma EvictKeepsNext(h: Hls)
    requires h.video.items != [] && h.ts.items != []
    ensures EvictVideo(h).video.Next() == h.video.Next() && EvictVideo(h).audio == h.audio
  {
  }

  lemma FromOrEnd(q: Window<Payload>, k: nat)
    ensures From(q, k) == From(q, if k in Keyed(q) then k else q.Next())
  {
  }

  lemma FromStep(q: Window<Payload>, k: nat)
    ensures k in Keyed(q) ==> From(q, k) == [Keyed(q)[k]] + From(q, k + 1)
    ensures k !in Keyed(q) ==> From(q, k) == []
  {
  }

  lemma MergeStep(audio: seq<Payload>, video: seq<Payload>)
    ensures audio == [] && video != [] ==> Merge(audio, video) == [video[0]] + Merge(audio, video[1..])
    ensures video == [] && audio != [] ==> Merge(audio, video) == [audio[0]] + Merge(audio[1..], video)
    ensures audio == [] && video == [] ==> Merge(audio, video) == []
    ensures audio != [] && video != [] ==>
              Merge(audio, video) == if audio[0].dts > video[0].dts then [video[0]] + Merge(audio, video[1..])
                                     else [audio[0]] + Merge(audio[1..], video)
  {
  }

  lemma OneMore(a: seq<Payload>, p: Payload, rest: seq<Payload>)
    ensures a + ([p] + rest) == a + [p] + rest
  {
  }

  lemma CutTwo(p: seq<byte>, ranges: seq<Range>)
    requires Cut(p, ranges) == Units(p) && forall i :: 0 <= i < |ranges| ==> ranges[i].start + ranges[i].length <= |p|
    ensures |ranges| == 2 && ranges[0].length >= 0 && ranges[1].length >= 0 ==>
              Units(p) == Some([p[ranges[0].start..ranges[0].start + ranges[0].length],
                                p[ranges[1].start..ranges[1].start + ranges[1].length]])
    ensures |ranges| == 2 && (ranges[0].length < 0 || ranges[1].length < 0) ==> Units(p) == None
    ensures |ranges| != 2 && Units(p).Some? ==> |Units(p).value| != 2
  {
    hide Units;
    CutLength(p, ranges);
    if |ranges| == 2 {
      assert ranges[1..] == [ranges[1]];
      if ranges[1].length >= 0 {
        CutOne(p, ranges[1]);
        if ranges[0].length >= 0 {
          var a := p[ranges[0].start..ranges[0].start + ranges[0].length];
          var b := p[ranges[1].start..ranges[1].start + ranges[1].length];
          assert [a] + [b] == [a, b];
        }
      }
    }
  }

  lemma {:induction false} CutLength(p: seq<byte>, ranges: seq<Range>)
    ensures Cut(p, ranges).Some? ==> |Cut(p, ranges).value| == |ranges|
    decreases |ranges|
  {
    if ranges != [] {
      CutLength(p, ranges[1..]);
    }
  }

  lemma RecordParts(m: TsMedia, record: TsRecord)
    requires record == RecordOf(m)
    ensures record.firstDts == m.firstDts && record.data == SegmentData(m)
  {
  }

  lemma NotOpen(h: Hls, p: Payload)
    ensures h.ts.Has(h.tsSeq) ==> Opened(h, p) == h
  {
  }

  lemma NewSegment(h: Hls, p: Payload)
    requires Poised(h) && InStep(h) && !h.ts.Has(h.tsSeq)
    ensures var o := Opened(h, p);
            && Poised(o) && InStep(o) && o.ts.Has(h.tsSeq)
            && o == h.(ts := o.ts, counters := BehindTables(h.counters))
            && RecordOf(o.ts.At(h.tsSeq)) == TsRecord(p.dts, 0, PatBytes(h.counters.pat) + PmtBytes(h.counters.pmt))
            && forall k: nat :: k != h.tsSeq ==> (o.ts.Has(k) <==> h.ts.Has(k)) && (h.ts.Has(k) ==> o.ts.At(k) == h.ts.At(k))
  {
    hide PatPacket, PmtPacket, PatBytes, PmtBytes, PacketBytes, Whole;
    var c := h.counters;
    var m := TsMedia(p.dts, 0, c, []);
    FreshSegment(m, c);
    TablesAreWhole(c);
    SegmentIsWhole(m);
    StreamCons(PatPacket(c.pat), [PmtPacket(c.pmt)]);
    StreamCons(PmtPacket(c.pmt), []);
    assert [PmtPacket(c.pmt)] + [] == [PmtPacket(c.pmt)];
    assert PmtBytes(c.pmt) + [] == PmtBytes(c.pmt);
  }

  /** Packing opens the segment itself when it is not open yet. */
  lemma OpenedIsSame(h: Hls, i: Input)
    requires i.Media? && Acceptable(h, i) && Poised(h)
    ensures var o := Opened(h, i.p);
            Poised(o) && o.ts.Has(o.tsSeq) && Acceptable(o, i) && H.PacketTs(o, i) == H.PacketTs(h, i)
  {
    hide Packets;
  }

  lemma FrameAppended(h: Hls, i: Input)
    requires i.Media? && Acceptable(h, i) && Poised(h) && InStep(h) && h.ts.Has(h.tsSeq)
    ensures var h', m, ks := H.PacketTs(h, i), h.ts.At(h.tsSeq), Packets(SentOf(h, i), Count(h.counters, i.p.kind));
            && Poised(h') && InStep(h') && h'.ts.Has(h.tsSeq) && h'.tsSeq == h.tsSeq && AllWhole(ks)
            && h' == h.(ts := h'.ts, counters := CountOn(h.counters, i.p.kind, |ks|))
            && RecordOf(h'.ts.At(h.tsSeq)) == TsRecord(m.firstDts, i.p.dts - m.firstDts, SegmentData(m) + StreamBytes(ks))
            && forall k: nat :: k != h.tsSeq ==> (h'.ts.Has(k) <==> h.ts.Has(k)) && (h.ts.Has(k) ==> h'.ts.At(k) == h.ts.At(k))
  {
    hide Packets, SegmentOf, Whole, PatPacket, PmtPacket, PacketBytes;
    var m, x := h.ts.At(h.tsSeq), SentOf(h, i);
    var ks := Packets(x, Count(h.counters, i.p.kind));
    PackingEmits(h, i);
    PacketTsShape(h, i);
    FramePacketsWhole(x, Count(h.counters, i.p.kind));
    SegmentIsWhole(m);
    SegmentIsWhole(H.PacketTs(h, i).ts.At(h.tsSeq));
    StreamAppend(SegmentOf(m), ks);
  }

  /** The remaining packets of a frame, starting with the first one when nothing has been sent. */
  function Remaining(f: Frame, data: seq<byte>, i: nat, counter: nat): seq<Packet>
    requires Packable(f) && |Raw(f.p)| + SLACK <= |data|
  {
    if i == 0 then FramePackets(f, data, counter) else NextPackets(f.p.kind, data, |Raw(f.p)|, i, counter)
  }

  lemma AllOfThem(f: Frame, tail: seq<byte>, counter: nat)
    requires Packable(f) && |tail| >= SLACK
    ensures Remaining(f, Raw(f.p) + tail, 0, counter) == Packets(Sent(f, tail), counter)
  {
  }

  lemma RemainingSteps(f: Frame, data: seq<byte>, i: nat, counter: nat)
    requires Packable(f) && |Raw(f.p)| + SLACK <= |data|
    ensures AllWhole(Remaining(f, data, i, counter))
    ensures 0 < FirstCount(f) && 0 < |Raw(f.p)|
    ensures Remaining(f, data, 0, counter) == [FirstPacket(f, data, counter)] + Remaining(f, data, FirstCount(f), counter + 1)
    ensures 0 < i < |Raw(f.p)| ==>
              var count := NextCount(f.p.kind, |Raw(f.p)| - i);
              Remaining(f, data, i, counter)
              == [NextPacket(f.p.kind, data, |Raw(f.p)|, i, counter)] + Remaining(f, data, i + count, counter + 1)
    ensures i >= |Raw(f.p)| ==> Remaining(f, data, i, counter) == []
  {
    hide NextAdaptation, FirstAdaptation;
    FirstCountBound(f);
    PacketsAreWhole(f, data, counter);
    NextAreWhole(f.p.kind, data, |Raw(f.p)|, i, counter);
  }

  ghost predicate QueueTied(q: map<nat, Payload>, w: Window<Payload>) {
    q == Keyed(w)
  }

  /** The kept headers are those of the configuration, up to the length of the last audio frame. */
  ghost predicate SameConfig(sps: seq<byte>, pps: seq<byte>, adts: Option<seq<byte>>, c: Config) {
    && sps == c.sps && pps == c.pps && Proper(c)
    && (adts.Some? <==> c.adts.Some?)
    && (adts.Some? ==> SameAdts(adts.value, c.adts.value))
  }

  /** After `n` tables the kept copy is the last one. */
  ghost predicate PatTied(counter: nat, table: seq<byte>, n: nat) {
    counter == n % 16 && table == if n == 0 then [] else PatBytes(n - 1)
  }

  ghost predicate PmtTied(counter: nat, table: seq<byte>, n: nat) {
    counter == n % 16 && table == if n == 0 then [] else PmtBytes(n - 1)
  }

  lemma AudioSize(q: map<nat, Payload>, w: Window<Payload>)
    requires QueueTied(q, w)
    ensures |q| == |w.items|
  {
    KeyedSize(w);
  }

  class MediaMuxer {
    var videoQueue: map<nat, Payload>
    var audioQueue: map<nat, Payload>
    var videoFrameId: nat
    var audioFrameId: nat
    var videoFps: nat
    var audioFps: nat
    var preFpsMs: nat
    var preVideoKeyFrameId: nat
    var preAudioKeyFrameId: nat
    var adtsHeader: Option<seq<byte>>
    var sps: seq<byte>
    var pps: seq<byte>
    var tsQueue: map<nat, TsRecord>
    var tsSeq: nat
    var tsPat: seq<byte>
    var tsPmt: seq<byte>
    var patCounter: nat
    var pmtCounter: nat
    var videoCounter: nat
    var audioCounter: nat
    var m3u8: Option<seq<Entry>>
    ghost var h: Hls

    ghost predicate CountersTied()
      reads this
    {
      && PatTied(patCounter, tsPat, h.counters.pat) && PmtTied(pmtCounter, tsPmt, h.counters.pmt)
      && videoCounter == h.counters.video % 16 && audioCounter == h.counters.audio % 16
    }

    ghost predicate ConfigTied()
      reads this
    {
      SameConfig(sps, pps, adtsHeader, h.config)
    }

    ghost predicate QueuesTied()
      reads this
    {
      && QueueTied(videoQueue, h.video) && QueueTied(audioQueue, h.audio)
      && videoFps == h.videoFps && audioFps == h.audioFps && preFpsMs == h.preFpsMs
      && preVideoKeyFrameId == h.preVideo && preAudioKeyFrameId == h.preAudio
    }

    /** The fields are those of the abstract state `h`. */
    ghost predicate Tied()
      reads this
    {
      && QueuesTied() && ConfigTied() && CountersTied()
      && TsTied(tsQueue, h.ts) && tsSeq == h.tsSeq && m3u8 == h.m3u8
      && Poised(h) && InStep(h)
    }

    ghost predicate Valid()
      reads this
    {
      Tied() && Steady(h) && videoFrameId == h.video.Next() && audioFrameId == h.audio.Next()
    }

    constructor ()
      ensures Valid() && h == INITIAL
    {
      videoQueue, audioQueue, videoFrameId, audioFrameId := map[], map[], 0, 0;
      videoFps, audioFps, preFpsMs, preVideoKeyFrameId, preAudioKeyFrameId := 0, 0, 0, 0, 0;
      adtsHeader, sps, pps := None, [], [];
      tsQueue, tsSeq, tsPat, tsPmt, m3u8 := map[], 0, [], [], None;
      patCounter, pmtCounter, videoCounter, audioCounter := 0, 0, 0, 0;
      h := INITIAL;
    }

    method GetPatCounter() returns (c: nat)
      requires patCounter < 16
      modifies this`patCounter
      ensures c == old(patCounter) && patCounter == (old(patCounter) + 1) % 16
    {
      c := patCounter;
      patCounter := patCounter + 1;
      if patCounter == 0x10 {
        patCounter := 0;
      }
    }

    method GetPmtCounter() returns (c: nat)
      requires pmtCounter < 16
      modifies this`pmtCounter
      ensures c == old(pmtCounter) && pmtCounter == (old(pmtCounter) + 1) % 16
    {
      c := pmtCounter;
      pmtCounter := pmtCounter + 1;
      if pmtCounter == 0x10 {
        pmtCounter := 0;
      }
    }

    /** The continuity counter of a stream, which then moves on. */
    method GetCounter(kind: Kind) returns (c: nat)
      requires videoCounter < 16 && audioCounter < 16
      modifies this`videoCounter, this`audioCounter
      ensures c == old(if kind == Video then videoCounter else audioCounter)
      ensures videoCounter == (if kind == Video then (old(videoCounter) + 1) % 16 else old(videoCounter))
      ensures audioCounter == (if kind == Audio then (old(audioCounter) + 1) % 16 else old(audioCounter))
    {
      if kind == Video {
        c := videoCounter;
        videoCounter := videoCounter + 1;
        if videoCounter == 0x10 {
          videoCounter := 0;
        }
      } else {
        c := audioCounter;
        audioCounter := audioCounter + 1;
        if audioCounter == 0x10 {
          audioCounter := 0;
        }
      }
    }

    /** The association table is made once; later only its counter is patched. */
    method PacketTsPat(ghost n: nat) returns (packet: seq<byte>)
      requires PatTied(patCounter, tsPat, n)
      modifies this`patCounter, this`tsPat
      ensures packet == PatBytes(n) && SoundTable(packet) && PatTied(patCounter, tsPat, n + 1)
    {
      hide PatBytes, PmtBytes, TableContents, TableBytes, SoundTable;
      CopiesAreSound(n);
      var c := GetPatCounter();
      if |tsPat| >= 4 {
        TablesPatched(n - 1, n);
        tsPat := tsPat[3 := 0x10 + c];
      } else {
        if n > 0 {
          TablesPatched(n - 1, n);
        }
        var made := WritePat(c);
        tsPat := made;
      }
      packet := tsPat;
    }

    method PacketTsPmt(ghost n: nat) returns (packet: seq<byte>)
      requires PmtTied(pmtCounter, tsPmt, n)
      modifies this`pmtCounter, this`tsPmt
      ensures packet == PmtBytes(n) && SoundTable(packet) && PmtTied(pmtCounter, tsPmt, n + 1)
    {
      hide PatBytes, PmtBytes, TableContents, TableBytes, SoundTable;
      CopiesAreSound(n);
      var c := GetPmtCounter();
      if |tsPmt| >= 4 {
        TablesPatched(n - 1, n);
        tsPmt := tsPmt[3 := 0x10 + c];
      } else {
        if n > 0 {
          TablesPatched(n - 1, n);
        }
        var made := WritePmt(c);
        tsPmt := made;
      }
      packet := tsPmt;
    }

    /** Opens the segment under way with its two program tables, unless it is there already. */
    method OpenSegment(p: Payload)
      requires Tied()
      modifies this`tsQueue, this`patCounter, this`pmtCounter, this`tsPat, this`tsPmt, this`h
      ensures Tied() && h == Opened(old(h), p) && tsSeq in tsQueue
    {
      hide PatTied, PmtTied, PatBytes, PmtBytes, QueueTied, SameConfig, TsTied, InStep, RecordOf, Poised, Opened;
      TsHas(tsQueue, h.ts, tsSeq);
      NotOpen(h, p);
      if tsSeq !in tsQueue {
        AddSegment(p);
      }
    }

    method AddSegment(p: Payload)
      requires Tied() && !h.ts.Has(h.tsSeq)
      modifies this`tsQueue, this`patCounter, this`pmtCounter, this`tsPat, this`tsPmt, this`h
      ensures Tied() && h == Opened(old(h), p) && tsSeq in tsQueue
    {
      hide SoundTable, PatTied, PmtTied, PatBytes, PmtBytes, QueueTied, SameConfig, TsTied, InStep, RecordOf, Poised, Opened;
      ghost var o := Opened(h, p);
      NewSegment(h, p);
      var pat := PacketTsPat(h.counters.pat);
      var pmt := PacketTsPmt(h.counters.pmt);
      var record := TsRecord(p.dts, 0, pat + pmt);
      TsUpdated(tsQueue, h.ts, o.ts, tsSeq, record);
      tsQueue := tsQueue[tsSeq := record];
      h := o;
    }

    /** Packs a frame behind what the segment under way holds. */
    method AppendFrame(p: Payload, tail: seq<byte>)
      requires Tied() && tsSeq in tsQueue && Acceptable(h, Media(p, tail))
      modifies this`tsQueue, this`videoCounter, this`audioCounter, this`adtsHeader, this`h
      ensures Tied() && h == H.PacketTs(old(h), Media(p, tail))
    {
      hide PatTied, PmtTied, QueueTied, SameConfig, TsTied, InStep, RecordOf, Poised, H.PacketTs, Packets, StreamBytes;
      hide SegmentData;
      TsHas(tsQueue, h.ts, tsSeq);
      ghost var i := Media(p, tail);
      FrameAppended(h, i);
      ghost var m, next := h.ts.At(h.tsSeq), H.PacketTs(h, i);
      var packets, _ := MakePackets(p, tail, Count(h.counters, p.kind));
      var record := tsQueue[tsSeq];
      RecordParts(m, record);
      var record' := TsRecord(record.firstDts, p.dts - record.firstDts, record.data + packets);
      TsUpdated(tsQueue, h.ts, next.ts, tsSeq, record');
      tsQueue := tsQueue[tsSeq := record'];
      h := next;
    }

    method PacketTs(p: Payload, tail: seq<byte>)
      requires Tied() && Acceptable(h, Media(p, tail))
      modifies this`tsQueue, this`patCounter, this`pmtCounter, this`tsPat, this`tsPmt
      modifies this`videoCounter, this`audioCounter, this`adtsHeader, this`h
      ensures Tied() && h == H.PacketTs(old(h), Media(p, tail))
    {
      hide QueuesTied, ConfigTied, CountersTied, TsTied, InStep, Packets, Opened;
      ghost var was := h;
      OpenSegment(p);
      OpenedIsSame(was, Media(p, tail));
      AppendFrame(p, tail);
    }

    /** The packets of a frame, made one by one. */
    method MakePackets(p: Payload, tail: seq<byte>, ghost first: nat) returns (packets: seq<byte>, ghost n: nat)
      requires ConfigTied() && videoCounter < 16 && audioCounter < 16 && Acceptable(h, Media(p, tail))
      requires first % 16 == if p.kind == Video then videoCounter else audioCounter
      modifies this`videoCounter, this`audioCounter, this`adtsHeader
      ensures ConfigTied()
      ensures var ks := Packets(SentOf(h, Media(p, tail)), first);
              AllWhole(ks) && packets == StreamBytes(ks) && n == |ks|
      ensures videoCounter == (if p.kind == Video then (first + n) % 16 else old(videoCounter))
      ensures audioCounter == (if p.kind == Audio then (first + n) % 16 else old(audioCounter))
    {
      hide Remaining, FirstPacket, NextPacket, PacketBytes, Whole, Packable, FirstCount, NextCount, StreamBytes;
      var data := Raw(p) + tail;
      ghost var g := Frame(p, h.config);
      n, packets := 0, [];
      RemainingSteps(g, data, 0, first);
      ghost var all := Remaining(g, data, 0, first);
      NothingInFront(all);
      var i := 0;
      while i < |Raw(p)|
        invariant ConfigTied()
        invariant AllWhole(all) && AllWhole(Remaining(g, data, i, first + n))
        invariant packets + StreamBytes(Remaining(g, data, i, first + n)) == StreamBytes(all)
        invariant n + |Remaining(g, data, i, first + n)| == |all|
        invariant videoCounter == (if p.kind == Video then (first + n) % 16 else old(videoCounter))
        invariant audioCounter == (if p.kind == Audio then (first + n) % 16 else old(audioCounter))
      {
        RemainingSteps(g, data, i, first + n);
        ghost var k := if i == 0 then FirstPacket(g, data, first + n) else NextPacket(p.kind, data, |Raw(p)|, i, first + n);
        var packet, bytesLeft := MakePacket(p, data, i, first + n);
        ghost var rest := Remaining(g, data, i + bytesLeft, first + n + 1);
        RemainingSteps(g, data, i + bytesLeft, first + n + 1);
        StreamCons(k, rest);
        Associate(packets, packet, StreamBytes(rest));
        packets := packets + packet;
        i := i + bytesLeft;
        n := n + 1;
      }
      RemainingSteps(g, data, i, first + n);
      NoneLeft(packets);
      AllOfThem(g, tail, first);
    }

    /** The next packet of a frame, and how much of the frame it takes. */
    method MakePacket(p: Payload, data: seq<byte>, i: nat, ghost counter: nat) returns (packet: seq<byte>, bytesLeft: nat)
      requires ConfigTied() && Packable(Frame(p, h.config)) && i < |Raw(p)| && |Raw(p)| + SLACK <= |data|
      requires videoCounter < 16 && audioCounter < 16
      requires counter % 16 == if p.kind == Video then videoCounter else audioCounter
      modifies this`videoCounter, this`audioCounter, this`adtsHeader
      ensures ConfigTied()
      ensures videoCounter == (if p.kind == Video then (counter + 1) % 16 else old(videoCounter))
      ensures audioCounter == (if p.kind == Audio then (counter + 1) % 16 else old(audioCounter))
      ensures var f := Frame(p, h.config);
              var k := if i == 0 then FirstPacket(f, data, counter) else NextPacket(p.kind, data, |Raw(p)|, i, counter);
              && Whole(k) && packet == PacketBytes(k)
              && bytesLeft == if i == 0 then FirstCount(f) else NextCount(p.kind, |Raw(p)| - i)
    {
      hide PacketBytes, Whole, FirstPacket, NextPacket, FirstCount, NextCount, SameConfig, Packable;
      var c := GetCounter(p.kind);
      if i == 0 {
        packet, bytesLeft := MakeFirstPacket(p, data, c, counter);
      } else {
        SameNext(p, data, i, c, counter);
        packet, bytesLeft := NextTsPacket(p, data, i, c);
      }
    }

    /** The first packet of a frame; the frame length goes into the kept ADTS header. */
    method MakeFirstPacket(p: Payload, data: seq<byte>, c: nat, ghost counter: nat) returns (packet: seq<byte>, bytesLeft: nat)
      requires ConfigTied() && Packable(Frame(p, h.config)) && |Raw(p)| + SLACK <= |data| && c == counter % 16
      modifies this`adtsHeader
      ensures ConfigTied()
      ensures var f := Frame(p, h.config);
              && Whole(FirstPacket(f, data, counter)) && packet == PacketBytes(FirstPacket(f, data, counter))
              && bytesLeft == FirstCount(f)
    {
      hide Lead, PacketBytes, Whole, FirstPacket, FirstCount, Raw, SameAdts;
      var f := Frame(p, Config(sps, pps, adtsHeader));
      SameFrame(f, Frame(p, h.config), data, c, counter);
      var adts;
      packet, bytesLeft, adts := FirstTsPacket(f, data, c, if adtsHeader.Some? then adtsHeader.value else []);
      if p.kind == Audio && adtsHeader.Some? {
        adtsHeader := Some(adts);
      }
    }

    /** Names the last three segments, once there are three. */
    method UpdateM3U8()
      requires Tied() && Steady(h)
      modifies this`m3u8, this`h
      ensures Tied() && h == H.UpdateM3U8(old(h)) && Steady(h)
    {
      hide PatTied, PmtTied, QueueTied, SameConfig, TsTied, InStep, RecordOf;
      TsSize(tsQueue, h.ts);
      if |tsQueue| < 3 {
        return;
      }
      assert tsQueue.Keys != {};
      var newest := MaxKey(tsQueue.Keys);
      LastSegment(tsQueue, h.ts, newest);
      TsHas(tsQueue, h.ts, newest);
      TsHas(tsQueue, h.ts, newest - 1);
      TsHas(tsQueue, h.ts, newest - 2);
      m3u8 := Some([Entry(newest - 2, tsQueue[newest - 2].duration), Entry(newest - 1, tsQueue[newest - 1].duration),
                    Entry(newest, tsQueue[newest].duration)]);
      Durations(h.ts);
      SameSegments(h, H.UpdateM3U8(h));
      h := H.UpdateM3U8(h);
    }

    method PushAudio(p: Payload)
      requires Tied() && audioFrameId == h.audio.Next()
      modifies this`audioQueue, this`h
      ensures Tied() && h == old(h).(audio := old(h).audio.Push(p))
    {
      hide PatTied, PmtTied, Keyed, SameConfig, TsTied, InStep;
      KeyedPush(h.audio, p);
      SameSegments(h, h.(audio := h.audio.Push(p)));
      audioQueue := audioQueue[audioFrameId := p];
      h := h.(audio := h.audio.Push(p));
    }

    /** Counts the frame, and makes room when the queue is full. */
    method FinishAudio()
      requires Tied() && Steady(h) && audioFrameId + 1 == h.audio.Next() && videoFrameId == h.video.Next()
      modifies this`audioQueue, this`audioFrameId, this`audioFps, this`h
      ensures Valid() && h == CountAudio(old(h))
    {
      hide PatTied, PmtTied, QueueTied, Keyed, SameConfig, TsTied, InStep, Steady, Poised;
      ghost var next := h.(audioFps := h.audioFps + 1);
      SameSegments(h, next);
      StillSteady(h, next);
      AudioSize(audioQueue, h.audio);
      TsSize(tsQueue, h.ts);
      audioFrameId := audioFrameId + 1;
      audioFps := audioFps + 1;
      h := next;
      if ((audioFps != 0 && |audioQueue| > 20 * audioFps) || |audioQueue| >= 800) && |tsQueue| > 10 {
        EvictAudio();
      }
    }

    /** Drops the earliest audio frame. */
    method EvictAudio()
      requires Tied() && Steady(h) && h.audio.items != []
      modifies this`audioQueue, this`h
      ensures Tied() && Steady(h) && h == old(h).(audio := old(h).audio.Pop()) && h.audio.Next() == old(h).audio.Next()
    {
      hide PatTied, PmtTied, Keyed, SameConfig, TsTied, InStep, Steady, Poised;
      ghost var next := h.(audio := h.audio.Pop());
      KeyedPop(h.audio);
      SameSegments(h, next);
      StillSteady(h, next);
      audioQueue := audioQueue - {MinKey(audioQueue.Keys)};
      h := next;
    }

    method OnAudio(p: Payload, tail: seq<byte>)
      requires Valid() && p.kind == Audio && Acceptable(h, Media(p, tail))
      modifies this
      ensures Valid() && h == H.OnAudio(old(h), Media(p, tail))
    {
      hide CountersTied, ConfigTied, QueuesTied, TsTied, InStep, H.PacketTs, CountAudio;
      PushAudio(p);
      PacketTsShape(h, Media(p, tail));
      PacketTs(p, tail);
      FinishAudio();
    }

    /** A key frame closes the segment under way, unless none has been noted before. */
    method StartSegment(p: Payload)
      requires Valid()
      modifies this`m3u8, this`tsSeq, this`preVideoKeyFrameId, this`preAudioKeyFrameId, this`h
      ensures Tied() && h == StartGop(old(h), p)
    {
      hide PatTied, PmtTied, Keyed, SameConfig, TsTied, InStep;
      if p.iFrame {
        StartGopCuts(h, p);
        SameSegments(h, StartGop(h, p));
        if preVideoKeyFrameId != 0 {
          UpdateM3U8();
          tsSeq := tsSeq + 1;
        }
        preVideoKeyFrameId := videoFrameId;
        preAudioKeyFrameId := audioFrameId;
        h := StartGop(old(h), p);
      }
    }

    method PushVideo(p: Payload)
      requires Tied() && videoFrameId == h.video.Next()
      modifies this`videoQueue, this`h
      ensures Tied() && h == old(h).(video := old(h).video.Push(p))
    {
      hide PatTied, PmtTied, Keyed, SameConfig, TsTied, InStep;
      KeyedPush(h.video, p);
      SameSegments(h, h.(video := h.video.Push(p)));
      videoQueue := videoQueue[videoFrameId := p];
      h := h.(video := h.video.Push(p));
    }

    method FinishVideo()
      requires Tied() && Steady(h) && h.ts.items != []
      requires videoFrameId + 1 == h.video.Next() && audioFrameId == h.audio.Next()
      modifies this`videoQueue, this`tsQueue, this`videoFrameId, this`videoFps, this`h
      ensures Valid() && h == CountVideo(old(h))
    {
      hide PatTied, PmtTied, Keyed, SameConfig, TsTied, InStep, EvictVideo;
      ghost var next := h.(videoFps := h.videoFps + 1);
      SameSegments(h, next);
      KeyedSize(h.video);
      TsSize(tsQueue, h.ts);
      videoFrameId := videoFrameId + 1;
      videoFps := videoFps + 1;
      h := next;
      if ((videoFps != 0 && |videoQueue| > 20 * videoFps) || |videoQueue| >= 800) && |tsQueue| > 10 {
        EvictKeepsNext(h);
        Evict();
      }
    }

    method OnVideo(p: Payload, tail: seq<byte>)
      requires Valid() && p.kind == Video && Acceptable(h, Media(p, tail))
      modifies this
      ensures Valid() && h == H.OnVideo(old(h), Media(p, tail))
    {
      hide CountersTied, ConfigTied, QueuesTied, TsTied, InStep, H.PacketTs, CountVideo, StartGop;
      StartGopCuts(h, p);
      StartSegment(p);
      PushVideo(p);
      PacketTsShape(h, Media(p, tail));
      PacketTs(p, tail);
      FinishVideo();
    }

    /** Drops the earliest frame, and with a key frame the earliest segment. */
    method Evict()
      requires Tied() && Steady(h) && |h.ts.items| > 10 && h.video.items != []
      modifies this`videoQueue, this`tsQueue, this`h
      ensures Tied() && Steady(h) && h == EvictVideo(old(h))
    {
      hide PatTied, PmtTied, Keyed, SameConfig, InStep, RecordOf;
      KeyedPop(h.video);
      EvictInStep(h);
      var first := MinKey(videoQueue.Keys);
      if videoQueue[first].iFrame {
        TsPop(tsQueue, h.ts);
        tsQueue := tsQueue - {MinKey(tsQueue.Keys)};
      }
      videoQueue := videoQueue - {first};
      h := EvictVideo(h);
    }

    /** The frames from the last key frame on, both streams merged by decoding time. */
    method GetFastOut() returns (fastOut: seq<Payload>)
      requires Valid()
      ensures fastOut == FastOut(h)
    {
      hide PatTied, PmtTied, SameConfig, TsTied, InStep, Steady, Poised, Merge, From;
      var video := if preVideoKeyFrameId in videoQueue then preVideoKeyFrameId else videoFrameId;
      var audio := if preAudioKeyFrameId in audioQueue then preAudioKeyFrameId else audioFrameId;
      fastOut := [];
      FromOrEnd(h.video, h.preVideo);
      FromOrEnd(h.audio, h.preAudio);
      assert [] + FastOut(h) == FastOut(h);
      while audio in audioQueue || video in videoQueue
        invariant h.video.first <= video <= videoFrameId && h.audio.first <= audio <= audioFrameId
        invariant fastOut + Merge(From(h.audio, audio), From(h.video, video)) == FastOut(h)
        decreases videoFrameId - video + audioFrameId - audio
      {
        FromStep(h.video, video);
        FromStep(h.audio, audio);
        MergeStep(From(h.audio, audio), From(h.video, video));
        if audio !in audioQueue {
          OneMore(fastOut, videoQueue[video], Merge(From(h.audio, audio), From(h.video, video + 1)));
          fastOut := fastOut + [videoQueue[video]];
          video := video + 1;
        } else if video !in videoQueue {
          OneMore(fastOut, audioQueue[audio], Merge(From(h.audio, audio + 1), From(h.video, video)));
          fastOut := fastOut + [audioQueue[audio]];
          audio := audio + 1;
        } else if audioQueue[audio].dts > videoQueue[video].dts {
          OneMore(fastOut, videoQueue[video], Merge(From(h.audio, audio), From(h.video, video + 1)));
          fastOut := fastOut + [videoQueue[video]];
          video := video + 1;
        } else {
          OneMore(fastOut, audioQueue[audio], Merge(From(h.audio, audio + 1), From(h.video, video)));
          fastOut := fastOut + [audioQueue[audio]];
          audio := audio + 1;
        }
      }
      FromStep(h.video, video);
      FromStep(h.audio, audio);
      MergeStep([], []);
      assert fastOut + [] == fastOut;
    }

    method EveryNSecond(nowMs: nat)
      requires Valid()
      modifies this`preFpsMs, this`videoFps, this`audioFps, this`h
      ensures Valid() && h == OnTick(old(h), nowMs)
    {
      hide PatTied, PmtTied, Keyed, SameConfig, TsTied, InStep;
      SameSegments(h, OnTick(h, nowMs));
      h := OnTick(h, nowMs);
      if preFpsMs == 0 {
        preFpsMs := nowMs;
      } else {
        preFpsMs := nowMs;
        videoFps, audioFps := 0, 0;
      }
    }

    method StoreSets(sps: seq<byte>, pps: seq<byte>)
      requires Valid()
      modifies this`sps, this`pps, this`h
      ensures Valid() && h == Step(old(h), NewSets(sps, pps))
    {
      hide PatTied, PmtTied, Keyed, TsTied, InStep;
      this.sps, this.pps := sps, pps;
      SameSegments(h, Step(h, NewSets(sps, pps)));
      h := Step(h, NewSets(sps, pps));
    }

    /** The parameter sets of a byte stream of exactly two units, or of a configuration record. */
    method ReadVideoHeader(header: seq<byte>)
      requires Valid()
      modifies this`sps, this`pps, this`h
      ensures Valid()
      ensures h == match SetsOf(header, SetsIn(old(h)))
                   case Some(sets) => Step(old(h), NewSets(sets.sps, sets.pps))
                   case None => old(h)
    {
      hide PatTied, PmtTied, Keyed, TsTied, InStep, Units, Cut, Step, AvcRecord.ReadRecord;
      if |header| >= 4 && header[..4] == CODE {
        var nals := Scan(header);
        CutTwo(header, nals);
        if |nals| == 2 && nals[0].length >= 0 && nals[1].length >= 0 {
          StoreSets(header[nals[0].start..nals[0].start + nals[0].length],
                    header[nals[1].start..nals[1].start + nals[1].length]);
        }
      } else {
        var sets := AvcRecord.TakeRecord(header, AvcRecord.Sets(sps, pps));
        StoreSets(sets.sps, sets.pps);
      }
    }

    /** The ADTS header for a new audio configuration. */
    method ReadAudioHeader(header: seq<byte>)
      requires Valid() && |header| >= 2
      modifies this`adtsHeader, this`h
      ensures Valid() && h == Step(old(h), NewAdts(AdtsOf(header)))
    {
      hide PatTied, PmtTied, Keyed, TsTied, InStep, AdtsOf;
      adtsHeader := Some(AdtsOf(header));
      SameSegments(h, Step(h, NewAdts(AdtsOf(header))));
      h := Step(h, NewAdts(AdtsOf(header)));
    }

    /** The bytes of a segment, or nothing. */
    method GetTs(name: nat) returns (data: seq<byte>)
      requires Valid()
      ensures data == if h.ts.Has(name) then SegmentData(h.ts.At(name)) else []
    {
      hide PatTied, PmtTied, Keyed, InStep, SameConfig, SegmentData;
      data := if name in tsQueue then tsQueue[name].data else [];
    }
  }
}
