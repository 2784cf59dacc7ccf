/**
 The MP4 muxer: it files arriving samples into chunks, and at each key frame writes the file so far, with every box
 size and the count of the run-length table patched in after the fact, and starts over.
 */
module Mp4Muxer {
  import opened Bytes
  import opened Media
  import opened Bits
  import opened BitIO
  import opened Boxes
  import opened BoxWriter
  import opened Mp4Tables
  import opened Mp4Times
  import opened Mp4File
  import opened Mp4Run

  lemma LeafParts(before: seq<byte>, zero: seq<byte>, kind: seq<byte>, body: seq<byte>)
    ensures before + zero + kind + body == before + zero + (kind + body + [])
  {
  }

  lemma FlatSnoc(es: seq<StscEntry>, e: StscEntry)
    ensures Flat(es + [e]) == Flat(es) + [e.firstChunk, e.perChunk, 1]
    decreases |es|
  {
    if es == [] {
      assert [] + [e] == [e] && [e][1..] == [];
    } else {
      assert (es + [e])[1..] == es[1..] + [e];
      FlatSnoc(es[1..], e);
    }
  }

  lemma StscNext(counts: seq<nat>, i: nat)
    requires i < |counts|
    ensures Stsc(counts[..i + 1])
            == if i > 0 && counts[i] == counts[i - 1] then Stsc(counts[..i])
               else Stsc(counts[..i]) + [StscEntry(i + 1, counts[i])]
  {
    assert counts[..i + 1][..i] == counts[..i];
  }

  function FrontBoxes(mdat: seq<byte>, f: FileInfo): seq<Box> {
    [Leaf(FTYP, f.ftyp), Leaf(FREE, []), Leaf(MDAT, mdat)]
  }

  /** The boxes in front of the movie box, one after the other. */
  lemma FrontParts(mdat: seq<byte>, f: FileInfo)
    ensures var a, b, c := Leaf(FTYP, f.ftyp), Leaf(FREE, []), Leaf(MDAT, mdat);
            && SerializeAll(FrontBoxes(mdat, f)) == [] + Serialize(a) + Serialize(b) + Serialize(c)
            && SizeAll(FrontBoxes(mdat, f)) == Size(a) + Size(b) + Size(c)
            && MediaOffset(f) == |[] + Serialize(a) + Serialize(b)| + 8
  {
    hide Serialize;
    var cs := FrontBoxes(mdat, f);
    NextBox([], cs, 0);
    NextBox([], cs, 1);
    NextBox([], cs, 2);
    assert cs[..0] == [] && cs[..3] == cs;
    assert [] + SerializeAll([]) == [];
    assert [] + SerializeAll(cs) == SerializeAll(cs);
  }

  lemma FileInTwoParts(m: Muxer, f: FileInfo)
    ensures var front, moov := FrontBoxes(m.mdat, f), MoovBox(m, f, MediaOffset(f));
            FileBytes(m, f) == SerializeAll(front) + Serialize(moov)
            && |FileBytes(m, f)| == SizeAll(front) + Size(moov)
  {
    var front, moov := FrontBoxes(m.mdat, f), MoovBox(m, f, MediaOffset(f));
    assert FileBoxes(m, f) == front + [moov];
    SerializeAllSnoc(front, moov);
  }

  class Muxer4 {
    var mdat: seq<byte>
    var chunkOffset: nat
    var mediaOffset: nat
    var chunk: seq<Chunk>
    var videoChunkOffset: seq<nat>
    var audioChunkOffset: seq<nat>
    var videoSamples: seq<Payload>
    var audioSamples: seq<Payload>
    const info: FileInfo

    /** Each track holds samples of its own kind. */
    predicate Tidy()
      reads this
    {
      && (forall i :: 0 <= i < |videoSamples| ==> videoSamples[i].kind == Video)
      && (forall i :: 0 <= i < |audioSamples| ==> audioSamples[i].kind == Audio)
    }

    function State(): Muxer
      reads this
    {
      Muxer(chunk, chunkOffset, videoChunkOffset, audioChunkOffset, videoSamples, audioSamples, mdat)
    }

    constructor (info: FileInfo)
      ensures Tidy() && State() == EMPTY && this.info == info
    {
      mdat, chunkOffset, mediaOffset, chunk := [], 0, 0, [];
      videoChunkOffset, audioChunkOffset, videoSamples, audioSamples := [], [], [], [];
      this.info := info;
    }

    method Reset()
      modifies this
      ensures State() == EMPTY
    {
      chunkOffset, mediaOffset, chunk, mdat := 0, 0, [], [];
      videoChunkOffset, audioChunkOffset, videoSamples, audioSamples := [], [], [], [];
    }

    method PushChunkOffset()
      requires chunk != []
      modifies this`videoChunkOffset, this`audioChunkOffset
      ensures State() == PushOffset(old(State()))
    {
      if chunk[|chunk| - 1].kind == Video {
        videoChunkOffset := videoChunkOffset + [chunkOffset];
      } else {
        audioChunkOffset := audioChunkOffset + [chunkOffset];
      }
    }

    method CalChunk(len: nat, kind: Kind)
      modifies this`chunk, this`chunkOffset, this`videoChunkOffset, this`audioChunkOffset
      ensures State() == Mp4Tables.CalChunk(old(State()), kind, len)
    {
      if chunk != [] && chunk[|chunk| - 1].kind == kind && chunk[|chunk| - 1].size + len <= 1024 * 1024 {
        var c := chunk[|chunk| - 1];
        chunk := chunk[|chunk| - 1 := Chunk(kind, c.count + 1, c.size + len)];
      } else {
        if chunk != [] {
          PushChunkOffset();
          chunkOffset := chunkOffset + chunk[|chunk| - 1].size;
        }
        chunk := chunk + [Chunk(kind, 1, len)];
      }
    }

    method OnAudio(p: Payload)
      requires Tidy() && p.kind == Audio
      modifies this
      ensures Tidy() && State() == Filed(old(State()), p)
    {
      audioSamples := audioSamples + [p];
      mdat := mdat + Raw(p);
      CalChunk(|Raw(p)|, Audio);
    }

    /** A key frame first writes the file of everything before it. */
    method OnVideo(p: Payload) returns (file: Option<seq<byte>>)
      requires Tidy() && p.kind == Video
      requires |FileBytes(Sealed(State()), info)| <= |mdat| + 10 * 1024 * 1024
      modifies this
      ensures Tidy() && State() == Filed(old(State()), p) && file == Written(old(State()), info, p)
    {
      file := None;
      if p.iFrame {
        file := CloseFile();
      }
      AppendVideo(p);
    }

    method CloseFile() returns (file: Option<seq<byte>>)
      requires Tidy() && |FileBytes(Sealed(State()), info)| <= |mdat| + 10 * 1024 * 1024
      modifies this
      ensures Tidy() && State() == EMPTY
      ensures file == if old(videoSamples) == [] && old(audioSamples) == [] then None
                      else Some(FileBytes(Sealed(old(State())), info))
    {
      if chunk != [] {
        PushChunkOffset();
      }
      assert State() == Sealed(old(State()));
      file := Flush();
      Reset();
    }

    method AppendVideo(p: Payload)
      requires Tidy() && p.kind == Video
      modifies this
      ensures Tidy() && State() == Add(old(State()), p)
    {
      mdat := mdat + p.data;
      CalChunk(|p.data|, Video);
      videoSamples := videoSamples + [p];
    }

    method Flush() returns (file: Option<seq<byte>>)
      requires Tidy() && |FileBytes(State(), info)| <= |mdat| + 10 * 1024 * 1024
      modifies this`mediaOffset
      ensures file == if videoSamples == [] && audioSamples == [] then None else Some(FileBytes(State(), info))
    {
      if videoSamples == [] && audioSamples == [] {
        return None;
      }
      var bs := new BitStream(|mdat| + 10 * 1024 * 1024);
      FileInTwoParts(State(), info);
      WriteFront(bs);
      var moov := MovieBox();
      WriteBox(bs, moov);
      file := Some(bs.Content());
    }

    /** `ftyp`, `free` and the media data; from here on the media offset is known. */
    method WriteFront(bs: BitStream)
      requires Ready(bs, SizeAll(FrontBoxes(mdat, info))) && bs.Content() == []
      modifies this`mediaOffset, bs, bs.buf
      ensures Ready(bs, 0) && bs.Content() == SerializeAll(FrontBoxes(mdat, info))
      ensures mediaOffset == MediaOffset(info)
    {
      hide Serialize, SerializeAll, Size, SizeAll, FrontBoxes, MediaOffset;
      FrontParts(mdat, info);
      WriteBox(bs, Leaf(FTYP, info.ftyp));
      WriteBox(bs, Leaf(FREE, []));
      WriteMediaDataBox(bs);
    }

    method WriteMediaDataBox(bs: BitStream)
      requires Ready(bs, Size(Leaf(MDAT, mdat)))
      modifies this`mediaOffset, bs, bs.buf
      ensures Ready(bs, 0) && bs.Content() == old(bs.Content()) + Serialize(Leaf(MDAT, mdat))
      ensures mediaOffset == |old(bs.Content())| + 8
    {
      ghost var before := bs.Content();
      var preSize := BeginBox(bs, MDAT);
      mediaOffset := bs.curPos / 8;
      bs.WriteData(mdat);
      LeafParts(before, BigEndian(4, 0), BigEndian(4, MDAT), mdat);
      EndBox(bs, preSize, before, Leaf(MDAT, mdat));
    }

    method MovieBox() returns (b: Box)
      requires Tidy()
      ensures b == MoovBox(State(), info, mediaOffset)
    {
      var video := TrackBox(Video);
      var audio := TrackBox(Audio);
      b := Box(MOOV, [], [Leaf(MVHD, info.mvhd), video, audio]);
    }

    method TrackBox(kind: Kind) returns (b: Box)
      requires Tidy()
      ensures b == TrakBox(State(), info, kind, mediaOffset)
    {
      var t := InfoOf(info, kind);
      var stbl := SampleTableBox(kind);
      var minf := Box(MINF, [], [Leaf(if kind == Video then VMHD else SMHD, t.mediaHeader), DinfBox(t), stbl]);
      var mdia := Box(MDIA, [], [Leaf(MDHD, t.mdhd), Leaf(HDLR, t.hdlr), minf]);
      b := Box(TRAK, [], [Leaf(TKHD, t.tkhd), Box(EDTS, [], [Leaf(ELST, t.elst)]), mdia]);
    }

    method SampleTableBox(kind: Kind) returns (b: Box)
      requires Tidy()
      ensures b == StblBox(State(), info, kind, mediaOffset)
    {
      var t := InfoOf(info, kind);
      var stts := DecodingTimes(kind);
      var stsc := SampleToChunk(kind);
      var stsz := SampleSizes(kind);
      var stco := ChunkOffsets(kind);
      var entry := Box(if kind == Video then AVC1 else MP4A, t.entry, [Leaf(if kind == Video then AVCC else ESDS, t.config)]);
      var cs := [Box(STSD, t.stsd, [entry])];
      cs := cs + [Leaf(STTS, stts)];
      if kind == Video {
        var ctts := CompositionTimes();
        cs := cs + [Leaf(CTTS, ctts)];
      }
      cs := cs + [Leaf(STSC, stsc)];
      cs := cs + [Leaf(STSZ, stsz)];
      cs := cs + [Leaf(STCO, stco)];
      b := Box(STBL, [], cs);
    }

    /** The entry count starts as the number of samples and is patched at the end. */
    method DecodingTimes(kind: Kind) returns (body: seq<byte>)
      ensures body == TimesBody(Stts(TimesOf(Samples(State(), kind))))
    {
      hide Fields32, BigEndian;
      var samples := if kind == Video then videoSamples else audioSamples;
      ghost var dts := TimesOf(samples);
      var entryCount := |samples|;
      ghost var head := Fields32([0, |samples|]);
      body := BigEndian(4, 0) + BigEndian(4, entryCount);
      var time: nat, delta: nat, count: nat := if samples == [] then 0 else samples[0].dts, 0, 1;
      NoTimesYet(|samples|);
      var i := 0;
      while i != |samples|
        invariant 0 <= i <= |samples|
        invariant body == head + Fields32(FlatTimes(Stts(dts[..i])))
        invariant entryCount == |samples| - i + |Stts(dts[..i])|
        invariant if i == 0 then samples == [] || (time == dts[0] && delta == 0 && count == 1)
                  else Turns(dts[..i]) == Loop(time, delta, count, Stts(dts[..i]))
      {
        TimesNext(dts, i);
        var sampleDelta := Minus32(samples[i].dts, time);
        if i > 0 && sampleDelta == delta {
          entryCount := entryCount - 1;
          count := count + 1;
        } else {
          OneMoreEntry(head, Stts(dts[..i]), TimeEntry(count, sampleDelta));
          body := body + BigEndian(4, count) + BigEndian(4, sampleDelta);
          time, delta, count := samples[i].dts, sampleDelta, 1;
        }
        i := i + 1;
      }
      assert dts[..i] == dts;
      Fields32Append([0, entryCount], FlatTimes(Stts(dts)));
      CountPatched(|samples|, entryCount, Fields32(FlatTimes(Stts(dts))));
      body := body[..4] + BigEndian(4, entryCount) + body[8..];
    }

    method CompositionTimes() returns (body: seq<byte>)
      ensures body == TimesBody(Ctts(videoSamples))
    {
      hide Fields32, BigEndian;
      var entryCount := |videoSamples|;
      ghost var head := Fields32([0, entryCount]);
      body := BigEndian(4, 0) + BigEndian(4, entryCount);
      NoTimesYet(entryCount);
      var i := 0;
      while i != |videoSamples|
        invariant 0 <= i <= |videoSamples|
        invariant body == head + Fields32(FlatTimes(Ctts(videoSamples[..i])))
      {
        CttsSnoc(videoSamples[..i + 1]);
        assert videoSamples[..i + 1][..i] == videoSamples[..i];
        var offset := Minus32(videoSamples[i].pts, videoSamples[i].dts);
        OneMoreEntry(head, Ctts(videoSamples[..i]), TimeEntry(1, offset));
        body := body + BigEndian(4, 1) + BigEndian(4, offset);
        i := i + 1;
      }
      assert videoSamples[..i] == videoSamples;
      Fields32Append([0, entryCount], FlatTimes(Ctts(videoSamples)));
    }

    /** The run-length table; its entry count starts as the number of chunks and is patched at the end. */
    method SampleToChunk(kind: Kind) returns (body: seq<byte>)
      ensures body == StscBody(StscOf(State(), kind))
    {
      hide Fields32, BigEndian;
      var tmp: seq<Chunk> := [];
      var k := 0;
      while k != |chunk|
        invariant 0 <= k <= |chunk|
        invariant |tmp| == |Counts(chunk[..k], kind)| && forall i :: 0 <= i < |tmp| ==> tmp[i].count == Counts(chunk[..k], kind)[i]
      {
        assert chunk[..k + 1][..k] == chunk[..k];
        if chunk[k].kind == kind {
          tmp := tmp + [chunk[k]];
        }
        k := k + 1;
      }
      assert chunk[..k] == chunk;
      ghost var counts := Counts(chunk, kind);
      var entryCount := |tmp|;
      var pos := 4;
      ghost var head := Fields32([0, |tmp|]);
      body := BigEndian(4, 0) + BigEndian(4, entryCount);
      NoEntriesYet(|tmp|, counts);
      var i := 0;
      while i != |tmp|
        invariant 0 <= i <= |tmp|
        invariant body == head + Fields32(Flat(Stsc(counts[..i])))
        invariant entryCount == |tmp| - i + |Stsc(counts[..i])|
      {
        StscNext(counts, i);
        if i > 0 && tmp[i].count == tmp[i - 1].count {
          entryCount := entryCount - 1;
        } else {
          FlatSnoc(Stsc(counts[..i]), StscEntry(i + 1, tmp[i].count));
          ThreeFields(Flat(Stsc(counts[..i])), i + 1, tmp[i].count, 1);
          ThreeBehind(head, Fields32(Flat(Stsc(counts[..i]))), BigEndian(4, i + 1), BigEndian(4, tmp[i].count), BigEndian(4, 1));
          body := body + BigEndian(4, i + 1) + BigEndian(4, tmp[i].count) + BigEndian(4, 1);
        }
        i := i + 1;
      }
      assert counts[..i] == counts;
      Fields32Append([0, entryCount], Flat(Stsc(counts)));
      CountPatched(|tmp|, entryCount, Fields32(Flat(Stsc(counts))));
      body := body[..pos] + BigEndian(4, entryCount) + body[pos + 4..];
    }

    method SampleSizes(kind: Kind) returns (body: seq<byte>)
      requires Tidy()
      ensures body == StszBody(Sizes(Samples(State(), kind)))
    {
      var samples := if kind == Video then videoSamples else audioSamples;
      var entries: seq<byte> := [];
      var i := 0;
      while i != |samples|
        invariant 0 <= i <= |samples|
        invariant entries == Fields32(Sizes(samples[..i]))
      {
        assert samples[..i + 1][..i] == samples[..i];
        var size := if kind == Video then |samples[i].data| else |Raw(samples[i])|;
        FieldsSnoc(Sizes(samples[..i]), size);
        entries := entries + BigEndian(4, size);
        i := i + 1;
      }
      assert samples[..i] == samples;
      SizesShape(samples);
      Fields32Append([0, 0, |samples|], Sizes(samples));
      body := Fields32([0, 0, |samples|]) + entries;
    }

    method ChunkOffsets(kind: Kind) returns (body: seq<byte>)
      ensures body == StcoBody(Shifted(Offsets(State(), kind), mediaOffset))
    {
      hide Fields32, BigEndian;
      var chunkOffsets := if kind == Video then videoChunkOffset else audioChunkOffset;
      var entries: seq<byte> := [];
      NoOffsets(chunkOffsets, mediaOffset);
      var i := 0;
      while i != |chunkOffsets|
        invariant 0 <= i <= |chunkOffsets|
        invariant entries == Fields32(Shifted(chunkOffsets[..i], mediaOffset))
      {
        assert chunkOffsets[..i + 1][..i] == chunkOffsets[..i];
        FieldsSnoc(Shifted(chunkOffsets[..i], mediaOffset), chunkOffsets[i] + mediaOffset);
        entries := entries + BigEndian(4, chunkOffsets[i] + mediaOffset);
        i := i + 1;
      }
      assert chunkOffsets[..i] == chunkOffsets;
      Fields32Append([0, |chunkOffsets|], Shifted(chunkOffsets, mediaOffset));
      body := Fields32([0, |chunkOffsets|]) + entries;
    }
  }

  lemma TwoFields(a: nat, b: nat)
    ensures Fields32([a, b]) == BigEndian(4, a) + BigEndian(4, b)
  {
    hide BigEndian;
    FieldsSnoc([a], b);
    FieldsSnoc([], a);
    assert [] + [a] == [a] && [a] + [b] == [a, b];
    assert Fields32([]) == [] && [] + BigEndian(4, a) == BigEndian(4, a);
  }

  lemma NoTimesYet(n: nat)
    ensures BigEndian(4, 0) + BigEndian(4, n) == Fields32([0, n]) + Fields32(FlatTimes([]))
  {
    hide BigEndian;
    TwoFields(0, n);
    assert Fields32(FlatTimes([])) == [];
    assert Fields32([0, n]) + [] == Fields32([0, n]);
  }

  lemma TimesNext(dts: seq<nat>, i: nat)
    requires i < |dts|
    ensures Turns(dts[..i + 1]) == if i == 0 then Loop(dts[0], 0, 1, [TimeEntry(1, 0)]) else Turn(Turns(dts[..i]), dts[i])
    ensures i == 0 ==> Turns(dts[..i]).entries == []
  {
    hide Turns, Turn;
    if i == 0 {
      FirstTurn(dts);
      NoTurns();
    } else {
      TurnsStep(dts, i);
    }
  }

  lemma NoTurns()
    ensures Turns([]).entries == []
  {
  }

  lemma OneMoreEntry(head: seq<byte>, es: seq<TimeEntry>, e: TimeEntry)
    ensures head + Fields32(FlatTimes(es)) + BigEndian(4, e.count) + BigEndian(4, e.value)
            == head + Fields32(FlatTimes(es + [e]))
  {
    hide Fields32, BigEndian, FlatTimes;
    var xs := FlatTimes(es);
    FlatTimesSnoc(es, e);
    FieldsSnoc(xs, e.count);
    FieldsSnoc(xs + [e.count], e.value);
    assert xs + [e.count] + [e.value] == xs + [e.count, e.value];
    var a, b, c := Fields32(xs), BigEndian(4, e.count), BigEndian(4, e.value);
    assert head + a + b + c == head + (a + b + c);
  }

  lemma NoEntriesYet(n: nat, counts: seq<nat>)
    ensures BigEndian(4, 0) + BigEndian(4, n) == Fields32([0, n]) + Fields32(Flat(Stsc(counts[..0])))
  {
    hide BigEndian;
    TwoFields(0, n);
    assert Fields32(Flat(Stsc(counts[..0]))) == [];
    assert Fields32([0, n]) + [] == Fields32([0, n]);
  }

  lemma ThreeBehind(h: seq<byte>, e: seq<byte>, a: seq<byte>, b: seq<byte>, c: seq<byte>)
    ensures h + e + a + b + c == h + (e + a + b + c)
  {
  }

  /** Only the count changes. */
  lemma CountPatched(n: nat, m: nat, entries: seq<byte>)
    ensures var body := Fields32([0, n]) + entries;
            |body| >= 8 && body[..4] + BigEndian(4, m) + body[8..] == Fields32([0, m]) + entries
  {
    hide BigEndian;
    TwoFields(0, n);
    TwoFields(0, m);
    PatchMiddle(BigEndian(4, 0), BigEndian(4, n), BigEndian(4, m), entries);
  }

  lemma PatchMiddle(a: seq<byte>, x: seq<byte>, y: seq<byte>, e: seq<byte>)
    requires |a| == |x| == |y| == 4
    ensures var s := a + x + e;
            s[..4] + y + s[8..] == a + y + e
  {
  }

  lemma NoOffsets(offsets: seq<nat>, shift: nat)
    ensures Fields32(Shifted(offsets[..0], shift)) == []
  {
  }
}
