/** The DASH muxer itself, changing its fields in place, and the writers of its segments. */
module DashMuxer {
  import opened Bytes
  import opened Media
  import opened BitIO
  import opened Boxes
  import opened BoxWriter
  import opened DashSegment
  import opened DashFragments
  import opened DashManifest

  lemma FieldsOfFour(a: nat, b: nat, c: nat, d: nat)
    ensures BigEndian(4, a) + BigEndian(4, b) + BigEndian(4, c) + BigEndian(4, d) == Fields32([a, b, c, d])
  {
    FieldsSnoc([], a);
    assert Fields32([]) + BigEndian(4, a) == BigEndian(4, a) && [] + [a] == [a];
    ThreeFields([a], b, c, d);
    assert [a] + [b, c, d] == [a, b, c, d];
  }

  lemma EntriesNext(samples: seq<Payload>, i: nat)
    requires i + 1 < |samples|
    ensures Entries(samples[..i + 2])
            == Entries(samples[..i + 1]) + [Minus32(samples[i + 1].dts, samples[i].dts), |Stored(samples[i])|,
                                            Minus32(samples[i].pts, samples[i].dts)]
  {
    assert samples[..i + 2][..i + 1] == samples[..i + 1];
  }

  /** Patching the data offset into the header. */
  lemma TrunPatched(start: seq<byte>, n: nat, d: nat, e: seq<byte>)
    ensures var c := start + TrunHead(n, 0) + e;
            c[..|start| + 8] + BigEndian(4, d) + c[|start| + 12..] == start + (TrunHead(n, d) + e)
  {
    Associate(start, TrunHead(n, d), e);
    HeadParts(n, 0);
    HeadParts(n, d);
    Patch(start, BigEndian(4, TRUN_FLAGS) + BigEndian(4, n), BigEndian(4, 0), BigEndian(4, d), BigEndian(4, 0), e);
  }

  lemma HeadParts(n: nat, d: nat)
    ensures TrunHead(n, d) == BigEndian(4, TRUN_FLAGS) + BigEndian(4, n) + BigEndian(4, d) + BigEndian(4, 0)
  {
    FieldsOfFour(TRUN_FLAGS, n, d, 0);
  }

  lemma Patch(start: seq<byte>, a: seq<byte>, old4: seq<byte>, new4: seq<byte>, b: seq<byte>, rest: seq<byte>)
    requires |a| == 8 && |old4| == 4
    ensures var c := start + (a + old4 + b) + rest;
            c[..|start| + 8] + new4 + c[|start| + 12..] == start + (a + new4 + b) + rest
  {
    var c := start + (a + old4 + b) + rest;
    assert c[..|start| + 8] == start + a;
    assert c[|start| + 12..] == b + rest;
  }

  lemma LeafOpened(before: seq<byte>, zero: seq<byte>, kind: seq<byte>, body: seq<byte>)
    ensures before + zero + kind + body == before + zero + (kind + body + [])
  {
  }

  /** Two or three parts of a container without a prefix. */
  lemma PartsOpened(before: seq<byte>, zero: seq<byte>, kind: seq<byte>, a: seq<byte>, b: seq<byte>)
    ensures before + zero + kind + a + b == before + zero + (kind + [] + (a + b))
  {
  }

  lemma SerializeTwo(a: Box, b: Box)
    ensures SerializeAll([a, b]) == Serialize(a) + Serialize(b) && SizeAll([a, b]) == Size(a) + Size(b)
  {
    SerializeAllSnoc([a], b);
    SerializeAllSnoc([], a);
    assert [] + [a] == [a] && [a] + [b] == [a, b] && [] + Serialize(a) == Serialize(a);
  }

  lemma SerializeThree(a: Box, b: Box, c: Box)
    ensures SerializeAll([a, b, c]) == Serialize(a) + Serialize(b) + Serialize(c)
  {
    SerializeTwo(a, b);
    SerializeAllSnoc([a, b], c);
    assert [a, b] + [c] == [a, b, c];
  }

  /** The sample durations, sizes and offsets; the data offset is patched when the box is complete. */
  method WriteTrackFragmentRunBox(bs: BitStream, samples: seq<Payload>, kind: Kind, moofOffset: nat, ghost d: nat)
    requires samples != [] && AllOf(samples, kind)
    requires Ready(bs, 12 + 12 * |samples|) && d == |bs.Content()| + 12 + 12 * |samples| + 8 - moofOffset
    modifies bs, bs.buf
    ensures Ready(bs, 0) && bs.Content() == old(bs.Content()) + Serialize(Leaf(TRUN, TrunBody(samples, d)))
  {
    ghost var before := bs.Content();
    var preSize := BeginBox(bs, TRUN);
    WriteRun(bs, samples, kind, moofOffset, d);
    LeafOpened(before, BigEndian(4, 0), BigEndian(4, TRUN), TrunBody(samples, d));
    EndBox(bs, preSize, before, Leaf(TRUN, TrunBody(samples, d)));
  }

  method WriteRun(bs: BitStream, samples: seq<Payload>, kind: Kind, moofOffset: nat, ghost d: nat)
    requires samples != [] && AllOf(samples, kind)
    requires Ready(bs, 4 + 12 * |samples|) && d == |bs.Content()| + 4 + 12 * |samples| + 8 - moofOffset
    modifies bs, bs.buf
    ensures Ready(bs, 0) && bs.Content() == old(bs.Content()) + TrunBody(samples, d)
  {
    hide TrunHead, Fields32, Entries, BigEndian, BitIO.BitStream.Valid;
    ghost var start := bs.Content();
    var pos := WriteRunHeader(bs, |samples| - 1);
    WriteRunEntries(bs, samples, kind);
    assert bs.curPos / 8 == |bs.Content()|;
    var dataOffset := bs.curPos / 8 + 8 - moofOffset;
    TrunPatched(start, |samples| - 1, d, Fields32(Entries(samples)));
    var ok := bs.ModifyBytes(pos, 4, dataOffset);
  }

  method WriteRunHeader(bs: BitStream, sampleCount: nat) returns (pos: nat)
    requires Ready(bs, 16)
    modifies bs, bs.buf
    ensures Ready(bs, 0) && pos == |old(bs.Content())| + 8
    ensures bs.Content() == old(bs.Content()) + TrunHead(sampleCount, 0)
  {
    ghost var before := bs.Content();
    bs.WriteBytes(4, TRUN_FLAGS);
    bs.WriteBytes(4, sampleCount);
    pos := bs.curPos / 8;
    bs.WriteBytes(4, 0);
    bs.WriteBytes(4, 0);
    FourParts(before, BigEndian(4, TRUN_FLAGS), BigEndian(4, sampleCount), BigEndian(4, 0), BigEndian(4, 0));
    HeadParts(sampleCount, 0);
  }

  lemma FourParts(before: seq<byte>, a: seq<byte>, b: seq<byte>, c: seq<byte>, d: seq<byte>)
    ensures before + a + b + c + d == before + (a + b + c + d)
  {
  }

  method WriteRunEntry(bs: BitStream, ghost start: seq<byte>, ghost sofar: seq<nat>, duration: nat, size: nat, offset: nat)
    requires Ready(bs, 12) && bs.Content() == start + Fields32(sofar)
    modifies bs, bs.buf
    ensures Ready(bs, 0) && bs.Content() == start + Fields32(sofar + [duration, size, offset])
  {
    bs.WriteBytes(4, duration);
    bs.WriteBytes(4, size);
    bs.WriteBytes(4, offset);
    FourParts(start, Fields32(sofar), BigEndian(4, duration), BigEndian(4, size), BigEndian(4, offset));
    ThreeFields(sofar, duration, size, offset);
  }

  lemma NoEntries(start: seq<byte>, samples: seq<Payload>)
    requires samples != []
    ensures start + Fields32(Entries(samples[..1])) == start
  {
  }

  method WriteRunEntries(bs: BitStream, samples: seq<Payload>, kind: Kind)
    requires samples != [] && AllOf(samples, kind) && Ready(bs, 12 * (|samples| - 1))
    modifies bs, bs.buf
    ensures Ready(bs, 0) && bs.Content() == old(bs.Content()) + Fields32(Entries(samples))
  {
    ghost var start := bs.Content();
    hide Entries, Fields32;
    NoEntries(start, samples);
    var i := 0;
    while i < |samples| - 1
      invariant 0 <= i <= |samples| - 1 && Ready(bs, 12 * (|samples| - 1 - i))
      invariant bs.Content() == start + Fields32(Entries(samples[..i + 1]))
    {
      var size := if kind == Video then |samples[i].data| else |Raw(samples[i])|;
      var duration, offset := Minus32(samples[i + 1].dts, samples[i].dts), Minus32(samples[i].pts, samples[i].dts);
      WriteRunEntry(bs, start, Entries(samples[..i + 1]), duration, size, offset);
      EntriesNext(samples, i);
      i := i + 1;
    }
    assert samples[..i + 1] == samples;
  }

  method WriteTrackFragmentBox(bs: BitStream, samples: seq<Payload>, kind: Kind, moofOffset: nat, ghost d: nat)
    requires samples != [] && AllOf(samples, kind)
    requires Ready(bs, 52 + 12 * |samples|) && d == |bs.Content()| + 52 + 12 * |samples| + 8 - moofOffset
    modifies bs, bs.buf
    ensures Ready(bs, 0) && bs.Content() == old(bs.Content()) + Serialize(TrafBox(samples, d))
  {
    ghost var before := bs.Content();
    var preSize := BeginBox(bs, TRAF);
    var tfhd, tfdt := Leaf(TFHD, Fields32([0x020000, 1])), Leaf(TFDT, Fields32([0, samples[0].dts]));
    WriteBox(bs, tfhd);
    WriteBox(bs, tfdt);
    WriteTrackFragmentRunBox(bs, samples, kind, moofOffset, d);
    ghost var trun := Leaf(TRUN, TrunBody(samples, d));
    ThreeOpened(before, BigEndian(4, 0), BigEndian(4, TRAF), tfhd, tfdt, trun);
    EndBox(bs, preSize, before, TrafBox(samples, d));
  }

  lemma ThreeOpened(before: seq<byte>, zero: seq<byte>, kind: seq<byte>, a: Box, b: Box, c: Box)
    ensures before + zero + kind + Serialize(a) + Serialize(b) + Serialize(c)
            == before + zero + (kind + [] + SerializeAll([a, b, c]))
  {
    SerializeThree(a, b, c);
    FiveParts(before + zero, kind, Serialize(a), Serialize(b), Serialize(c));
  }

  lemma FiveParts(before: seq<byte>, kind: seq<byte>, a: seq<byte>, b: seq<byte>, c: seq<byte>)
    ensures before + kind + a + b + c == before + (kind + [] + (a + b + c))
  {
  }

  method WriteMovieFragmentBox(bs: BitStream, samples: seq<Payload>, kind: Kind, sequence: nat)
    requires samples != [] && AllOf(samples, kind)
    requires Ready(bs, 76 + 12 * |samples|)
    modifies bs, bs.buf
    ensures Ready(bs, 0)
    ensures bs.Content() == old(bs.Content()) + Serialize(MoofBox(samples, sequence, DataOffset(samples, sequence)))
  {
    ghost var before := bs.Content();
    var moofOffset := bs.curPos / 8;
    var preSize := BeginBox(bs, MOOF);
    var mfhd := Leaf(MFHD, Fields32([0, sequence]));
    WriteBox(bs, mfhd);
    ghost var d := DataOffset(samples, sequence);
    MoofLength(samples, sequence);
    WriteTrackFragmentBox(bs, samples, kind, moofOffset, d);
    SerializeTwo(mfhd, TrafBox(samples, d));
    PartsOpened(before, BigEndian(4, 0), BigEndian(4, MOOF), Serialize(mfhd), Serialize(TrafBox(samples, d)));
    EndBox(bs, preSize, before, MoofBox(samples, sequence, d));
  }

  lemma MoofLength(samples: seq<Payload>, sequence: nat)
    requires samples != []
    ensures DataOffset(samples, sequence) == 76 + 12 * |samples| + 8
    ensures |Serialize(MoofBox(samples, sequence, DataOffset(samples, sequence)))| == 76 + 12 * |samples|
  {
    MoofSize(samples, sequence, DataOffset(samples, sequence));
    SizeOfTraf(samples);
    SerializeTwo(Leaf(MFHD, Fields32([0, sequence])), TrafBox(samples, 0));
  }

  /** One whole segment, in a buffer of the size that the muxer allocates. */
  method WriteSegment(samples: seq<Payload>, kind: Kind, sequence: nat, mdat: seq<byte>, body: seq<byte>)
    returns (segment: seq<byte>)
    requires samples != [] && AllOf(samples, kind) && |body| <= |mdat| && 12 * |samples| + 152 <= 128 * 1024
    ensures segment == SegmentBytes(samples, sequence, body)
  {
    var bs := new BitStream(|mdat| + 128 * 1024);
    var styp, sidx := Leaf(STYP, StypBody()), Leaf(SIDX, SidxBody(samples, |body|));
    assert Size(styp) == 24 && Size(sidx) == 44;
    WriteBox(bs, styp);
    WriteBox(bs, sidx);
    WriteMovieFragmentBox(bs, samples, kind, sequence);
    MoofLength(samples, sequence);
    assert Size(Leaf(MDAT, body)) == 8 + |body|;
    WriteBox(bs, Leaf(MDAT, body));
    FourBoxes(SegmentBoxes(samples, sequence, body));
    segment := bs.Content();
  }

  lemma FourBoxes(bs: seq<Box>)
    requires |bs| == 4
    ensures [] + Serialize(bs[0]) + Serialize(bs[1]) + Serialize(bs[2]) + Serialize(bs[3]) == SerializeAll(bs)
  {
    SerializeThree(bs[0], bs[1], bs[2]);
    SerializeAllSnoc([bs[0], bs[1], bs[2]], bs[3]);
    assert [bs[0], bs[1], bs[2]] + [bs[3]] == bs;
    assert [] + Serialize(bs[0]) == Serialize(bs[0]);
  }

  method EvictOld(m4s: map<nat, seq<byte>>) returns (r: map<nat, seq<byte>>)
    ensures r == Evict(m4s)
  {
    r := m4s;
    while |r| > 2 * DASH_CACHE
      invariant Evict(r) == Evict(m4s)
      decreases |r|
    {
      assert |r.Keys| == |r|;
      var least := MinKey(r.Keys);
      assert (r - {least}).Keys == r.Keys - {least} && |(r - {least}).Keys| == |r - {least}|;
      r := r - {least};
    }
  }

  class LiveMuxer {
    var videoSamples: seq<Payload>
    var audioSamples: seq<Payload>
    var videoMdat: seq<byte>
    var audioMdat: seq<byte>
    var videoSequence: nat
    var audioSequence: nat
    var videoM4s: map<nat, seq<byte>>
    var audioM4s: map<nat, seq<byte>>
    var videoMpdInfo: map<nat, MpdInfo>
    var audioMpdInfo: map<nat, MpdInfo>
    var mpd: Option<Mpd>

    function State(): Dash
      reads this
    {
      Dash(Track(videoSamples, videoMdat, VideoCache()), Track(audioSamples, audioMdat, AudioCache()), mpd)
    }

    function VideoCache(): Cache
      reads this
    {
      Cache(videoSequence, videoM4s, videoMpdInfo)
    }

    function AudioCache(): Cache
      reads this
    {
      Cache(audioSequence, audioM4s, audioMpdInfo)
    }

    /** The audio data without the sample that closes the fragment. */
    function AudioBody(): seq<byte>
      requires audioSamples != []
      reads this
    {
      WithoutLast(Track(audioSamples, audioMdat, AudioCache()))
    }

    /** The media data are the bytes of the samples held. */
    ghost predicate Valid()
      reads this
    {
      Faithful(State().video, Video) && Faithful(State().audio, Audio)
    }

    constructor ()
      ensures Valid() && State() == DashFragments.EMPTY
    {
      videoSamples, audioSamples, videoMdat, audioMdat := [], [], [], [];
      videoSequence, audioSequence, videoM4s, audioM4s := 0, 0, map[], map[];
      videoMpdInfo, audioMpdInfo, mpd := map[], map[], None;
    }

    method OnAudio(p: Payload)
      requires Valid() && p.kind == Audio
      modifies this
      ensures Valid() && State() == Next(old(State()), p)
    {
      NextFaithful(State(), p, Audio);
      NextFaithful(State(), p, Video);
      audioSamples := audioSamples + [p];
      audioMdat := audioMdat + Raw(p);
    }

    /** The two tracks fit the headroom of the segment buffers. */
    predicate Fits(extra: nat)
      reads this
    {
      12 * (|videoSamples| + extra) + 152 <= 128 * 1024 && 12 * |audioSamples| + 152 <= 128 * 1024
    }

    method OnVideo(p: Payload)
      requires Valid() && p.kind == Video && Fits(1)
      modifies this
      ensures Valid() && State() == Next(old(State()), p)
    {
      NextFaithful(State(), p, Audio);
      NextFaithful(State(), p, Video);
      ghost var d := State();
      videoSamples := videoSamples + [p];
      if p.iFrame {
        CloseFragment(d, p);
      }
      videoMdat := videoMdat + p.data;
    }

    /** Writes the fragments and starts over with the last samples, if enough time has passed. */
    method CloseFragment(ghost d: Dash, ghost p: Payload)
      requires State() == d.(video := Hold(d.video, p)) && p.kind == Video && p.iFrame && Fits(0)
      requires AllOf(videoSamples, Video) && Faithful(State().audio, Audio)
      modifies this
      ensures State() == if Closes(d, p) then Close(d, p) else old(State())
    {
      hide Emit;
      var flushed := Flush();
      if flushed {
        UpdateMpd();
        Reset();
      }
    }

    /** Writes the fragments of both tracks, unless they are shorter than the fragment duration. */
    method Flush() returns (ok: bool)
      requires videoSamples != [] && AllOf(videoSamples, Video) && Faithful(State().audio, Audio) && Fits(0)
      modifies this`videoM4s, this`videoMpdInfo, this`videoSequence, this`audioM4s, this`audioMpdInfo, this`audioSequence
      ensures ok == (Span(videoSamples) >= FRAGMENT_DURATION)
      ensures !ok ==> VideoCache() == old(VideoCache()) && AudioCache() == old(AudioCache())
      ensures ok ==> VideoCache() == Emit(old(VideoCache()), videoSamples, videoMdat)
      ensures ok ==> AudioCache() == if |audioSamples| > 1 then Emit(old(AudioCache()), audioSamples, AudioBody())
                                     else old(AudioCache())
    {
      hide Emit;
      var fragmentDuration := Int32(videoSamples[|videoSamples| - 1].dts - videoSamples[0].dts);
      if fragmentDuration < FRAGMENT_DURATION {
        return false;
      }
      if |videoSamples| > 1 {
        FlushVideo();
      }
      if |audioSamples| > 1 {
        FlushAudioTrack();
      }
      ok := true;
    }

    method FlushVideo()
      requires videoSamples != [] && AllOf(videoSamples, Video) && Fits(0)
      modifies this`videoM4s, this`videoMpdInfo, this`videoSequence
      ensures VideoCache() == Emit(old(VideoCache()), videoSamples, videoMdat)
    {
      hide SegmentBytes;
      videoM4s := EvictOld(videoM4s);
      var segment := WriteSegment(videoSamples, Video, videoSequence, videoMdat, videoMdat);
      videoM4s := videoM4s[videoSamples[0].dts % U32 := segment];
      videoMpdInfo := videoMpdInfo[videoSequence := MpdInfo(videoSamples[0].dts % U32, Span(videoSamples))];
      videoSequence := videoSequence + 1;
    }

    method FlushAudioTrack()
      requires |audioSamples| > 1 && Faithful(State().audio, Audio) && Fits(0)
      modifies this`audioM4s, this`audioMpdInfo, this`audioSequence
      ensures AudioCache() == Emit(old(AudioCache()), audioSamples, AudioBody())
    {
      hide SegmentBytes, Evict, StoredAll, Span;
      audioM4s := EvictOld(audioM4s);
      StoredLast(audioSamples);
      var left := |Raw(audioSamples[|audioSamples| - 1])|;
      var body := audioMdat[..|audioMdat| - left];
      assert body == AudioBody();
      var segment := WriteSegment(audioSamples, Audio, audioSequence, audioMdat, body);
      audioM4s := audioM4s[audioSamples[0].dts % U32 := segment];
      audioMpdInfo := audioMpdInfo[audioSequence := MpdInfo(audioSamples[0].dts % U32, Span(audioSamples))];
      audioSequence := audioSequence + 1;
    }

    method Reset()
      requires Faithful(State().audio, Audio) && videoSamples != []
      modifies this`videoSamples, this`audioSamples, this`videoMdat, this`audioMdat
      ensures videoSamples == [Last(old(videoSamples))] && videoMdat == []
      ensures audioSamples == ResetAudio(old(State()).audio).samples && audioMdat == ResetAudio(old(State()).audio).mdat
    {
      videoMdat := [];
      videoSamples := [videoSamples[|videoSamples| - 1]];
      if audioSamples != [] {
        StoredLast(audioSamples);
        audioSamples := [audioSamples[|audioSamples| - 1]];
        audioMdat := audioMdat[|audioMdat| - |Raw(audioSamples[0])|..];
      }
    }

    method UpdateMpd()
      modifies this`mpd
      ensures mpd == NewMpd(old(State()).video.cache, old(State()).audio.cache, old(mpd))
    {
      if videoSequence < DASH_CACHE || audioSequence < DASH_CACHE {
        return;
      }
      var video: seq<MpdInfo> := [];
      var audio: seq<MpdInfo> := [];
      var c := State();
      for i := 0 to DASH_CACHE
        modifies {}
        invariant |video| == |audio| == i
        invariant forall k :: 0 <= k < i ==> video[k] == InfoAt(c.video.cache, c.video.cache.sequence - 3 + k)
        invariant forall k :: 0 <= k < i ==> audio[k] == InfoAt(c.audio.cache, c.audio.cache.sequence - 3 + k)
      {
        video := video + [InfoAt(c.video.cache, videoSequence - (DASH_CACHE - i))];
        audio := audio + [InfoAt(c.audio.cache, audioSequence - (DASH_CACHE - i))];
      }
      assert video == Latest(c.video.cache) && audio == Latest(c.audio.cache);
      mpd := Some(Mpd(video, audio));
    }

    method GetM4s(kind: Kind, segment: nat) returns (r: Option<seq<byte>>)
      ensures r == DashFragments.GetM4s(Of(State(), kind).cache, segment)
    {
      var m4s := if kind == Video then videoM4s else audioM4s;
      r := if segment in m4s then Some(m4s[segment]) else None;
    }
  }
}
