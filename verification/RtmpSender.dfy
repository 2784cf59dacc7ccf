/**
 The sending half of the RTMP chunk stream (RTMP 1.0, sections 5.3.1 and 5.4.1): header compression against
 the memory of what was last sent on each chunk stream id, and the splitting of messages into chunks.
 */
module RtmpSender {
  import opened Bytes
  import opened Media
  import opened RtmpReceiver
  import opened RtmpChunks

  /** What the sender remembers of the last message on a chunk stream id. */
  datatype Sent = Sent(timestamp: nat, delta: nat, length: nat, typeId: byte)

  const NOTHING_SENT := Sent(0, 0, 0, 0)

  /** The frame type and composition offset that precede an AVC NAL unit. */
  datatype VideoTag = VideoTag(iFrame: bool, offset: nat)

  datatype Outgoing = Outgoing(
    csId: nat, timestamp: nat, delta: nat, typeId: byte, streamId: nat, tag: Option<VideoTag>, data: seq<byte>)

  datatype Sender = Sender(pre: map<nat, Sent>, outChunk: nat, wire: seq<byte>)

  function SentOn(pre: map<nat, Sent>, c: nat): Sent {
    if c in pre then pre[c] else NOTHING_SENT
  }

  function TagBytes(tag: Option<VideoTag>): (s: seq<byte>)
    ensures |s| == if tag.Some? then 5 else 0
  {
    match tag
    case None => []
    case Some(t) => [if t.iFrame then 0x17 else 0x27, 0x01] + BigEndian(3, t.offset)
  }

  /** The message body as the receiver will see it. */
  function Body(m: Outgoing): seq<byte> {
    TagBytes(m.tag) + m.data
  }

  function InfoOf(m: Outgoing): Sent {
    Sent(m.timestamp, m.delta, |Body(m)|, m.typeId)
  }

  /** The header format: as short as the memory of the last message on the csid permits. */
  function Format(last: Sent, m: Outgoing, forceFmt0: bool): (fmt: nat)
    ensures fmt < 4
  {
    if last.length == 0 || forceFmt0 then 0
    else if last.length != |Body(m)| || last.typeId != m.typeId then 1
    else if last.delta != m.delta then 2
    else 3
  }

  function LittleEndian4(v: nat): (s: seq<byte>)
    ensures |s| == 4
  {
    var b := BigEndian(4, v);
    [b[3], b[2], b[1], b[0]]
  }

  function MessageHeader(fmt: nat, m: Outgoing): (s: seq<byte>)
    ensures |s| == HeaderLength(fmt)
  {
    if fmt == 0 then
      BigEndian(3, m.delta) + BigEndian(3, |Body(m)|) + [m.typeId] + LittleEndian4(m.streamId)
    else if fmt == 1 then
      BigEndian(3, m.delta) + BigEndian(3, |Body(m)|) + [m.typeId]
    else if fmt == 2 then
      BigEndian(3, m.delta)
    else []
  }

  function Least(a: nat, b: nat): nat {
    if a < b then a else b
  }

  /** The chunks that carry what is left of a message after its first chunk. */
  function Continuations(csId: nat, rest: seq<byte>, chunkSize: nat): seq<Chunk>
    requires 2 <= csId < 64 && chunkSize > 0
  {
    if rest == [] then []
    else
      var n := Least(|rest|, chunkSize);
      [Chunk(3, csId, [], rest[..n])] + Continuations(csId, rest[n..], chunkSize)
  }

  function ChunksOf(fmt: nat, m: Outgoing, chunkSize: nat): seq<Chunk>
    requires fmt < 4 && 2 <= m.csId < 64 && chunkSize > 0
  {
    var n := Least(|Body(m)|, chunkSize);
    [Chunk(fmt, m.csId, MessageHeader(fmt, m), Body(m)[..n])] + Continuations(m.csId, Body(m)[n..], chunkSize)
  }

  /** What the one-byte basic header and the first chunk's video tag demand of a caller. */
  predicate Sendable(m: Outgoing, chunkSize: nat) {
    2 <= m.csId < 64 && chunkSize > 0 && (m.tag.Some? ==> chunkSize >= 5)
  }

  function Send(s: Sender, m: Outgoing, forceFmt0: bool): Sender
    requires Sendable(m, s.outChunk)
  {
    var fmt := Format(SentOn(s.pre, m.csId), m, forceFmt0);
    Sender(s.pre[m.csId := InfoOf(m)], s.outChunk, s.wire + WireAll(ChunksOf(fmt, m, s.outChunk)))
  }

  const MEDIA_AUDIO_CSID := 4
  const MEDIA_VIDEO_CSID := 6

  /** The message for a frame; its delta is taken against the last timestamp on the same csid. */
  function MediaMessage(pre: map<nat, Sent>, p: Payload): Outgoing {
    var c := if p.kind == Audio then MEDIA_AUDIO_CSID else MEDIA_VIDEO_CSID;
    var now := p.dts % U32;
    Outgoing(c, now, if c in pre then Minus32(now, pre[c].timestamp) else 0,
             if p.kind == Audio then AUDIO else VIDEO, 0,
             if p.kind == Audio then None else Some(VideoTag(p.iFrame, Minus32(p.pts, p.dts))), p.data)
  }

  /** A control, command or header message: no timestamp, and format 0 unless it is audio or video. */
  function PlainMessage(csId: nat, streamId: nat, typeId: byte, data: seq<byte>): Outgoing {
    Outgoing(csId, 0, 0, typeId, streamId, None, data)
  }

  function ForcesFmt0(typeId: byte): bool {
    typeId != AUDIO && typeId != VIDEO
  }

  function ChunkSizeMessage(n: nat): Outgoing {
    PlainMessage(2, 0, SET_CHUNK_SIZE, BigEndian(4, n))
  }

  function Resize(s: Sender, n: nat): Sender
    requires n > 0
  {
    Send(s.(outChunk := n), ChunkSizeMessage(n), true)
  }

  // ---------------------------------------------------------------------------------------------
  // The sender itself
  // ---------------------------------------------------------------------------------------------

  /** `count` pieces of at most `size` bytes are just enough for `len` bytes. */
  predicate JustEnough(count: nat, size: nat, len: nat) {
    count >= 1 && len <= count * size && (count > 1 ==> (count - 1) * size < len)
  }

  lemma CeilingIsJustEnough(len: nat, size: nat, count: nat)
    requires size > 0 && len > size
    requires count == len / size + if len % size != 0 then 1 else 0
    ensures JustEnough(count, size, len)
  {
    var q, r := len / size, len % size;
    DivisionAlgorithm(len, size);
    MulStep(size, q, 1);
    MulDistributes(size, q, 1);
    if q > 0 {
      MulDistributes(size, q - 1, 1);
    }
  }

  /** One more piece: it starts before the end, and it moves the boundary by its own length. */
  lemma NextPiece(i: nat, count: nat, size: nat, len: nat)
    requires 1 <= i < count && JustEnough(count, size, len)
    ensures i * size < len && (i + 1) * size == i * size + size
  {
    MulDistributes(size, i, count - 1 - i);
    MulDistributes(size, i, 1);
    MulStep(size, i - 1, count - 1);
  }

  lemma NothingLeft(wire: seq<byte>, csId: nat, size: nat)
    requires 2 <= csId < 64 && size > 0
    ensures wire + WireAll(Continuations(csId, [], size)) == wire
  {
  }

  class SendingEnd {
    var csidPreInfo: map<nat, Sent>
    var outChunkSize: nat
    var wire: seq<byte>

    function State(): Sender
      reads this
    {
      Sender(csidPreInfo, outChunkSize, wire)
    }

    constructor ()
      ensures State() == Sender(map[], 128, [])
    {
      csidPreInfo, outChunkSize, wire := map[], 128, [];
    }

    method CountChunks(length: nat) returns (count: nat)
      requires outChunkSize > 0
      ensures JustEnough(count, outChunkSize, length)
    {
      count := 1;
      if length > outChunkSize {
        count := length / outChunkSize;
        if length % outChunkSize != 0 {
          count := count + 1;
        }
        CeilingIsJustEnough(length, outChunkSize, count);
      }
    }

    method ChooseFormat(pre: Sent, m: Outgoing, forceFmt0: bool) returns (fmt: nat)
      ensures fmt == Format(pre, m, forceFmt0)
    {
      if pre.length == 0 || forceFmt0 {
        fmt := 0;
      } else if pre.length == |Body(m)| {
        if pre.typeId == m.typeId {
          fmt := if pre.delta == m.delta then 3 else 2;
        } else {
          fmt := 1;
        }
      } else {
        fmt := 1;
      }
    }

    /** Sends one message, split into chunks. */
    method SendData(m: Outgoing, forceFmt0: bool)
      requires Sendable(m, outChunkSize)
      modifies this`csidPreInfo, this`wire
      ensures State() == Send(old(State()), m, forceFmt0)
    {
      var length := |Body(m)|;
      var chunkCount := CountChunks(length);
      var fmt := ChooseFormat(SentOn(csidPreInfo, m.csId), m, forceFmt0);
      var dataPos := SendFirstChunk(m, fmt);
      SendContinuations(m.csId, m.data, dataPos, length, chunkCount);
      csidPreInfo := csidPreInfo[m.csId := InfoOf(m)];
    }

    /** The chunks after the first: bare format 3 headers, each with as much data as fits. */
    method SendContinuations(csId: nat, data: seq<byte>, start: nat, length: nat, chunkCount: nat)
      requires 2 <= csId < 64 && outChunkSize > 0 && start <= |data|
      requires |data| - start == length - Least(length, outChunkSize)
      requires JustEnough(chunkCount, outChunkSize, length)
      modifies this`wire
      ensures wire == old(wire) + WireAll(Continuations(csId, data[start..], outChunkSize))
    {
      hide WireAll, Continuations;
      ghost var total := wire + WireAll(Continuations(csId, data[start..], outChunkSize));
      ghost var reached := outChunkSize;
      var dataPos := start;
      var i := 1;
      while i != chunkCount
        invariant 1 <= i <= chunkCount && reached == i * outChunkSize
        invariant start <= dataPos <= |data| && |data| - dataPos == length - Least(length, reached)
        invariant wire + WireAll(Continuations(csId, data[dataPos..], outChunkSize)) == total
      {
        NextPiece(i, chunkCount, outChunkSize, length);
        var sendLen := length - i * outChunkSize;
        if sendLen > outChunkSize {
          sendLen := outChunkSize;
        }
        var header: seq<byte> := [3 * 64 + csId];
        ContinuationsStep(csId, data, dataPos, sendLen, outChunkSize, wire, header);
        wire := wire + header;
        wire := wire + data[dataPos..dataPos + sendLen];
        dataPos := dataPos + sendLen;
        reached := reached + outChunkSize;
        i := i + 1;
      }
      assert data[dataPos..] == [];
      NothingLeft(wire, csId, outChunkSize);
    }

    /** The header and body of the first chunk; returns how much of the payload data has gone out. */
    method SendFirstChunk(m: Outgoing, fmt: nat) returns (dataPos: nat)
      requires Sendable(m, outChunkSize) && fmt < 4
      modifies this`wire
      ensures var n := Least(|Body(m)|, outChunkSize);
              && dataPos <= |m.data| && |m.data| - dataPos == |Body(m)| - n
              && wire + WireAll(Continuations(m.csId, m.data[dataPos..], outChunkSize))
                 == old(wire) + WireAll(ChunksOf(fmt, m, outChunkSize))
    {
      var header: seq<byte> := [fmt * 64 + m.csId];
      if fmt == 0 {
        header := header + BigEndian(3, m.delta) + BigEndian(3, |Body(m)|) + [m.typeId] + LittleEndian4(m.streamId);
      } else if fmt == 1 {
        header := header + BigEndian(3, m.delta) + BigEndian(3, |Body(m)|) + [m.typeId];
      } else if fmt == 2 {
        header := header + BigEndian(3, m.delta);
      }
      assert header == BasicHeader(fmt, m.csId) + MessageHeader(fmt, m);
      var sendLen := Least(|Body(m)|, outChunkSize);
      dataPos := sendLen;
      if m.tag.Some? {
        header := header + TagBytes(m.tag);
        dataPos := sendLen - 5;
      }
      wire := wire + header;
      wire := wire + m.data[..dataPos];
      ghost var first := Chunk(fmt, m.csId, MessageHeader(fmt, m), Body(m)[..sendLen]);
      assert Body(m)[..sendLen] == TagBytes(m.tag) + m.data[..dataPos];
      assert Body(m)[sendLen..] == m.data[dataPos..];
      assert header + m.data[..dataPos] == Wire(first);
      WireOfCons(old(wire), first, Continuations(m.csId, Body(m)[sendLen..], outChunkSize), header, m.data[..dataPos]);
    }

    method SendMediaData(p: Payload)
      requires outChunkSize >= 5
      modifies this`csidPreInfo, this`wire
      ensures State() == Send(old(State()), MediaMessage(old(csidPreInfo), p), false)
    {
      var csId := 6;
      if p.kind == Audio {
        csId := 4;
      }
      var timestamp := p.dts % U32;
      var delta := 0;
      if csId in csidPreInfo {
        delta := Minus32(timestamp, csidPreInfo[csId].timestamp);
      }
      if p.kind == Audio {
        SendData(Outgoing(csId, timestamp, delta, AUDIO, 0, None, p.data), false);
      } else {
        var tag := VideoTag(p.iFrame, Minus32(p.pts, p.dts));
        SendData(Outgoing(csId, timestamp, delta, VIDEO, 0, Some(tag), p.data), false);
      }
    }

    method SendRtmpMessage(csId: nat, streamId: nat, typeId: byte, data: seq<byte>)
      requires 2 <= csId < 64 && outChunkSize > 0
      modifies this`csidPreInfo, this`wire
      ensures State() == Send(old(State()), PlainMessage(csId, streamId, typeId, data), ForcesFmt0(typeId))
    {
      var forceFmt0 := typeId != AUDIO && typeId != VIDEO;
      SendData(Outgoing(csId, 0, 0, typeId, streamId, None, data), forceFmt0);
    }

    /** Adopts a chunk size, then announces it in a message that is already chunked by it. */
    method SetOutChunkSize(chunkSize: nat)
      requires chunkSize > 0
      modifies this
      ensures State() == Resize(old(State()), chunkSize)
    {
      outChunkSize := chunkSize;
      var data := BigEndian(4, chunkSize);
      ghost var resized := old(State()).(outChunk := chunkSize);
      assert State() == resized;
      SendRtmpMessage(2, 0, SET_CHUNK_SIZE, data);
      assert ForcesFmt0(SET_CHUNK_SIZE);
      assert State() == Send(resized, PlainMessage(2, 0, SET_CHUNK_SIZE, data), true);
    }
  }

  lemma WireOfCons(before: seq<byte>, c: Chunk, cs: seq<Chunk>, a: seq<byte>, b: seq<byte>)
    requires a + b == Wire(c)
    ensures before + a + b + WireAll(cs) == before + WireAll([c] + cs)
  {
    assert ([c] + cs)[1..] == cs;
    assert before + a + b == before + Wire(c);
    assert before + Wire(c) + WireAll(cs) == before + (Wire(c) + WireAll(cs));
  }

  lemma ContinuationsStep(
      csId: nat, data: seq<byte>, pos: nat, n: nat, chunkSize: nat, before: seq<byte>, header: seq<byte>)
    requires 2 <= csId < 64 && chunkSize > 0 && pos < |data| && header == [3 * 64 + csId]
    requires n == Least(|data| - pos, chunkSize)
    ensures before + header + data[pos..pos + n] + WireAll(Continuations(csId, data[pos + n..], chunkSize))
            == before + WireAll(Continuations(csId, data[pos..], chunkSize))
  {
    var rest := data[pos..];
    assert rest[..n] == data[pos..pos + n] && rest[n..] == data[pos + n..];
    WireOfCons(before, Chunk(3, csId, [], rest[..n]), Continuations(csId, rest[n..], chunkSize), header, rest[..n]);
  }
}
