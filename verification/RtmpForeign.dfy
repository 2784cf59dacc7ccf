/**
 Chunks in the layout of RTMP 1.0 (sections 5.3.1 and 5.4.1), whoever sends them: what the receiver takes them for, and
 that the sender's own chunks have this layout.
 */
module RtmpForeign {
  import opened Bytes
  import opened Media
  import opened RtmpReceiver
  import opened RtmpChunks
  import S = RtmpSender

  /** A chunk header: a csid in one or two bytes, and what its format leaves of the other fields. */
  datatype Header = Header(fmt: nat, csId: nat, time: nat, length: nat, typeId: byte, streamId: nat)

  predicate Fits(h: Header) {
    h.fmt < 4 && 2 <= h.csId < 320 && h.time < 0x100_0000 && h.length < 0x100_0000 && h.streamId < U32
  }

  function BasicBytes(h: Header): seq<byte>
    requires Fits(h)
  {
    if h.csId < 64 then [h.fmt * 64 + h.csId] else [h.fmt * 64, h.csId - 64]
  }

  function Three(v: nat): (s: seq<byte>)
    requires v < 0x100_0000
  {
    [v / 0x1_0000, v / 0x100 % 0x100, v % 0x100]
  }

  function FieldBytes(h: Header): (s: seq<byte>)
    requires Fits(h)
  {
    if h.fmt == 0 then
      Three(h.time) + Three(h.length) + [h.typeId]
      + [h.streamId % 0x100, h.streamId / 0x100 % 0x100, h.streamId / 0x1_0000 % 0x100, h.streamId / 0x100_0000]
    else if h.fmt == 1 then Three(h.time) + Three(h.length) + [h.typeId]
    else if h.fmt == 2 then Three(h.time)
    else []
  }

  /** A header of format 0 sets time, length, type and stream; the shorter ones leave more of what was there. */
  function Remembered(before: Head, h: Header): Head {
    if h.fmt == 0 then
      Head(h.time, before.delta, h.time, h.length, h.typeId, h.streamId, before.msg)
    else if h.fmt == 1 then
      Head(before.timestamp, h.time, before.clock, h.length, h.typeId, before.streamId, before.msg)
    else if h.fmt == 2 then
      Head(before.timestamp, h.time, before.clock, before.length, before.typeId, before.streamId, before.msg)
    else before
  }

  lemma ThreeIs(v: nat)
    requires v < 0x100_0000
    ensures Three(v) == BigEndian(3, v) && Value(Three(v)) == v
  {
    Ranges();
    FieldRoundTrip(3, v);
    assert BigEndian(3, v) == BigEndian(2, v / 256) + [v % 256];
    assert BigEndian(2, v / 256) == BigEndian(1, v / 256 / 256) + [v / 256 % 256];
    assert BigEndian(1, v / 256 / 256) == BigEndian(0, v / 256 / 256 / 256) + [v / 256 / 256 % 256];
  }

  lemma FourIs(a: byte, b: byte, c: byte, d: byte)
    ensures Value([a, b, c, d]) == 0x100_0000 * a as nat + 0x1_0000 * b as nat + 0x100 * c as nat + d as nat
  {
    ValueOfSnoc([], a);
    ValueOfSnoc([a], b);
    ValueOfSnoc([a, b], c);
    ValueOfSnoc([a, b, c], d);
    assert [] + [a] == [a] && [a] + [b] == [a, b] && [a, b] + [c] == [a, b, c] && [a, b, c] + [d] == [a, b, c, d];
  }

  lemma StreamIsRead(v: nat)
    requires v < U32
    ensures Value([v / 0x100_0000, v / 0x1_0000 % 0x100, v / 0x100 % 0x100, v % 0x100]) == v
  {
    FourIs(v / 0x100_0000, v / 0x1_0000 % 0x100, v / 0x100 % 0x100, v % 0x100);
    var a := v / 0x100;
    var b := a / 0x100;
    assert b == v / 0x1_0000 && b / 0x100 == v / 0x100_0000;
    assert v == 0x100 * a + v % 0x100;
    assert a == 0x100 * b + a % 0x100;
    assert b == 0x100 * (b / 0x100) + b % 0x100;
  }

  lemma BasicIsRead(h: Header, rest: seq<byte>)
    requires Fits(h)
    ensures ReadBasic(BasicBytes(h) + rest) == Basic(h.fmt, h.csId, |BasicBytes(h)|)
  {
    var s := BasicBytes(h) + rest;
    assert s[0] == BasicBytes(h)[0];
    if h.csId < 64 {
      assert s[0] % 64 == h.csId && s[0] / 64 == h.fmt;
    } else {
      assert s[0] % 64 == 0 && s[0] / 64 == h.fmt && s[1] == h.csId - 64;
    }
  }

  lemma FieldsAreRead(before: Head, h: Header)
    requires Fits(h)
    ensures |FieldBytes(h)| == HeaderLength(h.fmt) && ApplyHeader(before, h.fmt, FieldBytes(h)) == Remembered(before, h)
  {
    hide Value, Three;
    ThreeIs(h.time);
    ThreeIs(h.length);
    StreamIsRead(h.streamId);
    var s := FieldBytes(h);
    LengthOfThree(h.time);
    LengthOfThree(h.length);
    if h.fmt < 2 {
      assert s[..3] == Three(h.time) && s[3..6] == Three(h.length) && s[6] == h.typeId;
    }
    if h.fmt == 0 {
      assert [s[10], s[9], s[8], s[7]]
          == [h.streamId / 0x100_0000, h.streamId / 0x1_0000 % 0x100, h.streamId / 0x100 % 0x100, h.streamId % 0x100];
    }
    if h.fmt == 2 {
      assert s[..3] == s;
    }
  }

  lemma LengthOfThree(v: nat)
    requires v < 0x100_0000
    ensures |Three(v)| == 3
  {
  }

  /** A chunk with as much of the body as is due is found, and its header is taken field by field. */
  lemma {:induction false} ChunkIsScanned(k: Core, h: Header, part: seq<byte>, rest: seq<byte>)
    requires Fits(h) && |part| == ReadLength(Remembered(HeadOf(k.heads, h.csId), h), k.inChunk)
    ensures var front := BasicBytes(h) + FieldBytes(h);
            ScanChunk(k, front + part + rest)
            == Whole(h.csId, Remembered(HeadOf(k.heads, h.csId), h), |front|, |front| + |part|)
  {
    hide ApplyHeader, ReadBasic, FieldBytes, BasicBytes, Remembered;
    var a, b := BasicBytes(h), FieldBytes(h);
    var s := a + b + part + rest;
    assert s == a + (b + part + rest);
    BasicIsRead(h, b + part + rest);
    FieldsAreRead(HeadOf(k.heads, h.csId), h);
    assert s[|a|..|a| + |b|] == b;
  }

  /** An extended timestamp, which stands behind a header with a time of 0xFFFFFF, is taken for the beginning of the body. */
  lemma {:induction false} ExtendedTimeIsTakenForBody(k: Core, h: Header, extended: seq<byte>, part: seq<byte>, rest: seq<byte>)
    requires Fits(h) && h.time == 0xFF_FFFF && h.fmt < 3 && |extended| == 4
    requires 4 <= |part| == ReadLength(Remembered(HeadOf(k.heads, h.csId), h), k.inChunk)
    ensures var front := BasicBytes(h) + FieldBytes(h);
            var s := front + (extended + part) + rest;
            && ScanChunk(k, s) == Whole(h.csId, Remembered(HeadOf(k.heads, h.csId), h), |front|, |front| + |part|)
            && s[|front|..|front| + |part|] == extended + part[..|part| - 4]
  {
    hide ScanChunk, ReadLength, Remembered, BasicBytes, FieldBytes;
    var front, all := BasicBytes(h) + FieldBytes(h), extended + part;
    var body := extended + part[..|part| - 4];
    assert all == body + part[|part| - 4..];
    assert front + all + rest == front + body + (part[|part| - 4..] + rest);
    ChunkIsScanned(k, h, body, part[|part| - 4..] + rest);
  }

  /** The header that the sender writes for a message. */
  lemma SenderIsLaidOut(fmt: nat, m: S.Outgoing)
    requires fmt < 4 && 2 <= m.csId < 64 && |S.Body(m)| < 0x100_0000 && m.streamId < U32
    ensures var h := Header(fmt, m.csId, m.delta % 0x100_0000, |S.Body(m)|, m.typeId, m.streamId);
            S.MessageHeader(fmt, m) == FieldBytes(h)
  {
    hide Three, S.Body;
    var n := |S.Body(m)|;
    ThreeIs(m.delta % 0x100_0000);
    ThreeIs(n);
    LowThree(m.delta);
    LittleEndianIs(m.streamId);
  }

  lemma LowThree(v: nat)
    ensures BigEndian(3, v) == BigEndian(3, v % 0x100_0000)
  {
    ThreeBytes(v);
    ThreeBytes(v % 0x100_0000);
    var q, u := v / 0x100_0000, v % 0x100_0000;
    assert v == 0x100_0000 * q + u;
    ModUnique(v, 256, 0x1_0000 * q + u / 256, u % 256);
    ModUnique(v / 256, 256, 0x100 * q + u / 256 / 256, u / 256 % 256);
    ModUnique(v / 256 / 256, 256, q, u / 256 / 256);
  }

  lemma ThreeBytes(v: nat)
    ensures BigEndian(3, v) == [v / 256 / 256 % 256, v / 256 % 256, v % 256]
  {
    assert BigEndian(3, v) == BigEndian(2, v / 256) + [v % 256];
    assert BigEndian(2, v / 256) == BigEndian(1, v / 256 / 256) + [v / 256 % 256];
    assert BigEndian(1, v / 256 / 256) == BigEndian(0, v / 256 / 256 / 256) + [v / 256 / 256 % 256];
  }

  lemma LittleEndianIs(v: nat)
    requires v < U32
    ensures S.LittleEndian4(v) == [v % 0x100, v / 0x100 % 0x100, v / 0x1_0000 % 0x100, v / 0x100_0000]
  {
    ThreeBytes(v / 256);
    assert BigEndian(4, v) == BigEndian(3, v / 256) + [v % 256];
    assert v / 256 / 256 == v / 0x1_0000 && v / 256 / 256 / 256 == v / 0x100_0000;
  }

  // ---------------------------------------------------------------------------------------------
  // Protocol control
  // ---------------------------------------------------------------------------------------------

  /** A Set Chunk Size message in one chunk changes the chunk size for what comes behind it. */
  lemma {:induction false} ChunkSizeIsSet(r: Receiver, n: nat, rest: seq<byte>, app: App)
    requires n < U32 && r.core.inChunk >= 4 && HeadOf(r.core.heads, 2).msg == []
    requires r.buf == [2, 0, 0, 0, 0, 0, 4, 1, 0, 0, 0, 0]
                      + [n / 0x100_0000, n / 0x1_0000 % 0x100, n / 0x100 % 0x100, n % 0x100] + rest
    ensures var (next, outcome) := ParseStep(r, app);
            outcome == Success && next.core.inChunk == n && next.buf == rest
  {
    hide Value, ScanChunk;
    var h := Header(0, 2, 0, 4, 1, 0);
    var part := [n / 0x100_0000, n / 0x1_0000 % 0x100, n / 0x100 % 0x100, n % 0x100];
    var front := BasicBytes(h) + FieldBytes(h);
    assert front == [2, 0, 0, 0, 0, 0, 4, 1, 0, 0, 0, 0];
    ChunkIsScanned(r.core, h, part, rest);
    StreamIsRead(n);
    assert r.buf[12..16] == part && part[..4] == part && r.buf[16..] == rest && [] + part == part;
  }

  /** After a Set Chunk Size message of fewer than four bytes no chunk brings a byte of its message any more. */
  lemma ShortAnnouncementStarves(k: Core, c: nat, h: Head, bytes: seq<byte>, app: App, buf: seq<byte>)
    requires Completes(h, bytes) && h.typeId == 1 && h.length < 4
    ensures var s := ScanChunk(Absorb(k, c, h, bytes, app).0, buf);
            s.Whole? ==> s.body == s.end
  {
    hide ReadBasic, ApplyHeader;
    assert Absorb(k, c, h, bytes, app).0.inChunk == 0;
  }

  /** The message types of RTMP 1.0 (sections 5.4 and 7.1), Abort through Aggregate. */
  const STANDARD_TYPES: set<byte> := {1, 2, 3, 4, 5, 6, 8, 9, 15, 16, 17, 18, 19, 20, 22}

  /** Even when the handlers accept everything, five of them close the connection. */
  lemma TypesOfTheStandard(before: seq<Message>, m: Message)
    requires m.typeId in STANDARD_TYPES
    ensures Answer(before + [m], YES) == Error <==> m.typeId in {2, 16, 17, 19, 22}
  {
  }

  // ---------------------------------------------------------------------------------------------
  // The sender's messages
  // ---------------------------------------------------------------------------------------------

  /**
   A media message: audio on csid 4 and video on csid 6; the audio data as they are; the video data behind the tag of an AVC NAL unit, with the frame
   type, the codec and the composition time in 24 bits.
   */
  lemma MediaBodyIsLaidOut(pre: map<nat, S.Sent>, p: Payload)
    ensures var m := S.MediaMessage(pre, p);
            var s := S.Body(m);
            && m.csId == (if p.kind == Audio then 4 else 6) && m.typeId == (if p.kind == Audio then 8 else 9)
            && (p.kind == Audio ==> s == p.data)
            && (p.kind == Video ==>
                  && |s| == 5 + |p.data| && s[0] / 16 == (if p.iFrame then 1 else 2) && s[0] % 16 == 7 && s[1] == 1
                  && Value(s[2..5]) == (p.pts - p.dts) % 0x100_0000 && s[5..] == p.data)
  {
    hide Value, BigEndian;
    var m := S.MediaMessage(pre, p);
    if p.kind == Video {
      var tag, offset := S.TagBytes(m.tag), m.tag.value.offset;
      assert S.Body(m)[..5] == tag && S.Body(m)[5..] == p.data;
      assert S.Body(m)[0] == tag[0] && S.Body(m)[1] == tag[1] && S.Body(m)[2..5] == tag[2..5] == BigEndian(3, offset);
      Ranges();
      ValueOfBigEndian(3, offset);
      LowOfLow(p.pts - p.dts);
    } else {
      assert [] + p.data == p.data;
    }
  }

  lemma LowOfLow(x: int)
    ensures x % U32 % 0x100_0000 == x % 0x100_0000
  {
    var q, r := x / U32, x % U32;
    assert x == q * 0x100 * 0x100_0000 + r;
    assert r == r / 0x100_0000 * 0x100_0000 + r % 0x100_0000;
    assert x == (q * 0x100 + r / 0x100_0000) * 0x100_0000 + r % 0x100_0000;
  }

  /** A shorter header than the one that is chosen would be read with a wrong delta, length or type. */
  lemma HeaderIsShortest(last: S.Sent, before: Head, m: S.Outgoing, fmt: nat)
    requires last.length != 0 && before.length == last.length && before.typeId == last.typeId && before.delta == last.delta
    requires m.delta < 0x100_0000 && |S.Body(m)| < 0x100_0000 && S.Format(last, m, false) < fmt < 4
    ensures var h := Remembered(before, Header(fmt, m.csId, m.delta, |S.Body(m)|, m.typeId, m.streamId));
            h.delta != m.delta || h.length != |S.Body(m)| || h.typeId != m.typeId
  {
  }

  /** The first chunk of a message, and what is put behind it. */
  lemma FirstChunkGoesOut(s: S.Sender, m: S.Outgoing, force: bool)
    requires S.Sendable(m, s.outChunk)
    ensures var fmt, n := S.Format(S.SentOn(s.pre, m.csId), m, force), S.Least(|S.Body(m)|, s.outChunk);
            && |S.Send(s, m, force).wire| >= |s.wire|
            && s.wire + ([fmt * 64 + m.csId] + S.MessageHeader(fmt, m) + S.Body(m)[..n]) <= S.Send(s, m, force).wire
  {
    hide S.Continuations, S.MessageHeader, S.Body, S.Format;
    var fmt, n := S.Format(S.SentOn(s.pre, m.csId), m, force), S.Least(|S.Body(m)|, s.outChunk);
    var cs := S.ChunksOf(fmt, m, s.outChunk);
    var more := WireAll(cs[1..]);
    var first := [fmt * 64 + m.csId] + S.MessageHeader(fmt, m) + S.Body(m)[..n];
    assert Wire(cs[0]) == first;
    assert S.Send(s, m, force).wire == s.wire + (first + more) == s.wire + first + more;
  }

  /** Messages other than audio and video go out with a full header and no time, whatever went before on their csid. */
  lemma {:induction false} ControlGoesInFull(s: S.Sender, csId: nat, streamId: nat, typeId: byte, data: seq<byte>)
    requires 2 <= csId < 64 && s.outChunk > 0 && typeId !in {8, 9} && streamId < U32 && |data| < 0x100_0000
    ensures var h := Header(0, csId, 0, |data|, typeId, streamId);
            var m := S.PlainMessage(csId, streamId, typeId, data);
            s.wire + (BasicBytes(h) + FieldBytes(h) + data[..S.Least(|data|, s.outChunk)])
            <= S.Send(s, m, S.ForcesFmt0(typeId)).wire
  {
    hide S.Send, S.MessageHeader, FieldBytes;
    var m := S.PlainMessage(csId, streamId, typeId, data);
    assert S.Body(m) == [] + data == data;
    FirstChunkGoesOut(s, m, S.ForcesFmt0(typeId));
    SenderIsLaidOut(0, m);
  }

  /** A new chunk size is announced on csid 2, in the very bytes that `ChunkSizeIsSet` reads. */
  lemma {:induction false} ChunkSizeGoesOut(s: S.Sender, n: nat)
    requires 4 <= n < U32
    ensures s.wire + ([2, 0, 0, 0, 0, 0, 4, 1, 0, 0, 0, 0]
                      + [n / 0x100_0000, n / 0x1_0000 % 0x100, n / 0x100 % 0x100, n % 0x100])
            <= S.Resize(s, n).wire
  {
    hide S.Send, BigEndian;
    var data := BigEndian(4, n);
    LittleEndianIs(n);
    assert data == [n / 0x100_0000, n / 0x1_0000 % 0x100, n / 0x100 % 0x100, n % 0x100];
    ControlGoesInFull(s.(outChunk := n), 2, 0, 1, data);
    var h := Header(0, 2, 0, 4, 1, 0);
    assert BasicBytes(h) + FieldBytes(h) == [2, 0, 0, 0, 0, 0, 4, 1, 0, 0, 0, 0];
    assert data[..4] == data;
  }

  /** An audio or video header of the same type and length as the untimed message before it goes out behind a single byte. */
  lemma {:induction false} RepeatGoesShort(s: S.Sender, csId: nat, streamId: nat, typeId: byte, data: seq<byte>)
    requires 2 <= csId < 64 && s.outChunk > 0 && typeId in {8, 9} && data != []
    requires csId in s.pre && s.pre[csId] == S.Sent(s.pre[csId].timestamp, 0, |data|, typeId)
    ensures var m := S.PlainMessage(csId, streamId, typeId, data);
            s.wire + ([0xC0 + csId] + data[..S.Least(|data|, s.outChunk)]) <= S.Send(s, m, S.ForcesFmt0(typeId)).wire
  {
    hide S.Send;
    var m := S.PlainMessage(csId, streamId, typeId, data);
    assert S.Body(m) == [] + data == data;
    FirstChunkGoesOut(s, m, S.ForcesFmt0(typeId));
    assert [0xC0 + csId] + [] == [0xC0 + csId];
  }
}
