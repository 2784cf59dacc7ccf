/** Writing the pieces of transport stream packets, field by field. */
module TsWriter {
  import opened Bytes
  import opened Media
  import opened Bits
  import opened BitIO
  import opened BitFields
  import opened BoxWriter
  import opened TsPackets
  import opened TsTables
  import Crc

  lemma OneByte(v: nat)
    requires v < 256
    ensures BigEndian(1, v) == [v]
  {
    assert BigEndian(0, v / 256) == [] && [] + [v % 256] == [v];
  }

  method WriteByte(bs: BitStream, b: byte)
    requires Ready(bs, 1)
    modifies bs, bs.buf
    ensures Ready(bs, 0) && bs.Content() == old(bs.Content()) + [b]
  {
    OneByte(b);
    bs.WriteBytes(1, b);
  }

  /** The four bytes in front of every packet. */
  method WriteTsHeader(bs: BitStream, start: bool, pid: nat, control: nat, counter: nat)
    requires Ready(bs, 4) && pid < 0x2000 && control < 4 && counter < 16
    modifies bs, bs.buf
    ensures Ready(bs, 0)
    ensures bs.Content() == old(bs.Content())
                            + ([0x47] + BigEndian(2, (if start then 0x4000 else 0) + pid) + [16 * control + counter])
  {
    hide Two, Pow2, BigEndian;
    ghost var before := bs.Content();
    WriteByte(bs, 0x47);
    Powers();
    WriteFour(bs, 1, 0, 1, if start then 1 else 0, 1, 0, 13, pid, 2);
    HeaderFields(if start then 1 else 0, pid, control, counter);
    WriteThree(bs, 2, 0, 2, control, 4, counter, 1);
    OneByte(16 * control + counter);
    FourPieces(before, [0x47], BigEndian(2, (if start then 0x4000 else 0) + pid), [16 * control + counter]);
  }

  lemma HeaderFields(start: nat, pid: nat, control: nat, counter: nat)
    requires start < 2
    ensures Two(Two(Two(0, 1, start), 1, 0), 13, pid) == start * 0x4000 + pid
    ensures Two(Two(0, 2, control), 4, counter) == 16 * control + counter
  {
    Powers();
  }

  lemma FourPieces(a: seq<byte>, b: seq<byte>, c: seq<byte>, d: seq<byte>)
    ensures a + b + c + d == a + (b + c + d)
  {
  }

  /** The clock reference: a 33-bit base, six reserved bits, and a 9-bit extension. */
  method WritePcr(bs: BitStream, dts: nat)
    requires Ready(bs, 6)
    modifies bs, bs.buf
    ensures Ready(bs, 0) && bs.Content() == old(bs.Content()) + Pcr(dts)
  {
    hide Two, Pow2, BigEndian;
    var clock := 27000000 * (dts / 1000);
    var pcrBase := clock / 300 % 0x2_0000_0000;
    var pcrExt := clock % 300;
    Powers();
    WriteThree(bs, 33, pcrBase, 6, 0, 9, pcrExt, 6);
    PcrFields(pcrBase, pcrExt);
  }

  lemma PcrFields(base: nat, ext: nat)
    ensures Two(Two(base, 6, 0), 9, ext) == base * 0x8000 + ext
  {
    Powers();
  }

  /** The length and the flags of an adaptation field, and the clock reference in the first packet of a video frame. */
  method WriteAdaptationHead(bs: BitStream, withPcr: bool, dts: nat, stuffing: nat)
    requires stuffing <= 188 && Ready(bs, if withPcr then 8 else 2)
    modifies bs, bs.buf
    ensures Ready(bs, 0)
    ensures bs.Content() == old(bs.Content()) + (if withPcr then [7 + stuffing, 0x10] + Pcr(dts) else [1 + stuffing, 0])
  {
    hide Pcr;
    ghost var before := bs.Content();
    if withPcr {
      WriteByte(bs, 7 + stuffing);
      WriteByte(bs, 0x10);
      WritePcr(bs, dts);
      FourPieces(before, [7 + stuffing], [0x10], Pcr(dts));
      assert [7 + stuffing] + [0x10] == [7 + stuffing, 0x10];
    } else {
      WriteByte(bs, 1 + stuffing);
      WriteByte(bs, 0);
      assert before + [1 + stuffing] + [0] == before + [1 + stuffing, 0];
    }
  }

  method WriteAdaptation(bs: BitStream, kind: Kind, start: bool, dts: nat, stuffing: nat)
    requires stuffing <= 188 && Ready(bs, (if kind == Video && start then 8 else 2) + stuffing)
    modifies bs, bs.buf
    ensures Ready(bs, 0)
    ensures bs.Content() == old(bs.Content())
                            + (if kind == Video && start then [7 + stuffing, 0x10] + Pcr(dts) + Stuffing(stuffing)
                               else [1 + stuffing, 0] + Stuffing(stuffing))
  {
    hide Pcr, Stuffing;
    ghost var before := bs.Content();
    WriteAdaptationHead(bs, kind == Video && start, dts, stuffing);
    ghost var head := if kind == Video && start then [7 + stuffing, 0x10] + Pcr(dts) else [1 + stuffing, 0];
    WriteStuffing(bs, stuffing, before + head);
    Associate(before, head, Stuffing(stuffing));
  }

  method WriteStuffing(bs: BitStream, n: nat, ghost before: seq<byte>)
    requires Ready(bs, n) && bs.Content() == before
    modifies bs, bs.buf
    ensures Ready(bs, 0) && bs.Content() == before + Stuffing(n)
  {
    assert before + Stuffing(0) == before;
    var i := 0;
    while i != n
      invariant 0 <= i <= n && Ready(bs, n - i) && bs.Content() == before + Stuffing(i)
    {
      assert before + Stuffing(i) + [0xFF] == before + Stuffing(i + 1);
      WriteByte(bs, 0xFF);
      i := i + 1;
    }
  }

  /** Four tag bits, the 33 bits of the time in three groups, a marker bit behind each group. */
  method WriteStamp(bs: BitStream, t: nat)
    requires Ready(bs, 5)
    modifies bs, bs.buf
    ensures Ready(bs, 0) && bs.Content() == old(bs.Content()) + Stamp(t)
  {
    hide Two, Pow2, BigEndian;
    ghost var before := bs.Content();
    var top, mid, low := t / 0x4000_0000 % 8, t / 0x8000 % 0x8000, t % 0x8000;
    Powers();
    WriteThree(bs, 4, 2, 3, top, 1, 1, 1);
    WriteTwo(bs, 15, mid, 1, 1, 2);
    WriteTwo(bs, 15, low, 1, 1, 2);
    StampFields(top, mid, low);
    OneByte(0x21 + 2 * top);
    FourPieces(before, [0x21 + 2 * top], BigEndian(2, 2 * mid + 1), BigEndian(2, 2 * low + 1));
  }

  lemma StampFields(top: nat, mid: nat, low: nat)
    ensures Two(Two(2, 3, top), 1, 1) == 0x21 + 2 * top
    ensures Two(mid, 1, 1) == 2 * mid + 1 && Two(low, 1, 1) == 2 * low + 1
  {
    Powers();
  }

  method WritePesHeader(bs: BitStream, p: Payload)
    requires Ready(bs, 19)
    modifies bs, bs.buf
    ensures Ready(bs, 0) && bs.Content() == old(bs.Content()) + PesHeader(p)
  {
    hide Stamp;
    ghost var before := bs.Content();
    if p.kind == Video {
      var fixed: seq<byte> := [0, 0, 1, 0xE0, 0, 0, 0x80, 0xC0, 10];
      bs.WriteData(fixed);
      WriteStamp(bs, p.pts * 90);
      WriteStamp(bs, p.dts * 90);
      FourPieces(before, fixed, Stamp(p.pts * 90), Stamp(p.dts * 90));
    } else {
      var front: seq<byte> := [0, 0, 1, 0xC0];
      var flags: seq<byte> := [0x80, 0x80, 5];
      bs.WriteData(front);
      bs.WriteBytes(2, |Raw(p)| + 3 + 5 + 7);
      bs.WriteData(flags);
      WriteStamp(bs, p.pts * 90);
      FivePieces(before, front, BigEndian(2, |Raw(p)| + 3 + 5 + 7), flags, Stamp(p.pts * 90));
    }
  }

  lemma FivePieces(a: seq<byte>, b: seq<byte>, c: seq<byte>, d: seq<byte>, e: seq<byte>)
    ensures a + b + c + d + e == a + (b + c + d + e)
  {
  }

  lemma TwoBytes(v: nat)
    requires v < 0x1_0000
    ensures BigEndian(2, v) == [v / 256, v % 256]
  {
    OneByte(v / 256);
    assert BigEndian(2, v) == BigEndian(1, v / 256) + [v % 256];
  }

  /** One field of two bytes, given as its parts. */
  method WriteParts(bs: BitStream, a: nat, m: nat, b: nat)
    requires Ready(bs, 2) && 0 < m < 16 && b < Pow2(m) && Two(a, m, b) < 0x1_0000
    modifies bs, bs.buf
    ensures Ready(bs, 0) && bs.Content() == old(bs.Content()) + [Two(a, m, b) / 256, Two(a, m, b) % 256]
  {
    hide Two, Pow2, BigEndian;
    WriteTwo(bs, 16 - m, a, m, b, 2);
    TwoBytes(Two(a, m, b));
  }

  /** Table id, the flags and length of the section, program number 1, version 0, and the section numbers. */
  method WriteSectionHead(bs: BitStream, id: byte, length: nat)
    requires Ready(bs, 8) && length < 0x100
    modifies bs, bs.buf
    ensures Ready(bs, 0) && bs.Content() == old(bs.Content()) + [id, 0xB0, length, 0, 1, 0xC1, 0, 0]
  {
    hide Two, Pow2, BigEndian;
    ghost var before := bs.Content();
    WriteByte(bs, id);
    Powers();
    WriteFour(bs, 1, 1, 1, 0, 2, 3, 12, length, 2);
    SectionFields(length);
    TwoBytes(0xB000 + length);
    bs.WriteBytes(2, 1);
    TwoBytes(1);
    WriteThree(bs, 2, 3, 5, 0, 1, 1, 1);
    OneByte(0xC1);
    WriteByte(bs, 0);
    WriteByte(bs, 0);
    assert before + [id] + [0xB0, length] + [0, 1] + [0xC1] + [0] + [0] == before + [id, 0xB0, length, 0, 1, 0xC1, 0, 0];
  }

  lemma SectionFields(length: nat)
    requires length < 0x100
    ensures Two(Two(Two(1, 1, 0), 2, 3), 12, length) == 0xB000 + length && Two(Two(3, 5, 0), 1, 1) == 0xC1
    ensures (0xB000 + length) / 256 == 0xB0 && (0xB000 + length) % 256 == length
  {
    Powers();
  }

  lemma PidFields()
    ensures Two(7, 13, PMT_PID) == 0xEABC && Two(7, 13, VIDEO_PID) == 0xE100 && Two(7, 13, AUDIO_PID) == 0xE101
    ensures Two(0xF, 12, 0) == 0xF000
  {
    Powers();
  }

  method WritePatSection(bs: BitStream)
    requires Ready(bs, |PAT_SECTION|)
    modifies bs, bs.buf
    ensures Ready(bs, 0) && bs.Content() == old(bs.Content()) + PAT_SECTION
  {
    hide Two, Pow2, BigEndian;
    ghost var before := bs.Content();
    WriteSectionHead(bs, 0, 13);
    bs.WriteBytes(2, 1);
    TwoBytes(1);
    Powers();
    PidFields();
    WriteParts(bs, 7, 13, PMT_PID);
    PatPieces(before);
  }

  lemma PatPieces(before: seq<byte>)
    ensures before + [0, 0xB0, 13, 0, 1, 0xC1, 0, 0] + [0, 1] + [0xEA, 0xBC] == before + PAT_SECTION
  {
  }

  /** A stream of the program map: its type, its PID, and no descriptors. */
  method WriteStream(bs: BitStream, streamType: byte, pid: nat)
    requires Ready(bs, 5) && (pid == VIDEO_PID || pid == AUDIO_PID)
    modifies bs, bs.buf
    ensures Ready(bs, 0) && bs.Content() == old(bs.Content()) + [streamType, 0xE1, pid - 0x100, 0xF0, 0]
  {
    hide Two, Pow2;
    ghost var before := bs.Content();
    Powers();
    PidFields();
    WriteByte(bs, streamType);
    WriteParts(bs, 7, 13, pid);
    WriteParts(bs, 0xF, 12, 0);
    assert before + [streamType] + [0xE1, pid - 0x100] + [0xF0, 0] == before + [streamType, 0xE1, pid - 0x100, 0xF0, 0];
  }

  method WritePmtSection(bs: BitStream)
    requires Ready(bs, |PMT_SECTION|)
    modifies bs, bs.buf
    ensures Ready(bs, 0) && bs.Content() == old(bs.Content()) + PMT_SECTION
  {
    hide Two, Pow2;
    ghost var before := bs.Content();
    WriteSectionHead(bs, 2, 23);
    Powers();
    PidFields();
    WriteParts(bs, 7, 13, VIDEO_PID);
    WriteParts(bs, 0xF, 12, 0);
    WriteStream(bs, 0x1B, VIDEO_PID);
    WriteStream(bs, 0x0F, AUDIO_PID);
    PmtPieces(before);
  }

  lemma PmtPieces(before: seq<byte>)
    ensures before + [2, 0xB0, 23, 0, 1, 0xC1, 0, 0] + [0xE1, 0] + [0xF0, 0] + [0x1B, 0xE1, 0, 0xF0, 0] + [0x0F, 0xE1, 1, 0xF0, 0]
            == before + PMT_SECTION
  {
  }

  /** The checksum behind a section, and stuffing up to the size of a packet. */
  method FinishTable(bs: BitStream, section: seq<byte>, ghost head: seq<byte>)
    requires |head| == 4 && |section| <= 179 && Ready(bs, 188 - 5 - |section|)
    requires bs.Content() == head + ([0] + section)
    modifies bs, bs.buf
    ensures Ready(bs, 0) && bs.Content() == head + TableContents(section)
  {
    hide Crc.Checksum, Stuffing, Crc.Appended;
    var crc := new Crc.Crc32(Crc.Hls);
    var sum := crc.GetCrc32(section);
    bs.WriteData(Crc.Appended(sum));
    assert bs.curPos / 8 == |bs.Content()| == 9 + |section|;
    var leftBytes := 188 - bs.curPos / 8;
    WriteStuffing(bs, leftBytes, bs.Content());
    FivePieces(head, [0] + section, Crc.Appended(sum), Stuffing(leftBytes), []);
    assert [0] + section + Crc.Appended(sum) + Stuffing(leftBytes) + [] == TableContents(section);
  }

  lemma SectionLengths()
    ensures |PAT_SECTION| == 12 && |PMT_SECTION| == 22
  {
  }

  lemma CopyStarts(counter: nat)
    requires counter < 16
    ensures PatBytes(counter) == [0x47] + BigEndian(2, 0x4000 + 0) + [16 * 1 + counter] + TableContents(PAT_SECTION)
    ensures PmtBytes(counter) == [0x47] + BigEndian(2, 0x4000 + PMT_PID) + [16 * 1 + counter] + TableContents(PMT_SECTION)
  {
    hide TableContents, BigEndian;
  }

  method WritePat(counter: nat) returns (packet: seq<byte>)
    requires counter < 16
    ensures packet == PatBytes(counter) && SoundTable(packet)
  {
    hide BigEndian, TableContents, PAT_SECTION, PMT_SECTION, SoundTable, PatBytes, PmtBytes;
    CopiesAreSound(counter);
    CopyStarts(counter);
    SectionLengths();
    var bs := new BitStream(16 * 1024);
    WriteTsHeader(bs, true, 0, 1, counter);
    ghost var head: seq<byte> := [0x47] + BigEndian(2, 0x4000 + 0) + [16 * 1 + counter];
    assert [] + head == head;
    WriteByte(bs, 0);
    WritePatSection(bs);
    Associate(head, [0], PAT_SECTION);
    FinishTable(bs, PAT_SECTION, head);
    packet := bs.Content();
  }

  method WritePmt(counter: nat) returns (packet: seq<byte>)
    requires counter < 16
    ensures packet == PmtBytes(counter) && SoundTable(packet)
  {
    hide BigEndian, TableContents, PAT_SECTION, PMT_SECTION, SoundTable, PatBytes, PmtBytes;
    CopiesAreSound(counter);
    CopyStarts(counter);
    SectionLengths();
    var bs := new BitStream(16 * 1024);
    WriteTsHeader(bs, true, PMT_PID, 1, counter);
    ghost var head: seq<byte> := [0x47] + BigEndian(2, 0x4000 + PMT_PID) + [16 * 1 + counter];
    assert [] + head == head;
    WriteByte(bs, 0);
    WritePmtSection(bs);
    Associate(head, [0], PMT_SECTION);
    FinishTable(bs, PMT_SECTION, head);
    packet := bs.Content();
  }

  /** Equal but for the length field. */
  predicate SameAdts(a: seq<byte>, b: seq<byte>) {
    |a| == |b| == 7 && a[..3] == b[..3] && a[3] / 4 == b[3] / 4 && a[5] % 32 == b[5] % 32 && a[6] == b[6]
  }

  lemma AdtsAgain(a: seq<byte>, b: seq<byte>, len: nat)
    requires SameAdts(a, b) && len < 0x2000
    ensures Adts(a, len) == Adts(b, len) && SameAdts(Adts(a, len), b)
  {
    assert a[0] == a[..3][0] && a[1] == a[..3][1] && a[2] == a[..3][2];
    assert b[0] == b[..3][0] && b[1] == b[..3][1] && b[2] == b[..3][2];
    var c := Adts(a, len);
    assert c[3] / 4 == a[3] / 4 && c[5] % 32 == a[5] % 32;
    assert c[..3] == b[..3];
  }

  // ---------------------------------------------------------------------------------------------
  // One packet
  // ---------------------------------------------------------------------------------------------

  /** The sizes of a packet as the muxer computes them before it writes anything. */
  method Plan(kind: Kind, rawLen: nat, i: nat) returns (headerSize: int, control: nat, stuffing: nat)
    requires i < rawLen
    ensures i == 0 ==> stuffing == FirstStuffing(kind, rawLen) && control == (if kind == Video || stuffing > 0 then 3 else 1)
    ensures i == 0 ==> headerSize == 4 + (if kind == Video then 19 + 8 + stuffing
                                         else if stuffing > 0 then 14 + 2 + stuffing else 14)
    ensures var total := rawLen - i + 4 + AdaptationSize(kind);
            i > 0 ==> stuffing == (if total < 188 then 188 - total else 0) && control == (if stuffing > 0 then 3 else 1)
                      && headerSize == (if stuffing > 0 then 4 + AdaptationSize(kind) + stuffing else 4)
  {
    var tsHeaderSize, adaptationSize, pesHeaderSize := 4, 8, 19;
    if kind == Audio {
      adaptationSize, pesHeaderSize := 2, 14;
    }
    headerSize, control, stuffing := tsHeaderSize, 1, 0;
    if i == 0 {
      headerSize := headerSize + pesHeaderSize;
      var externDataLen := 7;
      if kind == Video {
        headerSize := headerSize + adaptationSize;
        control := 3;
        externDataLen := 6;
      }
      if rawLen + tsHeaderSize + adaptationSize + pesHeaderSize + externDataLen < 188 {
        stuffing := 188 - (rawLen + tsHeaderSize + adaptationSize + pesHeaderSize + externDataLen);
        if kind == Audio {
          headerSize := headerSize + adaptationSize;
          control := 3;
        }
        headerSize := headerSize + stuffing;
      }
    } else {
      var left := rawLen - i;
      if left + tsHeaderSize + adaptationSize <= 188 {
        headerSize := headerSize + adaptationSize;
        if left + tsHeaderSize + adaptationSize == 188 {
          headerSize := headerSize - adaptationSize;
        } else {
          control := 3;
          stuffing := 188 - (left + tsHeaderSize + adaptationSize);
          headerSize := headerSize + stuffing;
        }
      }
    }
  }

  lemma ControlIs(kind: Kind, p: Payload, i: nat)
    requires p.kind == kind && i < |Raw(p)|
    ensures i == 0 ==> (FirstAdaptation(p) == [] <==> kind == Audio && FirstStuffing(kind, |Raw(p)|) == 0)
    ensures i > 0 ==> (NextAdaptation(kind, |Raw(p)| - i) == [] <==> |Raw(p)| - i + 4 + AdaptationSize(kind) >= 188)
  {
  }

  /** The start codes and parameter sets in front of a video frame, or the ADTS header in front of an audio frame. */
  method WriteLead(bs: BitStream, f: Frame, adtsHeader: seq<byte>) returns (adts: seq<byte>)
    requires Packable(f) && Ready(bs, |Lead(f)|)
    requires f.p.kind == Audio && f.config.adts.Some? ==> SameAdts(adtsHeader, f.config.adts.value)
    modifies bs, bs.buf
    ensures Ready(bs, 0) && bs.Content() == old(bs.Content()) + Lead(f)
    ensures adts == if f.p.kind == Audio && f.config.adts.Some? then Lead(f) else adtsHeader
  {
    ghost var before := bs.Content();
    adts := adtsHeader;
    if f.p.kind == Video {
      bs.WriteData(DELIMITER);
      bs.WriteData(START_CODE);
      if f.p.iFrame {
        bs.WriteData(f.config.sps);
        bs.WriteData(START_CODE);
        bs.WriteData(f.config.pps);
        bs.WriteData(START_CODE);
        KeyLead(before, DELIMITER, START_CODE, f.config.sps, f.config.pps);
      } else {
        Associate(before, DELIMITER, START_CODE);
      }
    } else if f.config.adts.Some? {
      AdtsAgain(adtsHeader, f.config.adts.value, |Raw(f.p)| + 7);
      adts := Adts(adtsHeader, |Raw(f.p)| + 7);
      bs.WriteData(adts);
    }
  }

  lemma KeyLead(before: seq<byte>, d: seq<byte>, c: seq<byte>, a: seq<byte>, b: seq<byte>)
    ensures before + d + c + a + c + b + c == before + (d + (c + a + c + b + c))
  {
  }

  /** The header of a packet as bytes. */
  function FrontBytes(kind: Kind, start: bool, control: nat, counter: nat): (s: seq<byte>)
    requires control < 4
    ensures |s| == 4
  {
    [0x47] + BigEndian(2, (if start then 0x4000 else 0) + PidOf(kind)) + [16 * control + counter % 16]
  }

  lemma FrontIsHeader(k: Packet, kind: Kind, counter: nat)
    requires Whole(k) && k.pid == PidOf(kind) && k.counter == counter % 16
    ensures HeaderOf(k) == FrontBytes(kind, k.start, Control(k), counter)
  {
  }

  /** A new packet with its header and adaptation field. */
  method StartPacket(kind: Kind, start: bool, control: nat, counter: nat, dts: nat, stuffing: nat) returns (bs: BitStream)
    requires (control == 1 || control == 3) && stuffing <= 182
    ensures fresh(bs) && fresh(bs.buf) && bs.buf.Length == 16 * 1024 && Ready(bs, 0)
    ensures bs.Content() == FrontBytes(kind, start, control, counter)
                            + (if control == 1 then []
                               else if kind == Video && start then [7 + stuffing, 0x10] + Pcr(dts) + Stuffing(stuffing)
                               else [1 + stuffing, 0] + Stuffing(stuffing))
  {
    hide BigEndian, Pcr, Stuffing;
    bs := new BitStream(16 * 1024);
    WriteTsHeader(bs, start, PidOf(kind), control, counter % 16);
    ghost var head := FrontBytes(kind, start, control, counter);
    assert [] + head == head;
    if control == 3 {
      WriteAdaptation(bs, kind, start, dts, stuffing);
    } else {
      assert head + [] == head;
    }
  }

  method FirstTsPacket(f: Frame, data: seq<byte>, counter: nat, adtsHeader: seq<byte>)
    returns (packet: seq<byte>, bytesLeft: nat, adts: seq<byte>)
    requires Packable(f) && |Raw(f.p)| + SLACK <= |data|
    requires f.p.kind == Audio && f.config.adts.Some? ==> SameAdts(adtsHeader, f.config.adts.value)
    ensures Whole(FirstPacket(f, data, counter)) && packet == PacketBytes(FirstPacket(f, data, counter))
    ensures bytesLeft == FirstCount(f)
    ensures adts == if f.p.kind == Audio && f.config.adts.Some? then Lead(f) else adtsHeader
  {
    hide FrontBytes, PesHeader, Lead, Pcr, Stuffing, HeaderOf, FirstStuffing;
    var kind := f.p.kind;
    FirstCountBound(f);
    var headerSize, control, stuffing := Plan(kind, |Raw(f.p)|, 0);
    ControlIs(kind, f.p, 0);
    var bs := StartPacket(kind, true, control, counter, f.p.dts, stuffing);
    ghost var head := FrontBytes(kind, true, control, counter);
    assert bs.Content() == head + FirstAdaptation(f.p);
    WritePesHeader(bs, f.p);
    assert headerSize == bs.curPos / 8;
    adts := WriteLead(bs, f, adtsHeader);
    bytesLeft := 188 - bs.curPos / 8;
    bs.WriteData(data[..bytesLeft]);
    packet := bs.Content();
    FirstPieces(head, FirstAdaptation(f.p), PesHeader(f.p), Lead(f), data[..bytesLeft]);
    FrontIsHeader(FirstPacket(f, data, counter), kind, counter);
  }

  lemma FirstPieces(a: seq<byte>, b: seq<byte>, c: seq<byte>, d: seq<byte>, e: seq<byte>)
    ensures a + b + c + d + e == a + b + (c + d + e)
  {
  }

  function NextPacket(kind: Kind, data: seq<byte>, n: nat, i: nat, counter: nat): Packet
    requires i < n && n + SLACK <= |data|
  {
    NextCountBound(kind, n - i);
    Packet(false, PidOf(kind), counter % 16, NextAdaptation(kind, n - i), data[i..i + NextCount(kind, n - i)])
  }

  method NextTsPacket(p: Payload, data: seq<byte>, i: nat, counter: nat) returns (packet: seq<byte>, bytesLeft: nat)
    requires 0 < i < |Raw(p)| && |Raw(p)| + SLACK <= |data|
    ensures Whole(NextPacket(p.kind, data, |Raw(p)|, i, counter))
    ensures packet == PacketBytes(NextPacket(p.kind, data, |Raw(p)|, i, counter))
    ensures bytesLeft == NextCount(p.kind, |Raw(p)| - i)
  {
    hide FrontBytes, Stuffing, HeaderOf;
    var kind := p.kind;
    NextCountBound(kind, |Raw(p)| - i);
    var headerSize, control, stuffing := Plan(kind, |Raw(p)|, i);
    ControlIs(kind, p, i);
    var bs := StartPacket(kind, false, control, counter, p.dts, stuffing);
    if control == 3 && kind == Video {
      headerSize := headerSize - 6;
    }
    assert bs.Content() == FrontBytes(kind, false, control, counter) + NextAdaptation(kind, |Raw(p)| - i);
    assert headerSize == bs.curPos / 8;
    bytesLeft := 188 - bs.curPos / 8;
    bs.WriteData(data[i..i + bytesLeft]);
    packet := bs.Content();
    FrontIsHeader(NextPacket(p.kind, data, |Raw(p)|, i, counter), kind, counter);
  }
}
