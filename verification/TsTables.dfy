/**
 What any demultiplexer reads in the tables and clock references of the muxer's packets, at the bit positions of
 ISO/IEC 13818-1 (sections 2.4.3.4 and 2.4.4): nothing here looks at how the packets are made.
 */
module TsTables {
  import opened Bytes
  import opened Media
  import opened Crc
  import opened BitFields
  import opened TsPackets
  import opened TsReader
  import opened TsRoundTrip

  // ---------------------------------------------------------------------------------------------
  // Sections in packets
  // ---------------------------------------------------------------------------------------------

  /** The end of the section in a packet, by its own length field. */
  function SectionEnd(s: seq<byte>): nat
    requires |s| == PACKET_SIZE
  {
    8 + Value(s[6..8]) % 0x1000
  }

  /** Behind a pointer of zero a section whose checksum is right, and nothing but stuffing behind it. */
  predicate SoundTable(s: seq<byte>) {
    && |s| == PACKET_SIZE && s[0] == 0x47 && StartIn(s) && s[3] / 16 % 4 == 1 && s[4] == 0
    && SectionEnd(s) <= PACKET_SIZE
    && TakeAll(Hls, START, s[5..SectionEnd(s)]) == 0
    && AllStuffing(s[SectionEnd(s)..])
  }

  datatype Program = Program(number: nat, pid: nat)

  function ProgramsFrom(t: seq<byte>): seq<Program> {
    if |t| < 4 then [] else [Program(Value(t[..2]), Value(t[2..4]) % 0x2000)] + ProgramsFrom(t[4..])
  }

  /** The programs of an association table. */
  function ProgramsIn(s: seq<byte>): seq<Program>
    requires |s| == PACKET_SIZE && 17 <= SectionEnd(s) <= PACKET_SIZE
  {
    ProgramsFrom(s[13..SectionEnd(s) - 4])
  }

  datatype Stream = Stream(streamType: byte, pid: nat)

  function StreamsFrom(t: seq<byte>): seq<Stream>
    decreases |t|
  {
    if |t| < 5 then []
    else
      var behind := 5 + Value(t[3..5]) % 0x1000;
      [Stream(t[0], Value(t[1..3]) % 0x2000)] + if behind > |t| then [] else StreamsFrom(t[behind..])
  }

  /** Where the streams of a program map are listed. */
  function StreamsAt(s: seq<byte>): nat
    requires |s| == PACKET_SIZE
  {
    17 + Value(s[15..17]) % 0x1000
  }

  /** The streams of a program map. */
  function StreamsIn(s: seq<byte>): seq<Stream>
    requires |s| == PACKET_SIZE && StreamsAt(s) + 4 <= SectionEnd(s) <= PACKET_SIZE
  {
    StreamsFrom(s[StreamsAt(s)..SectionEnd(s) - 4])
  }

  /** The PID that carries the clock. */
  function ClockPid(s: seq<byte>): nat
    requires |s| == PACKET_SIZE
  {
    Value(s[13..15]) % 0x2000
  }

  // ---------------------------------------------------------------------------------------------
  // The muxer's tables
  // ---------------------------------------------------------------------------------------------

  /** A packet with a section, its checksum and stuffing, in the order in which they come. */
  lemma SectionIsSound(k: Packet, section: seq<byte>)
    requires Whole(k) && k.start && k.adaptation == [] && 3 <= |section| <= 179
    requires k.contents == [0] + section + Appended(Checksum(Hls, section)) + Stuffing(179 - |section|)
    requires Value(section[1..3]) % 0x1000 == |section| + 1
    ensures var s := PacketBytes(k);
            && SoundTable(s) && PidIn(s) == k.pid && SectionEnd(s) == |section| + 9 && s[5..5 + |section|] == section
  {
    hide TakeAll, Checksum, Appended, Value, PidIn, StartIn;
    var s, crc, fill := PacketBytes(k), Appended(Checksum(Hls, section)), Stuffing(179 - |section|);
    HeaderReads(k);
    assert s[3] == HeaderOf(k)[3];
    assert s[4..] == [0] + section + crc + fill;
    FourParts(s, section, crc, fill);
    SectionChecksItself(section);
  }

  lemma FourParts(s: seq<byte>, section: seq<byte>, crc: seq<byte>, fill: seq<byte>)
    requires |s| >= 4 && s[4..] == [0] + section + crc + fill && |section| >= 3
    ensures var end := 5 + |section| + |crc|;
            && |s| == end + |fill| && s[4] == 0 && s[5..5 + |section|] == section && s[6..8] == section[1..3]
            && s[5..end] == section + crc && s[end..] == fill
  {
    var t, n := s[4..], |section|;
    assert s[4] == t[0];
    assert t == [0] + (section + crc + fill);
    TailSlice(s, 4, 1, 1 + n);
    TailSlice(s, 4, 2, 4);
    TailSlice(s, 4, 1, 1 + n + |crc|);
    TailSlice(s, 4, 1 + n + |crc|, |t|);
    assert t[1..1 + n] == section && t[2..4] == section[1..3] && t[1..1 + n + |crc|] == section + crc;
    assert t[1 + n + |crc|..|t|] == fill && s[5 + n + |crc|..] == s[5 + n + |crc|..4 + |t|];
  }

  lemma TailSlice(s: seq<byte>, at: nat, lo: nat, hi: nat)
    requires lo <= hi && at + hi <= |s|
    ensures s[at..][lo..hi] == s[at + lo..at + hi]
  {
  }

  lemma LengthFields()
    ensures |PAT_SECTION| == 12 && PAT_SECTION[1..3] == [0xB0, 0x0D]
    ensures |PMT_SECTION| == 22 && PMT_SECTION[1..3] == [0xB0, 0x17]
  {
  }

  /** What is put into a packet as a table. */
  lemma TableIsSound(k: Packet, section: seq<byte>)
    requires Whole(k) && k.start && k.adaptation == [] && 3 <= |section| <= 179
    requires k.contents == TableContents(section) && Value(section[1..3]) % 0x1000 == |section| + 1
    ensures var s := PacketBytes(k);
            && SoundTable(s) && PidIn(s) == k.pid && SectionEnd(s) == |section| + 9 && s[5..5 + |section|] == section
  {
    hide PacketBytes, SoundTable, Checksum, Appended, Value;
    SectionIsSound(k, section);
  }

  lemma PatIsSound(counter: nat)
    ensures var k := PatPacket(counter);
            && Whole(k) && SoundTable(PacketBytes(k)) && PidIn(PacketBytes(k)) == 0
            && SectionEnd(PacketBytes(k)) == 21 && PacketBytes(k)[5..17] == PAT_SECTION
  {
    hide PacketBytes, SoundTable, TableContents, Value, PidIn, SectionEnd;
    LengthFields();
    ValueOfTwo(0xB0, 0x0D);
    TableIsSound(PatPacket(counter), PAT_SECTION);
  }

  lemma PmtIsSound(counter: nat)
    ensures var k := PmtPacket(counter);
            && Whole(k) && SoundTable(PacketBytes(k)) && PidIn(PacketBytes(k)) == PMT_PID
            && SectionEnd(PacketBytes(k)) == 31 && PacketBytes(k)[5..27] == PMT_SECTION
  {
    hide PacketBytes, SoundTable, TableContents, Value, PidIn, SectionEnd;
    LengthFields();
    ValueOfTwo(0xB0, 0x17);
    TableIsSound(PmtPacket(counter), PMT_SECTION);
  }

  /**
   Every copy of the association table leads to the program map, and every copy of the map names the PIDs on which the
   muxer sends: H.264 and the clock on that of the video, AAC on that of the audio.
   */
  lemma TablesAnnounce(counter: nat)
    ensures Whole(PatPacket(counter)) && Whole(PmtPacket(counter))
    ensures var pat := PacketBytes(PatPacket(counter));
            SoundTable(pat) && PidIn(pat) == 0 && pat[5] == 0 && SectionEnd(pat) >= 17
            && ProgramsIn(pat) == [Program(1, PidIn(PacketBytes(PmtPacket(counter))))]
    ensures var pmt := PacketBytes(PmtPacket(counter));
            && SoundTable(pmt) && pmt[5] == 2 && Value(pmt[8..10]) == 1 && ClockPid(pmt) == PidOf(Video)
            && StreamsAt(pmt) + 4 <= SectionEnd(pmt)
            && StreamsIn(pmt) == [Stream(0x1B, PidOf(Video)), Stream(0x0F, PidOf(Audio))]
  {
    hide PacketBytes, SoundTable, PidIn, SectionEnd, PatPacket, PmtPacket, ProgramsIn, StreamsIn, StreamsAt, ClockPid;
    hide TableContents;
    PatIsSound(counter);
    PmtIsSound(counter);
    ProgramsOfPat(PacketBytes(PatPacket(counter)));
    StreamsOfPmt(PacketBytes(PmtPacket(counter)));
  }

  lemma ProgramsOfPat(s: seq<byte>)
    requires |s| == PACKET_SIZE && s[5..17] == PAT_SECTION && SectionEnd(s) == 21
    ensures s[5] == 0 && ProgramsIn(s) == [Program(1, PMT_PID)]
  {
    hide SectionEnd, Value;
    assert s[5] == s[5..17][0];
    var t := s[13..17];
    SliceOfSlice(s, 5, 17, 8, 12);
    assert t == [0, 1, 0xEA, 0xBC];
    assert t[..2] == [0, 1] && t[2..4] == [0xEA, 0xBC];
    ValueOfTwo(0, 1);
    ValueOfTwo(0xEA, 0xBC);
    assert ProgramsFrom(t) == [Program(1, PMT_PID)] + ProgramsFrom(t[4..]);
  }

  lemma StreamsOfPmt(s: seq<byte>)
    requires |s| == PACKET_SIZE && s[5..27] == PMT_SECTION && SectionEnd(s) == 31
    ensures s[5] == 2 && Value(s[8..10]) == 1 && ClockPid(s) == VIDEO_PID && StreamsAt(s) == 17
    ensures StreamsIn(s) == [Stream(0x1B, VIDEO_PID), Stream(0x0F, AUDIO_PID)]
  {
    hide SectionEnd, Value;
    var p := s[5..27];
    assert s[5] == p[0];
    SliceOfSlice(s, 5, 27, 3, 5);
    SliceOfSlice(s, 5, 27, 8, 10);
    SliceOfSlice(s, 5, 27, 10, 12);
    SliceOfSlice(s, 5, 27, 12, 22);
    MapFields(p);
    ValueOfTwo(0, 1);
    ValueOfTwo(0xE1, 0);
    ValueOfTwo(0xF0, 0);
    TwoEntries(s[17..27]);
  }

  lemma MapFields(p: seq<byte>)
    requires p == PMT_SECTION
    ensures |p| == 22 && p[3..5] == [0, 1] && p[8..10] == [0xE1, 0] && p[10..12] == [0xF0, 0]
    ensures p[12..22] == [0x1B, 0xE1, 0, 0xF0, 0] + [0x0F, 0xE1, 1, 0xF0, 0]
  {
  }

  lemma OneEntry(t: seq<byte>, x: byte, low: byte)
    requires |t| >= 5 && t[..5] == [x, 0xE1, low, 0xF0, 0] && low < 2
    ensures StreamsFrom(t) == [Stream(x, 0x100 + low as nat)] + StreamsFrom(t[5..])
  {
    hide Value, StreamsFrom;
    var f := t[..5];
    assert t[1..3] == f[1..3] && f[1..3] == [0xE1, low];
    assert t[3..5] == f[3..5] && f[3..5] == [0xF0, 0];
    assert t[0] == f[0];
    ValueOfTwo(0xE1, low);
    ValueOfTwo(0xF0, 0);
    EntryStep(t, 0xE100 + low as nat, 0xF000);
  }

  lemma EntryStep(t: seq<byte>, pid: nat, length: nat)
    requires |t| >= 5 && Value(t[1..3]) == pid && Value(t[3..5]) == length && length % 0x1000 == 0
    ensures StreamsFrom(t) == [Stream(t[0], pid % 0x2000)] + StreamsFrom(t[5..])
  {
    hide Value;
  }

  lemma TwoEntries(t: seq<byte>)
    requires t == [0x1B, 0xE1, 0, 0xF0, 0] + [0x0F, 0xE1, 1, 0xF0, 0]
    ensures StreamsFrom(t) == [Stream(0x1B, VIDEO_PID), Stream(0x0F, AUDIO_PID)]
  {
    var u := t[5..];
    assert u == [0x0F, 0xE1, 1, 0xF0, 0] && u[5..] == [];
    OneEntry(t, 0x1B, 0);
    OneEntry(u, 0x0F, 1);
    assert StreamsFrom([]) == [];
  }

  // ---------------------------------------------------------------------------------------------
  // The copies of the tables, byte by byte
  // ---------------------------------------------------------------------------------------------

  function TableBytes(pid: nat, counter: nat, contents: seq<byte>): (s: seq<byte>)
    requires pid < 0x2000
    ensures |s| == 4 + |contents|
  {
    [0x47] + BigEndian(2, 0x4000 + pid) + [0x10 + counter % 16] + contents
  }

  lemma TableParts(k: Packet, counter: nat)
    requires Whole(k) && k.start && k.adaptation == [] && k.counter == counter % 16
    ensures PacketBytes(k) == TableBytes(k.pid, counter, k.contents)
  {
    var h := HeaderOf(k);
    assert h + [] + k.contents == h + k.contents;
  }

  function PatBytes(counter: nat): seq<byte> {
    TableBytes(0, counter, TableContents(PAT_SECTION))
  }

  function PmtBytes(counter: nat): seq<byte> {
    TableBytes(PMT_PID, counter, TableContents(PMT_SECTION))
  }

  lemma TablesAreWhole(c: Counters)
    ensures Whole(PatPacket(c.pat)) && PacketBytes(PatPacket(c.pat)) == PatBytes(c.pat)
    ensures Whole(PmtPacket(c.pmt)) && PacketBytes(PmtPacket(c.pmt)) == PmtBytes(c.pmt)
  {
    hide TableContents, TableBytes;
    TableParts(PatPacket(c.pat), c.pat);
    TableParts(PmtPacket(c.pmt), c.pmt);
  }

  lemma CopiesAreSound(n: nat)
    ensures SoundTable(PatBytes(n)) && SoundTable(PmtBytes(n)) && PatBytes(n) == PatBytes(n % 16) && PmtBytes(n) == PmtBytes(n % 16)
    ensures PatBytes(n)[3] % 16 == PmtBytes(n)[3] % 16 == n % 16
  {
    hide PacketBytes, SoundTable, TableContents, PidIn, SectionEnd;
    TablesAreWhole(Counters(n, n, 0, 0));
    PatIsSound(n);
    PmtIsSound(n);
  }

  // ---------------------------------------------------------------------------------------------
  // The clock reference
  // ---------------------------------------------------------------------------------------------

  /** Whether the adaptation field of a packet has a clock reference. */
  predicate HasClock(s: seq<byte>)
    requires |s| == PACKET_SIZE
  {
    s[3] / 32 % 2 == 1 && s[4] >= 7 && s[5] / 16 % 2 == 1
  }

  /** The ticks of the 27 MHz clock: a base of 33 bits, six reserved bits, and an extension of nine bits. */
  function ClockIn(s: seq<byte>): nat
    requires |s| == PACKET_SIZE
  {
    (Value(s[6..10]) * 2 + s[10] / 128) * 300 + (s[10] as nat % 2 * 256 + s[11] as nat)
  }

  /** The two fields of six bytes. */
  lemma ClockFields(t: seq<byte>)
    requires |t| == 6
    ensures var v := Value(t);
            && Value(t[..4]) * 2 + t[4] / 128 == v / 0x8000 && t[4] as nat % 2 * 256 + t[5] as nat == v % 0x200
  {
    hide Value;
    ValueOfSnoc(t[..4], t[4]);
    ValueOfSnoc(t[..5], t[5]);
    assert t[..4] + [t[4]] == t[..5] && t[..5] + [t[5]] == t;
    Halves(Value(t[..4]), t[4], t[5]);
  }

  lemma Halves(a: nat, b: byte, c: byte)
    ensures var v := 256 * (256 * a + b) + c;
            a * 2 + b / 128 == v / 0x8000 && b as nat % 2 * 256 + c as nat == v % 0x200
  {
    var v := 256 * (256 * a + b) + c;
    assert v == 0x8000 * (2 * a + b as nat / 128) + (b as nat % 128 * 256 + c as nat);
    ModUnique(v, 0x8000, 2 * a + b as nat / 128, b as nat % 128 * 256 + c as nat);
    assert v == 0x200 * (128 * a + b as nat / 2) + (b as nat % 2 * 256 + c as nat);
    ModUnique(v, 0x200, 128 * a + b as nat / 2, b as nat % 2 * 256 + c as nat);
  }

  /** The clock reference of a decoding time, modulo the 33 bits of its base. */
  lemma PcrReads(dts: nat)
    ensures var t := Pcr(dts);
            (Value(t[..4]) * 2 + t[4] / 128) * 300 + (t[4] as nat % 2 * 256 + t[5] as nat)
            == 27000000 * (dts / 1000) % (300 * 0x2_0000_0000)
  {
    hide Value, BigEndian;
    var clock := 27000000 * (dts / 1000);
    var base, extension := clock / 300 % 0x2_0000_0000, clock % 300;
    var v := base * 0x8000 + extension;
    RangeOfSix();
    FieldRoundTrip(6, v);
    ClockFields(Pcr(dts));
    ModUnique(v, 0x8000, base, extension);
    ModUnique(v, 0x200, 64 * base, extension);
    BaseAndExtension(clock);
  }

  lemma BaseAndExtension(clock: nat)
    ensures clock / 300 % 0x2_0000_0000 * 300 + clock % 300 == clock % (300 * 0x2_0000_0000)
  {
    var q := clock / 300;
    ModUnique(clock, 300 * 0x2_0000_0000, q / 0x2_0000_0000, q % 0x2_0000_0000 * 300 + clock % 300);
  }

  lemma RangeOfSix()
    ensures Range(6) == 0x1_0000_0000_0000
  {
    Ranges();
    assert Range(5) == 256 * Range(4);
    assert Range(6) == 256 * Range(5);
  }

  lemma {:induction false} LaterHaveNoClock(kind: Kind, data: seq<byte>, n: nat, i: nat, counter: nat, j: nat)
    requires n + SLACK <= |data| && j < |NextPackets(kind, data, n, i, counter)|
    ensures var a := NextPackets(kind, data, n, i, counter)[j].adaptation;
            a == [] || (|a| >= 2 && a[1] == 0)
    decreases if i < n then n - i else 0
  {
    if i < n && j > 0 {
      LaterHaveNoClock(kind, data, n, i + NextCount(kind, n - i), counter + 1, j - 1);
    }
  }

  lemma ClockOfPacket(k: Packet)
    requires Whole(k) && |k.adaptation| != 1
    ensures var s, a := PacketBytes(k), k.adaptation;
            && (HasClock(s) <==> a != [] && a[0] >= 7 && a[1] / 16 % 2 == 1)
            && (|a| >= 8 ==> s[6..12] == a[2..8])
  {
    hide PidIn, StartIn;
    var s, a := PacketBytes(k), k.adaptation;
    HeaderReads(k);
    if a != [] {
      assert s[4] == s[4..][0] && s[5] == s[4..][1];
      assert a[0] == (a + k.contents)[0] && a[1] == (a + k.contents)[1];
    }
    if |a| >= 8 {
      TailSlice(s, 4, 2, 8);
      assert (a + k.contents)[2..8] == a[2..8];
    }
  }

  /** The first packet of a video frame, and no other packet, tells the clock: its decoding time in whole seconds. */
  lemma {:induction false} FirstPacketTellsClock(x: Sent, counter: nat, i: nat)
    requires i < |Packets(x, counter)|
    ensures Whole(Packets(x, counter)[i])
    ensures HasClock(PacketBytes(Packets(x, counter)[i])) <==> KindOf(x) == Video && i == 0
    ensures KindOf(x) == Video && i == 0 ==>
              ClockIn(PacketBytes(Packets(x, counter)[i])) == 27000000 * (x.frame.p.dts / 1000) % (300 * 0x2_0000_0000)
  {
    hide PacketBytes, HasClock, NextPackets, Pcr;
    PacketsAreWhole(x.frame, Raw(x.frame.p) + x.tail, counter);
    var k, n := Packets(x, counter)[i], |Raw(x.frame.p)|;
    if i > 0 {
      LaterHaveNoClock(KindOf(x), Raw(x.frame.p) + x.tail, n, FirstCount(x.frame), counter + 1, i - 1);
    }
    ClockOfPacket(k);
    if KindOf(x) == Video && i == 0 {
      ClockOfFirst(PacketBytes(k), x.frame.p);
    }
  }

  lemma ClockOfFirst(s: seq<byte>, p: Payload)
    requires |s| == PACKET_SIZE && p.kind == Video && s[6..12] == FirstAdaptation(p)[2..8]
    ensures ClockIn(s) == 27000000 * (p.dts / 1000) % (300 * 0x2_0000_0000)
  {
    hide Value, Pcr;
    var t := Pcr(p.dts);
    assert FirstAdaptation(p)[2..8] == t;
    assert s[6..10] == s[6..12][..4] && s[10] == s[6..12][4] && s[11] == s[6..12][5];
    PcrReads(p.dts);
  }
}
