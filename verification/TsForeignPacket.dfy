/** What the reader makes of packets that others have made: header bits it passes over, and association tables. */
module TsForeignPacket {
  import opened Bytes
  import opened Media
  import opened TsReader
  import opened TsRoundTrip

  /** The header bits that are free, as numbers of 1, 1, 2 and 4 bits. */
  datatype Bits = Bits(error: nat, priority: nat, scrambling: nat, counter: nat)

  predicate Fit(b: Bits) {
    b.error < 2 && b.priority < 2 && b.scrambling < 4 && b.counter < 16
  }

  /** `control` is 1 for contents alone, 2 for an adaptation field alone, and 3 for both. */
  function HeaderBytes(b: Bits, start: bool, pid: nat, control: nat): (s: seq<byte>)
    requires Fit(b) && pid < 0x2000 && 1 <= control <= 3
    ensures |s| == 4
  {
    [0x47, b.error * 128 + (if start then 64 else 0) + b.priority * 32 + pid / 256, pid % 256,
     b.scrambling * 64 + control * 16 + b.counter]
  }

  lemma HeaderIsRead(b: Bits, start: bool, pid: nat, control: nat, rest: seq<byte>)
    requires Fit(b) && pid < 0x2000 && 1 <= control <= 3 && |rest| == PACKET_SIZE - 4
    ensures var s := HeaderBytes(b, start, pid, control) + rest;
            PidIn(s) == pid && StartIn(s) == start && (s[3] / 32 % 2 == 1 <==> control >= 2) && s[4..] == rest
  {
    hide Value;
    var h := HeaderBytes(b, start, pid, control);
    var s := h + rest;
    assert s[1] == h[1] && s[2] == h[2] && s[3] == h[3] && s[1..3] == [h[1], h[2]];
    ValueOfTwo(h[1], h[2]);
    LowThirteen(b.error, if start then 1 else 0, b.priority, pid);
    ControlIsRead(b, control);
  }

  lemma LowThirteen(error: nat, start: nat, priority: nat, pid: nat)
    requires error < 2 && start < 2 && priority < 2 && pid < 0x2000
    ensures var high := error * 128 + start * 64 + priority * 32 + pid / 256;
            (256 * high + pid % 256) % 0x2000 == pid && high / 64 % 2 == start
  {
    var high := error * 128 + start * 64 + priority * 32 + pid / 256;
    ModUnique(256 * high + pid % 256, 0x2000, error * 4 + start * 2 + priority, pid);
    ModUnique(high, 64, error * 2 + start, priority * 32 + pid / 256);
  }

  lemma ControlIsRead(b: Bits, control: nat)
    requires Fit(b) && 1 <= control <= 3
    ensures (b.scrambling * 64 + control * 16 + b.counter) / 32 % 2 == 1 <==> control >= 2
  {
    assert (b.scrambling * 64 + control * 16 + b.counter) / 32 == b.scrambling * 2 + control / 2;
  }

  /** A packet of an elementary stream is collected under its PID, whatever the other bits of its header say. */
  lemma {:induction false} PacketIsCollected(
      r: Reader, b: Bits, start: bool, pid: nat, control: nat, adaptation: seq<byte>, contents: seq<byte>)
    requires Fit(b) && 0 < pid < 0x2000 && pid != r.pmtPid && 1 <= control <= 3
    requires ProperAdaptation(adaptation) && (adaptation != [] <==> control >= 2)
    requires 4 + |adaptation| + |contents| == PACKET_SIZE
    ensures ReadPacket(r, HeaderBytes(b, start, pid, control) + adaptation + contents) == Collect(r, pid, start, contents)
  {
    hide Collect, SkipAdaptation, PidIn, StartIn, HeaderBytes;
    var h := HeaderBytes(b, start, pid, control);
    var s := h + adaptation + contents;
    assert s == h + (adaptation + contents);
    HeaderIsRead(b, start, pid, control, adaptation + contents);
    assert s[3] == h[3];
    if adaptation != [] {
      SkipsAdaptation(h, adaptation, contents);
    }
    assert s[4 + |adaptation|..] == contents;
  }

  /** Before any table has been read this holds of every PID but that of the association table. */
  lemma {:induction false} FreshReaderCollects(
      b: Bits, start: bool, pid: nat, control: nat, adaptation: seq<byte>, contents: seq<byte>)
    requires Fit(b) && 0 < pid < 0x2000 && 1 <= control <= 3
    requires ProperAdaptation(adaptation) && (adaptation != [] <==> control >= 2)
    requires 4 + |adaptation| + |contents| == PACKET_SIZE
    ensures ReadPacket(FRESH, HeaderBytes(b, start, pid, control) + adaptation + contents)
            == Some(FRESH.(pes := map[pid := contents]))
  {
    hide ReadPacket, HeaderBytes, ProperAdaptation;
    PacketIsCollected(FRESH, b, start, pid, control, adaptation, contents);
    var none: map<nat, seq<byte>> := map[];
    assert none[pid := contents] == map[pid := contents];
    assert [] + contents == contents && FRESH.out + [] == FRESH.out;
  }

  // ---------------------------------------------------------------------------------------------
  // Association tables
  // ---------------------------------------------------------------------------------------------

  datatype Program = Program(number: nat, pid: nat)

  predicate AllFit(ps: seq<Program>) {
    forall i :: 0 <= i < |ps| ==> ps[i].number < 0x1_0000 && ps[i].pid < 0x2000
  }

  function ProgramBytes(ps: seq<Program>): (s: seq<byte>)
    requires AllFit(ps)
    ensures |s| == 4 * |ps|
  {
    if ps == [] then []
    else BigEndian(2, ps[0].number) + BigEndian(2, 0xE000 + ps[0].pid) + ProgramBytes(ps[1..])
  }

  /** The section from its table id on; `stream` is the number of the transport stream, `version` the byte behind it. */
  function TableBytes(stream: nat, version: byte, ps: seq<Program>, crc: seq<byte>): seq<byte>
    requires AllFit(ps) && stream < 0x1_0000
  {
    [0] + BigEndian(2, 0xB000 + 9 + 4 * |ps|) + BigEndian(2, stream) + [version, 0, 0] + ProgramBytes(ps) + crc
  }

  lemma FirstProgram(stream: nat, version: byte, ps: seq<Program>, crc: seq<byte>, rest: seq<byte>)
    requires AllFit(ps) && stream < 0x1_0000 && ps != [] && |crc| == 4
    ensures var t := TableBytes(stream, version, ps, crc) + rest;
            |t| >= 16 && Value(t[8..10]) == ps[0].number && Value(t[10..12]) == 0xE000 + ps[0].pid
  {
    hide Value, BigEndian;
    var front := [0] + BigEndian(2, 0xB000 + 9 + 4 * |ps|) + BigEndian(2, stream) + [version, 0, 0];
    var a, b := BigEndian(2, ps[0].number), BigEndian(2, 0xE000 + ps[0].pid);
    Pieces(front, a, b, ProgramBytes(ps[1..]), crc, rest);
    Ranges();
    FieldRoundTrip(2, ps[0].number);
    FieldRoundTrip(2, 0xE000 + ps[0].pid);
  }

  lemma Pieces(front: seq<byte>, a: seq<byte>, b: seq<byte>, more: seq<byte>, crc: seq<byte>, rest: seq<byte>)
    requires |front| == 8 && |a| == |b| == 2
    ensures var t := front + (a + b + more) + crc + rest;
            t[8..10] == a && t[10..12] == b
  {
    var t := front + (a + b + more) + crc + rest;
    assert t == front + (a + (b + (more + crc + rest)));
  }

  /** The program map that the table leads to: that of the first entry, if it is not the network's. */
  function Leads(ps: seq<Program>, before: nat): nat {
    if ps == [] then before else if ps[0].number != 0 then ps[0].pid else Leads(ps[1..], before)
  }

  /** Only the first entry is read: a table that begins with the network's entry leads nowhere. */
  lemma {:induction false} PatIsReadIff(r: Reader, stream: nat, version: byte, ps: seq<Program>, crc: seq<byte>, rest: seq<byte>)
    requires AllFit(ps) && stream < 0x1_0000 && ps != [] && |crc| == 4
    ensures var t := TableBytes(stream, version, ps, crc) + rest;
            ReadPat(r, t) == Some(r.(pmtPid := Leads(ps, r.pmtPid)))
            <==> ps[0].number != 0 || Leads(ps, r.pmtPid) == r.pmtPid
    ensures ps[0].number == 0 ==> ReadPat(r, TableBytes(stream, version, ps, crc) + rest) == Some(r)
  {
    hide Value, TableBytes;
    FirstProgram(stream, version, ps, crc, rest);
    assert (0xE000 + ps[0].pid) % 0x2000 == ps[0].pid;
  }

  // ---------------------------------------------------------------------------------------------
  // The end of a stream
  // ---------------------------------------------------------------------------------------------

  predicate Synced(packets: seq<seq<byte>>) {
    forall i :: 0 <= i < |packets| ==> |packets[i]| == PACKET_SIZE && packets[i][0] == 0x47
  }

  /** Packets read one by one, until one fails. */
  function ReadPackets(r: Reader, packets: seq<seq<byte>>): Option<Reader>
    requires Synced(packets)
    decreases |packets|
  {
    if packets == [] then Some(r)
    else
      match ReadPacket(r, packets[0])
      case None => None
      case Some(r') => ReadPackets(r', packets[1..])
  }

  lemma {:induction false} ReadingStops(r: Reader, packets: seq<seq<byte>>, rest: seq<byte>)
    requires Synced(packets) && (rest != [] ==> rest[0] != 0x47)
    ensures ReadAll(r, Concat(packets) + rest) == ReadPackets(r, packets)
    decreases |packets|
  {
    hide ReadPacket;
    if packets == [] {
      assert [] + rest == rest;
    } else {
      var k, more := packets[0], Concat(packets[1..]) + rest;
      var s := Concat(packets) + rest;
      assert s == k + more;
      assert s[..PACKET_SIZE] == k && s[PACKET_SIZE..] == more && s[0] == k[0];
      match ReadPacket(r, k)
      case None =>
      case Some(r') => ReadingStops(r', packets[1..], rest);
    }
  }

  /**
   Whole packets are read up to the first one without its sync byte, and what follows is passed over without a failure; a
   stream that is not made of whole packets is refused.
   */
  lemma {:induction false} StreamIsReadToTheLastSync(r: Reader, packets: seq<seq<byte>>, rest: seq<byte>)
    requires Synced(packets) && (rest != [] ==> rest[0] != 0x47)
    ensures ParseTs(r, Concat(packets) + rest) == if |rest| % PACKET_SIZE == 0 then ReadPackets(r, packets) else None
  {
    hide ReadPacket;
    ReadingStops(r, packets, rest);
    PacketsAreLong(packets);
  }

  lemma {:induction false} PacketsAreLong(packets: seq<seq<byte>>)
    requires Synced(packets)
    ensures |Concat(packets)| == PACKET_SIZE * |packets|
    decreases |packets|
  {
    if packets != [] {
      PacketsAreLong(packets[1..]);
    }
  }
}
