/** The transport stream reader recovers from the muxer's packets every frame that was put into them. */
module TsRoundTrip {
  import opened Bytes
  import opened Media
  import opened AnnexB
  import opened TsPackets
  import opened TsReader

  // ---------------------------------------------------------------------------------------------
  // Time stamps
  // ---------------------------------------------------------------------------------------------

  lemma StampParts(t: nat)
    ensures var s := Stamp(t);
            && s[0] / 2 % 8 == t / 0x4000_0000 % 8
            && Value(s[1..3]) / 2 == t / 0x8000 % 0x8000
            && Value(s[3..5]) / 2 == t % 0x8000
  {
    var s := Stamp(t);
    var mid, low := 2 * (t / 0x8000 % 0x8000) + 1, 2 * (t % 0x8000) + 1;
    assert s[1..3] == BigEndian(2, mid) && s[3..5] == BigEndian(2, low);
    Ranges();
    FieldRoundTrip(2, mid);
    FieldRoundTrip(2, low);
  }

  /** The three fields put together the way the reader does. */
  function Together(top: nat, mid: nat, low: nat): nat {
    (if mid >= 0x4000 && top % 2 == 0 then top + 1 else top) * 0x2000_0000 + mid % 0x4000 * 0x8000 + low
  }

  lemma TogetherBounds(top: nat, mid: nat, low: nat)
    requires top < 8 && mid < 0x8000 && low < 0x8000
    ensures top == 0 ==> Together(top, mid, low) == mid * 0x8000 + low
    ensures Together(top, mid, low) <= top * 0x2000_0000 + mid * 0x8000 + low
  {
    if mid >= 0x4000 {
      assert mid % 0x4000 == mid - 0x4000;
    } else {
      assert mid % 0x4000 == mid;
    }
  }

  lemma LowThirty(t: nat)
    ensures t % 0x4000_0000 == t / 0x8000 % 0x8000 * 0x8000 + t % 0x8000
  {
  }

  /** What the reader makes of the bits above bit 29: it shifts them one place too low. */
  lemma StampReads(t: nat)
    ensures var top := t / 0x4000_0000 % 8;
            && (top == 0 ==> ReadStamp(Stamp(t)) == t % 0x4000_0000)
            && ReadStamp(Stamp(t)) <= top * 0x2000_0000 + t % 0x4000_0000
  {
    hide Stamp;
    StampParts(t);
    LowThirty(t);
    TogetherBounds(t / 0x4000_0000 % 8, t / 0x8000 % 0x8000, t % 0x8000);
    assert ReadStamp(Stamp(t)) == Together(t / 0x4000_0000 % 8, t / 0x8000 % 0x8000, t % 0x8000);
  }

  lemma TooLow(t: nat)
    requires t >= 0x4000_0000
    ensures ReadStamp(Stamp(t)) < t
  {
    hide ReadStamp, Stamp;
    StampReads(t);
    TopIsLarge(t);
  }

  lemma TopIsLarge(t: nat)
    requires t >= 0x4000_0000
    ensures t / 0x4000_0000 % 8 * 0x2000_0000 + t % 0x4000_0000 < t
  {
  }

  /** A time in milliseconds survives exactly when its clock ticks stay below 2^30. */
  lemma TimeSurvivesIff(ms: nat)
    ensures ReadStamp(Stamp(ms * 90)) / 90 == ms <==> ms * 90 < 0x4000_0000
  {
    hide ReadStamp, Stamp;
    var t := ms * 90;
    if t >= 0x4000_0000 {
      TooLow(t);
      Below90(ReadStamp(Stamp(t)), ms);
    } else {
      StampReads(t);
      assert t / 0x4000_0000 % 8 == 0 && t % 0x4000_0000 == t;
    }
  }

  lemma Below90(x: nat, ms: nat)
    requires x < ms * 90
    ensures x / 90 < ms
  {
  }

  // ---------------------------------------------------------------------------------------------
  // One packet
  // ---------------------------------------------------------------------------------------------

  /** Adaptation fields with a clock reference or nothing in them, stuffed with ones; one may be a length of zero alone. */
  predicate ProperAdaptation(a: seq<byte>) {
    a != [] ==>
      && a[0] == |a| - 1
      && (|a| >= 2 ==>
            && (a[1] == 0 || (a[1] == 0x10 && |a| >= 8))
            && AllStuffing(a[if a[1] == 0 then 2 else 8..]))
  }

  lemma FirstIsProper(p: Payload)
    ensures ProperAdaptation(FirstAdaptation(p))
  {
    var st := FirstStuffing(p.kind, |Raw(p)|);
    var a := FirstAdaptation(p);
    if p.kind == Video {
      assert a[8..] == Stuffing(st);
    } else if st > 0 {
      assert a[2..] == Stuffing(st);
    }
  }

  lemma NextIsProper(kind: Kind, left: nat)
    requires left > 0
    ensures ProperAdaptation(NextAdaptation(kind, left))
  {
    var total := left + 4 + AdaptationSize(kind);
    if total < 188 {
      assert NextAdaptation(kind, left)[2..] == Stuffing(188 - total);
    }
  }

  lemma StartAndPid(start: bool, pid: nat)
    requires pid < 0x2000
    ensures var v := (if start then 0x4000 else 0) + pid;
            v % 0x2000 == pid && v < 0x1_0000 && (v / 256 / 64 % 2 == 1 <==> start)
  {
    var v := (if start then 0x4000 else 0) + pid;
    assert v / 256 / 64 == if start then 1 else 0;
  }

  lemma ControlBits(control: nat, counter: nat)
    requires counter < 16 && (control == 1 || control == 3)
    ensures (16 * control + counter) / 32 % 2 == 1 <==> control == 3
  {
    assert (16 * control + counter) / 32 == if control == 3 then 1 else 0;
  }

  lemma HeaderReads(k: Packet)
    requires Whole(k)
    ensures var s := PacketBytes(k);
            && s[0] == 0x47 && PidIn(s) == k.pid && StartIn(s) == k.start && (s[3] / 32 % 2 == 1 <==> k.adaptation != [])
            && s[4..] == k.adaptation + k.contents
  {
    hide BigEndian, Value;
    var v := (if k.start then 0x4000 else 0) + k.pid;
    var s, h := PacketBytes(k), HeaderOf(k);
    assert s == h + (k.adaptation + k.contents);
    StartAndPid(k.start, k.pid);
    ControlBits(Control(k), k.counter);
    assert s[1..3] == BigEndian(2, v);
    Ranges();
    FieldRoundTrip(2, v);
    TwoBytes(v);
    assert s[1] == BigEndian(2, v)[0] && s[3] == 16 * Control(k) + k.counter;
  }

  lemma TwoBytes(v: nat)
    requires v < 0x1_0000
    ensures BigEndian(2, v)[0] == v / 256
  {
    assert BigEndian(2, v) == BigEndian(1, v / 256) + [v % 256];
    assert BigEndian(1, v / 256) == BigEndian(0, v / 256 / 256) + [v / 256 % 256];
  }

  lemma SkipsAdaptation(h: seq<byte>, a: seq<byte>, c: seq<byte>)
    requires |h| == 4 && a != [] && ProperAdaptation(a)
    ensures SkipAdaptation(h + a + c, 4) == Some(4 + |a|)
  {
    var s := h + a + c;
    assert s[4] == a[0];
    if |a| >= 2 {
      assert s[5] == a[1];
      var stuffing := if a[1] == 0 then 2 else 8;
      assert s[4 + stuffing..4 + |a|] == a[stuffing..];
    }
  }

  /** A media packet hands its contents to the collection of its PID. */
  lemma {:induction false} PacketIsCollected(r: Reader, k: Packet)
    requires Whole(k) && ProperAdaptation(k.adaptation) && k.pid != 0 && k.pid != r.pmtPid
    ensures ReadPacket(r, PacketBytes(k)) == Collect(r, k.pid, k.start, k.contents)
  {
    hide Collect, SkipAdaptation;
    var s := PacketBytes(k);
    HeaderReads(k);
    if k.adaptation != [] {
      SkipsAdaptation(HeaderOf(k), k.adaptation, k.contents);
    }
    assert s[4 + |k.adaptation|..] == k.contents;
  }

  // ---------------------------------------------------------------------------------------------
  // The program tables
  // ---------------------------------------------------------------------------------------------

  lemma TablePacketReads(r: Reader, k: Packet)
    requires Whole(k) && k.start && k.adaptation == [] && (k.pid == 0 || k.pid == r.pmtPid)
    ensures ReadPacket(r, PacketBytes(k)) == ReadContents(r, k.pid, true, k.contents[1..])
  {
    hide ReadContents;
    HeaderReads(k);
    assert PacketBytes(k)[4..][1..] == PacketBytes(k)[5..];
  }

  lemma ValueOfTwo(a: byte, b: byte)
    ensures Value([a, b]) == 256 * a + b
  {
    ValueOfSnoc([a], b);
    ValueOfSnoc([], a);
    assert [] + [a] == [a] && [a] + [b] == [a, b];
  }

  lemma PatIsRead(r: Reader, counter: nat)
    ensures Whole(PatPacket(counter)) && ReadPacket(r, PacketBytes(PatPacket(counter))) == Some(r.(pmtPid := PMT_PID))
  {
    hide ReadPacket, PacketBytes, ReadPmt, ReadPat, Stuffing, Crc.Checksum, Crc.Appended;
    TablePacketReads(r, PatPacket(counter));
    PatFields(r, Crc.Appended(Crc.Checksum(Crc.Hls, PAT_SECTION)), Stuffing(179 - |PAT_SECTION|));
  }

  lemma PatFields(r: Reader, crc: seq<byte>, fill: seq<byte>)
    requires |crc| == 4
    ensures ReadPat(r, ([0] + PAT_SECTION + crc + fill)[1..]) == Some(r.(pmtPid := PMT_PID))
  {
    var t := PAT_SECTION + crc + fill;
    assert ([0] + PAT_SECTION + crc + fill)[1..] == t;
    assert t[8..10] == [0, 1] && t[10..12] == [0xEA, 0xBC];
    ValueOfTwo(0, 1);
    ValueOfTwo(0xEA, 0xBC);
  }

  lemma PmtIsRead(r: Reader, counter: nat)
    requires r.pmtPid == PMT_PID
    ensures Whole(PmtPacket(counter)) && ReadPacket(r, PacketBytes(PmtPacket(counter))) == Some(r.(videoType := Some(H264)))
  {
    hide ReadPacket, PacketBytes, ReadPmt, ReadPat, Stuffing, Crc.Checksum, Crc.Appended;
    TablePacketReads(r, PmtPacket(counter));
    PmtFields(r, Crc.Appended(Crc.Checksum(Crc.Hls, PMT_SECTION)), Stuffing(179 - |PMT_SECTION|));
  }

  lemma PmtFields(r: Reader, crc: seq<byte>, fill: seq<byte>)
    requires |crc| == 4
    ensures ReadPmt(r, ([0] + PMT_SECTION + crc + fill)[1..]) == Some(r.(videoType := Some(H264)))
  {
    hide ReadStreams, Value;
    var t := PMT_SECTION + crc + fill;
    assert ([0] + PMT_SECTION + crc + fill)[1..] == t;
    SectionParts(crc, fill);
    ValueOfTwo(0xF0, 0);
    ValueOfTwo(0xB0, 0x17);
    TwoStreams(r, t[12..]);
  }

  lemma SectionParts(crc: seq<byte>, fill: seq<byte>)
    requires |crc| == 4
    ensures var t := PMT_SECTION + crc + fill;
            && |t| > 22 && t[1..3] == [0xB0, 0x17] && t[10..12] == [0xF0, 0]
            && t[12..][..10] == [0x1B, 0xE1, 0x00, 0xF0, 0, 0x0F, 0xE1, 0x01, 0xF0, 0]
  {
    var t := PMT_SECTION + crc + fill;
    assert t[1] == 0xB0 && t[2] == 0x17 && t[10] == 0xF0 && t[11] == 0;
  }

  lemma TwoStreams(r: Reader, u: seq<byte>)
    requires |u| > 10 && u[..10] == [0x1B, 0xE1, 0x00, 0xF0, 0, 0x0F, 0xE1, 0x01, 0xF0, 0]
    ensures ReadStreams(r, u, 10) == Some(r.(videoType := Some(H264)))
  {
    var r' := r.(videoType := Some(H264));
    assert u[0] == u[..10][0] && u[3] == u[..10][3] && u[4] == u[..10][4];
    assert u[5] == u[..10][5] && u[8] == u[..10][8] && u[9] == u[..10][9];
    assert u[3..5] == [0xF0, 0] && u[5..][3..5] == [0xF0, 0];
    ValueOfTwo(0xF0, 0);
    assert ReadStreams(r', u[5..], 5) == ReadStreams(r', u[5..][5..], 0);
  }

  // ---------------------------------------------------------------------------------------------
  // All packets of a frame
  // ---------------------------------------------------------------------------------------------

  function StreamBytes(ks: seq<Packet>): (s: seq<byte>)
    requires AllWhole(ks)
    ensures |s| == PACKET_SIZE * |ks|
  {
    if ks == [] then [] else PacketBytes(ks[0]) + StreamBytes(ks[1..])
  }

  function FeedAll(r: Reader, ks: seq<Packet>): Option<Reader>
    requires AllWhole(ks)
    decreases |ks|
  {
    if ks == [] then Some(r)
    else
      match ReadPacket(r, PacketBytes(ks[0]))
      case None => None
      case Some(r') => FeedAll(r', ks[1..])
  }

  /** Reading the bytes of packets is feeding them one by one. */
  lemma {:induction false} ReadingFeeds(r: Reader, ks: seq<Packet>)
    requires AllWhole(ks)
    ensures ParseTs(r, StreamBytes(ks)) == ReadAll(r, StreamBytes(ks)) == FeedAll(r, ks)
    decreases |ks|
  {
    hide ReadPacket, PacketBytes;
    if ks != [] {
      var k, s := PacketBytes(ks[0]), StreamBytes(ks);
      assert s[..PACKET_SIZE] == k && s[PACKET_SIZE..] == StreamBytes(ks[1..]);
      HeaderReads(ks[0]);
      assert s[0] == k[0];
      match ReadPacket(r, k)
      case None =>
      case Some(r') => ReadingFeeds(r', ks[1..]);
    }
  }

  lemma {:induction false} FeedAppend(r: Reader, a: seq<Packet>, b: seq<Packet>)
    requires AllWhole(a) && AllWhole(b)
    ensures AllWhole(a + b)
    ensures FeedAll(r, a + b) == match FeedAll(r, a) case None => None case Some(r') => FeedAll(r', b)
    decreases |a|
  {
    hide ReadPacket, PacketBytes;
    if a == [] {
      assert a + b == b;
    } else {
      assert (a + b)[1..] == a[1..] + b;
      match ReadPacket(r, PacketBytes(a[0]))
      case None =>
      case Some(r') => FeedAppend(r', a[1..], b);
    }
  }

  /** Packets of one PID that go on with a unit. */
  predicate Continue(ks: seq<Packet>, pid: nat) {
    AllWhole(ks) && forall i :: 0 <= i < |ks| ==> !ks[i].start && ks[i].pid == pid && ProperAdaptation(ks[i].adaptation)
  }

  lemma {:induction false} NextContinue(kind: Kind, data: seq<byte>, n: nat, i: nat, counter: nat)
    requires n + SLACK <= |data|
    ensures Continue(NextPackets(kind, data, n, i, counter), PidOf(kind))
    decreases if i < n then n - i else 0
  {
    NextAreWhole(kind, data, n, i, counter);
    if i < n {
      NextIsProper(kind, n - i);
      NextContinue(kind, data, n, i + NextCount(kind, n - i), counter + 1);
    }
  }

  lemma {:induction false} RestIsCollected(r: Reader, ks: seq<Packet>, pid: nat)
    requires Continue(ks, pid) && pid != 0 && pid != r.pmtPid && pid in r.pes
    ensures FeedAll(r, ks) == Some(r.(pes := r.pes[pid := r.pes[pid] + Contents(ks)]))
    decreases |ks|
  {
    hide ReadPacket, PacketBytes;
    if ks == [] {
      assert r.pes[pid] + [] == r.pes[pid];
      assert r.pes[pid := r.pes[pid]] == r.pes;
    } else {
      var k := ks[0];
      PacketIsCollected(r, k);
      var r' := r.(pes := r.pes[pid := r.pes[pid] + k.contents]);
      RestIsCollected(r', ks[1..], pid);
      assert r.pes[pid] + k.contents + Contents(ks[1..]) == r.pes[pid] + (k.contents + Contents(ks[1..]));
      assert r'.pes[pid := r.pes[pid] + Contents(ks)] == r.pes[pid := r.pes[pid] + Contents(ks)];
    }
  }

  /** A frame together with what follows its bytes in memory. */
  datatype SentFields = Sent(frame: Frame, tail: seq<byte>)

  type Sent = x: SentFields | Packable(x.frame) && |x.tail| >= SLACK
    witness Sent(Frame(Payload(Audio, false, 0, 0, [0, 0, 0]), Config([], [], None)), [0, 0, 0, 0, 0, 0, 0, 0, 0])

  function Packets(x: Sent, counter: nat): seq<Packet> {
    FramePackets(x.frame, Raw(x.frame.p) + x.tail, counter)
  }

  function Surplus(x: Sent): seq<byte> {
    SurplusFits(x);
    x.tail[..FrameEnd(x.frame) - |Raw(x.frame.p)|]
  }

  lemma SurplusFits(x: Sent)
    ensures |Raw(x.frame.p)| <= FrameEnd(x.frame) <= |Raw(x.frame.p)| + MaxSurplus(x.frame)
  {
    PacketsCarryTheFrame(x.frame, x.tail, 0);
  }

  /** The packetized elementary stream packet of a frame. */
  function Pes(x: Sent): seq<byte> {
    PesHeader(x.frame.p) + Lead(x.frame) + Raw(x.frame.p) + Surplus(x)
  }

  function KindOf(x: Sent): Kind {
    x.frame.p.kind
  }

  /** The reader is set up for the muxer's streams. */
  predicate Tuned(r: Reader) {
    r.pmtPid == PMT_PID && r.videoType == Some(H264)
  }

  /** The packets of a frame complete the unit before it on its PID, and leave its own unit pending. */
  lemma {:induction false} FrameIsCollected(r: Reader, x: Sent, counter: nat)
    requires Tuned(r)
    ensures AllWhole(Packets(x, counter))
    ensures FeedAll(r, Packets(x, counter))
            == (match PesEvents(Pending(r, PidOf(KindOf(x))), r.videoType)
                case None => None
                case Some(events) => Some(r.(pes := r.pes[PidOf(KindOf(x)) := Pes(x)], out := r.out + events)))
  {
    hide ReadPacket, PacketBytes, PesEvents, NextPackets, PesHeader, Lead;
    var f, pid := x.frame, PidOf(KindOf(x));
    var data := Raw(f.p) + x.tail;
    var ks := FramePackets(f, data, counter);
    FirstCountBound(f);
    var first, rest := FirstPacket(f, data, counter), NextPackets(f.p.kind, data, |Raw(f.p)|, FirstCount(f), counter + 1);
    PacketsAreWhole(f, data, counter);
    FirstIsProper(f.p);
    PacketIsCollected(r, first);
    assert ks[1..] == rest;
    NextContinue(f.p.kind, data, |Raw(f.p)|, FirstCount(f), counter + 1);
    match PesEvents(Pending(r, pid), r.videoType)
    case None =>
    case Some(events) =>
      var r' := r.(pes := r.pes[pid := first.contents], out := r.out + events);
      RestIsCollected(r', rest, pid);
      PacketsCarryTheFrame(f, x.tail, counter);
      assert r'.pes[pid := Pes(x)] == r.pes[pid := Pes(x)];
  }

  // ---------------------------------------------------------------------------------------------
  // Whole streams
  // ---------------------------------------------------------------------------------------------

  /** The packets of a list of frames; each stream counts its own packets. */
  function AllPackets(xs: seq<Sent>, c: Counters): seq<Packet>
    decreases |xs|
  {
    if xs == [] then []
    else
      var ks := Packets(xs[0], Count(c, KindOf(xs[0])));
      ks + AllPackets(xs[1..], CountOn(c, KindOf(xs[0]), |ks|))
  }

  lemma {:induction false} AllPacketsWhole(xs: seq<Sent>, c: Counters)
    ensures AllWhole(AllPackets(xs, c))
    decreases |xs|
  {
    hide Packets, Whole;
    if xs != [] {
      var ks := Packets(xs[0], Count(c, KindOf(xs[0])));
      FramePacketsWhole(xs[0], Count(c, KindOf(xs[0])));
      AllPacketsWhole(xs[1..], CountOn(c, KindOf(xs[0]), |ks|));
    }
  }

  lemma FramePacketsWhole(x: Sent, counter: nat)
    ensures AllWhole(Packets(x, counter))
  {
    PacketsAreWhole(x.frame, Raw(x.frame.p) + x.tail, counter);
  }

  /** What the reader makes of a frame, once its unit is complete. */
  function EventsOf(x: Sent): Option<seq<Event>> {
    PesEvents(Pes(x), Some(H264))
  }

  predicate Readable(xs: seq<Sent>) {
    forall i :: 0 <= i < |xs| ==> EventsOf(xs[i]).Some?
  }

  /** The frame that is pending on each PID. */
  type Latest = map<Kind, Sent>

  function EventsOfPending(latest: Latest, kind: Kind): seq<Event>
    requires kind in latest ==> EventsOf(latest[kind]).Some?
  {
    if kind in latest then EventsOf(latest[kind]).value else []
  }

  /** The events of a list of frames: each frame's are seen when the next frame of its stream begins. */
  function Seen(latest: Latest, xs: seq<Sent>): seq<Event>
    requires Readable(xs) && forall kind: Kind :: kind in latest ==> EventsOf(latest[kind]).Some?
    decreases |xs|
  {
    if xs == [] then []
    else EventsOfPending(latest, KindOf(xs[0])) + Seen(latest[KindOf(xs[0]) := xs[0]], xs[1..])
  }

  function LatestAfter(latest: Latest, xs: seq<Sent>): Latest
    decreases |xs|
  {
    if xs == [] then latest else LatestAfter(latest[KindOf(xs[0]) := xs[0]], xs[1..])
  }

  /** On each PID exactly the unit of the latest frame is pending. */
  predicate Holding(r: Reader, latest: Latest) {
    && Tuned(r)
    && forall kind: Kind :: Pending(r, PidOf(kind)) == if kind in latest then Pes(latest[kind]) else []
  }

  lemma {:induction false} StreamIsRead(r: Reader, latest: Latest, xs: seq<Sent>, c: Counters)
    requires Holding(r, latest) && Readable(xs) && forall kind: Kind :: kind in latest ==> EventsOf(latest[kind]).Some?
    ensures AllWhole(AllPackets(xs, c))
    ensures var r' := FeedAll(r, AllPackets(xs, c));
            r'.Some? && Holding(r'.value, LatestAfter(latest, xs)) && r'.value.out == r.out + Seen(latest, xs)
    decreases |xs|
  {
    hide PesEvents, Pes, FeedAll, Packets, Whole;
    AllPacketsWhole(xs, c);
    if xs == [] {
      FeedNothing(r);
      assert r.out + [] == r.out;
    } else {
      var x, kind := xs[0], KindOf(xs[0]);
      var ks, c' := Packets(x, Count(c, kind)), CountOn(c, kind, |Packets(x, Count(c, kind))|);
      var next := r.(pes := r.pes[PidOf(kind) := Pes(x)], out := r.out + EventsOfPending(latest, kind));
      OneMoreFrame(r, latest, x, Count(c, kind));
      StreamIsRead(next, latest[kind := x], xs[1..], c');
      FeedAppend(r, ks, AllPackets(xs[1..], c'));
      AppendEvents(r.out, EventsOfPending(latest, kind), Seen(latest[kind := x], xs[1..]));
    }
  }

  lemma {:induction false} OneMoreFrame(r: Reader, latest: Latest, x: Sent, counter: nat)
    requires Holding(r, latest) && forall kind: Kind :: kind in latest ==> EventsOf(latest[kind]).Some?
    ensures AllWhole(Packets(x, counter))
    ensures var kind := KindOf(x);
            var r' := r.(pes := r.pes[PidOf(kind) := Pes(x)], out := r.out + EventsOfPending(latest, kind));
            FeedAll(r, Packets(x, counter)) == Some(r') && Holding(r', latest[kind := x])
  {
    hide PesEvents, Pes, FeedAll, Packets, Whole;
    FrameIsCollected(r, x, counter);
    NothingPending();
  }

  lemma AppendEvents(a: seq<Event>, b: seq<Event>, c: seq<Event>)
    ensures a + b + c == a + (b + c)
  {
  }

  lemma FeedNothing(r: Reader)
    ensures FeedAll(r, []) == Some(r)
  {
  }

  lemma NothingPending()
    ensures PesEvents([], Some(H264)) == Some([])
  {
  }

  /** The packets of a segment: the two program tables, then the frames. */
  function SegmentPackets(xs: seq<Sent>, c: Counters): seq<Packet> {
    [PatPacket(c.pat)] + ([PmtPacket(c.pmt)] + AllPackets(xs, c))
  }

  lemma FeedOne(r: Reader, k: Packet, rest: seq<Packet>, r': Reader)
    requires Whole(k) && AllWhole(rest) && ReadPacket(r, PacketBytes(k)) == Some(r')
    ensures AllWhole([k] + rest) && FeedAll(r, [k] + rest) == FeedAll(r', rest)
  {
    hide ReadPacket, PacketBytes;
    assert ([k] + rest)[1..] == rest;
  }

  /**
   A fresh reader that is fed a segment sees the frames of each stream in order, as they are completed, and ends with
   the last frame of each stream pending.
   */
  lemma {:induction false} SegmentIsRead(xs: seq<Sent>, c: Counters)
    requires Readable(xs)
    ensures AllWhole(SegmentPackets(xs, c))
    ensures var r := ParseTs(FRESH, StreamBytes(SegmentPackets(xs, c)));
            r.Some? && Holding(r.value, LatestAfter(map[], xs)) && r.value.out == Seen(map[], xs)
  {
    hide PesEvents, Pes, Packets, ReadPacket, PacketBytes, ParseTs, ReadAll, PatPacket, PmtPacket, AllPackets, FeedAll, StreamBytes;
    var ks := AllPackets(xs, c);
    AllPacketsWhole(xs, c);
    PatIsRead(FRESH, c.pat);
    var r1 := FRESH.(pmtPid := PMT_PID);
    PmtIsRead(r1, c.pmt);
    var r2 := r1.(videoType := Some(H264));
    StreamIsRead(r2, map[], xs, c);
    FeedOne(r1, PmtPacket(c.pmt), ks, r2);
    FeedOne(FRESH, PatPacket(c.pat), [PmtPacket(c.pmt)] + ks, r1);
    ReadingFeeds(FRESH, SegmentPackets(xs, c));
    assert [] + Seen(map[], xs) == Seen(map[], xs);
  }

  // ---------------------------------------------------------------------------------------------
  // One stream at a time
  // ---------------------------------------------------------------------------------------------

  function StreamOf(xs: seq<Sent>, kind: Kind): seq<Sent> {
    if xs == [] then [] else if KindOf(xs[0]) == kind then [xs[0]] + StreamOf(xs[1..], kind) else StreamOf(xs[1..], kind)
  }

  function EventsOfAll(xs: seq<Sent>): seq<Event>
    requires Readable(xs)
  {
    if xs == [] then [] else EventsOf(xs[0]).value + EventsOfAll(xs[1..])
  }

  function KindOfEvent(e: Event): Kind {
    e.kind
  }

  function EventsIn(es: seq<Event>, kind: Kind): seq<Event> {
    if es == [] then [] else if KindOfEvent(es[0]) == kind then [es[0]] + EventsIn(es[1..], kind) else EventsIn(es[1..], kind)
  }

  predicate Pure(es: seq<Event>, kind: Kind) {
    forall i :: 0 <= i < |es| ==> es[i].kind == kind
  }

  lemma {:induction false} EventsInAppend(a: seq<Event>, b: seq<Event>, kind: Kind)
    ensures EventsIn(a + b, kind) == EventsIn(a, kind) + EventsIn(b, kind)
    decreases |a|
  {
    if a == [] {
      assert a + b == b;
    } else {
      assert (a + b)[1..] == a[1..] + b;
      EventsInAppend(a[1..], b, kind);
    }
  }

  lemma {:induction false} EventsInPure(a: seq<Event>, of: Kind, kind: Kind)
    requires Pure(a, of)
    ensures EventsIn(a, kind) == if of == kind then a else []
    decreases |a|
  {
    if a != [] {
      EventsInPure(a[1..], of, kind);
    }
  }

  lemma {:induction false} NalEventsArePure(units: seq<seq<byte>>, header: seq<byte>, dts: nat, pts: nat)
    ensures Pure(NalEvents(units, header, dts, pts), Video)
    decreases |units|
  {
    if units != [] {
      NalEventsArePure(units[1..], header, dts, pts);
      NalEventsArePure(units[1..], header + (CODE + units[0]), dts, pts);
    }
  }

  lemma {:induction false} AudioEventsArePure(p: seq<byte>, pts: nat, i: nat)
    requires AudioEvents(p, pts, i).Some?
    ensures Pure(AudioEvents(p, pts, i).value, Audio)
    decreases |p|
  {
    if |p| >= 7 {
      var skip := if p[1] % 2 == 1 then 7 else 9;
      var len := FrameLength(p) - skip;
      if len <= |p| - skip {
        AudioEventsArePure(p[skip + len..], pts, i + 1);
      }
    }
  }

  lemma PesStreamId(x: Sent)
    ensures |Pes(x)| > 3 && Pes(x)[3] == if KindOf(x) == Video then 0xE0 else 0xC0
  {
    var h := PesHeader(x.frame.p);
    assert Pes(x)[..4] == h[..4];
    assert Pes(x)[3] == Pes(x)[..4][3] && h[3] == h[..4][3];
  }

  lemma EventsArePure(x: Sent)
    requires EventsOf(x).Some?
    ensures Pure(EventsOf(x).value, KindOf(x))
  {
    hide Pes, NalEvents, AudioEvents, ReadStamp;
    PesStreamId(x);
    PesEventsArePure(Pes(x), KindOf(x));
  }

  lemma PesEventsArePure(pes: seq<byte>, kind: Kind)
    requires |pes| > 3 && pes[3] == (if kind == Video then 0xE0 else 0xC0) && PesEvents(pes, Some(H264)).Some?
    ensures Pure(PesEvents(pes, Some(H264)).value, kind)
  {
    hide NalEvents, AudioEvents, ReadStamp;
    var at := if pes[7] / 64 == 3 then 19 else if pes[7] / 64 == 2 then 14 else 9;
    var body := pes[at..];
    var pts := if pes[7] / 64 >= 2 then ReadStamp(pes[9..14]) else 0;
    var dts := if pes[7] / 64 == 3 then ReadStamp(pes[14..19]) else pts;
    if kind == Audio {
      AudioEventsArePure(body, pts, 0);
    } else if Units(body).Some? {
      NalEventsArePure(Units(body).value, [], dts / 90, pts / 90);
    }
  }

  function AllButLast(xs: seq<Sent>): seq<Sent> {
    if xs == [] then [] else xs[..|xs| - 1]
  }

  function PendingFrame(latest: Latest, kind: Kind): seq<Sent> {
    if kind in latest then [latest[kind]] else []
  }

  /**
   Each stream's events are those of all its frames but the last, in order, however the frames of the other stream
   are mixed in.
   */
  lemma {:induction false} StreamsDoNotMix(latest: Latest, xs: seq<Sent>, kind: Kind)
    requires Readable(xs) && forall k: Kind :: k in latest ==> EventsOf(latest[k]).Some? && KindOf(latest[k]) == k
    ensures Readable(AllButLast(PendingFrame(latest, kind) + StreamOf(xs, kind)))
    ensures EventsIn(Seen(latest, xs), kind) == EventsOfAll(AllButLast(PendingFrame(latest, kind) + StreamOf(xs, kind)))
    decreases |xs|
  {
    hide EventsOf;
    if xs == [] {
      assert AllButLast(PendingFrame(latest, kind) + []) == [];
    } else {
      var x, next := xs[0], latest[KindOf(xs[0]) := xs[0]];
      StreamsDoNotMix(next, xs[1..], kind);
      EventsInAppend(EventsOfPending(latest, KindOf(x)), Seen(next, xs[1..]), kind);
      if KindOf(x) in latest {
        EventsArePure(latest[KindOf(x)]);
      }
      EventsInPure(EventsOfPending(latest, KindOf(x)), KindOf(x), kind);
      var s := StreamOf(xs[1..], kind);
      if KindOf(x) == kind {
        OneFurther(PendingFrame(latest, kind), x, s);
        OneEvents(latest, kind);
      } else {
        assert PendingFrame(next, kind) == PendingFrame(latest, kind);
        assert [] + EventsIn(Seen(next, xs[1..]), kind) == EventsIn(Seen(next, xs[1..]), kind);
      }
    }
  }

  lemma OneEvents(latest: Latest, kind: Kind)
    requires kind in latest ==> EventsOf(latest[kind]).Some?
    ensures Readable(PendingFrame(latest, kind)) && EventsOfAll(PendingFrame(latest, kind)) == EventsOfPending(latest, kind)
  {
    hide EventsOf;
    if kind in latest {
      assert PendingFrame(latest, kind)[1..] == [];
      assert EventsOf(latest[kind]).value + [] == EventsOf(latest[kind]).value;
    }
  }

  lemma {:induction false} OneFurther(pending: seq<Sent>, x: Sent, s: seq<Sent>)
    requires Readable(pending) && Readable(AllButLast([x] + s)) && |pending| <= 1
    ensures Readable(AllButLast(pending + ([x] + s)))
    ensures EventsOfAll(AllButLast(pending + ([x] + s))) == EventsOfAll(pending) + EventsOfAll(AllButLast([x] + s))
  {
    hide EventsOf;
    var t := AllButLast([x] + s);
    assert AllButLast(pending + ([x] + s)) == pending + t;
    if pending == [] {
      assert pending + t == t && [] + EventsOfAll(t) == EventsOfAll(t);
    } else {
      assert (pending + t)[1..] == t && pending[1..] == [];
      assert EventsOf(pending[0]).value + [] == EventsOf(pending[0]).value;
    }
  }
}
