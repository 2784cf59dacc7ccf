/**
 The muxer's packets against the layout of ISO/IEC 13818-1 (sections 2.4.3.2 and 2.4.3.7) and ISO/IEC 13818-7: every field
 at its place, also those that the reader of this server passes over.
 */
module TsLayout {
  import opened Bytes
  import opened Media
  import opened TsPackets
  import opened TsReader
  import opened TsRoundTrip
  import opened TsTables
  import F = TsForeign

  // ---------------------------------------------------------------------------------------------
  // Packet headers
  // ---------------------------------------------------------------------------------------------

  /** No error, no priority, not scrambled; whether there is an adaptation field and contents; the counter. */
  predicate HeaderIs(s: seq<byte>, start: bool, pid: nat, adaptation: bool, counter: nat)
    requires |s| == PACKET_SIZE
  {
    && s[0] == 0x47 && s[1] / 128 == 0 && StartIn(s) == start && s[1] / 32 % 2 == 0 && PidIn(s) == pid
    && s[3] / 64 == 0 && (s[3] / 32 % 2 == 1 <==> adaptation) && s[3] / 16 % 2 == 1 && s[3] % 16 == counter
  }

  lemma HeaderSays(k: Packet)
    requires Whole(k)
    ensures HeaderIs(PacketBytes(k), k.start, k.pid, k.adaptation != [], k.counter)
  {
    hide BigEndian, Value, PidIn, StartIn;
    HeaderReads(k);
    var v := (if k.start then 0x4000 else 0) + k.pid;
    var s, h := PacketBytes(k), HeaderOf(k);
    TwoBytes(v);
    assert s[1] == h[1] == BigEndian(2, v)[0] && s[3] == h[3];
    HighByte(k.start, k.pid);
    LowByte(Control(k), k.counter);
  }

  lemma HighByte(start: bool, pid: nat)
    requires pid < 0x2000
    ensures var b := ((if start then 0x4000 else 0) + pid) / 256; b / 128 == 0 && b / 32 % 2 == 0
  {
  }

  lemma LowByte(control: nat, counter: nat)
    requires counter < 16 && (control == 1 || control == 3)
    ensures var b := 16 * control + counter; b / 64 == 0 && b / 16 % 2 == 1 && b % 16 == counter
  {
  }

  /** The packets of a frame as bytes: one PID, the start indicator on the first one, and counters that go on from one to the next. */
  lemma {:induction false} PacketsAreLaidOut(x: Sent, counter: nat, i: nat)
    requires i < |Packets(x, counter)|
    ensures var k := Packets(x, counter)[i];
            Whole(k) && HeaderIs(PacketBytes(k), i == 0, PidOf(KindOf(x)), k.adaptation != [], (counter + i) % 16)
  {
    hide PacketBytes, HeaderIs, NextPackets;
    PacketsAreWhole(x.frame, Raw(x.frame.p) + x.tail, counter);
    PacketsAreCounted(x.frame, Raw(x.frame.p) + x.tail, counter);
    HeaderSays(Packets(x, counter)[i]);
    if i > 0 {
      NextContinue(KindOf(x), Raw(x.frame.p) + x.tail, |Raw(x.frame.p)|, FirstCount(x.frame), counter + 1);
    }
  }

  // ---------------------------------------------------------------------------------------------
  // Elementary stream packets
  // ---------------------------------------------------------------------------------------------

  /** The muxer's time stamps are laid out, always behind the tag of a presentation time that stands alone. */
  lemma StampIsLaidOut(t: nat)
    ensures Stamp(t) == F.StampBytes(2, t % 0x2_0000_0000)
  {
    var u := t % 0x2_0000_0000;
    var a, b := t / 0x8000 % 0x8000, t % 0x8000;
    Quotients(t);
    TwoBytesOf(2 * a + 1);
    TwoBytesOf(2 * b + 1);
    Fields(t);
    Fields(u);
    assert Stamp(t) == [0x21 + 2 * (t / 0x4000_0000 % 8)] + BigEndian(2, 2 * a + 1) + BigEndian(2, 2 * b + 1);
  }

  lemma TwoBytesOf(v: nat)
    requires v < 0x1_0000
    ensures BigEndian(2, v) == [v / 256, v % 256]
  {
    assert BigEndian(2, v) == BigEndian(1, v / 256) + [v % 256];
    assert BigEndian(1, v / 256) == BigEndian(0, v / 256 / 256) + [v / 256 % 256];
  }

  lemma Quotients(t: nat)
    ensures var u := t % 0x2_0000_0000;
            u / 0x4000_0000 == t / 0x4000_0000 % 8 && u / 0x8000 % 0x8000 == t / 0x8000 % 0x8000 && u % 0x8000 == t % 0x8000
  {
    var u := t % 0x2_0000_0000;
    assert t == t / 0x2_0000_0000 * 0x2_0000_0000 + u;
    assert t / 0x4000_0000 == t / 0x2_0000_0000 * 8 + u / 0x4000_0000;
    assert t / 0x8000 == t / 0x2_0000_0000 * 8 * 0x8000 + u / 0x8000;
  }

  lemma Fields(t: nat)
    ensures var a, b := t / 0x8000 % 0x8000, t % 0x8000;
            && (2 * a + 1) / 256 == t / 0x40_0000 % 0x100 && (2 * a + 1) % 256 == t / 0x8000 % 0x80 * 2 + 1
            && (2 * b + 1) / 256 == t / 0x80 % 0x100 && (2 * b + 1) % 256 == t % 0x80 * 2 + 1
  {
    F.HighHalf(t);
    var x, y := t / 0x8000 % 0x80, t % 0x80;
    var p, q := t / 0x40_0000 % 0x100, t / 0x80 % 0x100;
    assert 2 * (p * 0x80 + x) + 1 == p * 256 + (2 * x + 1) && 2 * (q * 0x80 + y) + 1 == q * 256 + (2 * y + 1);
  }

  /** The ticks that a time in milliseconds has on the 33-bit clock. */
  function Ticks(ms: nat): (t: nat)
    ensures t < 0x2_0000_0000
  {
    ms * 90 % 0x2_0000_0000
  }

  function AudioHead(p: Payload): F.Head {
    var n := (|Raw(p)| + 15) % 0x1_0000;
    F.Head(0xC0, n / 256, n % 256, 0x80, F.PtsOnly(Ticks(p.pts)), 0)
  }

  function VideoHead(p: Payload): F.Head {
    F.Head(0xE0, 0, 0, 0x80, F.Both(Ticks(p.pts), Ticks(p.dts)), 0)
  }

  function BodyOf(x: Sent): seq<byte> {
    Lead(x.frame) + Raw(x.frame.p) + Surplus(x)
  }

  lemma NoStuffing(s: seq<byte>)
    ensures s + Stuffing(0) == s
  {
  }

  lemma Regroup(a: seq<byte>, b: seq<byte>, c: seq<byte>, d: seq<byte>)
    ensures a + b + c + d == a + (b + c + d)
  {
  }

  /** The unit of an audio frame is laid out, field by field. */
  lemma AudioIsLaidOut(x: Sent)
    requires KindOf(x) == Audio
    ensures F.Proper(AudioHead(x.frame.p)) && Pes(x) == F.Unit(AudioHead(x.frame.p), BodyOf(x))
  {
    hide Stamp, F.StampBytes, Lead, Surplus, Raw;
    var p := x.frame.p;
    var n := (|Raw(p)| + 15) % 0x1_0000;
    StampIsLaidOut(p.pts * 90);
    LowTwoBytes(|Raw(p)| + 15);
    var head := [0, 0, 1, 0xC0, n / 256, n % 256, 0x80, 0x80, 5] + Stamp(p.pts * 90);
    assert PesHeader(p) == head;
    Regroup(head, Lead(x.frame), Raw(p), Surplus(x));
    NoStuffing(head);
  }

  lemma LowTwoBytes(v: nat)
    ensures BigEndian(2, v) == [v % 0x1_0000 / 256, v % 0x1_0000 % 256]
  {
    var q, n := v / 0x1_0000, v % 0x1_0000;
    ModUnique(v / 256, 256, q, n / 256);
    ModUnique(v, 256, 256 * q + n / 256, n % 256);
    assert BigEndian(2, v) == BigEndian(1, v / 256) + [v % 256];
    assert BigEndian(1, v / 256) == BigEndian(0, v / 256 / 256) + [v / 256 % 256];
  }

  /** The tags that two time stamps should have: 3 on the first and 1 on the second one. */
  function Retagged(s: seq<byte>): seq<byte>
    requires |s| > 14 && s[9] / 16 == s[14] / 16 == 2
  {
    s[9 := s[9] + 16][14 := s[14] - 16]
  }

  lemma StampTags(t: nat)
    requires t < 0x2_0000_0000
    ensures var s := F.StampBytes(2, t);
            && s[0] / 16 == 2 && F.StampBytes(3, t) == s[0 := s[0] + 16] && F.StampBytes(1, t) == s[0 := s[0] - 16]
  {
    assert t / 0x4000_0000 < 8;
  }

  /** So is that of a video frame, but for the tags of its time stamps: both say that the stamp stands alone. */
  lemma VideoIsLaidOut(x: Sent)
    requires KindOf(x) == Video
    ensures F.Proper(VideoHead(x.frame.p)) && |Pes(x)| > 19 && Pes(x)[9] / 16 == Pes(x)[14] / 16 == 2
    ensures Retagged(Pes(x)) == F.Unit(VideoHead(x.frame.p), BodyOf(x)) != Pes(x)
  {
    hide Stamp, F.StampBytes, Lead, Surplus, Raw;
    var p := x.frame.p;
    var a, b := Stamp(p.pts * 90), Stamp(p.dts * 90);
    StampIsLaidOut(p.pts * 90);
    StampIsLaidOut(p.dts * 90);
    StampTags(Ticks(p.pts));
    StampTags(Ticks(p.dts));
    var front: seq<byte> := [0, 0, 1, 0xE0, 0, 0, 0x80, 0xC0, 10];
    var a', b' := a[0 := a[0] + 16], b[0 := b[0] - 16];
    Regroup(front + a + b, Lead(x.frame), Raw(p), Surplus(x));
    RetagParts(front, a, b, BodyOf(x));
    NoStuffing(front + (a' + b'));
    assert front + (a' + b') == front + a' + b';
  }

  lemma RetagParts(front: seq<byte>, a: seq<byte>, b: seq<byte>, body: seq<byte>)
    requires |front| == 9 && |a| == |b| == 5 && a[0] / 16 == b[0] / 16 == 2
    ensures var s := front + a + b + body;
            && |s| > 14 && s[9] == a[0] && s[14] == b[0]
            && Retagged(s) == front + a[0 := a[0] + 16] + b[0 := b[0] - 16] + body
  {
    var s := front + a + b + body;
    assert s[9] == a[0] && s[14] == b[0];
  }

  /** The packet length of an audio unit counts what is behind it, without the surplus, exactly when there is an ADTS header. */
  lemma LengthCountsIff(x: Sent)
    requires KindOf(x) == Audio && |Raw(x.frame.p)| + 15 < 0x1_0000
    ensures |Pes(x)| >= 6
    ensures 6 + Value(Pes(x)[4..6]) == |Pes(x)| - |Surplus(x)| <==> x.frame.config.adts.Some?
  {
    hide Value, BigEndian, Stamp, Surplus, Adts;
    var n := |Raw(x.frame.p)| + 15;
    var s := PesHeader(x.frame.p);
    assert Pes(x)[4..6] == s[4..6] == BigEndian(2, n);
    Ranges();
    FieldRoundTrip(2, n);
  }

  // ---------------------------------------------------------------------------------------------
  // What goes before a frame
  // ---------------------------------------------------------------------------------------------

  /** The ADTS frame that two bytes of AAC configuration and an audio frame make. */
  function AacOf(h: seq<byte>, raw: seq<byte>): F.Aac
    requires |h| >= 2
  {
    F.Aac((h[0] as nat / 8 + 3) % 4, h[0] as nat % 8 * 2 + h[1] as nat / 128, h[1] as nat / 8 % 16 % 8, None, raw)
  }

  /** The ADTS header in front of an audio frame is laid out. */
  lemma AdtsIsLaidOut(x: Sent, h: seq<byte>)
    requires KindOf(x) == Audio && |h| >= 2 && x.frame.config.adts == Some(AdtsOf(h))
    ensures F.Expressible(AacOf(h, Raw(x.frame.p))) && Lead(x.frame) == F.AdtsBytes(AacOf(h, Raw(x.frame.p)))
  {
    hide Raw;
    var raw := Raw(x.frame.p);
    var c, n := h[1] as nat / 8 % 16, |raw| + 7;
    assert n < 0x2000;
    LowChannels(c);
    assert (n / 0x800) + c % 4 * 64 == c % 8 % 4 * 64 + n / 0x800;
  }

  lemma LowChannels(c: nat)
    requires c < 16
    ensures c / 4 % 2 == c % 8 / 4 && c % 4 == c % 8 % 4 && (c % 4 * 64) / 4 * 4 == c % 4 * 64
  {
  }

  /** A video unit begins with an access unit delimiter, NAL unit type 9, and in front of a key frame come its parameter sets. */
  lemma DelimiterComesFirst(x: Sent)
    requires KindOf(x) == Video
    ensures var s, f := Lead(x.frame), x.frame;
            && |s| >= 6 && s[..4] == [0, 0, 0, 1] && s[4] % 32 == 9
            && s[6..] == if f.p.iFrame then [0, 0, 0, 1] + f.config.sps + [0, 0, 0, 1] + f.config.pps + [0, 0, 0, 1]
                         else [0, 0, 0, 1]
  {
    assert DELIMITER[4] == 9;
  }
}
