/**
 The transport stream packets of the HLS muxer (ISO/IEC 13818-1, sections 2.4.3.2 to 2.4.3.7): how a frame is cut
 into packets of 188 bytes, and what the cutting keeps.
 */
module TsPackets {
  import opened Bytes
  import opened Media
  import Crc

  const VIDEO_PID := 0x100
  const AUDIO_PID := 0x101
  const PMT_PID := 0xABC

  const START_CODE: seq<byte> := [0, 0, 0, 1]

  /** What the muxer knows from the stream's headers when it packs a frame. */
  datatype Config = Config(sps: seq<byte>, pps: seq<byte>, adts: Option<seq<byte>>)

  predicate Proper(c: Config) {
    c.adts.Some? ==> |c.adts.value| == 7
  }

  datatype Frame = Frame(p: Payload, config: Config)

  function PidOf(kind: Kind): nat {
    if kind == Video then VIDEO_PID else AUDIO_PID
  }

  /** Everything behind the four header bytes is the adaptation field and then the contents. */
  datatype Packet = Packet(start: bool, pid: nat, counter: nat, adaptation: seq<byte>, contents: seq<byte>)

  predicate Whole(k: Packet) {
    k.pid < 0x2000 && k.counter < 16 && 4 + |k.adaptation| + |k.contents| == 188
  }

  function Control(k: Packet): nat {
    if k.adaptation == [] then 1 else 3
  }

  function HeaderOf(k: Packet): seq<byte>
    requires Whole(k)
  {
    [0x47] + BigEndian(2, (if k.start then 0x4000 else 0) + k.pid) + [16 * Control(k) + k.counter]
  }

  function PacketBytes(k: Packet): (s: seq<byte>)
    requires Whole(k)
    ensures |s| == 188
  {
    HeaderOf(k) + k.adaptation + k.contents
  }

  /** How many packets of each PID there have been; the low four bits go into the next one. */
  datatype Counters = Counters(pat: nat, pmt: nat, video: nat, audio: nat)

  function Count(c: Counters, kind: Kind): nat {
    if kind == Video then c.video else c.audio
  }

  function CountOn(c: Counters, kind: Kind, n: nat): Counters {
    if kind == Video then c.(video := c.video + n) else c.(audio := c.audio + n)
  }

  // ---------------------------------------------------------------------------------------------
  // Program tables
  // ---------------------------------------------------------------------------------------------

  /** One program, whose map has PID 0xABC. */
  const PAT_SECTION: seq<byte> := [0, 0xB0, 0x0D, 0, 1, 0xC1, 0, 0, 0, 1, 0xEA, 0xBC]

  /** H.264 video on PID 0x100, which also carries the clock, and AAC audio on PID 0x101. */
  const PMT_SECTION: seq<byte> :=
    [2, 0xB0, 0x17, 0, 1, 0xC1, 0, 0, 0xE1, 0x00, 0xF0, 0, 0x1B, 0xE1, 0x00, 0xF0, 0, 0x0F, 0xE1, 0x01, 0xF0, 0]

  /** A table section behind a pointer byte, with its checksum, filled up to the size of a packet. */
  function TableContents(section: seq<byte>): (s: seq<byte>)
    requires |section| <= 179
    ensures |s| == 184
  {
    [0] + section + Crc.Appended(Crc.Checksum(Crc.Hls, section)) + Stuffing(179 - |section|)
  }

  function PatPacket(counter: nat): Packet {
    Packet(true, 0, counter % 16, [], TableContents(PAT_SECTION))
  }

  function PmtPacket(counter: nat): Packet {
    Packet(true, PMT_PID, counter % 16, [], TableContents(PMT_SECTION))
  }

  // ---------------------------------------------------------------------------------------------
  // The head of a packetized elementary stream packet
  // ---------------------------------------------------------------------------------------------

  /** A 33-bit time stamp with its marker bits. */
  function Stamp(t: nat): (s: seq<byte>)
    ensures |s| == 5
  {
    [0x21 + 2 * (t / 0x4000_0000 % 8)] + BigEndian(2, 2 * (t / 0x8000 % 0x8000) + 1) + BigEndian(2, 2 * (t % 0x8000) + 1)
  }

  function PesHeader(p: Payload): (s: seq<byte>)
    ensures |s| == if p.kind == Video then 19 else 14
  {
    if p.kind == Video then [0, 0, 1, 0xE0, 0, 0, 0x80, 0xC0, 10] + Stamp(p.pts * 90) + Stamp(p.dts * 90)
    else [0, 0, 1, 0xC0] + BigEndian(2, |Raw(p)| + 3 + 5 + 7) + [0x80, 0x80, 5] + Stamp(p.pts * 90)
  }

  /** The ADTS header with the length of this frame in its 13-bit field. */
  function Adts(a: seq<byte>, len: nat): (s: seq<byte>)
    requires |a| == 7 && len < 0x2000
    ensures |s| == 7
  {
    [a[0], a[1], a[2], a[3] / 4 * 4 + len / 0x800, len / 8 % 0x100, a[5] % 32 + len % 8 * 32, a[6]]
  }

  /** The ADTS header that the two bytes of AAC configuration give rise to, its length field not yet set. */
  function AdtsOf(h: seq<byte>): (s: seq<byte>)
    requires |h| >= 2
    ensures |s| == 7
  {
    var objectType, rate, channels := h[0] / 8, h[0] % 8 * 2 + h[1] / 128, h[1] / 8 % 16;
    [0xFF, 0xF1, (objectType + 3) % 4 * 64 + rate * 4 + channels / 4 % 2, channels % 4 * 64, 0, 0x1F, 0xFC]
  }

  const DELIMITER: seq<byte> := [0, 0, 0, 1, 0x09, 0x10]

  /** The start codes and parameter sets in front of a video frame. */
  function Prefix(f: Frame): seq<byte> {
    if f.p.iFrame then START_CODE + f.config.sps + START_CODE + f.config.pps + START_CODE else START_CODE
  }

  /** What stands between the header of the packet and the bytes of the frame. */
  function Lead(f: Frame): seq<byte>
    requires Packable(f)
  {
    if f.p.kind == Video then DELIMITER + Prefix(f)
    else if f.config.adts == None then []
    else Adts(f.config.adts.value, |Raw(f.p)| + 7)
  }

  /**
   The length bounds that the packing asserts, for a frame that is not empty: the parameter sets leave room in the
   first packet and are shorter than the frame; an audio frame fits the 13-bit length field of ADTS.
   */
  predicate Packable(f: Frame) {
    && Proper(f.config)
    && if f.p.kind == Video then |Prefix(f)| < 151 && |Prefix(f)| < |Raw(f.p)|
       else 0 < |Raw(f.p)| && (f.config.adts.Some? ==> |Raw(f.p)| + 7 < 0x2000)
  }

  // ---------------------------------------------------------------------------------------------
  // Cutting
  // ---------------------------------------------------------------------------------------------

  function Stuffing(n: nat): (s: seq<byte>)
    ensures |s| == n && forall i :: 0 <= i < n ==> s[i] == 0xFF
  {
    seq(n, i => 0xFF)
  }

  function AdaptationSize(kind: Kind): nat {
    if kind == Video then 8 else 2
  }

  /** The program clock reference, from the decoding time in whole seconds. */
  function Pcr(dts: nat): (s: seq<byte>)
    ensures |s| == 6
  {
    var clock := 27000000 * (dts / 1000);
    BigEndian(6, clock / 300 % 0x2_0000_0000 * 0x8000 + clock % 300)
  }

  /** How many stuffing bytes the first packet of a short frame of `n` bytes takes. */
  function FirstStuffing(kind: Kind, n: nat): nat {
    var total := n + if kind == Video then 4 + 8 + 19 + 6 else 4 + 2 + 14 + 7;
    if total < 188 then 188 - total else 0
  }

  function FirstAdaptation(p: Payload): (s: seq<byte>)
    ensures |s| < 188
  {
    var stuffing := FirstStuffing(p.kind, |Raw(p)|);
    if p.kind == Video then [7 + stuffing, 0x10] + Pcr(p.dts) + Stuffing(stuffing)
    else if stuffing > 0 then [1 + stuffing, 0] + Stuffing(stuffing)
    else []
  }

  /** A later packet with `left` bytes of the frame to go. */
  function NextAdaptation(kind: Kind, left: nat): (s: seq<byte>)
    requires left > 0
    ensures |s| < 184
  {
    var total := left + 4 + AdaptationSize(kind);
    if total < 188 then [1 + (188 - total), 0] + Stuffing(188 - total) else []
  }

  /** How much of the frame the first packet takes. */
  function FirstCount(f: Frame): (n: int)
    requires Packable(f)
  {
    184 - |FirstAdaptation(f.p)| - |PesHeader(f.p)| - |Lead(f)|
  }

  function NextCount(kind: Kind, left: nat): (n: nat)
    requires left > 0
    ensures n > 0
  {
    184 - |NextAdaptation(kind, left)|
  }

  /** How far the later packets of a frame may read past its end. */
  function NextSurplus(kind: Kind): nat {
    if kind == Video then 8 else 2
  }

  /** How far the packets of a frame may read past its end; without an ADTS header its place is filled up as well. */
  function MaxSurplus(f: Frame): nat {
    if f.p.kind == Audio && f.config.adts == None then 9 else NextSurplus(f.p.kind)
  }

  const SLACK := 9

  /**
   The packets for the bytes of a frame from `i` on. `data` is the frame's `n` bytes and what follows them in memory:
   the last packet is filled up from there.
   */
  function NextPackets(kind: Kind, data: seq<byte>, n: nat, i: nat, counter: nat): seq<Packet>
    requires n + SLACK <= |data|
    decreases if i < n then n - i else 0
  {
    if i >= n then []
    else
      var count := NextCount(kind, n - i);
      NextCountBound(kind, n - i);
      [Packet(false, PidOf(kind), counter % 16, NextAdaptation(kind, n - i), data[i..i + count])]
      + NextPackets(kind, data, n, i + count, counter + 1)
  }

  lemma NextCountBound(kind: Kind, left: nat)
    requires left > 0
    ensures NextCount(kind, left) <= left + NextSurplus(kind)
  {
  }

  lemma FirstCountBound(f: Frame)
    requires Packable(f)
    ensures 0 < FirstCount(f) <= |Raw(f.p)| + MaxSurplus(f)
  {
  }

  function FirstPacket(f: Frame, data: seq<byte>, counter: nat): Packet
    requires Packable(f) && |Raw(f.p)| + SLACK <= |data|
  {
    FirstCountBound(f);
    Packet(true, PidOf(f.p.kind), counter % 16, FirstAdaptation(f.p), PesHeader(f.p) + Lead(f) + data[..FirstCount(f)])
  }

  /** All packets of a frame. */
  function FramePackets(f: Frame, data: seq<byte>, counter: nat): seq<Packet>
    requires Packable(f) && |Raw(f.p)| + SLACK <= |data|
  {
    FirstCountBound(f);
    [FirstPacket(f, data, counter)] + NextPackets(f.p.kind, data, |Raw(f.p)|, FirstCount(f), counter + 1)
  }

  // ---------------------------------------------------------------------------------------------
  // What the cutting keeps
  // ---------------------------------------------------------------------------------------------

  predicate AllWhole(ks: seq<Packet>) {
    forall i :: 0 <= i < |ks| ==> Whole(ks[i])
  }

  lemma {:induction false} NextAreWhole(kind: Kind, data: seq<byte>, n: nat, i: nat, counter: nat)
    requires n + SLACK <= |data|
    ensures AllWhole(NextPackets(kind, data, n, i, counter))
    decreases if i < n then n - i else 0
  {
    if i < n {
      NextCountBound(kind, n - i);
      NextAreWhole(kind, data, n, i + NextCount(kind, n - i), counter + 1);
    }
  }

  /** Every packet is exactly 188 bytes long. */
  lemma {:induction false} PacketsAreWhole(f: Frame, data: seq<byte>, counter: nat)
    requires Packable(f) && |Raw(f.p)| + SLACK <= |data|
    ensures AllWhole(FramePackets(f, data, counter))
  {
    FirstCountBound(f);
    NextAreWhole(f.p.kind, data, |Raw(f.p)|, FirstCount(f), counter + 1);
  }

  function Contents(ks: seq<Packet>): seq<byte> {
    if ks == [] then [] else ks[0].contents + Contents(ks[1..])
  }

  /** The end of what the packets copy: the end of the frame, or a few bytes past it. */
  function End(kind: Kind, n: nat, i: nat): (e: nat)
    decreases if i < n then n - i else 0
  {
    if i >= n then i else End(kind, n, i + NextCount(kind, n - i))
  }

  lemma {:induction false} EndBound(kind: Kind, n: nat, i: nat, surplus: nat)
    requires i <= n + surplus && NextSurplus(kind) <= surplus
    ensures n <= End(kind, n, i) <= n + surplus && i <= End(kind, n, i)
    decreases if i < n then n - i else 0
  {
    if i < n {
      NextCountBound(kind, n - i);
      EndBound(kind, n, i + NextCount(kind, n - i), surplus);
    }
  }

  lemma {:induction false} NextContents(kind: Kind, data: seq<byte>, n: nat, i: nat, counter: nat)
    requires n + SLACK <= |data| && i <= n + SLACK
    ensures i <= End(kind, n, i) <= |data|
    ensures Contents(NextPackets(kind, data, n, i, counter)) == data[i..End(kind, n, i)]
    decreases if i < n then n - i else 0
  {
    EndBound(kind, n, i, SLACK);
    if i < n {
      var next := i + NextCount(kind, n - i);
      NextCountBound(kind, n - i);
      EndBound(kind, n, next, SLACK);
      NextContents(kind, data, n, next, counter + 1);
      var ks := NextPackets(kind, data, n, i, counter);
      assert ks[1..] == NextPackets(kind, data, n, next, counter + 1);
      assert data[i..next] + data[next..End(kind, n, i)] == data[i..End(kind, n, i)];
    }
  }

  function FrameEnd(f: Frame): nat
    requires Packable(f)
  {
    FirstCountBound(f);
    End(f.p.kind, |Raw(f.p)|, FirstCount(f))
  }

  // ---------------------------------------------------------------------------------------------
  // How much is copied from behind the frame
  // ---------------------------------------------------------------------------------------------

  /** The surplus of the last packet when `r` bytes modulo 184 are left for the later packets of a frame. */
  function Rest(kind: Kind, r: nat): nat
    requires r < 184
  {
    if kind == Video then if r == 0 then 0 else if r < 176 then 6 else 184 - r
    else if r < 182 then 0 else 184 - r
  }

  /** One later packet: it takes 184 bytes, or it is the last one. */
  lemma NextTakes(kind: Kind, left: nat)
    requires left > 0
    ensures left > 184 ==> NextCount(kind, left) == 184
    ensures left <= 184 ==> NextCount(kind, left) == left + Rest(kind, left % 184)
  {
  }

  lemma {:induction false} EndIs(kind: Kind, n: nat, i: nat)
    requires i <= n
    ensures End(kind, n, i) == n + Rest(kind, (n - i) % 184)
    decreases n - i
  {
    hide NextCount;
    if i < n {
      NextTakes(kind, n - i);
      if n - i > 184 {
        EndIs(kind, n, i + 184);
        assert (n - i) % 184 == (n - (i + 184)) % 184;
      }
    }
  }

  /** How many bytes the packets of a frame copy from behind it. */
  function Copied(f: Frame): nat
    requires Packable(f)
  {
    var n := |Raw(f.p)|;
    if f.p.kind == Video then if n < 151 then 6 else Rest(Video, (n + |Prefix(f)| - 151) % 184)
    else if f.config.adts.Some? then if n < 161 then 0 else if n < 163 then 163 - n else Rest(Audio, (n - 163) % 184)
    else if n < 161 then 7 else if n < 170 then 170 - n else Rest(Audio, (n - 170) % 184)
  }

  /** What the first packet takes. */
  lemma FirstTakes(f: Frame)
    requires Packable(f)
    ensures var n := |Raw(f.p)|;
            FirstCount(f) == if f.p.kind == Video then (if n < 151 then n else 151) - |Prefix(f)|
                             else if f.config.adts.Some? then (if n < 161 then n else 163)
                             else if n < 161 then n + 7 else 170
  {
    hide Adts, Prefix;
  }

  lemma FrameEndIs(f: Frame)
    requires Packable(f)
    ensures FrameEnd(f) == |Raw(f.p)| + Copied(f)
  {
    hide FirstCount, Prefix, Rest, NextCount;
    FirstTakes(f);
    FirstCountBound(f);
    var kind, n, i := f.p.kind, |Raw(f.p)|, FirstCount(f);
    PrefixIsThere(f);
    if i <= n {
      EndIs(kind, n, i);
    }
    SmallRests(kind, |Prefix(f)|);
  }

  lemma PrefixIsThere(f: Frame)
    ensures |Prefix(f)| >= 4
  {
  }

  lemma SmallRests(kind: Kind, prefix: nat)
    ensures 0 < prefix < 151 ==> Rest(Video, prefix % 184) == 6
    ensures Rest(kind, 0) == 0
  {
  }

  /**
   The frame lengths for which nothing is copied: a video frame, with what goes before it, fills its last packet; an
   audio frame does anything but leave one or two bytes of a packet free.
   */
  predicate FillsPackets(f: Frame) {
    var n := |Raw(f.p)|;
    if f.p.kind == Video then n >= 151 && (n + |Prefix(f)|) % 184 == 151
    else if f.config.adts.Some? then n % 184 != 161 && n % 184 != 162
    else n >= 170 && n % 184 != 168 && n % 184 != 169
  }

  lemma VideoRemainder(n: nat)
    requires n >= 151
    ensures (n - 151) % 184 == 0 <==> n % 184 == 151
  {
  }

  lemma AudioRemainder(n: nat, first: nat)
    requires n >= first && (first == 163 || first == 170)
    ensures (n - first) % 184 < 182 <==> n % 184 != first - 2 && n % 184 != first - 1
  {
    var q, r := (n - first) / 184, (n - first) % 184;
    assert n == 184 * q + (r + first);
    if r + first < 184 {
      assert n % 184 == r + first;
    } else {
      assert n == 184 * (q + 1) + (r + first - 184);
      assert n % 184 == r + first - 184;
    }
  }

  /** Nothing is copied from behind the frame exactly for these lengths. */
  lemma NothingCopiedIff(f: Frame)
    requires Packable(f)
    ensures FrameEnd(f) == |Raw(f.p)| <==> FillsPackets(f)
  {
    hide Prefix, Adts, FrameEnd;
    FrameEndIs(f);
    PrefixIsThere(f);
    var n := |Raw(f.p)|;
    if f.p.kind == Video {
      if n >= 151 {
        VideoRemainder(n + |Prefix(f)|);
      }
    } else if f.config.adts.Some? {
      if n >= 163 {
        AudioRemainder(n, 163);
      }
    } else if n >= 170 {
      AudioRemainder(n, 170);
    }
  }

  /** A frame that is not a key frame: it has to be at least 331 bytes long, and 147 modulo 184. */
  lemma PlainFrameFillsIff(f: Frame)
    requires f.p.kind == Video && !f.p.iFrame
    ensures FillsPackets(f) <==> |Raw(f.p)| >= 151 && |Raw(f.p)| % 184 == 147
  {
    var n := |Raw(f.p)|;
    assert |Prefix(f)| == 4;
    assert (n + 4) % 184 == 151 <==> n % 184 == 147;
  }

  // ---------------------------------------------------------------------------------------------
  // What the packets carry
  // ---------------------------------------------------------------------------------------------

  /**
   The contents of the packets are one header, one lead, and the frame once and in order, followed by the surplus bytes:
   at most eight for video and two for audio (nine for audio that has no ADTS header yet).
   */
  lemma {:induction false} PacketsCarryTheFrame(f: Frame, tail: seq<byte>, counter: nat)
    requires Packable(f) && |tail| >= SLACK
    ensures FrameEnd(f) == |Raw(f.p)| + Copied(f) <= |Raw(f.p)| + MaxSurplus(f)
    ensures Contents(FramePackets(f, Raw(f.p) + tail, counter))
            == PesHeader(f.p) + Lead(f) + Raw(f.p) + tail[..FrameEnd(f) - |Raw(f.p)|]
  {
    hide Copied;
    var data, n, i := Raw(f.p) + tail, |Raw(f.p)|, FirstCount(f);
    FirstCountBound(f);
    EndBound(f.p.kind, n, i, MaxSurplus(f));
    FrameEndIs(f);
    NextContents(f.p.kind, data, n, i, counter + 1);
    var ks := FramePackets(f, data, counter);
    assert ks[1..] == NextPackets(f.p.kind, data, n, i, counter + 1);
    SplitAndJoin(PesHeader(f.p) + Lead(f), Raw(f.p), tail, i, FrameEnd(f));
  }

  lemma SplitAndJoin(head: seq<byte>, raw: seq<byte>, tail: seq<byte>, i: nat, end: nat)
    requires i <= end && |raw| <= end <= |raw| + |tail|
    ensures var data := raw + tail;
            head + data[..i] + data[i..end] == head + raw + tail[..end - |raw|]
  {
    var data := raw + tail;
    assert data[..i] + data[i..end] == data[..end];
    assert data[..end] == raw + tail[..end - |raw|];
    assert head + data[..i] + data[i..end] == head + (data[..i] + data[i..end]);
    assert head + (raw + tail[..end - |raw|]) == head + raw + tail[..end - |raw|];
  }

  /** The packets are of one stream and count on from `counter`. */
  predicate Counted(ks: seq<Packet>, pid: nat, counter: nat) {
    forall i :: 0 <= i < |ks| ==> ks[i].pid == pid && ks[i].counter == (counter + i) % 16
  }

  lemma CountedCons(k: Packet, ks: seq<Packet>, pid: nat, counter: nat)
    requires k.pid == pid && k.counter == counter % 16 && Counted(ks, pid, counter + 1)
    ensures Counted([k] + ks, pid, counter)
  {
    forall i | 0 <= i < |[k] + ks|
      ensures ([k] + ks)[i].pid == pid && ([k] + ks)[i].counter == (counter + i) % 16
    {
      assert i > 0 ==> ([k] + ks)[i] == ks[i - 1];
    }
  }

  lemma {:induction false} NextAreCounted(kind: Kind, data: seq<byte>, n: nat, i: nat, counter: nat)
    requires n + SLACK <= |data|
    ensures Counted(NextPackets(kind, data, n, i, counter), PidOf(kind), counter)
    decreases if i < n then n - i else 0
  {
    hide Counted, NextAdaptation, NextCount;
    NothingCounted(PidOf(kind), counter);
    if i < n {
      var count := NextCount(kind, n - i);
      NextCountBound(kind, n - i);
      NextAreCounted(kind, data, n, i + count, counter + 1);
      CountedCons(Packet(false, PidOf(kind), counter % 16, NextAdaptation(kind, n - i), data[i..i + count]),
                  NextPackets(kind, data, n, i + count, counter + 1), PidOf(kind), counter);
    }
  }

  lemma NothingCounted(pid: nat, counter: nat)
    ensures Counted([], pid, counter)
  {
  }

  /** The packets of a frame are of one stream and their continuity counters advance by one modulo 16. */
  lemma {:induction false} PacketsAreCounted(f: Frame, data: seq<byte>, counter: nat)
    requires Packable(f) && |Raw(f.p)| + SLACK <= |data|
    ensures Counted(FramePackets(f, data, counter), PidOf(f.p.kind), counter)
  {
    hide Counted;
    FirstCountBound(f);
    NextAreCounted(f.p.kind, data, |Raw(f.p)|, FirstCount(f), counter + 1);
    CountedCons(FirstPacket(f, data, counter), NextPackets(f.p.kind, data, |Raw(f.p)|, FirstCount(f), counter + 1),
                PidOf(f.p.kind), counter);
  }
}
