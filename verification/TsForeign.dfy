/**
 What the transport stream reader makes of units that any other encoder has written in the layout of ISO/IEC 13818-1,
 section 2.4.3.7, with ADTS audio as in ISO/IEC 13818-7.
 */
module TsForeign {
  import opened Bytes
  import opened Media
  import opened AnnexB
  import T = TsPackets
  import opened TsReader
  import opened TsRoundTrip

  // ---------------------------------------------------------------------------------------------
  // Layout
  // ---------------------------------------------------------------------------------------------

  /** A 33-bit time stamp behind a tag of four bits, in pieces of 3, 8, 7, 8 and 7 bits with marker bits. */
  function StampBytes(tag: nat, t: nat): (s: seq<byte>)
    requires tag < 16 && t < 0x2_0000_0000
    ensures |s| == 5
  {
    [16 * tag + t / 0x4000_0000 * 2 + 1, t / 0x40_0000 % 0x100, t / 0x8000 % 0x80 * 2 + 1, t / 0x80 % 0x100, t % 0x80 * 2 + 1]
  }

  datatype Stamps = NoStamp | PtsOnly(pts: nat) | Both(pts: nat, dts: nat)

  predicate Fit(s: Stamps) {
    match s
    case NoStamp => true
    case PtsOnly(pts) => pts < 0x2_0000_0000
    case Both(pts, dts) => pts < 0x2_0000_0000 && dts < 0x2_0000_0000
  }

  function StampField(s: Stamps): seq<byte>
    requires Fit(s)
  {
    match s
    case NoStamp => []
    case PtsOnly(pts) => StampBytes(2, pts)
    case Both(pts, dts) => StampBytes(3, pts) + StampBytes(1, dts)
  }

  function StampFlags(s: Stamps): byte {
    match s
    case NoStamp => 0x00
    case PtsOnly(_) => 0x80
    case Both(_, _) => 0xC0
  }

  /** Stream id, packet length and the first byte of flags are free; `stuffing` bytes may end the header. */
  datatype Head = Head(id: byte, high: byte, low: byte, flags: byte, stamps: Stamps, stuffing: nat)

  predicate Proper(h: Head) {
    Fit(h.stamps) && h.stuffing <= 32
  }

  function Unit(h: Head, body: seq<byte>): seq<byte>
    requires Proper(h)
  {
    [0, 0, 1, h.id, h.high, h.low, h.flags, StampFlags(h.stamps), |StampField(h.stamps)| + h.stuffing]
    + StampField(h.stamps) + T.Stuffing(h.stuffing) + body
  }

  // ---------------------------------------------------------------------------------------------
  // Time stamps
  // ---------------------------------------------------------------------------------------------

  lemma StampFields(tag: nat, t: nat)
    requires tag < 16 && t < 0x2_0000_0000
    ensures var s := StampBytes(tag, t);
            && s[0] / 2 % 8 == t / 0x4000_0000
            && Value(s[1..3]) / 2 == t / 0x8000 % 0x8000
            && Value(s[3..5]) / 2 == t % 0x8000
  {
    var s := StampBytes(tag, t);
    assert s[1..3] == [s[1], s[2]] && s[3..5] == [s[3], s[4]];
    ValueOfTwo(s[1], s[2]);
    ValueOfTwo(s[3], s[4]);
    HighHalf(t);
  }

  lemma HighHalf(t: nat)
    ensures t / 0x40_0000 % 0x100 * 0x80 + t / 0x8000 % 0x80 == t / 0x8000 % 0x8000
    ensures t / 0x80 % 0x100 * 0x80 + t % 0x80 == t % 0x8000
  {
    Fifteen(t / 0x8000);
    Fifteen(t);
    assert t / 0x8000 / 0x80 == t / 0x40_0000;
  }

  lemma Fifteen(u: nat)
    ensures u / 0x80 % 0x100 * 0x80 + u % 0x80 == u % 0x8000
  {
    var v := u / 0x80;
    assert u == (v / 0x100 * 0x100 + v % 0x100) * 0x80 + u % 0x80;
    ModUnique(u, 0x8000, v / 0x100, v % 0x100 * 0x80 + u % 0x80);
  }

  /** A stamp is read as it was meant exactly when it is below 2^30. */
  lemma StampReadsIff(tag: nat, t: nat)
    requires tag < 16 && t < 0x2_0000_0000
    ensures ReadStamp(StampBytes(tag, t)) == t <==> t < 0x4000_0000
  {
    hide StampBytes, Value;
    StampFields(tag, t);
    LowThirty(t);
    TogetherBounds(t / 0x4000_0000, t / 0x8000 % 0x8000, t % 0x8000);
    assert ReadStamp(StampBytes(tag, t)) == Together(t / 0x4000_0000, t / 0x8000 % 0x8000, t % 0x8000);
    assert t == t / 0x4000_0000 * 0x4000_0000 + t % 0x4000_0000;
  }

  /** The ticks that the reader takes for presentation and decoding. */
  function PtsRead(s: Stamps): nat
    requires Fit(s)
  {
    match s
    case NoStamp => 0
    case PtsOnly(pts) => ReadStamp(StampBytes(2, pts))
    case Both(pts, _) => ReadStamp(StampBytes(3, pts))
  }

  function DtsRead(s: Stamps): nat
    requires Fit(s)
  {
    if s.Both? then ReadStamp(StampBytes(1, s.dts)) else PtsRead(s)
  }

  /** Below 2^30 ticks both are what was meant; a unit without a decoding time is decoded when it is shown. */
  lemma StampsAreMeant(s: Stamps)
    requires Fit(s)
    ensures s.PtsOnly? && s.pts < 0x4000_0000 ==> PtsRead(s) == DtsRead(s) == s.pts
    ensures s.Both? && s.pts < 0x4000_0000 ==> PtsRead(s) == s.pts
    ensures s.Both? && s.dts < 0x4000_0000 ==> DtsRead(s) == s.dts
  {
    hide ReadStamp, StampBytes;
    match s
    case NoStamp =>
    case PtsOnly(pts) => StampReadsIff(2, pts);
    case Both(pts, dts) =>
      StampReadsIff(3, pts);
      StampReadsIff(1, dts);
  }

  // ---------------------------------------------------------------------------------------------
  // The parts of a unit
  // ---------------------------------------------------------------------------------------------

  lemma UnitParts(h: Head, body: seq<byte>)
    requires Proper(h)
    ensures var p, at := Unit(h, body), 9 + |StampField(h.stamps)|;
            && |p| >= at && p[3] == h.id && p[7] == StampFlags(h.stamps)
            && p[9..at] == StampField(h.stamps) && p[at..] == T.Stuffing(h.stuffing) + body
  {
    var a := [0, 0, 1, h.id, h.high, h.low, h.flags, StampFlags(h.stamps), |StampField(h.stamps)| + h.stuffing];
    var p, f := Unit(h, body), T.Stuffing(h.stuffing);
    ThreeParts(a, StampField(h.stamps), f, body);
    assert p[..9] == a;
    assert p[3] == p[..9][3] && p[7] == p[..9][7];
  }

  lemma ThreeParts(a: seq<byte>, s: seq<byte>, f: seq<byte>, body: seq<byte>)
    requires |a| == 9
    ensures var p := a + s + f + body;
            p[..9] == a && p[9..9 + |s|] == s && p[9 + |s|..] == f + body
  {
  }

  lemma TwoStamps(s: Stamps)
    requires s.Both? && Fit(s)
    ensures StampField(s)[0..5] == StampBytes(3, s.pts) && StampField(s)[5..10] == StampBytes(1, s.dts)
  {
  }

  /** The reader finds the stamps, and takes everything behind them for the contents. */
  lemma UnitReads(h: Head, body: seq<byte>, videoType: Option<nat>)
    requires Proper(h) && h.id !in PLAIN_STREAMS
    ensures PesEvents(Unit(h, body), videoType)
            == var rest, pts, dts := T.Stuffing(h.stuffing) + body, PtsRead(h.stamps), DtsRead(h.stamps);
               if 224 <= h.id < 240 then if videoType == Some(H264) then H264Events(rest, pts, dts) else None
               else if 192 <= h.id < 224 then AudioEvents(rest, pts, 0)
               else Some([])
  {
    hide Unit, ReadStamp, StampBytes, H264Events, AudioEvents, T.Stuffing;
    UnitParts(h, body);
    var p, s := Unit(h, body), h.stamps;
    match s
    case NoStamp =>
    case PtsOnly(pts) =>
    case Both(pts, dts) =>
      TwoStamps(s);
      assert p[9..19][0..5] == p[9..14] && p[9..19][5..10] == p[14..19];
  }

  // ---------------------------------------------------------------------------------------------
  // Video
  // ---------------------------------------------------------------------------------------------

  predicate IsVideo(h: Head) {
    Proper(h) && 224 <= h.id < 240
  }

  /** Units free of start codes come out one by one, at the times of the packet. */
  lemma {:induction false} VideoUnitIsRead(h: Head, us: seq<seq<byte>>)
    requires IsVideo(h) && h.stuffing == 0 && us != [] && Clean(us)
    ensures PesEvents(Unit(h, Join(us)), Some(H264))
            == Some(NalEvents(us, [], DtsRead(h.stamps) / 90, PtsRead(h.stamps) / 90))
  {
    hide Unit, PtsRead, DtsRead, Units, NalEvents, Clean;
    UnitReads(h, Join(us), Some(H264));
    SplitsBack(us);
    assert T.Stuffing(0) + Join(us) == Join(us);
    assert Join(us)[..4] == CODE;
  }

  /** A coded slice that comes with a presentation time only is decoded when it is shown. */
  lemma {:induction false} SliceIsTimed(h: Head, u: seq<byte>)
    requires IsVideo(h) && h.stuffing == 0 && u != [] && FreeAtEnd(u) && NalType(u) in {1, 5}
    ensures PesEvents(Unit(h, CODE + u), Some(H264))
            == Some([FrameOut(Video, NalType(u) == 5, DtsRead(h.stamps) / 90, PtsRead(h.stamps) / 90, CODE + u)])
    ensures forall t: nat :: h.stamps == PtsOnly(90 * t) && 90 * t < 0x4000_0000 ==>
              PesEvents(Unit(h, CODE + u), Some(H264)) == Some([FrameOut(Video, NalType(u) == 5, t, t, CODE + u)])
    ensures forall pts: nat, dts: nat ::
              h.stamps == Both(90 * pts, 90 * dts) && 90 * pts < 0x4000_0000 && 90 * dts < 0x4000_0000 ==>
                PesEvents(Unit(h, CODE + u), Some(H264)) == Some([FrameOut(Video, NalType(u) == 5, dts, pts, CODE + u)])
  {
    hide Unit, PtsRead, DtsRead, PesEvents, NalType;
    VideoUnitIsRead(h, [u]);
    StampsAreMeant(h.stamps);
    assert [u][1..] == [] && CODE + u + [] == CODE + u;
    assert Join([u]) == CODE + u + Join([u][1..]);
    OneSlice(u, DtsRead(h.stamps) / 90, PtsRead(h.stamps) / 90);
  }

  lemma OneSlice(u: seq<byte>, dts: nat, pts: nat)
    requires NalType(u) in {1, 5}
    ensures NalEvents([u], [], dts, pts) == [FrameOut(Video, NalType(u) == 5, dts, pts, CODE + u)]
  {
    assert [u][1..] == [];
  }

  /** Stuffing behind the time stamps is not skipped: the reader takes it for the beginning of the frame and drops it all. */
  lemma StuffedUnitIsLost(h: Head, body: seq<byte>)
    requires IsVideo(h) && h.stuffing > 0 && |body| >= 4
    ensures PesEvents(Unit(h, body), Some(H264)) == Some([])
  {
    hide Unit, PtsRead, DtsRead;
    UnitReads(h, body, Some(H264));
    var rest := T.Stuffing(h.stuffing) + body;
    assert rest[..4][0] == 0xFF;
  }

  // ---------------------------------------------------------------------------------------------
  // NAL units, from the last one on
  // ---------------------------------------------------------------------------------------------

  /** The parameter sets among units. */
  function SetsAmong(us: seq<seq<byte>>): seq<seq<byte>> {
    if us == [] then []
    else if NalType(Last(us)) in {7, 8} then SetsAmong(us[..|us| - 1]) + [Last(us)]
    else SetsAmong(us[..|us| - 1])
  }

  /** What the last unit adds: a slice is a frame, and a picture parameter set behind another set completes a header. */
  function Adds(us: seq<seq<byte>>, u: seq<byte>, dts: nat, pts: nat): seq<Event> {
    match NalType(u)
    case 5 => [FrameOut(Video, true, dts, pts, CODE + u)]
    case 1 => [FrameOut(Video, false, dts, pts, CODE + u)]
    case 8 => if SetsAmong(us) == [] then [] else [HeaderOut(Video, Join(SetsAmong(us) + [u]))]
    case _ => []
  }

  lemma {:induction false} JoinSnoc(us: seq<seq<byte>>, u: seq<byte>)
    ensures Join(us + [u]) == Join(us) + (CODE + u)
    decreases |us|
  {
    if us == [] {
      assert [] + [u] == [u] && [u][1..] == [];
      assert CODE + u + [] == CODE + u == [] + (CODE + u);
    } else {
      assert (us + [u])[1..] == us[1..] + [u];
      JoinSnoc(us[1..], u);
    }
  }

  lemma SetsSnoc(us: seq<seq<byte>>, u: seq<byte>)
    ensures SetsAmong(us + [u]) == if NalType(u) in {7, 8} then SetsAmong(us) + [u] else SetsAmong(us)
  {
    assert (us + [u])[..|us|] == us;
  }

  lemma {:induction false} JoinIsEmpty(us: seq<seq<byte>>)
    ensures Join(us) == [] <==> us == []
  {
  }

  /** `done` are the units before; their parameter sets are what has been gathered. */
  lemma {:induction false} EventsFrom(done: seq<seq<byte>>, us: seq<seq<byte>>, u: seq<byte>, dts: nat, pts: nat)
    ensures NalEvents(us + [u], Join(SetsAmong(done)), dts, pts)
            == NalEvents(us, Join(SetsAmong(done)), dts, pts) + Adds(done + us, u, dts, pts)
    decreases |us|
  {
    hide Join, SetsAmong, NalType;
    if us == [] {
      assert [] + [u] == [u] && [u][1..] == [] && done + us == done;
      JoinSnoc(SetsAmong(done), u);
      JoinIsEmpty(SetsAmong(done));
    } else {
      var v := us[0];
      assert (us + [u])[1..] == us[1..] + [u] && (us + [u])[0] == v;
      assert done + us == done + [v] + us[1..];
      JoinSnoc(SetsAmong(done), v);
      SetsSnoc(done, v);
      EventsFrom(done + [v], us[1..], u, dts, pts);
      OneStep(us, Join(SetsAmong(done)), dts, pts);
      OneStep(us + [u], Join(SetsAmong(done)), dts, pts);
    }
  }

  lemma OneStep(us: seq<seq<byte>>, header: seq<byte>, dts: nat, pts: nat)
    requires us != []
    ensures var u, more := us[0], NalEvents(us[1..], header, dts, pts);
            NalEvents(us, header, dts, pts)
            == match NalType(u)
               case 5 => [FrameOut(Video, true, dts, pts, CODE + u)] + more
               case 1 => [FrameOut(Video, false, dts, pts, CODE + u)] + more
               case 7 => NalEvents(us[1..], header + (CODE + u), dts, pts)
               case 8 => (if header != [] then [HeaderOut(Video, header + (CODE + u))] else [])
                         + NalEvents(us[1..], header + (CODE + u), dts, pts)
               case _ => more
  {
  }

  /** Unit by unit: each slice is a frame, each header holds all parameter sets so far, in order, and nothing else comes. */
  lemma {:induction false} UnitsComeOut(us: seq<seq<byte>>, u: seq<byte>, dts: nat, pts: nat)
    ensures NalEvents(us + [u], [], dts, pts) == NalEvents(us, [], dts, pts) + Adds(us, u, dts, pts)
    ensures NalEvents([], [], dts, pts) == []
  {
    EventsFrom([], us, u, dts, pts);
    assert [] + us == us;
  }

  /** The type is in the low five bits, behind the reference indication. */
  lemma TypeIsLowFive(u: seq<byte>, reference: nat, nalType: nat)
    requires u != [] && reference < 4 && nalType < 32 && u[0] == reference * 32 + nalType
    ensures NalType(u) == nalType
  {
  }

  // ---------------------------------------------------------------------------------------------
  // Audio
  // ---------------------------------------------------------------------------------------------

  /** A frame with what its ADTS header says: AAC profile, sampling rate index, channels, and a checksum or none. */
  datatype Aac = Aac(profile: nat, rate: nat, channels: nat, crc: Option<(byte, byte)>, raw: seq<byte>)

  function HeaderSize(f: Aac): nat {
    if f.crc.Some? then 9 else 7
  }

  predicate Expressible(f: Aac) {
    f.profile < 4 && f.rate < 16 && f.channels < 8 && HeaderSize(f) + |f.raw| < 0x2000
  }

  function AdtsBytes(f: Aac): (s: seq<byte>)
    requires Expressible(f)
    ensures |s| == HeaderSize(f)
  {
    var n := HeaderSize(f) + |f.raw|;
    [0xFF, if f.crc.Some? then 0xF0 else 0xF1, f.profile * 64 + f.rate * 4 + f.channels / 4,
     f.channels % 4 * 64 + n / 0x800, n / 8 % 0x100, n % 8 * 32 + 0x1F, 0xFC]
    + if f.crc.Some? then [f.crc.value.0, f.crc.value.1] else []
  }

  predicate AllExpressible(fs: seq<Aac>) {
    forall i :: 0 <= i < |fs| ==> Expressible(fs[i])
  }

  function AacBytes(fs: seq<Aac>): seq<byte>
    requires AllExpressible(fs)
  {
    if fs == [] then [] else AdtsBytes(fs[0]) + fs[0].raw + AacBytes(fs[1..])
  }

  /** The two bytes of configuration: five bits of object type, four of sampling rate, four of channels. */
  function ConfigOf(f: Aac): seq<byte>
    requires Expressible(f)
  {
    [(f.profile + 1) * 8 + f.rate / 2, f.rate % 2 * 128 + f.channels * 8]
  }

  /** Frame `i` is announced by its own configuration and comes out behind the two bytes of its tag. */
  function AacEvents(fs: seq<Aac>, pts: nat, i: nat): seq<Event>
    requires AllExpressible(fs)
  {
    if fs == [] then []
    else
      var t := AudioTime(pts, i);
      [HeaderOut(Audio, ConfigOf(fs[0])), FrameOut(Audio, true, t, t, [0xAF, 1] + fs[0].raw)] + AacEvents(fs[1..], pts, i + 1)
  }

  lemma AdtsSays(f: Aac, rest: seq<byte>)
    requires Expressible(f)
    ensures var p := AdtsBytes(f) + rest;
            && FrameLength(p) == HeaderSize(f) + |f.raw| && (p[1] % 2 == 1 <==> f.crc.None?) && AudioConfig(p) == ConfigOf(f)
  {
    var h, p := AdtsBytes(f), AdtsBytes(f) + rest;
    assert p[1] == h[1] && p[2] == h[2] && p[3] == h[3] && p[4] == h[4] && p[5] == h[5];
    LengthFields(HeaderSize(f) + |f.raw|, f.channels % 4);
    ThreeFields(f.profile, f.rate, f.channels);
  }

  lemma LengthFields(n: nat, low: nat)
    requires n < 0x2000 && low < 4
    ensures var a, c := low * 64 + n / 0x800, n % 8 * 32 + 0x1F;
            a / 64 == low && a % 4 * 0x800 + n / 8 % 0x100 * 8 + c / 32 == n
  {
    var a := low * 64 + n / 0x800;
    assert a % 4 == n / 0x800;
    assert n == n / 0x800 * 0x800 + n / 8 % 0x100 * 8 + n % 8;
  }

  lemma ThreeFields(profile: nat, rate: nat, channels: nat)
    requires profile < 4 && rate < 16 && channels < 8
    ensures var x := profile * 64 + rate * 4 + channels / 4;
            x / 64 == profile && x / 4 % 16 == rate && x % 2 * 4 + channels % 4 == channels
  {
  }

  lemma AacParts(h: seq<byte>, raw: seq<byte>, more: seq<byte>)
    ensures var p := h + raw + more;
            p == h + (raw + more) && p[|h|..|h| + |raw|] == raw && p[|h| + |raw|..] == more
  {
  }

  lemma {:induction false} AacIsRead(fs: seq<Aac>, pts: nat, i: nat)
    requires AllExpressible(fs)
    ensures AudioEvents(AacBytes(fs), pts, i) == Some(AacEvents(fs, pts, i))
    decreases |fs|
  {
    hide AdtsBytes, AudioConfig, FrameLength, AudioTime, ConfigOf;
    if fs != [] {
      var f, more := fs[0], AacBytes(fs[1..]);
      AacIsRead(fs[1..], pts, i + 1);
      AacParts(AdtsBytes(f), f.raw, more);
      AdtsSays(f, f.raw + more);
    }
  }

  /** A unit of any number of ADTS frames comes out frame by frame, the first one at the time of the packet. */
  lemma {:induction false} AudioUnitIsRead(h: Head, fs: seq<Aac>, videoType: Option<nat>)
    requires Proper(h) && 192 <= h.id < 224 && h.stuffing == 0 && AllExpressible(fs)
    ensures PesEvents(Unit(h, AacBytes(fs)), videoType) == Some(AacEvents(fs, PtsRead(h.stamps), 0))
  {
    hide Unit, PtsRead, AudioEvents, AacEvents, AacBytes;
    UnitReads(h, AacBytes(fs), videoType);
    assert T.Stuffing(0) + AacBytes(fs) == AacBytes(fs);
    AacIsRead(fs, PtsRead(h.stamps), 0);
  }

  /** Sampling rates by their index, as in ISO/IEC 14496-3, section 1.6.3.4. */
  const RATES: seq<nat> := [96000, 88200, 64000, 48000, 44100, 32000, 24000, 22050, 16000, 12000, 11025, 8000, 7350]

  /** `n` frames of 1024 samples behind `pts` ticks of a 90 kHz clock, in milliseconds. */
  function FramesLater(pts: nat, n: nat, rate: nat): int
    requires rate > 0
  {
    (pts + n * 1024 * 90000 / rate) / 90
  }

  /** Whatever the headers say, the frames of a unit are timed as if they were sampled at 22050 Hz. */
  lemma SpacingIsFixed(pts: nat, i: nat)
    ensures AudioTime(pts, i) == FramesLater(pts, i, 22050)
  {
    var x := 204800 * i;
    assert i * 1024 * 90000 / 22050 == x / 49;
    assert (49 * pts + x) / 49 == pts + x / 49;
    assert (49 * pts + x) / 4410 == (49 * pts + x) / 49 / 90;
  }

  /** So the second frame of a unit is on time exactly at that rate. */
  lemma SecondIsOnTimeIff(pts: nat, k: nat)
    requires k < |RATES|
    ensures RATES[k] > 0 && (AudioTime(pts, 1) == FramesLater(pts, 1, RATES[k]) <==> RATES[k] == 22050)
  {
    SpacingIsFixed(pts, 1);
  }

  // ---------------------------------------------------------------------------------------------
  // Other streams
  // ---------------------------------------------------------------------------------------------

  /**
   Units of program stream maps and directories, padding, private streams of the second kind, ECM, EMM, DSM-CC and H.222.1
   type E, which have no optional header, yield nothing, whatever is in them; nor do those of other streams than audio and
   video.
   */
  lemma OthersAreIgnored(p: seq<byte>, videoType: Option<nat>)
    requires |p| >= 9
    ensures p[3] in {0xBC, 0xBE, 0xBF, 0xF0, 0xF1, 0xF2, 0xF8, 0xFF} ==> PesEvents(p, videoType) == Some([])
    ensures !(0xC0 <= p[3] <= 0xEF) && PesEvents(p, videoType).Some? ==> PesEvents(p, videoType) == Some([])
  {
    hide ReadStamp, H264Events, AudioEvents;
  }
}
