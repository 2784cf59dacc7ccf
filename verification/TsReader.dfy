/**
 The transport stream reader: it follows the program tables, collects packetized elementary stream packets per PID,
 and hands out the frames in them. `None` stands for input on which the source fails, reads past its data, does not
 come to an end, or uses a feature that is not part of this model.
 */
module TsReader {
  import opened Bytes
  import opened Media
  import opened AnnexB

  datatype Event =
    | HeaderOut(kind: Kind, data: seq<byte>)
    | FrameOut(kind: Kind, iFrame: bool, dts: nat, pts: nat, data: seq<byte>)

  datatype Reader = Reader(pmtPid: nat, videoType: Option<nat>, pes: map<nat, seq<byte>>, out: seq<Event>)

  const FRESH := Reader(0xFFFF, None, map[], [])

  const PACKET_SIZE := 188
  const H264 := 0x1B

  // ---------------------------------------------------------------------------------------------
  // Packetized elementary stream packets
  // ---------------------------------------------------------------------------------------------

  /** A time stamp as the reader puts it together: the three top bits are shifted by 29, so that bit 29 is shared. */
  function ReadStamp(s: seq<byte>): nat
    requires |s| == 5
  {
    var top, mid, low := s[0] / 2 % 8, Value(s[1..3]) / 2, Value(s[3..5]) / 2;
    var shared := if mid >= 0x4000 && top % 2 == 0 then top + 1 else top;
    shared * 0x2000_0000 + mid % 0x4000 * 0x8000 + low
  }

  function NalType(u: seq<byte>): nat {
    if u == [] then 0 else u[0] % 32
  }

  /** Parameter sets are gathered into a header, slices are handed out, everything else is dropped. */
  function NalEvents(units: seq<seq<byte>>, header: seq<byte>, dts: nat, pts: nat): seq<Event> {
    if units == [] then []
    else
      var u, rest := units[0], units[1..];
      var unit := CODE + u;
      match NalType(u)
      case 5 => [FrameOut(Video, true, dts, pts, unit)] + NalEvents(rest, header, dts, pts)
      case 1 => [FrameOut(Video, false, dts, pts, unit)] + NalEvents(rest, header, dts, pts)
      case 7 => NalEvents(rest, header + unit, dts, pts)
      case 8 => (if header != [] then [HeaderOut(Video, header + unit)] else []) + NalEvents(rest, header + unit, dts, pts)
      case _ => NalEvents(rest, header, dts, pts)
  }

  function H264Events(p: seq<byte>, pts: nat, dts: nat): Option<seq<Event>> {
    if |p| < 4 then None
    else if p[..4] != CODE then Some([])
    else
      match Units(p)
      case None => None
      case Some(units) => Some(NalEvents(units, [], dts / 90, pts / 90))
  }

  function WithEvents(a: seq<Event>, rest: Option<seq<Event>>): Option<seq<Event>> {
    match rest
    case None => None
    case Some(b) => Some(a + b)
  }

  /** The two bytes of AAC configuration that an ADTS header spells out. */
  function AudioConfig(p: seq<byte>): seq<byte>
    requires |p| >= 7
  {
    var profile, rate, channels := p[2] / 64 + 1, p[2] / 4 % 16, p[2] % 2 * 4 + p[3] / 64;
    [profile * 8 + rate / 2, rate % 2 * 128 + channels * 8]
  }

  /** Frame `i` of a packet that starts at `pts`: each lasts twice 1024 samples at 44100 Hz, 204800 / 49 clock ticks. */
  function AudioTime(pts: nat, i: nat): nat {
    (49 * pts + 204800 * i) / 4410
  }

  /** The 13-bit frame length of an ADTS header. */
  function FrameLength(p: seq<byte>): nat
    requires |p| >= 7
  {
    p[3] as nat % 4 * 0x800 + p[4] as nat * 8 + p[5] as nat / 32
  }

  function AudioEvents(p: seq<byte>, pts: nat, i: nat): Option<seq<Event>>
    decreases |p|
  {
    if |p| < 7 then Some([])
    else
      var skip := if p[1] % 2 == 1 then 7 else 9;
      var header := HeaderOut(Audio, AudioConfig(p));
      var len := FrameLength(p) - skip;
      if len < 0 || |p| < skip then None
      else if len > |p| - skip then Some([header])
      else
        var t := AudioTime(pts, i);
        var data: seq<byte> := [0xAF, 1] + p[skip..skip + len];
        WithEvents([header, FrameOut(Audio, true, t, t, data)], AudioEvents(p[skip + len..], pts, i + 1))
  }

  /** Stream ids whose packets carry no optional header. */
  const PLAIN_STREAMS := {188, 190, 191, 240, 241, 242, 248, 255}

  /** What a complete packet yields. */
  function PesEvents(pes: seq<byte>, videoType: Option<nat>): Option<seq<Event>> {
    if pes == [] then Some([])
    else if |pes| < 9 then None
    else if pes[3] as nat in PLAIN_STREAMS then Some([])
    else if pes[7] % 64 != 0 then None
    else
      var flags := pes[7] / 64;
      var at := if flags == 3 then 19 else if flags == 2 then 14 else 9;
      if |pes| < at then None
      else
        var pts := if flags >= 2 then ReadStamp(pes[9..14]) else 0;
        var dts := if flags == 3 then ReadStamp(pes[14..19]) else pts;
        var body := pes[at..];
        if 224 <= pes[3] < 240 then
          if videoType == Some(H264) then H264Events(body, pts, dts) else None
        else if 192 <= pes[3] < 224 then AudioEvents(body, pts, 0)
        else Some([])
  }

  // ---------------------------------------------------------------------------------------------
  // Packets
  // ---------------------------------------------------------------------------------------------

  predicate AllStuffing(s: seq<byte>) {
    forall i :: 0 <= i < |s| ==> s[i] == 0xFF
  }

  /** The position behind the adaptation field; of its optional parts only a clock reference is understood. */
  function SkipAdaptation(s: seq<byte>, at: nat): Option<nat> {
    if at >= |s| then None
    else if s[at] == 0 then Some(at + 1)
    else
      var end := at + 1 + s[at];
      if end > |s| || s[at + 1] % 16 != 0 then None
      else
        var stuffing := at + 2 + if s[at + 1] / 16 % 2 == 1 then 6 else 0;
        if stuffing > end || !AllStuffing(s[stuffing..end]) then None else Some(end)
  }

  function ReadPat(r: Reader, t: seq<byte>): Option<Reader> {
    if |t| < 16 then None
    else if Value(t[8..10]) == 0 then Some(r)
    else Some(r.(pmtPid := Value(t[10..12]) % 0x2000))
  }

  /** The length of the first descriptor, with tag and length byte; a length that is missing is zero. */
  function DescriptorLength(t: seq<byte>): nat
    requires t != []
  {
    if |t| == 1 then 1 else 2 + t[1] as nat
  }

  /** What follows `left` bytes of descriptors; the 16-bit count starts over when the last one is longer than that. */
  function SkipDescriptors(t: seq<byte>, left: nat): (rest: Option<seq<byte>>)
    ensures rest.Some? ==> |rest.value| <= |t|
    decreases |t|
  {
    if left == 0 then Some(t)
    else if t == [] || |t| < DescriptorLength(t) then None
    else SkipDescriptors(t[DescriptorLength(t)..], (left - DescriptorLength(t)) % 0x1_0000)
  }

  function VideoTypeFrom(r: Reader, streamType: byte): Reader {
    if streamType in {0x1B, 0x24} then r.(videoType := Some(streamType as nat)) else r
  }

  /** The entries of a program map, each with its descriptors. */
  function ReadStreams(r: Reader, t: seq<byte>, left: int): Option<Reader>
    decreases |t|
  {
    if left <= 0 || |t| <= 4 then Some(r)
    else
      match SkipDescriptors(t[5..], Value(t[3..5]) % 0x1000)
      case None => None
      case Some(rest) => ReadStreams(VideoTypeFrom(r, t[0]), rest, left - (|t| - |rest|))
  }

  function ReadPmt(r: Reader, t: seq<byte>): Option<Reader> {
    if |t| < 12 then None
    else
      match SkipDescriptors(t[12..], Value(t[10..12]) % 0x1000)
      case None => None
      case Some(rest) => ReadStreams(r, rest, (Value(t[1..3]) % 0x1000 - 9) % 0x1_0000 - 4)
  }

  function Pending(r: Reader, pid: nat): seq<byte> {
    if pid in r.pes then r.pes[pid] else []
  }

  /** A packet that starts a unit first completes the one before; then its contents are collected. */
  function Collect(r: Reader, pid: nat, start: bool, contents: seq<byte>): Option<Reader> {
    if !start then Some(r.(pes := r.pes[pid := Pending(r, pid) + contents]))
    else
      match PesEvents(Pending(r, pid), r.videoType)
      case None => None
      case Some(events) => Some(r.(pes := r.pes[pid := contents], out := r.out + events))
  }

  function ReadContents(r: Reader, pid: nat, start: bool, contents: seq<byte>): Option<Reader> {
    if pid == 0 then ReadPat(r, contents)
    else if pid == r.pmtPid then ReadPmt(r, contents)
    else Collect(r, pid, start, contents)
  }

  function PidIn(s: seq<byte>): nat
    requires |s| == PACKET_SIZE
  {
    Value(s[1..3]) % 0x2000
  }

  predicate StartIn(s: seq<byte>)
    requires |s| == PACKET_SIZE
  {
    s[1] / 64 % 2 == 1
  }

  /** Where the contents of a packet start; a table is preceded by a pointer byte, which is skipped unread. */
  function ContentsAt(s: seq<byte>, pmtPid: nat): Option<nat>
    requires |s| == PACKET_SIZE
  {
    var at := if StartIn(s) && (PidIn(s) == 0 || PidIn(s) == pmtPid) then 5 else 4;
    if s[3] / 32 % 2 == 1 then SkipAdaptation(s, at) else Some(at)
  }

  function ReadPacket(r: Reader, s: seq<byte>): Option<Reader>
    requires |s| == PACKET_SIZE
  {
    match ContentsAt(s, r.pmtPid)
    case None => None
    case Some(at) => if at > |s| then None else ReadContents(r, PidIn(s), StartIn(s), s[at..])
  }

  /** Whole packets as long as the sync byte is in place. */
  function ReadAll(r: Reader, s: seq<byte>): Option<Reader>
    decreases |s|
  {
    if |s| < PACKET_SIZE || s[0] != 0x47 then Some(r)
    else
      match ReadPacket(r, s[..PACKET_SIZE])
      case None => None
      case Some(r') => ReadAll(r', s[PACKET_SIZE..])
  }

  function ParseTs(r: Reader, s: seq<byte>): Option<Reader> {
    if |s| % PACKET_SIZE != 0 then None else ReadAll(r, s)
  }
}
