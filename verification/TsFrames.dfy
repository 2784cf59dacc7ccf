/** What comes out of the transport stream reader for each frame that went into the muxer. */
module TsFrames {
  import opened Bytes
  import opened Media
  import opened AnnexB
  import opened TsPackets
  import opened TsReader
  import opened TsRoundTrip

  // ---------------------------------------------------------------------------------------------
  // Video
  // ---------------------------------------------------------------------------------------------

  /** The NAL units of a packed video frame: delimiter, parameter sets before a key frame, and the frame. */
  function UnitsOf(x: Sent): seq<seq<byte>> {
    var slice := Raw(x.frame.p) + Surplus(x);
    if x.frame.p.iFrame then [[0x09, 0x10], x.frame.config.sps, x.frame.config.pps, slice] else [[0x09, 0x10], slice]
  }

  lemma JoinTwo(a: seq<byte>, b: seq<byte>)
    ensures Join([a, b]) == CODE + a + (CODE + b)
  {
    assert [a, b][1..] == [b] && [b][1..] == [];
    assert Join([b]) == CODE + b + Join([b][1..]);
    assert CODE + b + [] == CODE + b;
  }

  lemma JoinFour(a: seq<byte>, b: seq<byte>, c: seq<byte>, d: seq<byte>)
    ensures Join([a, b, c, d]) == CODE + a + (CODE + b + (CODE + c + (CODE + d)))
  {
    assert [a, b, c, d][1..] == [b, c, d] && [b, c, d][1..] == [c, d];
    JoinTwo(c, d);
  }

  lemma BodyIsJoin(x: Sent)
    requires KindOf(x) == Video
    ensures Lead(x.frame) + Raw(x.frame.p) + Surplus(x) == Join(UnitsOf(x))
  {
    var raw, surplus, sps, pps := Raw(x.frame.p), Surplus(x), x.frame.config.sps, x.frame.config.pps;
    var d: seq<byte> := [0x09, 0x10];
    assert DELIMITER == CODE + d;
    if x.frame.p.iFrame {
      JoinFour(d, sps, pps, raw + surplus);
      KeyFrameParts(CODE, d, sps, pps, raw, surplus);
    } else {
      JoinTwo(d, raw + surplus);
      PlainParts(CODE, d, raw, surplus);
    }
  }

  lemma KeyFrameParts(c: seq<byte>, d: seq<byte>, a: seq<byte>, b: seq<byte>, raw: seq<byte>, more: seq<byte>)
    ensures c + d + (c + a + c + b + c) + raw + more == c + d + (c + a + (c + b + (c + (raw + more))))
  {
  }

  lemma PlainParts(c: seq<byte>, d: seq<byte>, raw: seq<byte>, more: seq<byte>)
    ensures c + d + c + raw + more == c + d + (c + (raw + more))
  {
  }

  /** The types of the frame's units say what they are. */
  predicate Typed(x: Sent) {
    if x.frame.p.iFrame then
      NalType(x.frame.config.sps) == 7 && NalType(x.frame.config.pps) == 8 && NalType(Raw(x.frame.p)) == 5
    else NalType(Raw(x.frame.p)) == 1
  }

  /** No start code inside the parameter sets that go before a key frame. */
  predicate SetsFree(x: Sent) {
    x.frame.p.iFrame ==> Free(x.frame.config.sps) && Free(x.frame.config.pps)
  }

  /** The units are typed, and there is no start code inside them, nor in the frame with its surplus bytes. */
  predicate WellFormed(x: Sent) {
    Typed(x) && SetsFree(x) && FreeAtEnd(Raw(x.frame.p) + Surplus(x))
  }

  lemma UnitsAreClean(x: Sent)
    requires KindOf(x) == Video && WellFormed(x)
    ensures Clean(UnitsOf(x))
  {
    hide Free, FreeAtEnd, Raw, Surplus, NalType;
    SomeBytes(x);
    DelimiterIsFree();
    var us := UnitsOf(x);
    forall i | 0 <= i < |us| - 1 ensures Free(us[i]) {
    }
  }

  lemma SomeBytes(x: Sent)
    requires KindOf(x) == Video
    ensures Raw(x.frame.p) != []
  {
  }

  lemma DelimiterIsFree()
    ensures Free([0x09, 0x10])
  {
  }

  /**
   A frame that does not end with a zero byte, as no NAL unit does, and the surplus bytes behind it: each has to be free
   of start codes by itself.
   */
  lemma SurplusApart(raw: seq<byte>, more: seq<byte>)
    requires raw != [] && Last(raw) != 0
    ensures FreeAtEnd(raw + more) <==> (if more == [] then FreeAtEnd(raw) else Free(raw)) && FreeAtEnd(more)
  {
    var s := raw + more;
    if more == [] {
      assert s == raw;
    } else if FreeAtEnd(s) {
      forall i: nat | i + 2 < |raw| ensures !(raw[i] == 0 && raw[i + 1] == 0 && raw[i + 2] == 1) {
        assert !CodeAt(s, i);
      }
      forall i: nat | i < |more| ensures !CodeAt(more, i) {
        assert !CodeAt(s, |raw| + i);
      }
    } else {
      var i: nat :| i < |s| && CodeAt(s, i);
      if i >= |raw| {
        assert CodeAt(more, i - |raw|);
      } else if i + 2 < |raw| {
        assert raw[i] == 0 && raw[i + 1] == 0 && raw[i + 2] == 1;
      }
    }
  }

  function TimeRead(ms: nat): nat {
    ReadStamp(Stamp(ms * 90)) / 90
  }

  /** The events of a video frame: a header before a key frame, then the frame behind a start code. */
  function VideoEvents(x: Sent): seq<Event>
    requires KindOf(x) == Video
  {
    var p := x.frame.p;
    var out := FrameOut(Video, p.iFrame, TimeRead(p.dts), TimeRead(p.pts), CODE + (Raw(p) + Surplus(x)));
    if p.iFrame then [HeaderOut(Video, Join([x.frame.config.sps, x.frame.config.pps])), out] else [out]
  }

  lemma NalStep(u: seq<byte>, rest: seq<seq<byte>>, header: seq<byte>, dts: nat, pts: nat)
    ensures NalEvents([u] + rest, header, dts, pts)
            == (match NalType(u)
                case 5 => [FrameOut(Video, true, dts, pts, CODE + u)] + NalEvents(rest, header, dts, pts)
                case 1 => [FrameOut(Video, false, dts, pts, CODE + u)] + NalEvents(rest, header, dts, pts)
                case 7 => NalEvents(rest, header + (CODE + u), dts, pts)
                case 8 => (if header != [] then [HeaderOut(Video, header + (CODE + u))] else [])
                          + NalEvents(rest, header + (CODE + u), dts, pts)
                case _ => NalEvents(rest, header, dts, pts))
  {
    assert ([u] + rest)[1..] == rest;
  }

  lemma SliceType(x: Sent)
    requires KindOf(x) == Video
    ensures NalType(Raw(x.frame.p) + Surplus(x)) == NalType(Raw(x.frame.p))
  {
  }

  lemma UnitsGiveEvents(x: Sent)
    requires KindOf(x) == Video && WellFormed(x)
    ensures NalEvents(UnitsOf(x), [], TimeRead(x.frame.p.dts), TimeRead(x.frame.p.pts)) == VideoEvents(x)
  {
    hide NalEvents, TimeRead, Surplus;
    var dts, pts := TimeRead(x.frame.p.dts), TimeRead(x.frame.p.pts);
    var slice, sps, pps := Raw(x.frame.p) + Surplus(x), x.frame.config.sps, x.frame.config.pps;
    var d: seq<byte> := [0x09, 0x10];
    SliceType(x);
    NoMoreUnits(dts, pts);
    if x.frame.p.iFrame {
      var h1 := CODE + sps;
      var h2 := h1 + (CODE + pps);
      assert UnitsOf(x) == [d] + ([sps] + ([pps] + ([slice] + [])));
      NalStep(d, [sps] + ([pps] + ([slice] + [])), [], dts, pts);
      NalStep(sps, [pps] + ([slice] + []), [], dts, pts);
      assert [] + (CODE + sps) == h1;
      NalStep(pps, [slice] + [], h1, dts, pts);
      NalStep(slice, [], h2, dts, pts);
      NoEvents(h2, dts, pts);
      JoinTwo(sps, pps);
    } else {
      assert UnitsOf(x) == [d] + ([slice] + []);
      NalStep(d, [slice] + [], [], dts, pts);
      NalStep(slice, [], [], dts, pts);
    }
  }

  lemma NoMoreUnits(dts: nat, pts: nat)
    ensures NalEvents([], [], dts, pts) == []
  {
  }

  lemma NoEvents(header: seq<byte>, dts: nat, pts: nat)
    ensures NalEvents([], header, dts, pts) == []
  {
  }

  lemma VideoPes(x: Sent)
    requires KindOf(x) == Video
    ensures var pes := Pes(x);
            && |pes| > 19 && pes[3] == 0xE0 && pes[7] == 0xC0
            && pes[9..14] == Stamp(x.frame.p.pts * 90) && pes[14..19] == Stamp(x.frame.p.dts * 90)
            && pes[19..] == Lead(x.frame) + Raw(x.frame.p) + Surplus(x)
  {
    var p := x.frame.p;
    var a: seq<byte> := [0, 0, 1, 0xE0, 0, 0, 0x80, 0xC0, 10];
    FiveParts(a, Stamp(p.pts * 90), Stamp(p.dts * 90), Lead(x.frame), Raw(p), Surplus(x));
    var pes := Pes(x);
    assert pes[..9] == a;
    assert pes[3] == pes[..9][3] && pes[7] == pes[..9][7];
  }

  lemma FiveParts(a: seq<byte>, s: seq<byte>, t: seq<byte>, lead: seq<byte>, raw: seq<byte>, more: seq<byte>)
    requires |a| == 9 && |s| == |t| == 5
    ensures var pes := a + s + t + lead + raw + more;
            && pes[..9] == a && pes[9..14] == s && pes[14..19] == t && pes[19..] == lead + raw + more
  {
  }

  /** The events of a video frame are those of the units that its bytes are split into. */
  lemma VideoEventsFromUnits(x: Sent)
    requires KindOf(x) == Video
    ensures EventsOf(x) == match Units(Join(UnitsOf(x)))
                           case None => None
                           case Some(us) => Some(NalEvents(us, [], TimeRead(x.frame.p.dts), TimeRead(x.frame.p.pts)))
  {
    hide Pes, Stamp, ReadStamp, Units, Join, NalEvents, Surplus, UnitsOf, Lead;
    VideoPes(x);
    BodyIsJoin(x);
    JoinStarts(x);
  }

  /**
   A well-formed video frame comes out as it went in, behind a start code and with its surplus bytes; a key frame is
   announced by the parameter sets that were packed before it.
   */
  lemma VideoFrameIsDelivered(x: Sent)
    requires KindOf(x) == Video && WellFormed(x)
    ensures EventsOf(x) == Some(VideoEvents(x)) && |Surplus(x)| == Copied(x.frame) <= 8
    ensures x.frame.p.dts * 90 < 0x4000_0000 ==> TimeRead(x.frame.p.dts) == x.frame.p.dts
    ensures x.frame.p.pts * 90 < 0x4000_0000 ==> TimeRead(x.frame.p.pts) == x.frame.p.pts
  {
    hide EventsOf, Stamp, ReadStamp, Units, Join, NalEvents, Surplus, UnitsOf, Clean, WellFormed, Copied;
    VideoEventsFromUnits(x);
    UnitsAreClean(x);
    SplitsBack(UnitsOf(x));
    UnitsGiveEvents(x);
    SurplusLength(x);
    TimeSurvivesIff(x.frame.p.dts);
    TimeSurvivesIff(x.frame.p.pts);
  }

  /** The units in front of the frame come out whole, whatever comes out of the frame itself. */
  lemma FrontComesOut(x: Sent)
    requires KindOf(x) == Video && SetsFree(x)
    ensures var slice := Raw(x.frame.p) + Surplus(x);
            var d: seq<byte> := [0x09, 0x10];
            Units(Join(UnitsOf(x)))
            == if x.frame.p.iFrame then
                 WithFirst(d, WithFirst(x.frame.config.sps, WithFirst(x.frame.config.pps, UnitsFrom(slice, 0))))
               else WithFirst(d, UnitsFrom(slice, 0))
  {
    hide Units, UnitsFrom, Free, WithFirst, Surplus, Raw;
    var slice := Raw(x.frame.p) + Surplus(x);
    var d: seq<byte> := [0x09, 0x10];
    var sps, pps := x.frame.config.sps, x.frame.config.pps;
    SomeBytes(x);
    DelimiterIsFree();
    if x.frame.p.iFrame {
      var tail := pps + CODE + slice;
      var more := sps + CODE + tail;
      FourUnits(d, sps, pps, slice);
      UnitsBehindCode(d + CODE + more);
      UnitThenMore(d, more);
      UnitThenMore(sps, tail);
      UnitThenMore(pps, slice);
    } else {
      JoinTwo(d, slice);
      assert CODE + d + (CODE + slice) == CODE + (d + CODE + slice);
      UnitsBehindCode(d + CODE + slice);
      UnitThenMore(d, slice);
    }
  }

  lemma FourUnits(d: seq<byte>, sps: seq<byte>, pps: seq<byte>, slice: seq<byte>)
    ensures Join([d, sps, pps, slice]) == CODE + (d + CODE + (sps + CODE + (pps + CODE + slice)))
  {
    hide Join;
    JoinFour(d, sps, pps, slice);
    Nested(CODE, d, sps, pps, slice);
  }

  lemma Nested(c: seq<byte>, d: seq<byte>, sps: seq<byte>, pps: seq<byte>, slice: seq<byte>)
    ensures c + d + (c + sps + (c + pps + (c + slice))) == c + (d + c + (sps + c + (pps + c + slice)))
  {
  }

  predicate AllShort(es: seq<Event>, n: nat) {
    forall i :: 0 <= i < |es| && es[i].FrameOut? ==> |es[i].data| < 4 + n
  }

  lemma ShortAppend(a: seq<Event>, b: seq<Event>, n: nat)
    requires AllShort(a, n) && AllShort(b, n)
    ensures AllShort(a + b, n)
  {
  }

  /** Short units do not make long frames. */
  lemma {:induction false} ShortFrames(us: seq<seq<byte>>, header: seq<byte>, dts: nat, pts: nat, n: nat)
    requires forall i :: 0 <= i < |us| ==> |us[i]| < n
    ensures AllShort(NalEvents(us, header, dts, pts), n)
    decreases |us|
  {
    hide NalEvents, NalType;
    if us == [] {
      NoEvents(header, dts, pts);
    } else {
      var u, rest, more := us[0], us[1..], header + (CODE + us[0]);
      assert us == [u] + rest;
      NalStep(u, rest, header, dts, pts);
      ShortFrames(rest, header, dts, pts, n);
      ShortFrames(rest, more, dts, pts, n);
      ShortAppend([FrameOut(Video, true, dts, pts, CODE + u)], NalEvents(rest, header, dts, pts), n);
      ShortAppend([FrameOut(Video, false, dts, pts, CODE + u)], NalEvents(rest, header, dts, pts), n);
      ShortAppend(if header != [] then [HeaderOut(Video, more)] else [], NalEvents(rest, more, dts, pts), n);
    }
  }

  /** What the units in front of a frame add to the events, and the header that they leave. */
  lemma FrontEvents(x: Sent, us: seq<seq<byte>>)
    requires KindOf(x) == Video && Typed(x)
    ensures var p, d := x.frame.p, [0x09, 0x10];
            var dts, pts := TimeRead(p.dts), TimeRead(p.pts);
            var sets := CODE + x.frame.config.sps + (CODE + x.frame.config.pps);
            if p.iFrame then
              NalEvents([d] + ([x.frame.config.sps] + ([x.frame.config.pps] + us)), [], dts, pts)
              == [HeaderOut(Video, sets)] + NalEvents(us, sets, dts, pts)
            else NalEvents([d] + us, [], dts, pts) == NalEvents(us, [], dts, pts)
  {
    hide NalEvents, TimeRead, Raw;
    var dts, pts := TimeRead(x.frame.p.dts), TimeRead(x.frame.p.pts);
    var sps, pps := x.frame.config.sps, x.frame.config.pps;
    var d: seq<byte> := [0x09, 0x10];
    if x.frame.p.iFrame {
      NalStep(d, [sps] + ([pps] + us), [], dts, pts);
      NalStep(sps, [pps] + us, [], dts, pts);
      assert [] + (CODE + sps) == CODE + sps;
      NalStep(pps, us, CODE + sps, dts, pts);
    } else {
      NalStep(d, us, [], dts, pts);
    }
  }

  /** A start code inside the frame or its surplus cuts the frame short. */
  lemma {:induction false} CutFrameIsLost(x: Sent)
    requires KindOf(x) == Video && Typed(x) && SetsFree(x) && !FreeAtEnd(Raw(x.frame.p) + Surplus(x))
    ensures EventsOf(x) != Some(VideoEvents(x))
  {
    hide EventsOf, Units, UnitsFrom, NalEvents, Join, FreeAtEnd, Free, TimeRead, Surplus, Raw;
    var slice := Raw(x.frame.p) + Surplus(x);
    VideoEventsFromUnits(x);
    FrontComesOut(x);
    LastUnit(slice);
    var r := UnitsFrom(slice, 0);
    if r.Some? {
      var dts, pts := TimeRead(x.frame.p.dts), TimeRead(x.frame.p.pts);
      var sets := CODE + x.frame.config.sps + (CODE + x.frame.config.pps);
      var header := if x.frame.p.iFrame then sets else [];
      assert slice[0..] == slice;
      UnitsAreShort(slice, 0);
      FrontEvents(x, r.value);
      ShortFrames(r.value, header, dts, pts, |slice|);
      LastIsNotShort(x, NalEvents(r.value, header, dts, pts), |slice|);
    }
  }

  lemma LastIsNotShort(x: Sent, es: seq<Event>, n: nat)
    requires KindOf(x) == Video && n == |Raw(x.frame.p) + Surplus(x)|
    requires AllShort(es, n)
    ensures VideoEvents(x) != es && forall h :: VideoEvents(x) != [HeaderOut(Video, h)] + es
  {
    hide Join, TimeRead, Raw, Surplus;
    var vs := VideoEvents(x);
    assert Last(vs).FrameOut? && |Last(vs).data| == 4 + n;
    forall h ensures vs != [HeaderOut(Video, h)] + es {
      var all := [HeaderOut(Video, h)] + es;
      assert if es == [] then Last(all).HeaderOut? else Last(all) == Last(es);
    }
  }

  /**
   Exactness: a typed frame whose parameter sets are free of start codes comes out if and only if there is no start code
   in the frame together with the surplus bytes behind it.
   */
  lemma {:induction false} VideoFrameIsDeliveredIff(x: Sent)
    requires KindOf(x) == Video && Typed(x) && SetsFree(x)
    ensures EventsOf(x) == Some(VideoEvents(x)) <==> FreeAtEnd(Raw(x.frame.p) + Surplus(x))
  {
    hide EventsOf, Typed, SetsFree, FreeAtEnd, Surplus, Raw, VideoEvents;
    if FreeAtEnd(Raw(x.frame.p) + Surplus(x)) {
      VideoFrameIsDelivered(x);
    } else {
      CutFrameIsLost(x);
    }
  }

  /** The events of a video frame that is handed out byte for byte. */
  function ByteForByte(x: Sent): seq<Event>
    requires KindOf(x) == Video
  {
    var p := x.frame.p;
    var out := FrameOut(Video, p.iFrame, TimeRead(p.dts), TimeRead(p.pts), CODE + Raw(p));
    if p.iFrame then [HeaderOut(Video, Join([x.frame.config.sps, x.frame.config.pps])), out] else [out]
  }

  /** A well-formed video frame comes out byte for byte exactly when it fills its last packet. */
  lemma ByteForByteIff(x: Sent)
    requires KindOf(x) == Video && WellFormed(x)
    ensures EventsOf(x) == Some(ByteForByte(x)) <==> FillsPackets(x.frame)
  {
    hide EventsOf, WellFormed, Join, TimeRead, Copied, FillsPackets, FrameEnd;
    VideoFrameIsDelivered(x);
    NothingCopiedIff(x.frame);
    FrameEndIs(x.frame);
    var out, exact := Last(VideoEvents(x)), Last(ByteForByte(x));
    assert |out.data| == 4 + |Raw(x.frame.p)| + |Surplus(x)|;
    if Surplus(x) == [] {
      assert Raw(x.frame.p) + [] == Raw(x.frame.p);
    } else {
      assert |out.data| != |exact.data|;
    }
  }

  lemma SurplusLength(x: Sent)
    ensures |Surplus(x)| == Copied(x.frame) == FrameEnd(x.frame) - |Raw(x.frame.p)|
    ensures |Surplus(x)| <= MaxSurplus(x.frame)
  {
    hide Copied;
    PacketsCarryTheFrame(x.frame, x.tail, 0);
  }

  lemma JoinStarts(x: Sent)
    requires KindOf(x) == Video
    ensures |Join(UnitsOf(x))| >= 4 && Join(UnitsOf(x))[..4] == CODE
  {
  }

  // ---------------------------------------------------------------------------------------------
  // Audio
  // ---------------------------------------------------------------------------------------------

  lemma AdtsLength(a: seq<byte>, len: nat)
    requires |a| == 7 && len < 0x2000
    ensures var p := Adts(a, len);
            && FrameLength(p) == len && p[1] == a[1]
            && p[2] == a[2] && p[3] / 64 == a[3] / 64
  {
    assert (a[3] / 4 * 4 + len / 0x800) % 4 == len / 0x800;
    assert (a[5] % 32 + len % 8 * 32) / 32 == len % 8;
    assert len / 8 % 0x100 == len / 8 - len / 0x800 * 0x100;
  }

  lemma AudioPes(x: Sent)
    requires KindOf(x) == Audio
    ensures var pes := Pes(x);
            && |pes| > 14 && pes[3] == 0xC0 && pes[7] == 0x80
            && pes[9..14] == Stamp(x.frame.p.pts * 90) && pes[14..] == Lead(x.frame) + Raw(x.frame.p) + Surplus(x)
  {
    var p := x.frame.p;
    var a := [0, 0, 1, 0xC0] + BigEndian(2, |Raw(p)| + 3 + 5 + 7) + [0x80, 0x80, 5];
    FourParts(a, Stamp(p.pts * 90), Lead(x.frame), Raw(p), Surplus(x));
    var pes := Pes(x);
    assert pes[3] == pes[..9][3] && pes[7] == pes[..9][7];
  }

  lemma FourParts(a: seq<byte>, s: seq<byte>, lead: seq<byte>, raw: seq<byte>, more: seq<byte>)
    requires |a| == 9 && |s| == 5
    ensures var pes := a + s + lead + raw + more;
            pes[..9] == a && pes[9..14] == s && pes[14..] == lead + raw + more
  {
  }

  /** An audio frame comes out exactly as it went in, behind its two-byte tag, announced by its configuration. */
  lemma AudioFrameIsDelivered(x: Sent)
    requires KindOf(x) == Audio && x.frame.config.adts.Some? && x.frame.config.adts.value[1] % 2 == 1
    ensures var p := x.frame.p;
            var t := AudioTime(ReadStamp(Stamp(p.pts * 90)), 0);
            && EventsOf(x) == Some([HeaderOut(Audio, AudioConfig(Lead(x.frame))),
                                    FrameOut(Audio, true, t, t, [0xAF, 1] + Raw(p))])
            && (p.pts * 90 < 0x4000_0000 ==> t == p.pts)
  {
    hide Pes, Stamp, ReadStamp, Surplus, AudioConfig, AudioTime, AudioEvents;
    var p := x.frame.p;
    AudioPes(x);
    SurplusFits(x);
    SurplusLength(x);
    var pts := ReadStamp(Stamp(p.pts * 90));
    OneAdtsFrame(x.frame.config.adts.value, Raw(p), Surplus(x), pts);
    AudioTimeSurvives(p.pts);
  }

  lemma AudioTimeSurvives(ms: nat)
    ensures ms * 90 < 0x4000_0000 ==> AudioTime(ReadStamp(Stamp(ms * 90)), 0) == ms
  {
    hide Stamp;
    if ms * 90 < 0x4000_0000 {
      StampReads(ms * 90);
    }
  }

  lemma OneAdtsFrame(a: seq<byte>, raw: seq<byte>, more: seq<byte>, pts: nat)
    requires |a| == 7 && a[1] % 2 == 1 && |raw| + 7 < 0x2000 && |more| <= 2
    ensures var body := Adts(a, |raw| + 7) + raw + more;
            var t := AudioTime(pts, 0);
            AudioEvents(body, pts, 0)
            == Some([HeaderOut(Audio, AudioConfig(Adts(a, |raw| + 7))), FrameOut(Audio, true, t, t, [0xAF, 1] + raw)])
  {
    hide Adts, AudioTime;
    var h := Adts(a, |raw| + 7);
    var body := h + raw + more;
    AdtsLength(a, |raw| + 7);
    AdtsSlices(h, raw, more);
    assert AudioEvents(more, pts, 1) == Some([]);
    var events := [HeaderOut(Audio, AudioConfig(h)), FrameOut(Audio, true, AudioTime(pts, 0), AudioTime(pts, 0), [0xAF, 1] + raw)];
    assert events + [] == events;
  }

  lemma AdtsSlices(h: seq<byte>, raw: seq<byte>, more: seq<byte>)
    requires |h| == 7
    ensures var body := h + raw + more;
            && (forall i :: 0 <= i < 7 ==> body[i] == h[i]) && body[7..7 + |raw|] == raw && body[7 + |raw|..] == more
  {
  }

  lemma SpelledFrom(p: seq<byte>, profile: nat, rate: nat, high: nat, low: nat)
    requires |p| >= 7 && p[2] as nat / 64 == profile && p[2] as nat / 4 % 16 == rate
    requires p[2] as nat % 2 == high && p[3] as nat / 64 == low
    ensures AudioConfig(p) == Spelled(profile + 1, rate, high * 4 + low)
  {
  }

  /** What an ADTS header says about the configuration that it was made from. */
  lemma ConfigSpelled(h: seq<byte>, len: nat)
    requires |h| == 2 && len < 0x2000
    ensures AudioConfig(Adts(AdtsOf(h), len))
            == Spelled((h[0] as nat / 8 + 3) % 4 + 1, h[0] as nat % 8 * 2 + h[1] as nat / 128, h[1] as nat / 8 % 16 % 8)
  {
    hide Adts, AdtsOf, Spelled, AudioConfig;
    var a, c := AdtsOf(h), h[1] as nat / 8 % 16;
    AdtsLength(a, len);
    AdtsFields(h);
    LowThree(c);
    SpelledFrom(Adts(a, len), (h[0] as nat / 8 + 3) % 4, h[0] as nat % 8 * 2 + h[1] as nat / 128, c / 4 % 2, c % 4);
  }

  lemma LowThree(c: nat)
    requires c < 16
    ensures c / 4 % 2 * 4 + c % 4 == c % 8
  {
  }

  /** The audio configuration comes back exactly when it uses only what an ADTS header can express. */
  lemma AudioConfigSurvivesIff(h: seq<byte>, len: nat)
    requires |h| == 2 && len < 0x2000
    ensures AudioConfig(Adts(AdtsOf(h), len)) == h <==> 1 <= h[0] / 8 <= 4 && h[1] / 8 % 16 < 8 && h[1] % 8 == 0
  {
    hide Adts, AdtsOf, AudioConfig, Spelled;
    ConfigSpelled(h, len);
    ConfigBytes(h, h[0] as nat / 8, h[0] as nat % 8 * 2 + h[1] as nat / 128, h[1] as nat / 8 % 16);
  }

  /** An object type, a sampling rate index and a channel configuration as two bytes. */
  function Spelled(objectType: nat, rate: nat, channels: nat): seq<int> {
    [objectType * 8 + rate / 2, rate % 2 * 128 + channels * 8]
  }

  lemma ConfigBytes(h: seq<byte>, objectType: nat, rate: nat, channels: nat)
    requires |h| == 2
    requires objectType == h[0] / 8 && rate == h[0] as nat % 8 * 2 + h[1] as nat / 128 && channels == h[1] / 8 % 16
    ensures Spelled((objectType + 3) % 4 + 1, rate, channels % 8) == h
            <==> 1 <= objectType <= 4 && channels < 8 && h[1] % 8 == 0
  {
    var h0, h1 := h[0] as nat, h[1] as nat;
    assert h0 == objectType * 8 + h0 % 8 && rate / 2 == h0 % 8 && rate % 2 == h1 / 128;
    assert h1 == h1 / 128 * 128 + channels * 8 + h1 % 8;
    assert objectType < 32 && channels < 16;
    var s := Spelled((objectType + 3) % 4 + 1, rate, channels % 8);
    assert s[0] == h0 <==> (objectType + 3) % 4 + 1 == objectType;
    assert s[1] == h1 <==> channels % 8 * 8 == channels * 8 + h1 % 8;
  }

  lemma AdtsFields(h: seq<byte>)
    requires |h| == 2
    ensures var a := AdtsOf(h);
            && a[2] / 64 == (h[0] / 8 + 3) % 4 && a[2] as nat / 4 % 16 == h[0] as nat % 8 * 2 + h[1] as nat / 128
            && a[2] % 2 == h[1] / 8 % 16 / 4 % 2 && a[3] / 64 == h[1] / 8 % 16 % 4
  {
    Pack((h[0] as nat / 8 + 3) % 4, h[0] as nat % 8 * 2 + h[1] as nat / 128, h[1] as nat / 8 % 16 / 4 % 2);
  }

  lemma Pack(a: nat, b: nat, c: nat)
    requires a < 4 && b < 16 && c < 2
    ensures var x := a * 64 + b * 4 + c; x / 64 == a && x / 4 % 16 == b && x % 2 == c
  {
  }

  // ---------------------------------------------------------------------------------------------
  // Whole payloads
  // ---------------------------------------------------------------------------------------------

  /** Audio behind the tag of raw AAC comes back as the whole payload that was sent. */
  lemma AudioPayloadComesBack(x: Sent)
    requires KindOf(x) == Audio && x.frame.config.adts.Some? && x.frame.config.adts.value[1] % 2 == 1
    requires x.frame.p.data[..2] == [0xAF, 1] && x.frame.p.pts * 90 < 0x4000_0000
    ensures EventsOf(x) == Some([HeaderOut(Audio, AudioConfig(Lead(x.frame))),
                                 FrameOut(Audio, true, x.frame.p.pts, x.frame.p.pts, x.frame.p.data)])
  {
    hide EventsOf, AudioConfig, Lead;
    AudioFrameIsDelivered(x);
    assert [0xAF, 1] + Raw(x.frame.p) == x.frame.p.data;
  }

  /** Video behind the four bytes of its length comes back behind a start code instead, if it fills its last packet. */
  lemma VideoPayloadComesBack(x: Sent, nal: seq<byte>)
    requires KindOf(x) == Video && WellFormed(x) && FillsPackets(x.frame) && !x.frame.p.iFrame
    requires x.frame.p.data == BigEndian(4, |nal|) + nal
    requires x.frame.p.pts * 90 < 0x4000_0000 && x.frame.p.dts * 90 < 0x4000_0000
    ensures EventsOf(x) == Some([FrameOut(Video, false, x.frame.p.dts, x.frame.p.pts, [0, 0, 0, 1] + nal)])
  {
    hide EventsOf, TimeRead, WellFormed, FillsPackets, BigEndian;
    VideoFrameIsDelivered(x);
    ByteForByteIff(x);
    assert Raw(x.frame.p) == nal;
  }
}
