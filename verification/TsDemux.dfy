/** The transport stream reader itself: it moves a bit cursor through each packet and keeps what is collected per PID. */
module TsDemux {
  import opened Bytes
  import opened Media
  import opened Bits
  import opened BitIO
  import opened BitFields
  import opened ByteReader
  import opened AnnexB
  import opened TsReader
  import R = TsReader
  import opened TsRoundTrip

  lemma WithMore(a: seq<Event>, b: seq<Event>, rest: Option<seq<Event>>)
    ensures WithEvents(a, WithEvents(b, rest)) == WithEvents(a + b, rest)
    ensures WithEvents([], rest) == rest
  {
    if rest.Some? {
      assert a + (b + rest.value) == a + b + rest.value;
      assert [] + rest.value == rest.value;
    }
  }

  lemma LowFour(b: byte)
    ensures b % 16 == 0 <==> b / 8 % 2 == 0 && b / 4 % 2 == 0 && b / 2 % 2 == 0 && b % 2 == 0
  {
  }

  // ---------------------------------------------------------------------------------------------
  // Video units one by one
  // ---------------------------------------------------------------------------------------------

  /** What one unit adds to the events and to the header being gathered. */
  function UnitEvents(u: seq<byte>, header: seq<byte>, dts: nat, pts: nat): seq<Event> {
    match NalType(u)
    case 5 => [FrameOut(Video, true, dts, pts, CODE + u)]
    case 1 => [FrameOut(Video, false, dts, pts, CODE + u)]
    case 8 => if header != [] then [HeaderOut(Video, header + (CODE + u))] else []
    case _ => []
  }

  function HeaderBehind(u: seq<byte>, header: seq<byte>): seq<byte> {
    if NalType(u) in {7, 8} then header + (CODE + u) else header
  }

  function EventsOf(units: Option<seq<seq<byte>>>, header: seq<byte>, dts: nat, pts: nat): Option<seq<Event>> {
    match units
    case None => None
    case Some(us) => Some(NalEvents(us, header, dts, pts))
  }

  lemma UnitAfterUnit(u: seq<byte>, rest: Option<seq<seq<byte>>>, header: seq<byte>, dts: nat, pts: nat)
    ensures EventsOf(WithFirst(u, rest), header, dts, pts)
            == WithEvents(UnitEvents(u, header, dts, pts), EventsOf(rest, HeaderBehind(u, header), dts, pts))
  {
    if rest.Some? {
      assert ([u] + rest.value)[1..] == rest.value;
      assert [] + NalEvents(rest.value, HeaderBehind(u, header), dts, pts)
          == NalEvents(rest.value, HeaderBehind(u, header), dts, pts);
    }
  }

  lemma CutStep(p: seq<byte>, nals: seq<AnnexB.Range>, k: nat)
    requires k < |nals| && nals[k].start + nals[k].length <= |p|
    ensures Cut(p, nals[k..]) == if nals[k].length < 0 then None
                                 else WithFirst(p[nals[k].start..nals[k].start + nals[k].length], Cut(p, nals[k + 1..]))
  {
    assert nals[k..][1..] == nals[k + 1..];
  }

  /** Dispatches the units of a packet by their type. */
  method OnH264Video(p: seq<byte>, pts: nat, dts: nat) returns (ok: bool, events: seq<Event>)
    ensures H264Events(p, pts, dts) == if ok then Some(events) else None
  {
    hide Units, Cut, WithFirst, NalEvents, UnitEvents, HeaderBehind;
    events := [];
    if |p| < 4 {
      return false, [];
    }
    if p[0] != 0 || p[1] != 0 || p[2] != 0 || p[3] != 1 {
      assert p[..4][0] == p[0] && p[..4][1] == p[1] && p[..4][2] == p[2] && p[..4][3] == p[3];
      return true, [];
    }
    assert p[..4] == CODE;
    var nals := Scan(p);
    var header: seq<byte> := [];
    var k := 0;
    ghost var all := H264Events(p, pts, dts);
    assert nals[0..] == nals;
    WithMore([], [], all);
    while k < |nals|
      invariant 0 <= k <= |nals|
      invariant WithEvents(events, EventsOf(Cut(p, nals[k..]), header, dts / 90, pts / 90)) == all
    {
      var nal, len := nals[k].start, nals[k].length;
      CutStep(p, nals, k);
      if len < 0 {
        return false, [];
      }
      var u := p[nal..nal + len];
      UnitAfterUnit(u, Cut(p, nals[k + 1..]), header, dts / 90, pts / 90);
      var more, header' := OneUnit(u, header, dts / 90, pts / 90);
      WithMore(events, more, EventsOf(Cut(p, nals[k + 1..]), header', dts / 90, pts / 90));
      events, header := events + more, header';
      k := k + 1;
    }
    NothingLeft(p, nals[k..], header, dts / 90, pts / 90);
    assert events + [] == events;
    ok := true;
  }

  lemma NothingLeft(p: seq<byte>, none: seq<AnnexB.Range>, header: seq<byte>, dts: nat, pts: nat)
    requires none == []
    ensures EventsOf(Cut(p, none), header, dts, pts) == Some([])
  {
  }

  method OneUnit(u: seq<byte>, header: seq<byte>, dts: nat, pts: nat) returns (events: seq<Event>, header': seq<byte>)
    ensures events == UnitEvents(u, header, dts, pts) && header' == HeaderBehind(u, header)
  {
    var nalType := if u == [] then 0 else u[0] % 32;
    events, header' := [], header;
    if nalType == 5 {
      events := [FrameOut(Video, true, dts, pts, CODE + u)];
    } else if nalType == 1 {
      events := [FrameOut(Video, false, dts, pts, CODE + u)];
    } else if nalType == 7 {
      header' := header + (CODE + u);
    } else if nalType == 8 {
      header' := header + (CODE + u);
      if header != [] {
        events := [HeaderOut(Video, header')];
      }
    }
  }

  // ---------------------------------------------------------------------------------------------
  // Audio frames one by one
  // ---------------------------------------------------------------------------------------------

  lemma ShiftedSlice(s: seq<byte>, at: nat, i: nat)
    requires at + i < |s|
    ensures s[at..][i] == s[at + i]
  {
  }

  /** The fixed part of an ADTS header up to the channel configuration, as two bytes of AAC configuration. */
  method ReadAdtsConfig(bb: BitBuffer, ghost at: nat) returns (absent: bool, config: seq<byte>)
    requires bb.Valid() && bb.curPos == 8 * at && at + 7 <= |bb.data|
    modifies bb
    ensures bb.Valid() && bb.curPos == 8 * at + 26
    ensures absent == (bb.data[at + 1] % 2 == 1) && config == AudioConfig(bb.data[at..])
  {
    hide Pow2, Value, AudioConfig;
    ghost var s := bb.data;
    Powers();
    var _ := Take(bb, 12, at, at + 2);
    var _ := TakeBits(bb, 1, at + 1);
    var _ := TakeBits(bb, 2, at + 1);
    var protection := TakeBits(bb, 1, at + 1);
    var profile := TakeBits(bb, 2, at + 2);
    profile := profile + 1;
    var rate := TakeBits(bb, 4, at + 2);
    var _ := TakeBits(bb, 1, at + 2);
    var channels := Take(bb, 3, at + 2, at + 4);
    ConfigFields(s, at);
    absent, config := protection == 1, [profile * 8 + rate / 2, rate % 2 * 128 + channels * 8];
  }

  lemma ConfigFields(s: seq<byte>, at: nat)
    requires at + 7 <= |s|
    ensures var profile, rate, channels := s[at + 2] / 64 + 1, s[at + 2] / 4 % 16, Value(s[at + 2..at + 4]) / 64 % 8;
            && profile < 5 && rate < 16 && channels < 8
            && AudioConfig(s[at..]) == [profile * 8 + rate / 2, rate % 2 * 128 + channels * 8]
  {
    hide Value;
    ValueOfTwoBytes(s, at + 2);
    Channels(s[at + 2], s[at + 3]);
    ShiftedSlice(s, at, 2);
    ShiftedSlice(s, at, 3);
  }

  /** The rest of an ADTS header. */
  method ReadAdtsLength(bb: BitBuffer, ghost at: nat) returns (length: nat)
    requires bb.Valid() && bb.curPos == 8 * at + 26 && at + 7 <= |bb.data|
    modifies bb
    ensures bb.Valid() && bb.curPos == 8 * at + 56 && length == FrameLength(bb.data[at..])
  {
    hide Pow2, Value;
    ghost var s := bb.data;
    Powers();
    var _ := TakeBits(bb, 1, at + 3);
    var _ := TakeBits(bb, 1, at + 3);
    var _ := TakeBits(bb, 1, at + 3);
    var _ := TakeBits(bb, 1, at + 3);
    length := Take(bb, 13, at + 3, at + 6);
    ValueOfThreeBytes(s, at + 3);
    Length13(s[at + 3], s[at + 4], s[at + 5]);
    ShiftedSlice(s, at, 3);
    ShiftedSlice(s, at, 4);
    ShiftedSlice(s, at, 5);
    var _ := Take(bb, 11, at + 5, at + 7);
    var _ := TakeBits(bb, 2, at + 6);
  }

  lemma ValueOfTwoBytes(s: seq<byte>, i: nat)
    requires i + 2 <= |s|
    ensures Value(s[i..i + 2]) == 256 * s[i] as int + s[i + 1]
  {
    ValueOfTwo(s[i], s[i + 1]);
    assert s[i..i + 2] == [s[i], s[i + 1]];
  }

  lemma ValueOfThreeBytes(s: seq<byte>, i: nat)
    requires i + 3 <= |s|
    ensures Value(s[i..i + 3]) == 0x1_0000 * s[i] as int + 256 * s[i + 1] as int + s[i + 2]
  {
    ValueOfTwoBytes(s, i);
    ValueOfSnoc(s[i..i + 2], s[i + 2]);
    assert s[i..i + 3] == s[i..i + 2] + [s[i + 2]];
  }

  lemma Channels(a: byte, b: byte)
    ensures (256 * a as int + b) / 64 % 8 == a as int % 2 * 4 + b as int / 64
  {
  }

  lemma Length13(a: byte, b: byte, c: byte)
    ensures (0x1_0000 * a as int + 256 * b as int + c) / 32 % 0x2000 == a as int % 4 * 0x800 + b as int * 8 + c as int / 32
  {
    var q := a as int * 0x800 + b as int * 8 + c as int / 32;
    assert (0x1_0000 * a as int + 256 * b as int + c) / 32 == q;
    assert q == a as int / 4 * 0x2000 + (a as int % 4 * 0x800 + b as int * 8 + c as int / 32);
  }

  lemma AudioStep(p: seq<byte>, pts: nat, i: nat)
    ensures |p| < 7 ==> AudioEvents(p, pts, i) == Some([])
    ensures |p| >= 7 ==>
              var skip := if p[1] % 2 == 1 then 7 else 9;
              var header, len := HeaderOut(Audio, AudioConfig(p)), FrameLength(p) - skip;
              && (len < 0 || |p| < skip ==> AudioEvents(p, pts, i) == None)
              && (len >= 0 && |p| >= skip ==>
                    AudioEvents(p, pts, i)
                    == if len > |p| - skip then Some([header])
                       else
                         var t := AudioTime(pts, i);
                         WithEvents([header, FrameOut(Audio, true, t, t, [0xAF, 1] + p[skip..skip + len])],
                                    AudioEvents(p[skip + len..], pts, i + 1)))
  {
    hide AudioConfig, FrameLength, AudioTime;
  }

  lemma Deeper(s: seq<byte>, at: nat, skip: nat, len: nat)
    requires at + skip + len <= |s|
    ensures s[at..][skip..skip + len] == s[at + skip..at + skip + len] && s[at..][skip + len..] == s[at + skip + len..]
  {
  }

  /** Every frame behind an ADTS header, each announced by its configuration. */
  method OnAudio(bb: BitBuffer, pts: nat) returns (ok: bool, events: seq<Event>)
    requires bb.Valid() && bb.curPos % 8 == 0
    modifies bb
    ensures AudioEvents(bb.data[old(bb.curPos) / 8..], pts, 0) == if ok then Some(events) else None
  {
    hide AudioEvents, AudioConfig, FrameLength, AudioTime, WithEvents;
    ghost var s, all := bb.data, AudioEvents(bb.data[bb.curPos / 8..], pts, 0);
    events := [];
    var i, at := 0, bb.curPos / 8;
    WithMore([], [], all);
    while |bb.data| - at >= 7
      invariant bb.Valid() && bb.curPos == 8 * at
      invariant WithEvents(events, AudioEvents(s[at..], pts, i)) == all
    {
      AudioStep(s[at..], pts, i);
      ShiftedSlice(s, at, 1);
      var absent, config := ReadAdtsConfig(bb, at);
      var length := ReadAdtsLength(bb, at);
      var skip := if absent then 7 else 9;
      var len := length - skip;
      if len < 0 || |bb.data| - at < skip {
        NoEvents(events);
        return false, [];
      }
      if !absent {
        var _, _ := bb.GetBits(16);
      }
      events := events + [HeaderOut(Audio, config)];
      if len > |bb.data| - at - skip {
        JustEvents(events[..|events| - 1], [HeaderOut(Audio, config)]);
        return true, events;
      }
      Deeper(s, at, skip, len);
      var t := AudioTime(pts, i);
      var frame := FrameOut(Audio, true, t, t, [0xAF, 1] + bb.data[at + skip..at + skip + len]);
      WithMore(events[..|events| - 1], [HeaderOut(Audio, config), frame], AudioEvents(s[at + skip + len..], pts, i + 1));
      TwoMore(events[..|events| - 1], HeaderOut(Audio, config), frame);
      events := events + [frame];
      bb.SkipBytes(len);
      at := at + skip + len;
      i := i + 1;
    }
    AudioStep(s[at..], pts, i);
    JustEvents(events, []);
    assert events + [] == events;
    ok := true;
  }

  lemma NoEvents(a: seq<Event>)
    ensures WithEvents(a, None) == None
  {
  }

  lemma JustEvents(a: seq<Event>, b: seq<Event>)
    ensures WithEvents(a, Some(b)) == Some(a + b)
  {
  }

  lemma TwoMore(a: seq<Event>, x: Event, y: Event)
    ensures a + [x] + [y] == a + [x, y]
  {
  }

  // ---------------------------------------------------------------------------------------------
  // Elementary stream packets
  // ---------------------------------------------------------------------------------------------

  lemma StampIsTogether(s: seq<byte>, at: nat)
    requires at + 5 <= |s|
    ensures ReadStamp(s[at..at + 5]) == Together(s[at] / 2 % 8, Value(s[at + 1..at + 3]) / 2, Value(s[at + 3..at + 5]) / 2)
  {
    hide Value;
    var t := s[at..at + 5];
    SliceOfSlice(s, at, at + 5, 1, 3);
    SliceOfSlice(s, at, at + 5, 3, 5);
  }

  lemma HalfFits(s: seq<byte>, i: nat)
    requires i + 2 <= |s|
    ensures Value(s[i..i + 2]) / 2 < 0x8000
  {
    ValueOfTwoBytes(s, i);
  }

  /** A time stamp: three fields, each followed by a marker bit. */
  method TakeStamp(bb: BitBuffer, ghost at: nat) returns (stamp: nat)
    requires bb.Valid() && bb.curPos == 8 * at && at + 5 <= |bb.data|
    modifies bb
    ensures bb.Valid() && bb.curPos == 8 * at + 40 && stamp == ReadStamp(bb.data[at..at + 5])
  {
    hide Pow2, Value, ReadStamp;
    Powers();
    var _ := TakeBits(bb, 4, at);
    var top := TakeBits(bb, 3, at);
    var _ := TakeBits(bb, 1, at);
    var mid := Take(bb, 15, at + 1, at + 3);
    var _ := TakeBits(bb, 1, at + 2);
    var low := Take(bb, 15, at + 3, at + 5);
    var _ := TakeBits(bb, 1, at + 4);
    HalfFits(bb.data, at + 1);
    HalfFits(bb.data, at + 3);
    StampIsTogether(bb.data, at);
    stamp := Together(top, mid, low);
  }

  /** The stream id, the time stamp flags, and whether any other flag is set. */
  method ReadPesHead(bb: BitBuffer) returns (id: nat, flags: nat, others: nat)
    requires bb.Valid() && bb.curPos == 0 && |bb.data| >= 9
    modifies bb
    ensures bb.Valid() && bb.curPos == 72
    ensures id == bb.data[3] && flags == bb.data[7] / 64 && others == bb.data[7] % 64
  {
    hide Pow2, Value;
    Powers();
    var _ := Take(bb, 24, 0, 3);
    id := TakeBits(bb, 8, 3);
    var _ := Take(bb, 16, 4, 6);
    var _ := TakeBits(bb, 2, 6);
    var _ := TakeBits(bb, 2, 6);
    var _ := TakeBits(bb, 1, 6);
    var _ := TakeBits(bb, 1, 6);
    var _ := TakeBits(bb, 1, 6);
    var _ := TakeBits(bb, 1, 6);
    flags := TakeBits(bb, 2, 7);
    others := TakeBits(bb, 6, 7);
    var _ := TakeBits(bb, 8, 8);
  }

  // ---------------------------------------------------------------------------------------------
  // The parts of a transport packet
  // ---------------------------------------------------------------------------------------------

  /** The flags of an adaptation field: whether it has a clock reference, and whether it has anything else. */
  method ReadFlags(bb: BitBuffer, ghost at: nat) returns (pcr: bool, others: bool)
    requires bb.Valid() && bb.curPos == 8 * at && at < |bb.data|
    modifies bb
    ensures bb.Valid() && bb.curPos == 8 * at + 8
    ensures pcr == (bb.data[at] / 16 % 2 == 1) && others == (bb.data[at] % 16 != 0)
  {
    hide Pow2, Value;
    Powers();
    LowFour(bb.data[at]);
    var _ := TakeBits(bb, 1, at);
    var _ := TakeBits(bb, 1, at);
    var _ := TakeBits(bb, 1, at);
    var clock := TakeBits(bb, 1, at);
    var opcr := TakeBits(bb, 1, at);
    var splicing := TakeBits(bb, 1, at);
    var private := TakeBits(bb, 1, at);
    var extension := TakeBits(bb, 1, at);
    pcr, others := clock == 1, opcr == 1 || splicing == 1 || private == 1 || extension == 1;
  }

  /** Moves behind stuffing, provided every byte of it is all ones. */
  method SkipStuffing(bb: BitBuffer, left: nat) returns (ok: bool)
    requires bb.Valid() && bb.curPos % 8 == 0 && bb.curPos / 8 + left <= |bb.data|
    modifies bb
    ensures bb.Valid() && ok == AllStuffing(bb.data[old(bb.curPos) / 8..old(bb.curPos) / 8 + left])
    ensures ok ==> bb.curPos == old(bb.curPos) + 8 * left
  {
    hide Pow2, Value;
    Powers();
    ghost var s, at := bb.data, bb.curPos / 8;
    var i := 0;
    while i < left
      invariant 0 <= i <= left && bb.Valid() && bb.curPos == 8 * (at + i)
      invariant forall j :: at <= j < at + i ==> s[j] == 0xFF
    {
      var stuffing := TakeBits(bb, 8, at + i);
      if stuffing != 0xFF {
        assert s[at..at + left][i] == s[at + i];
        return false;
      }
      i := i + 1;
    }
    ok := true;
  }

  /** Moves behind the adaptation field, provided its stuffing is intact. */
  method ParseAdaptation(bb: BitBuffer) returns (ok: bool)
    requires bb.Valid() && bb.curPos % 8 == 0
    modifies bb
    ensures bb.Valid()
    ensures match SkipAdaptation(bb.data, old(bb.curPos) / 8)
            case None => !ok
            case Some(end) => ok && bb.curPos == 8 * end
  {
    hide Pow2, Value, AllStuffing;
    ghost var at := bb.curPos / 8;
    Powers();
    if bb.curPos / 8 >= |bb.data| {
      return false;
    }
    var length := TakeBits(bb, 8, at);
    if length == 0 {
      return true;
    }
    var begin := |bb.data| - bb.curPos / 8;
    if length > begin {
      return false;
    }
    var pcr, others := ReadFlags(bb, at + 1);
    if others {
      return false;
    }
    if pcr {
      if length < 7 {
        return false;
      }
      var _, _ := bb.GetBits(33);
      var _, _ := bb.GetBits(6);
      var _, _ := bb.GetBits(9);
    }
    var end := |bb.data| - bb.curPos / 8;
    ok := SkipStuffing(bb, length - (begin - end));
  }

  lemma TailFields(s: seq<byte>, at: nat, lo: nat, hi: nat)
    requires at + hi <= |s| && lo <= hi
    ensures s[at..][lo..hi] == s[at + lo..at + hi]
  {
  }

  lemma TailIsDropped(s: seq<byte>, at: nat, n: nat)
    requires at + n <= |s|
    ensures s[at..][n..] == s[at + n..] && |s[at..]| == |s| - at
  {
  }

  /** The fields of a section up to its numbers: only its length matters. */
  method ReadSectionHead(bb: BitBuffer, ghost at: nat) returns (length: nat)
    requires bb.Valid() && bb.curPos == 8 * at && at + 8 <= |bb.data|
    modifies bb
    ensures bb.Valid() && bb.curPos == 8 * at + 64 && length == Value(bb.data[at..][1..3]) % 0x1000
  {
    hide Pow2, Value;
    Powers();
    TailFields(bb.data, at, 1, 3);
    var _ := TakeBits(bb, 8, at);
    var _ := TakeBits(bb, 1, at + 1);
    var _ := TakeBits(bb, 1, at + 1);
    var _ := TakeBits(bb, 2, at + 1);
    length := Take(bb, 12, at + 1, at + 3);
    var _ := Take(bb, 16, at + 3, at + 5);
    var _ := TakeBits(bb, 2, at + 5);
    var _ := TakeBits(bb, 5, at + 5);
    var _ := TakeBits(bb, 1, at + 5);
    var _ := TakeBits(bb, 8, at + 6);
    var _ := TakeBits(bb, 8, at + 7);
  }

  lemma StreamStep(r: Reader, t: seq<byte>, left: int)
    ensures left <= 0 || |t| <= 4 ==> ReadStreams(r, t, left) == Some(r)
    ensures left > 0 && |t| > 4 ==>
              ReadStreams(r, t, left)
              == match SkipDescriptors(t[5..], Value(t[3..5]) % 0x1000)
                 case None => None
                 case Some(rest) => ReadStreams(VideoTypeFrom(r, t[0]), rest, left - (|t| - |rest|))
  {
    hide Value, SkipDescriptors;
  }

  /** Moves behind one descriptor. */
  method ParseDescriptor(bb: BitBuffer) returns (ok: bool)
    requires Aligned(bb) && Left(bb) != []
    modifies bb
    ensures Aligned(bb) && ok == (DescriptorLength(old(Left(bb))) <= |old(Left(bb))|)
    ensures ok ==> Left(bb) == old(Left(bb))[DescriptorLength(old(Left(bb)))..]
  {
    hide Value;
    ghost var t := Left(bb);
    var _, _ := GetBytes(bb, 1);
    var more, length := GetBytes(bb, 1);
    if more {
      FirstByte(t[1..]);
    } else {
      length := 0;
    }
    ok := |bb.data| - bb.curPos / 8 >= length;
    if ok {
      var _ := GetString(bb, length);
    }
  }

  lemma DescriptorStep(t: seq<byte>, left: nat)
    requires left > 0
    ensures SkipDescriptors(t, left)
            == if t == [] || |t| < DescriptorLength(t) then None
               else SkipDescriptors(t[DescriptorLength(t)..], (left - DescriptorLength(t)) % 0x1_0000)
  {
  }

  /** Moves behind descriptors of `length` bytes in all. */
  method PassDescriptors(bb: BitBuffer, length: nat) returns (ok: bool)
    requires Aligned(bb)
    modifies bb
    ensures Aligned(bb)
    ensures match SkipDescriptors(old(Left(bb)), length)
            case None => !ok
            case Some(rest) => ok && Left(bb) == rest
  {
    hide SkipDescriptors, DescriptorLength;
    ghost var all := SkipDescriptors(Left(bb), length);
    var left: int := length;
    while left > 0
      invariant 0 <= left && Aligned(bb) && SkipDescriptors(Left(bb), left) == all
      decreases |Left(bb)|
    {
      DescriptorStep(Left(bb), left);
      var begin := |bb.data| - bb.curPos / 8;
      if begin == 0 {
        return false;
      }
      ghost var t := Left(bb);
      LengthIsPositive(t);
      ok := ParseDescriptor(bb);
      if !ok {
        return;
      }
      var end := |bb.data| - bb.curPos / 8;
      left := (left - (begin - end)) % 0x1_0000;
    }
    SkipNone(Left(bb));
    ok := true;
  }

  lemma LengthIsPositive(t: seq<byte>)
    requires t != []
    ensures DescriptorLength(t) > 0
  {
  }

  lemma SkipNone(t: seq<byte>)
    ensures SkipDescriptors(t, 0) == Some(t)
  {
  }

  /** One entry of a program map: the stream type and the length of its descriptors. */
  method ReadEntry(bb: BitBuffer) returns (streamType: byte, esInfoLength: nat)
    requires Aligned(bb) && |Left(bb)| >= 5
    modifies bb
    ensures Aligned(bb) && Left(bb) == old(Left(bb))[5..]
    ensures streamType == old(Left(bb))[0] && esInfoLength == Value(old(Left(bb))[3..5]) % 0x1000
  {
    hide Pow2, Value;
    ghost var at := bb.curPos / 8;
    Powers();
    TailFields(bb.data, at, 3, 5);
    ShiftedSlice(bb.data, at, 0);
    TailIsDropped(bb.data, at, 5);
    var kind := TakeBits(bb, 8, at);
    var _ := TakeBits(bb, 3, at + 1);
    var _ := Take(bb, 13, at + 1, at + 3);
    var _ := TakeBits(bb, 4, at + 3);
    esInfoLength := Take(bb, 12, at + 3, at + 5);
    streamType := kind as byte;
  }

  class Demuxer {
    var pmtPid: nat
    var videoType: Option<nat>
    var pes: map<nat, seq<byte>>
    var out: seq<Event>

    function State(): Reader
      reads this
    {
      Reader(pmtPid, videoType, pes, out)
    }

    constructor ()
      ensures State() == FRESH
    {
      pmtPid, videoType, pes, out := 0xFFFF, None, map[], [];
    }

    /** Takes the PID of the program map out of the association table. */
    method ParsePAT(bb: BitBuffer) returns (ok: bool)
      requires bb.Valid() && bb.curPos % 8 == 0
      modifies bb, this`pmtPid
      ensures match ReadPat(old(State()), bb.data[old(bb.curPos) / 8..])
              case None => !ok
              case Some(r) => ok && State() == r
    {
      hide Pow2, Value;
      ghost var at := bb.curPos / 8;
      Powers();
      if |bb.data| - bb.curPos / 8 < 16 {
        return false;
      }
      TailFields(bb.data, at, 8, 10);
      TailFields(bb.data, at, 10, 12);
      var _ := ReadSectionHead(bb, at);
      var programNumber := Take(bb, 16, at + 8, at + 10);
      var _ := TakeBits(bb, 3, at + 10);
      var pid := Take(bb, 13, at + 10, at + 12);
      NumberBound(bb.data, at + 8);
      if programNumber != 0 {
        pmtPid := pid;
      }
      var _, _ := bb.GetBits(32);
      ok := true;
    }

    /** Takes the type of the video stream out of the program map. */
    method ParsePMT(bb: BitBuffer) returns (ok: bool)
      requires bb.Valid() && bb.curPos % 8 == 0
      modifies bb, this`videoType
      ensures match ReadPmt(old(State()), bb.data[old(bb.curPos) / 8..])
              case None => !ok
              case Some(r) => ok && State() == r
    {
      hide Pow2, Value, ReadStreams, SkipDescriptors;
      ghost var s, at := bb.data, bb.curPos / 8;
      Powers();
      if |bb.data| - bb.curPos / 8 < 12 {
        return false;
      }
      TailFields(s, at, 10, 12);
      TailIsDropped(s, at, 12);
      var sectionLength := ReadSectionHead(bb, at);
      var _ := TakeBits(bb, 3, at + 8);
      var _ := Take(bb, 13, at + 8, at + 10);
      var _ := TakeBits(bb, 4, at + 10);
      var programInfoLength := Take(bb, 12, at + 10, at + 12);
      var left: int := (sectionLength as int - 9) % 0x1_0000 - 4;
      ok := PassDescriptors(bb, programInfoLength);
      if !ok {
        return;
      }
      ok := ReadEntries(bb, left);
      if ok {
        var _, _ := bb.GetBits(32);
      }
    }

    method ReadEntries(bb: BitBuffer, esInfoBytes: int) returns (ok: bool)
      requires Aligned(bb)
      modifies bb, this`videoType
      ensures Aligned(bb)
      ensures match ReadStreams(old(State()), old(Left(bb)), esInfoBytes)
              case None => !ok
              case Some(r) => ok && State() == r
    {
      hide Value, ReadStreams, SkipDescriptors;
      ghost var all := ReadStreams(State(), Left(bb), esInfoBytes);
      var left := esInfoBytes;
      while |bb.data| - bb.curPos / 8 > 4 && left > 0
        invariant Aligned(bb) && ReadStreams(State(), Left(bb), left) == all
        decreases |Left(bb)|
      {
        StreamStep(State(), Left(bb), left);
        var begin := |bb.data| - bb.curPos / 8;
        var streamType, esInfoLength := ReadEntry(bb);
        if streamType == 0x1B || streamType == 0x24 {
          videoType := Some(streamType as nat);
        }
        ok := PassDescriptors(bb, esInfoLength);
        if !ok {
          return;
        }
        var end := |bb.data| - bb.curPos / 8;
        left := left - (begin - end);
      }
      StreamStep(State(), Left(bb), left);
      ok := true;
    }

    /** Takes a complete elementary stream packet apart and hands out what is in it. */
    method ParsePES(pid: nat) returns (ok: bool)
      modifies this`pes, this`out
      ensures match PesEvents(Pending(old(State()), pid), videoType)
              case None => !ok
              case Some(events) => ok && State() == old(State()).(pes := old(pes)[pid := []], out := old(out) + events)
    {
      var packet := if pid in pes then pes[pid] else [];
      var events;
      ok, events := ReadPes(packet, videoType);
      if ok {
        out := out + events;
        pes := pes[pid := []];
      }
    }

    method CollectPES(pid: nat, contents: seq<byte>)
      modifies this`pes
      ensures pes == old(pes)[pid := Pending(old(State()), pid) + contents]
    {
      pes := pes[pid := (if pid in pes then pes[pid] else []) + contents];
    }

    method ParseTsSegment(data: seq<byte>) returns (ok: bool)
      requires |data| == PACKET_SIZE
      modifies this
      ensures match ReadPacket(old(State()), data)
              case None => !ok
              case Some(r) => ok && State() == r
    {
      hide Pow2, Value, SkipAdaptation, ReadPat, ReadPmt, Collect;
      var bb := new BitBuffer(data);
      var start, pid, adaptation := ReadTsHead(bb);
      if start && (pid == 0 || pid == pmtPid) {
        var _ := TakeBits(bb, 8, 4);
      }
      if adaptation {
        ok := ParseAdaptation(bb);
        if !ok {
          return;
        }
      }
      var at := bb.curPos / 8;
      if at > |data| {
        return false;
      }
      if pid == 0 {
        ok := ParsePAT(bb);
      } else if pid == pmtPid {
        ok := ParsePMT(bb);
      } else {
        ok := OnContents(pid, start, data[at..]);
      }
    }

    /** The contents of a packet: the start of a unit completes the one before. */
    method OnContents(pid: nat, start: bool, contents: seq<byte>) returns (ok: bool)
      modifies this`pes, this`out
      ensures match Collect(old(State()), pid, start, contents)
              case None => !ok
              case Some(r) => ok && State() == r
    {
      hide PesEvents;
      ok := true;
      if start {
        ok := ParsePES(pid);
      }
      if ok {
        CollectPES(pid, contents);
        assert [] + contents == contents;
      }
    }

    /** Whole packets as long as the sync byte is in place. */
    method ParseTs(data: seq<byte>) returns (ok: bool)
      modifies this
      ensures match R.ParseTs(old(State()), data)
              case None => !ok
              case Some(r) => ok && State() == r
    {
      hide ReadPacket, ReadAll;
      if |data| % PACKET_SIZE != 0 {
        return false;
      }
      ghost var all := ReadAll(State(), data);
      assert data[0..] == data;
      var at := 0;
      while |data| - at >= PACKET_SIZE && data[at] == 0x47
        invariant 0 <= at <= |data| && ReadAll(State(), data[at..]) == all
      {
        ReadStep(State(), data[at..]);
        Deeper(data, at, 0, PACKET_SIZE);
        ok := ParseTsSegment(data[at..at + PACKET_SIZE]);
        if !ok {
          return;
        }
        at := at + PACKET_SIZE;
      }
      ReadStep(State(), data[at..]);
      ok := true;
    }
  }

  lemma ReadStep(r: Reader, s: seq<byte>)
    ensures |s| < PACKET_SIZE || s[0] != 0x47 ==> ReadAll(r, s) == Some(r)
    ensures |s| >= PACKET_SIZE && s[0] == 0x47 ==>
              ReadAll(r, s) == match ReadPacket(r, s[0..PACKET_SIZE])
                               case None => None
                               case Some(r') => ReadAll(r', s[PACKET_SIZE..])
  {
    hide ReadPacket;
    if |s| >= PACKET_SIZE {
      assert s[0..PACKET_SIZE] == s[..PACKET_SIZE];
    }
  }

  lemma NumberBound(s: seq<byte>, i: nat)
    requires i + 2 <= |s|
    ensures Value(s[i..i + 2]) < 0x1_0000
  {
    ValueOfTwoBytes(s, i);
  }

  /** The head of a transport packet. */
  method ReadTsHead(bb: BitBuffer) returns (start: bool, pid: nat, adaptation: bool)
    requires bb.Valid() && bb.curPos == 0 && |bb.data| == PACKET_SIZE
    modifies bb
    ensures bb.Valid() && bb.curPos == 32
    ensures start == StartIn(bb.data) && pid == PidIn(bb.data) && adaptation == (bb.data[3] / 32 % 2 == 1)
  {
    hide Pow2, Value;
    Powers();
    var _ := TakeBits(bb, 8, 0);
    var _ := TakeBits(bb, 1, 1);
    var unitStart := TakeBits(bb, 1, 1);
    var _ := TakeBits(bb, 1, 1);
    pid := Take(bb, 13, 1, 3);
    var _ := TakeBits(bb, 2, 3);
    var control := TakeBits(bb, 2, 3);
    var _ := TakeBits(bb, 4, 3);
    start, adaptation := unitStart == 1, control == 2 || control == 3;
  }

  /** The events of a complete packet: its time stamps, and the frames of the stream it belongs to. */
  method ReadPes(packet: seq<byte>, videoType: Option<nat>) returns (ok: bool, events: seq<Event>)
    ensures PesEvents(packet, videoType) == if ok then Some(events) else None
  {
    hide Pow2, Value, ReadStamp, H264Events, AudioEvents, AudioConfig;
    if |packet| == 0 {
      return true, [];
    }
    if |packet| < 9 {
      return false, [];
    }
    var bb := new BitBuffer(packet);
    var id, flags, others := ReadPesHead(bb);
    if id in PLAIN_STREAMS {
      return true, [];
    }
    if others != 0 || |packet| < (if flags == 3 then 19 else if flags == 2 then 14 else 9) {
      return false, [];
    }
    var pts, dts := 0, 0;
    if flags == 2 {
      pts := TakeStamp(bb, 9);
      dts := pts;
    }
    if flags == 3 {
      pts := TakeStamp(bb, 9);
      dts := TakeStamp(bb, 14);
    }
    if 224 <= id <= 239 {
      if videoType != Some(H264) {
        return false, [];
      }
      ok, events := OnH264Video(packet[bb.curPos / 8..], pts, dts);
    } else if 192 <= id <= 223 {
      ok, events := OnAudio(bb, pts);
    } else {
      ok, events := true, [];
    }
    if !ok {
      events := [];
    }
  }
}
