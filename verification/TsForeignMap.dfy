/** What the reader makes of program maps with descriptors, in the layout of ISO/IEC 13818-1, section 2.4.4.8. */
module TsForeignMap {
  import opened Bytes
  import opened Media
  import opened TsReader
  import opened TsRoundTrip

  datatype Descriptor = Descriptor(tag: byte, body: seq<byte>)

  datatype Entry = Entry(streamType: byte, pid: nat, descriptors: seq<Descriptor>)

  predicate Short(ds: seq<Descriptor>) {
    forall i :: 0 <= i < |ds| ==> |ds[i].body| < 0x100
  }

  function DescriptorBytes(ds: seq<Descriptor>): seq<byte>
    requires Short(ds)
  {
    if ds == [] then [] else [ds[0].tag, |ds[0].body|] + ds[0].body + DescriptorBytes(ds[1..])
  }

  predicate Fits(e: Entry) {
    e.pid < 0x2000 && Short(e.descriptors) && |DescriptorBytes(e.descriptors)| < 0x1000
  }

  predicate AllFit(es: seq<Entry>) {
    forall i :: 0 <= i < |es| ==> Fits(es[i])
  }

  function EntryBytes(es: seq<Entry>): seq<byte>
    requires AllFit(es)
  {
    if es == [] then []
    else
      var ds := DescriptorBytes(es[0].descriptors);
      [es[0].streamType] + BigEndian(2, 0xE000 + es[0].pid) + BigEndian(2, 0xF000 + |ds|) + ds + EntryBytes(es[1..])
  }

  /** A map for one program: its number and version, the PID of its clock, its own descriptors, and its streams. */
  datatype Map = Map(number: (byte, byte), version: byte, clockPid: nat, info: seq<Descriptor>, streams: seq<Entry>)

  predicate Proper(m: Map) {
    && m.clockPid < 0x2000 && Short(m.info) && AllFit(m.streams)
    && |DescriptorBytes(m.info)| + |EntryBytes(m.streams)| < 0x1000 - 13
  }

  /** The section from its table id on, with its checksum and the stuffing behind it. */
  function MapBytes(m: Map, crc: seq<byte>, fill: nat): seq<byte>
    requires Proper(m)
  {
    var info, streams := DescriptorBytes(m.info), EntryBytes(m.streams);
    [2] + BigEndian(2, 0xB000 + 9 + |info| + |streams| + 4) + [m.number.0, m.number.1, m.version, 0, 0]
    + BigEndian(2, 0xE000 + m.clockPid) + BigEndian(2, 0xF000 + |info|) + info + streams + crc + seq(fill, _ => 0xFF)
  }

  /** The video stream that is listed last decides. */
  function VideoType(es: seq<Entry>, before: Option<nat>): Option<nat> {
    if es == [] then before
    else if Last(es).streamType in {0x1B, 0x24} then Some(Last(es).streamType as nat)
    else VideoType(es[..|es| - 1], before)
  }

  // ---------------------------------------------------------------------------------------------
  // Descriptors and entries
  // ---------------------------------------------------------------------------------------------

  lemma {:induction false} DescriptorsAreSkipped(ds: seq<Descriptor>, rest: seq<byte>)
    requires Short(ds) && |DescriptorBytes(ds)| < 0x1_0000
    ensures SkipDescriptors(DescriptorBytes(ds) + rest, |DescriptorBytes(ds)|) == Some(rest)
    decreases |ds|
  {
    if ds == [] {
      assert [] + rest == rest;
    } else {
      var h: seq<byte> := [ds[0].tag, |ds[0].body|];
      var d, more := h + ds[0].body, DescriptorBytes(ds[1..]);
      var t := DescriptorBytes(ds) + rest;
      assert t == d + (more + rest);
      assert t[0] == d[0] && t[1] == d[1] == |ds[0].body|;
      assert DescriptorLength(t) == |d| && t[|d|..] == more + rest;
      DescriptorsAreSkipped(ds[1..], rest);
      assert (|DescriptorBytes(ds)| - |d|) % 0x1_0000 == |more|;
    }
  }

  lemma {:induction false} VideoTypeFirst(es: seq<Entry>, before: Option<nat>)
    requires es != []
    ensures VideoType(es, before)
            == VideoType(es[1..], if es[0].streamType in {0x1B, 0x24} then Some(es[0].streamType as nat) else before)
    decreases |es|
  {
    if |es| > 1 {
      assert es[1..][..|es| - 2] == es[..|es| - 1][1..];
      VideoTypeFirst(es[..|es| - 1], before);
    }
  }

  lemma EntryFields(x: byte, pid: nat, n: nat, ds: seq<byte>, rest: seq<byte>)
    requires pid < 0x2000 && n < 0x1000
    ensures var t := [x] + BigEndian(2, 0xE000 + pid) + BigEndian(2, 0xF000 + n) + ds + rest;
            |t| >= 5 && t[0] == x && Value(t[3..5]) % 0x1000 == n && t[5..] == ds + rest
  {
    hide Value, BigEndian;
    var t := [x] + BigEndian(2, 0xE000 + pid) + BigEndian(2, 0xF000 + n) + ds + rest;
    assert t[3..5] == BigEndian(2, 0xF000 + n);
    Ranges();
    FieldRoundTrip(2, 0xF000 + n);
  }

  /** The entries are read one by one; `left` bytes are counted beyond them. */
  lemma {:induction false} EntriesAreRead(r: Reader, es: seq<Entry>, rest: seq<byte>, left: nat)
    requires AllFit(es)
    ensures ReadStreams(r, EntryBytes(es) + rest, |EntryBytes(es)| + left)
            == ReadStreams(r.(videoType := VideoType(es, r.videoType)), rest, left)
    decreases |es|
  {
    hide ReadStreams, VideoType, Value, BigEndian, SkipDescriptors, DescriptorBytes;
    if es == [] {
      assert [] + rest == rest;
      NoEntries(r);
    } else {
      var e, ds, more := es[0], DescriptorBytes(es[0].descriptors), EntryBytes(es[1..]);
      var t := EntryBytes(es) + rest;
      EntryFields(e.streamType, e.pid, |ds|, ds, more + rest);
      var d := [e.streamType] + BigEndian(2, 0xE000 + e.pid) + BigEndian(2, 0xF000 + |ds|) + ds;
      Associate(d, more, rest);
      DescriptorsAreSkipped(e.descriptors, more + rest);
      StreamStep(r, t, |EntryBytes(es)| + left, |ds|, more + rest);
      EntriesAreRead(VideoTypeFrom(r, e.streamType), es[1..], rest, left);
      VideoTypeFirst(es, r.videoType);
    }
  }

  lemma NoEntries(r: Reader)
    ensures r.(videoType := VideoType([], r.videoType)) == r
  {
  }

  lemma StreamStep(r: Reader, t: seq<byte>, left: int, n: nat, rest: seq<byte>)
    requires left > 0 && |t| >= 5 && Value(t[3..5]) % 0x1000 == n && SkipDescriptors(t[5..], n) == Some(rest)
    ensures ReadStreams(r, t, left) == ReadStreams(VideoTypeFrom(r, t[0]), rest, left - (|t| - |rest|))
  {
    hide Value, SkipDescriptors;
  }

  // ---------------------------------------------------------------------------------------------
  // Maps
  // ---------------------------------------------------------------------------------------------

  lemma MapFields(m: Map, crc: seq<byte>, fill: nat)
    requires Proper(m) && |crc| == 4
    ensures var t, info, streams := MapBytes(m, crc, fill), DescriptorBytes(m.info), EntryBytes(m.streams);
            && |t| >= 12 && Value(t[1..3]) % 0x1000 == 13 + |info| + |streams| && Value(t[10..12]) % 0x1000 == |info|
            && t[12..] == info + (streams + (crc + seq(fill, _ => 0xFF)))
  {
    hide Value, BigEndian;
    var info, streams, stuffing := DescriptorBytes(m.info), EntryBytes(m.streams), seq(fill, _ => 0xFF);
    var a, b, c, d := BigEndian(2, 0xB000 + 9 + |info| + |streams| + 4), [m.number.0, m.number.1, m.version, 0, 0],
      BigEndian(2, 0xE000 + m.clockPid), BigEndian(2, 0xF000 + |info|);
    Ranges();
    FieldRoundTrip(2, 0xB000 + 9 + |info| + |streams| + 4);
    FieldRoundTrip(2, 0xF000 + |info|);
    MapParts(a, b, c, d, info, streams, crc, stuffing);
  }

  lemma MapParts(a: seq<byte>, b: seq<byte>, c: seq<byte>, d: seq<byte>, info: seq<byte>, streams: seq<byte>,
                 crc: seq<byte>, fill: seq<byte>)
    requires |a| == |c| == |d| == 2 && |b| == 5
    ensures var t := [2] + a + b + c + d + info + streams + crc + fill;
            t[1..3] == a && t[10..12] == d && t[12..] == info + (streams + (crc + fill))
  {
    var t := [2] + a + b + c + d + info + streams + crc + fill;
    assert t == ([2] + a + b + c + d) + (info + (streams + (crc + fill)));
  }

  /** Bytes of stuffing are no descriptor that ends within a packet. */
  lemma StuffingIsNoDescriptor(t: seq<byte>, left: nat)
    requires AllStuffing(t) && |t| < 257 && 1 < left < 0x1_0000
    ensures SkipDescriptors(t, left) == None
  {
    if |t| == 1 {
      assert SkipDescriptors(t[1..], left - 1) == None;
    }
  }

  /** Behind the entries the reader counts `left` bytes more: it takes the checksum for an entry. */
  lemma ChecksumIsNoEntry(r: Reader, crc: seq<byte>, fill: seq<byte>, left: nat)
    requires |crc| == 4 && AllStuffing(fill) && |fill| <= 168
    ensures ReadStreams(r, crc + fill, left) == if left == 0 || fill == [] then Some(r) else None
  {
    hide Value, SkipDescriptors;
    var t := crc + fill;
    if left > 0 && fill != [] {
      assert t[3..5] == [crc[3], 0xFF];
      ValueOfTwo(crc[3], 0xFF);
      var n := Value(t[3..5]) % 0x1000;
      assert n >= 0xFF;
      assert t[5..] == fill[1..];
      StuffingIsNoDescriptor(t[5..], n);
    }
  }

  /**
   A map in the standard's layout gives the reader the type of its video stream, whatever descriptors its entries have, if
   and only if the map has no descriptors of its own: with them the reader takes the checksum for one more entry and fails,
   unless the section ends with the packet.
   */
  lemma {:induction false} MapIsReadIff(r: Reader, m: Map, crc: seq<byte>, fill: nat)
    requires Proper(m) && |crc| == 4 && |MapBytes(m, crc, fill)| <= 184
    ensures ReadPmt(r, MapBytes(m, crc, fill)) == Some(r.(videoType := VideoType(m.streams, r.videoType)))
            <==> m.info == [] || fill == 0
    ensures m.info != [] && fill > 0 ==> ReadPmt(r, MapBytes(m, crc, fill)) == None
  {
    hide Value, MapBytes, ReadStreams, SkipDescriptors, VideoType, BigEndian;
    var t, info, streams := MapBytes(m, crc, fill), DescriptorBytes(m.info), EntryBytes(m.streams);
    var stuffing := seq(fill, _ => 0xFF);
    MapFields(m, crc, fill);
    DescriptorsAreSkipped(m.info, streams + (crc + stuffing));
    EntriesAreRead(r, m.streams, crc + stuffing, |info|);
    ChecksumIsNoEntry(r.(videoType := VideoType(m.streams, r.videoType)), crc, stuffing, |info|);
  }
}
