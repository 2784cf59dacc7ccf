/**
 The bytes of a DASH media segment: `styp`, `sidx`, `moof` and `mdat` boxes (ISO/IEC 14496-12, sections 8.8.4 to
 8.8.12 and 8.16), and a reader that follows the addresses in the `trun` box.
 */
module DashSegment {
  import opened Bytes
  import opened Media
  import opened Boxes

  const STYP: FourCC := 0x73747970
  const SIDX: FourCC := 0x73696478
  const MFHD: FourCC := 0x6D666864
  const TFHD: FourCC := 0x74666864
  const TFDT: FourCC := 0x74666474
  const TRUN: FourCC := 0x7472756E

  /** data-offset, first-sample-flags, and per sample a duration, a size and a composition offset. */
  const TRUN_FLAGS := 0x0B05

  /** The `trun` entries: one for each sample but the last, whose decoding time only closes the one before. */
  function Entries(ps: seq<Payload>): (r: seq<nat>)
    requires ps != []
    ensures |r| == 3 * (|ps| - 1)
    decreases |ps|
  {
    if |ps| == 1 then []
    else
      Entries(ps[..|ps| - 1])
      + [Minus32(Last(ps).dts, ps[|ps| - 2].dts), |Stored(ps[|ps| - 2])|, Minus32(ps[|ps| - 2].pts, ps[|ps| - 2].dts)]
  }

  function StypBody(): seq<byte> {
    Fields32([0x6D736D73, 512, 0x6D736468, 0x6D736978])
  }

  function SidxBody(ps: seq<Payload>, bodySize: nat): seq<byte>
    requires ps != []
  {
    Fields32([0, 1, 1000, ps[0].pts, 0, 1, bodySize % 0x8000_0000, 0, 0x9000_0000])
  }

  function TrunHead(count: nat, dataOffset: nat): (s: seq<byte>)
    ensures |s| == 16
  {
    Fields32([TRUN_FLAGS, count, dataOffset, 0])
  }

  function TrunBody(ps: seq<Payload>, dataOffset: nat): seq<byte>
    requires ps != []
  {
    TrunHead(|ps| - 1, dataOffset) + Fields32(Entries(ps))
  }

  function TrafBox(ps: seq<Payload>, dataOffset: nat): Box
    requires ps != []
  {
    Box(TRAF, [], [Leaf(TFHD, Fields32([0x020000, 1])), Leaf(TFDT, Fields32([0, ps[0].dts])),
                   Leaf(TRUN, TrunBody(ps, dataOffset))])
  }

  function MoofBox(ps: seq<Payload>, sequence: nat, dataOffset: nat): Box
    requires ps != []
  {
    Box(MOOF, [], [Leaf(MFHD, Fields32([0, sequence])), TrafBox(ps, dataOffset)])
  }

  /** The distance from the start of `moof` to the first byte of the media data. */
  function DataOffset(ps: seq<Payload>, sequence: nat): nat
    requires ps != []
  {
    Size(MoofBox(ps, sequence, 0)) + 8
  }

  function SegmentBoxes(ps: seq<Payload>, sequence: nat, body: seq<byte>): seq<Box>
    requires ps != []
  {
    [Leaf(STYP, StypBody()), Leaf(SIDX, SidxBody(ps, |body|)), MoofBox(ps, sequence, DataOffset(ps, sequence)),
     Leaf(MDAT, body)]
  }

  function SegmentBytes(ps: seq<Payload>, sequence: nat, body: seq<byte>): seq<byte>
    requires ps != []
  {
    SerializeAll(SegmentBoxes(ps, sequence, body))
  }

  // ---------------------------------------------------------------------------------------------
  // The reader
  // ---------------------------------------------------------------------------------------------

  datatype TrackRun = TrackRun(dataOffset: nat, durations: seq<nat>, sizes: seq<nat>, offsets: seq<nat>)

  /** Every `stride`-th field, starting at `at`. */
  function Column(fields: seq<nat>, at: nat): seq<nat>
    decreases |fields|
  {
    if |fields| < 3 || at >= 3 then [] else [fields[at]] + Column(fields[3..], at)
  }

  function ReadTrun(body: seq<byte>): Option<TrackRun> {
    var x := FieldsOf(body);
    if |x| < 4 || x[0] != TRUN_FLAGS || |x| != 4 + 3 * x[1] then None
    else Some(TrackRun(x[2], Column(x[4..], 0), Column(x[4..], 1), Column(x[4..], 2)))
  }

  datatype Found = Found(start: nat, box: Box)

  /** The first box of a kind and the position where it starts. */
  function FindBox(bs: seq<Box>, kind: FourCC, at: nat): Option<Found> {
    if bs == [] then None
    else if bs[0].kind == kind then Some(Found(at, bs[0]))
    else FindBox(bs[1..], kind, at + Size(bs[0]))
  }

  datatype Segment = Segment(moofStart: nat, decodeTime: nat, run: TrackRun)

  function ReadMoof(moof: Found): Option<Segment> {
    match Child(moof.box.children, TRAF)
    case None => None
    case Some(traf) =>
      match (Child(traf.children, TFDT), Child(traf.children, TRUN))
      case (Some(tfdt), Some(trun)) =>
        (match ReadTrun(trun.prefix)
         case None => None
         case Some(run) =>
           if |FieldsOf(tfdt.prefix)| < 2 then None
           else Some(Segment(moof.start, FieldsOf(tfdt.prefix)[1], run)))
      case _ => None
  }

  /** The movie fragment of a segment: where it starts, its decode time and its one track run. */
  function ReadSegment(file: seq<byte>): Option<Segment> {
    match Parse(file)
    case None => None
    case Some(boxes) =>
      match FindBox(boxes, MOOF, 0)
      case None => None
      case Some(moof) => ReadMoof(moof)
  }

  /** Sample `i` of the run, sliced out of the file as section 8.8.8 of ISO/IEC 14496-12 says. */
  function SampleOfRun(file: seq<byte>, start: nat, sizes: seq<nat>, i: nat): Option<seq<byte>> {
    if i >= |sizes| then None
    else
      var at := start + Sum(sizes, 0, i);
      if at + sizes[i] <= |file| then Some(file[at..at + sizes[i]]) else None
  }

  function ReadSample(file: seq<byte>, i: nat): Option<seq<byte>> {
    match ReadSegment(file)
    case None => None
    case Some(s) => SampleOfRun(file, s.moofStart + s.run.dataOffset, s.run.sizes, i)
  }

  // ---------------------------------------------------------------------------------------------
  // The reader reads what the muxer wrote
  // ---------------------------------------------------------------------------------------------

  lemma {:induction false} ColumnAppend(a: seq<nat>, x: nat, y: nat, z: nat, at: nat)
    requires |a| % 3 == 0 && at < 3
    ensures Column(a + [x, y, z], at) == Column(a, at) + [[x, y, z][at]]
    decreases |a|
  {
    var b := a + [x, y, z];
    if a == [] {
      assert b == [x, y, z] && b[3..] == [];
      assert Column(b, at) == [b[at]] + Column(b[3..], at);
    } else {
      assert b[3..] == a[3..] + [x, y, z] && b[at] == a[at];
      ColumnAppend(a[3..], x, y, z, at);
    }
  }

  /** The run lists, for every sample but the last: the time to the next one, its size, and its composition offset. */
  predicate RunLists(ps: seq<Payload>, durations: seq<nat>, sizes: seq<nat>, offsets: seq<nat>)
    requires ps != []
  {
    && |durations| == |sizes| == |offsets| == |ps| - 1
    && (forall i :: 0 <= i < |durations| ==> durations[i] == Minus32(ps[i + 1].dts, ps[i].dts))
    && (forall i :: 0 <= i < |sizes| ==> sizes[i] == |Stored(ps[i])|)
    && (forall i :: 0 <= i < |offsets| ==> offsets[i] == Minus32(ps[i].pts, ps[i].dts))
  }

  lemma {:induction false} EntriesLists(ps: seq<Payload>)
    requires ps != []
    ensures RunLists(ps, Column(Entries(ps), 0), Column(Entries(ps), 1), Column(Entries(ps), 2))
    decreases |ps|
  {
    var n := |ps| - 1;
    if n > 0 {
      EntriesLists(ps[..n]);
      var e := Entries(ps[..n]);
      var x, y, z := Minus32(ps[n].dts, ps[n - 1].dts), |Stored(ps[n - 1])|, Minus32(ps[n - 1].pts, ps[n - 1].dts);
      ColumnAppend(e, x, y, z, 0);
      ColumnAppend(e, x, y, z, 1);
      ColumnAppend(e, x, y, z, 2);
      RunListsSnoc(ps, Column(e, 0), Column(e, 1), Column(e, 2), x, y, z);
    }
  }

  lemma RunListsSnoc(ps: seq<Payload>, durations: seq<nat>, sizes: seq<nat>, offsets: seq<nat>, x: nat, y: nat, z: nat)
    requires |ps| > 1 && RunLists(ps[..|ps| - 1], durations, sizes, offsets)
    requires var p := ps[|ps| - 2]; x == Minus32(Last(ps).dts, p.dts) && y == |Stored(p)| && z == Minus32(p.pts, p.dts)
    ensures RunLists(ps, durations + [x], sizes + [y], offsets + [z])
  {
  }

  predicate SmallSizes(ps: seq<Payload>) {
    forall i :: 0 <= i < |ps| - 1 ==> |Stored(ps[i])| < U32
  }

  lemma {:induction false} EntriesSmall(ps: seq<Payload>)
    requires ps != [] && SmallSizes(ps)
    ensures Small(Entries(ps))
    decreases |ps|
  {
    if |ps| > 1 {
      EntriesSmall(ps[..|ps| - 1]);
    }
  }

  lemma ReadTrunFields(count: nat, dataOffset: nat, entries: seq<nat>)
    requires Small(entries) && count < U32 && dataOffset < U32 && |entries| == 3 * count
    ensures ReadTrun(TrunHead(count, dataOffset) + Fields32(entries))
            == Some(TrackRun(dataOffset, Column(entries, 0), Column(entries, 1), Column(entries, 2)))
  {
    var x := [TRUN_FLAGS, count, dataOffset, 0] + entries;
    Fields32Append([TRUN_FLAGS, count, dataOffset, 0], entries);
    FieldsRoundTrip(x);
    assert x[4..] == entries;
  }

  /** Patching the data offset does not change any size. */
  lemma MoofSize(ps: seq<Payload>, sequence: nat, dataOffset: nat)
    requires ps != []
    ensures Size(MoofBox(ps, sequence, dataOffset)) == Size(MoofBox(ps, sequence, 0))
    ensures |ps| - 1 <= Size(MoofBox(ps, sequence, dataOffset))
  {
    TrafSize(ps, dataOffset);
    var m := MoofBox(ps, sequence, dataOffset);
    assert m.children[1..] == [TrafBox(ps, dataOffset)] && m.children[1..][1..] == [];
    assert SizeAll(m.children) == Size(Leaf(MFHD, Fields32([0, sequence]))) + SizeAll(m.children[1..]);
    var m0 := MoofBox(ps, sequence, 0);
    assert m0.children[1..] == [TrafBox(ps, 0)] && m0.children[1..][1..] == [];
    assert SizeAll(m0.children) == Size(Leaf(MFHD, Fields32([0, sequence]))) + SizeAll(m0.children[1..]);
  }

  lemma TrafSize(ps: seq<Payload>, dataOffset: nat)
    requires ps != []
    ensures Size(TrafBox(ps, dataOffset)) == Size(TrafBox(ps, 0)) && |ps| - 1 <= Size(TrafBox(ps, dataOffset))
  {
    SizeOfThree(TrafBox(ps, dataOffset));
    SizeOfThree(TrafBox(ps, 0));
  }

  lemma SizeOfThree(b: Box)
    requires |b.children| == 3
    ensures Size(b) == 8 + |b.prefix| + Size(b.children[0]) + Size(b.children[1]) + Size(b.children[2])
  {
    var cs := b.children;
    assert cs[1..][1..] == cs[2..] && cs[2..][1..] == [];
    assert SizeAll(cs[2..]) == Size(cs[2]);
    assert SizeAll(cs[1..]) == Size(cs[1]) + SizeAll(cs[2..]);
  }

  lemma SegmentShaped(ps: seq<Payload>, sequence: nat, body: seq<byte>)
    requires ps != []
    ensures forall i | 0 <= i < 4 :: Shaped(SegmentBoxes(ps, sequence, body)[i])
  {
    var d := DataOffset(ps, sequence);
    assert Shaped(TrafBox(ps, d));
    assert Shaped(MoofBox(ps, sequence, d));
  }

  lemma {:induction false} SegmentParses(ps: seq<Payload>, sequence: nat, body: seq<byte>)
    requires ps != [] && |SegmentBytes(ps, sequence, body)| < U32
    ensures Parse(SegmentBytes(ps, sequence, body)) == Some(SegmentBoxes(ps, sequence, body))
  {
    var bs := SegmentBoxes(ps, sequence, body);
    SegmentShaped(ps, sequence, body);
    forall i | 0 <= i < |bs| ensures WellFormed(bs[i]) {
      PartsAreSmaller(bs, i);
      PartsFit(bs[i]);
    }
    ParseRoundTrip(bs);
  }

  /** Where `moof` starts and where the media data lies. */
  lemma SegmentLayout(ps: seq<Payload>, sequence: nat, body: seq<byte>)
    requires ps != []
    ensures var file, front := SegmentBytes(ps, sequence, body), 8 + |StypBody()| + 8 + |SidxBody(ps, |body|)|;
            && FindBox(SegmentBoxes(ps, sequence, body), MOOF, 0)
               == Some(Found(front, MoofBox(ps, sequence, DataOffset(ps, sequence))))
            && front + DataOffset(ps, sequence) + |body| == |file|
            && file[front + DataOffset(ps, sequence)..] == body
  {
    var bs := SegmentBoxes(ps, sequence, body);
    MoofSize(ps, sequence, DataOffset(ps, sequence));
    Unrolled(bs);
    ThirdFound(bs);
    var a, b, c := Serialize(bs[0]), Serialize(bs[1]), Serialize(bs[2]);
    var size, kind := BigEndian(4, Size(bs[3])), BigEndian(4, MDAT);
    assert Serialize(bs[3]) == size + kind + body;
    FileTail(a, b, c, size, kind, body);
  }

  lemma Unrolled(bs: seq<Box>)
    requires |bs| == 4
    ensures SerializeAll(bs) == Serialize(bs[0]) + (Serialize(bs[1]) + (Serialize(bs[2]) + (Serialize(bs[3]) + [])))
  {
    var one, two, three := bs[1..], bs[1..][1..], bs[1..][1..][1..];
    assert one[0] == bs[1] && two[0] == bs[2] && three[0] == bs[3] && three[1..] == [];
    assert SerializeAll(three) == Serialize(three[0]) + SerializeAll(three[1..]);
    assert SerializeAll(two) == Serialize(two[0]) + SerializeAll(three);
    assert SerializeAll(one) == Serialize(one[0]) + SerializeAll(two);
    assert SerializeAll(bs) == Serialize(bs[0]) + SerializeAll(one);
  }

  lemma ThirdFound(bs: seq<Box>)
    requires |bs| > 2 && bs[0].kind != bs[2].kind && bs[1].kind != bs[2].kind
    ensures FindBox(bs, bs[2].kind, 0) == Some(Found(Size(bs[0]) + Size(bs[1]), bs[2]))
  {
    var one, two := bs[1..], bs[1..][1..];
    assert one[0] == bs[1] && two[0] == bs[2];
    assert FindBox(two, bs[2].kind, Size(bs[0]) + Size(bs[1])) == Some(Found(Size(bs[0]) + Size(bs[1]), bs[2]));
  }

  lemma FileTail(a: seq<byte>, b: seq<byte>, c: seq<byte>, size: seq<byte>, kind: seq<byte>, body: seq<byte>)
    requires |size| == |kind| == 4
    ensures var file := a + (b + (c + (size + kind + body + [])));
            var at := |a| + |b| + |c| + 8;
            |file| == at + |body| && file[at..] == body
  {
  }

  lemma TrafFound(ps: seq<Payload>, sequence: nat, d: nat)
    requires ps != []
    ensures var traf := TrafBox(ps, d);
            && Child(MoofBox(ps, sequence, d).children, TRAF) == Some(traf)
            && Child(traf.children, TFDT) == Some(Leaf(TFDT, Fields32([0, ps[0].dts])))
            && Child(traf.children, TRUN) == Some(Leaf(TRUN, TrunBody(ps, d)))
  {
    FirstChild(MoofBox(ps, sequence, d).children, 1);
    FirstChild(TrafBox(ps, d).children, 1);
    FirstChild(TrafBox(ps, d).children, 2);
  }

  function RunOf(ps: seq<Payload>, sequence: nat): TrackRun
    requires ps != []
  {
    TrackRun(DataOffset(ps, sequence), Column(Entries(ps), 0), Column(Entries(ps), 1), Column(Entries(ps), 2))
  }

  lemma MoofReads(ps: seq<Payload>, sequence: nat, at: nat)
    requires ps != [] && SmallSizes(ps) && |ps| <= U32 && DataOffset(ps, sequence) < U32
    ensures ReadMoof(Found(at, MoofBox(ps, sequence, DataOffset(ps, sequence))))
            == Some(Segment(at, ps[0].dts % U32, RunOf(ps, sequence)))
  {
    var d := DataOffset(ps, sequence);
    TrafFound(ps, sequence, d);
    EntriesSmall(ps);
    ReadTrunFields(|ps| - 1, d, Entries(ps));
    FieldsOfFields([0, ps[0].dts]);
  }

  /** The decode time is that of the first sample; data-offset, counted from `moof`, leads to the media data. */
  predicate Leads(file: seq<byte>, s: Segment, ps: seq<Payload>, sequence: nat, body: seq<byte>)
    requires ps != []
  {
    && s.decodeTime == ps[0].dts % U32 && s.run == RunOf(ps, sequence)
    && s.moofStart + s.run.dataOffset + |body| == |file|
    && file[s.moofStart + s.run.dataOffset..] == body
  }

  /** A reader of the segment finds its decode time, its run, and the media data, which ends with the file. */
  lemma SegmentReads(ps: seq<Payload>, sequence: nat, body: seq<byte>)
    requires ps != [] && SmallSizes(ps) && |SegmentBytes(ps, sequence, body)| < U32
    ensures var r := ReadSegment(SegmentBytes(ps, sequence, body));
            r.Some? && Leads(SegmentBytes(ps, sequence, body), r.value, ps, sequence, body)
  {
    SegmentParses(ps, sequence, body);
    SegmentLayout(ps, sequence, body);
    MoofSize(ps, sequence, 0);
    MoofReads(ps, sequence, 8 + |StypBody()| + 8 + |SidxBody(ps, |body|)|);
  }

  /** The file holds the media data of every sample but the last, and the run cuts it into exactly those samples. */
  lemma {:induction false} SegmentServesEverySample(ps: seq<Payload>, sequence: nat, i: nat)
    requires i < |ps| - 1 && |SegmentBytes(ps, sequence, StoredAll(ps[..|ps| - 1]))| < U32
    ensures ReadSample(SegmentBytes(ps, sequence, StoredAll(ps[..|ps| - 1])), i) == Some(Stored(ps[i]))
  {
    SizesFit(ps, sequence);
    SegmentReads(ps, sequence, StoredAll(ps[..|ps| - 1]));
    var file := SegmentBytes(ps, sequence, StoredAll(ps[..|ps| - 1]));
    var s := ReadSegment(file).value;
    LedToSample(file, s.moofStart + s.run.dataOffset, ps, s.run.sizes, i);
  }

  lemma {:induction false} LedToSample(file: seq<byte>, start: nat, ps: seq<Payload>, sizes: seq<nat>, i: nat)
    requires i < |ps| - 1 && sizes == Column(Entries(ps), 1)
    requires start <= |file| && file[start..] == StoredAll(ps[..|ps| - 1])
    ensures SampleOfRun(file, start, sizes, i) == Some(Stored(ps[i]))
  {
    EntriesLists(ps);
    RunServes(file, start, ps[..|ps| - 1], sizes, i);
  }

  /** Cutting the tail of a file by the sizes of the samples that make it up yields those samples. */
  lemma {:induction false} RunServes(file: seq<byte>, start: nat, held: seq<Payload>, sizes: seq<nat>, i: nat)
    requires start <= |file| && file[start..] == StoredAll(held)
    requires i < |held| == |sizes| && forall k :: 0 <= k < |held| ==> sizes[k] == |Stored(held[k])|
    ensures SampleOfRun(file, start, sizes, i) == Some(Stored(held[i]))
  {
    SumOfSizes(held, sizes, 0, i);
    StoredSlice(held, i);
    assert held[0..i] == held[..i];
    SliceOfTail(file, start, Sum(sizes, 0, i), sizes[i]);
  }

  lemma SliceOfTail(file: seq<byte>, start: nat, at: nat, n: nat)
    requires start <= |file| && at + n <= |file| - start
    ensures file[start..][at..at + n] == file[start + at..start + at + n]
  {
  }

  /** The sizes in the run add up to the media data. */
  lemma {:induction false} SizesTileTheBody(ps: seq<Payload>, sequence: nat)
    requires ps != []
    ensures var sizes := RunOf(ps, sequence).sizes;
            |sizes| == |ps| - 1 && Sum(sizes, 0, |sizes|) == |StoredAll(ps[..|ps| - 1])|
  {
    EntriesLists(ps);
    var held := ps[..|ps| - 1];
    SumOfSizes(held, RunOf(ps, sequence).sizes, 0, |held|);
    assert held[0..|held|] == held;
  }

  lemma {:induction false} SizesFit(ps: seq<Payload>, sequence: nat)
    requires ps != [] && |SegmentBytes(ps, sequence, StoredAll(ps[..|ps| - 1]))| < U32
    ensures SmallSizes(ps)
  {
    var held := ps[..|ps| - 1];
    SegmentLayout(ps, sequence, StoredAll(held));
    forall i | 0 <= i < |ps| - 1 ensures |Stored(ps[i])| < U32 {
      StoredSlice(held, i);
    }
  }
}
