/** The boxes of a DASH segment that the sample reader passes over, as they stand in its bytes. */
module DashLayout {
  import opened Bytes
  import opened Media
  import opened Boxes
  import opened DashSegment
  import L = Mp4Layout

  /** The 32-bit fields of the boxes at the head of a segment. */
  datatype Heads = Heads(index: seq<nat>, fragment: seq<nat>, track: seq<nat>, run: seq<nat>)

  function HeadsIn(boxes: seq<Box>): Option<Heads> {
    match (Child(boxes, SIDX), Child(boxes, MOOF))
    case (Some(sidx), Some(moof)) =>
      (match (Child(moof.children, MFHD), Child(moof.children, TRAF))
       case (Some(mfhd), Some(traf)) =>
         (match (Child(traf.children, TFHD), Child(traf.children, TRUN))
          case (Some(tfhd), Some(trun)) =>
            Some(Heads(FieldsOf(sidx.prefix), FieldsOf(mfhd.prefix), FieldsOf(tfhd.prefix), FieldsOf(trun.prefix)))
          case _ => None)
       case _ => None)
    case _ => None
  }

  function ReadHeads(file: seq<byte>): Option<Heads> {
    match Parse(file)
    case None => None
    case Some(boxes) => HeadsIn(boxes)
  }

  lemma HeadsFound(ps: seq<Payload>, sequence: nat, body: seq<byte>)
    requires ps != []
    ensures var d := DataOffset(ps, sequence);
            HeadsIn(SegmentBoxes(ps, sequence, body))
            == Some(Heads(FieldsOf(SidxBody(ps, |body|)), FieldsOf(Fields32([0, sequence])),
                          FieldsOf(Fields32([0x020000, 1])), FieldsOf(TrunBody(ps, d))))
  {
    hide FieldsOf, Fields32, DataOffset, Size;
    var bs, d := SegmentBoxes(ps, sequence, body), DataOffset(ps, sequence);
    FirstChild(bs, 1);
    FirstChild(bs, 2);
    FirstChild(bs[2].children, 0);
    FirstChild(bs[2].children, 1);
    FirstChild(TrafBox(ps, d).children, 0);
    FirstChild(TrafBox(ps, d).children, 2);
  }

  /**
   The fragment carries its number; the track is number 1, its addresses count from the fragment (section 8.8.7 of
   ISO/IEC 14496-12); and the run has a data offset, flags for its first sample, which are zero, and per sample a duration,
   a size and a composition offset (section 8.8.8).
   */
  lemma {:induction false} HeadsAreRead(ps: seq<Payload>, sequence: nat, body: seq<byte>)
    requires ps != [] && SmallSizes(ps) && |ps| <= U32 && |SegmentBytes(ps, sequence, body)| < U32
    ensures var heads := ReadHeads(SegmentBytes(ps, sequence, body));
            && heads.Some?
            && heads.value.fragment == [0, sequence % U32]
            && heads.value.track == [0x02_0000, 1]
            && |heads.value.run| >= 4 && heads.value.run[0] == 0x1 + 0x4 + 0x100 + 0x200 + 0x800
            && heads.value.run[1] == |ps| - 1 && heads.value.run[3] == 0
  {
    hide SegmentBytes, SidxBody, HeadsIn, DataOffset, Parse, Fields32, Entries;
    SegmentParses(ps, sequence, body);
    HeadsFound(ps, sequence, body);
    FieldsOfFields([0, sequence]);
    FieldsOfFields([0x020000, 1]);
    var d := DataOffset(ps, sequence);
    Fields32Append([TRUN_FLAGS, |ps| - 1, d, 0], Entries(ps));
    FieldsOfFields([TRUN_FLAGS, |ps| - 1, d, 0] + Entries(ps));
  }

  /**
   The index names one subsegment that starts with a key frame, with the presentation time of the first sample in
   milliseconds; but as its size it gives that of the media data alone and as its duration nothing, where section 8.16.3 of
   ISO/IEC 14496-12 counts everything behind the index.
   */
  lemma {:induction false} IndexIsShort(ps: seq<Payload>, sequence: nat, body: seq<byte>)
    requires ps != [] && |SegmentBytes(ps, sequence, body)| < U32 && |body| < 0x8000_0000
    ensures var file, heads := SegmentBytes(ps, sequence, body), ReadHeads(SegmentBytes(ps, sequence, body));
            && heads.Some? && |heads.value.index| == 9
            && var x := heads.value.index;
               && x[1] == 1 && x[2] == 1000 && x[3] == ps[0].pts % U32 && x[4] == 0 && x[5] == 1 && x[8] / 0x1000_0000 == 9
               && x[6] == |body| && x[6] + 8 + Size(MoofBox(ps, sequence, 0)) == |file| - (8 + 16) - (8 + 36) && x[7] == 0
  {
    hide SegmentBytes, HeadsIn, DataOffset, Parse, Fields32, Entries, Size;
    SegmentParses(ps, sequence, body);
    HeadsFound(ps, sequence, body);
    FieldsOfFields([0, 1, 1000, ps[0].pts, 0, 1, |body| % 0x8000_0000, 0, 0x9000_0000]);
    FileLength(ps, sequence, body);
  }

  lemma FileLength(ps: seq<Payload>, sequence: nat, body: seq<byte>)
    requires ps != []
    ensures |SegmentBytes(ps, sequence, body)| == (8 + 16) + (8 + 36) + Size(MoofBox(ps, sequence, 0)) + 8 + |body|
  {
    hide SegmentBytes, MoofBox, Size;
    SegmentLayout(ps, sequence, body);
  }

  /** The segment names its brands. */
  lemma {:induction false} BrandsAreRead(ps: seq<Payload>, sequence: nat, body: seq<byte>)
    requires ps != [] && |SegmentBytes(ps, sequence, body)| < U32
    ensures var boxes := Parse(SegmentBytes(ps, sequence, body));
            && boxes.Some? && |boxes.value| == 4 && boxes.value[0].kind == L.Name("styp")
            && FieldsOf(boxes.value[0].prefix) == [L.Name("msms"), 512, L.Name("msdh"), L.Name("msix")]
  {
    hide SegmentBytes, Parse, Fields32, MoofBox;
    SegmentParses(ps, sequence, body);
    FieldsRoundTrip([0x6D736D73, 512, 0x6D736468, 0x6D736978]);
  }
}
