/**
 The MP4 file as a tree of boxes (ISO/IEC 14496-12), a reader that finds samples in its bytes, and the proof that
 the reader gets back every sample that was put in.
 */
module Mp4File {
  import opened Bytes
  import opened Media
  import opened Boxes
  import opened Mp4Tables
  import opened Mp4Times

  const FTYP: FourCC := 0x66747970
  const FREE: FourCC := 0x66726565
  const MVHD: FourCC := 0x6D766864
  const TKHD: FourCC := 0x746B6864
  const ELST: FourCC := 0x656C7374
  const MDHD: FourCC := 0x6D646864
  const HDLR: FourCC := 0x68646C72
  const VMHD: FourCC := 0x766D6864
  const SMHD: FourCC := 0x736D6864
  const URL: FourCC := 0x75726C20
  const STTS: FourCC := 0x73747473
  const CTTS: FourCC := 0x63747473
  const STSC: FourCC := 0x73747363
  const STSZ: FourCC := 0x7374737A
  const STCO: FourCC := 0x7374636F
  const AVCC: FourCC := 0x61766343
  const ESDS: FourCC := 0x65736473

  /** The bodies of the boxes that describe a track as a whole; any content will do. */
  datatype TrackInfo = TrackInfo(
    tkhd: seq<byte>, elst: seq<byte>, mdhd: seq<byte>, hdlr: seq<byte>, mediaHeader: seq<byte>,
    dref: seq<byte>, url: seq<byte>, stsd: seq<byte>, entry: seq<byte>, config: seq<byte>)

  datatype FileInfo = FileInfo(ftyp: seq<byte>, mvhd: seq<byte>, video: TrackInfo, audio: TrackInfo)

  function InfoOf(f: FileInfo, kind: Kind): TrackInfo {
    if kind == Video then f.video else f.audio
  }

  /** The fixed parts have the sizes that their boxes prescribe. */
  predicate Proper(f: FileInfo) {
    && |f.video.dref| == |f.video.stsd| == |f.audio.dref| == |f.audio.stsd| == 8
    && |f.video.entry| == 78 && |f.audio.entry| == 28
  }

  // ---------------------------------------------------------------------------------------------
  // Table bodies
  // ---------------------------------------------------------------------------------------------

  function Flat(stsc: seq<StscEntry>): (r: seq<nat>)
    ensures |r| == 3 * |stsc|
  {
    if stsc == [] then [] else [stsc[0].firstChunk, stsc[0].perChunk, 1] + Flat(stsc[1..])
  }

  function StscBody(stsc: seq<StscEntry>): seq<byte> {
    Fields32([0, |stsc|] + Flat(stsc))
  }

  function StcoBody(stco: seq<nat>): seq<byte> {
    Fields32([0, |stco|] + stco)
  }

  function StszBody(stsz: seq<nat>): seq<byte> {
    Fields32([0, 0, |stsz|] + stsz)
  }

  function StscOf(m: Muxer, kind: Kind): seq<StscEntry> {
    Stsc(Counts(m.chunks, kind))
  }

  // ---------------------------------------------------------------------------------------------
  // The tree
  // ---------------------------------------------------------------------------------------------

  function StsdBox(f: FileInfo, kind: Kind): Box {
    var t := InfoOf(f, kind);
    Box(STSD, t.stsd, [Box(if kind == Video then AVC1 else MP4A, t.entry,
                           [Leaf(if kind == Video then AVCC else ESDS, t.config)])])
  }

  function StblChildren(m: Muxer, f: FileInfo, kind: Kind, mediaOffset: nat): seq<Box> {
    [StsdBox(f, kind)]
    + [Leaf(STTS, TimesBody(Stts(TimesOf(Samples(m, kind)))))]
    + (if kind == Video then [Leaf(CTTS, TimesBody(Ctts(Samples(m, kind))))] else [])
    + [Leaf(STSC, StscBody(StscOf(m, kind)))]
    + [Leaf(STSZ, StszBody(Sizes(Samples(m, kind))))]
    + [Leaf(STCO, StcoBody(Shifted(Offsets(m, kind), mediaOffset)))]
  }

  function StblBox(m: Muxer, f: FileInfo, kind: Kind, mediaOffset: nat): Box {
    Box(STBL, [], StblChildren(m, f, kind, mediaOffset))
  }

  function DinfBox(t: TrackInfo): Box {
    Box(DINF, [], [Box(DREF, t.dref, [Leaf(URL, t.url)])])
  }

  function MinfBox(m: Muxer, f: FileInfo, kind: Kind, mediaOffset: nat): Box {
    var t := InfoOf(f, kind);
    Box(MINF, [], [Leaf(if kind == Video then VMHD else SMHD, t.mediaHeader), DinfBox(t), StblBox(m, f, kind, mediaOffset)])
  }

  function MdiaBox(m: Muxer, f: FileInfo, kind: Kind, mediaOffset: nat): Box {
    var t := InfoOf(f, kind);
    Box(MDIA, [], [Leaf(MDHD, t.mdhd), Leaf(HDLR, t.hdlr), MinfBox(m, f, kind, mediaOffset)])
  }

  function TrakBox(m: Muxer, f: FileInfo, kind: Kind, mediaOffset: nat): Box {
    var t := InfoOf(f, kind);
    Box(TRAK, [], [Leaf(TKHD, t.tkhd), Box(EDTS, [], [Leaf(ELST, t.elst)]), MdiaBox(m, f, kind, mediaOffset)])
  }

  function MoovBox(m: Muxer, f: FileInfo, mediaOffset: nat): Box {
    Box(MOOV, [], [Leaf(MVHD, f.mvhd), TrakBox(m, f, Video, mediaOffset), TrakBox(m, f, Audio, mediaOffset)])
  }

  /** Where the media data starts: behind `ftyp`, `free` and the header of `mdat`. */
  function MediaOffset(f: FileInfo): nat {
    (8 + |f.ftyp|) + 8 + 8
  }

  function FileBoxes(m: Muxer, f: FileInfo): seq<Box> {
    [Leaf(FTYP, f.ftyp), Leaf(FREE, []), Leaf(MDAT, m.mdat), MoovBox(m, f, MediaOffset(f))]
  }

  function FileBytes(m: Muxer, f: FileInfo): seq<byte> {
    SerializeAll(FileBoxes(m, f))
  }

  // ---------------------------------------------------------------------------------------------
  // The reader
  // ---------------------------------------------------------------------------------------------

  function ReadEntries(fields: seq<nat>): seq<StscEntry> {
    if |fields| < 3 then [] else [StscEntry(fields[0], fields[1])] + ReadEntries(fields[3..])
  }

  function ReadStsc(body: seq<byte>): Option<seq<StscEntry>> {
    var x := FieldsOf(body);
    if |x| < 2 || |x| < 2 + 3 * x[1] then None else Some(ReadEntries(x[2..2 + 3 * x[1]]))
  }

  function ReadStco(body: seq<byte>): Option<seq<nat>> {
    var x := FieldsOf(body);
    if |x| < 2 || |x| < 2 + x[1] then None else Some(x[2..2 + x[1]])
  }

  /** Only the form with one size per sample, which is the form the muxer writes. */
  function ReadStsz(body: seq<byte>): Option<seq<nat>> {
    var x := FieldsOf(body);
    if |x| < 3 || x[1] != 0 || |x| < 3 + x[2] then None else Some(x[3..3 + x[2]])
  }

  function Path(bs: seq<Box>, kinds: seq<FourCC>): Option<seq<Box>>
    decreases |kinds|
  {
    if kinds == [] then Some(bs)
    else
      match Child(bs, kinds[0])
      case None => None
      case Some(b) => Path(b.children, kinds[1..])
  }

  function Tracks(bs: seq<Box>): seq<Box> {
    if bs == [] then [] else if bs[0].kind == TRAK then [bs[0]] + Tracks(bs[1..]) else Tracks(bs[1..])
  }

  function ReadFromTables(file: seq<byte>, stsc: Option<seq<StscEntry>>, stco: Option<seq<nat>>, stsz: Option<seq<nat>>, j: nat)
    : Option<seq<byte>>
  {
    if stsc.None? || stco.None? || stsz.None? || j >= |stsz.value| then None
    else
      match Locate(stsc.value, stco.value, stsz.value, j)
      case None => None
      case Some(at) => if at + stsz.value[j] <= |file| then Some(file[at..at + stsz.value[j]]) else None
  }

  function ReadFromTable(file: seq<byte>, stbl: seq<Box>, j: nat): Option<seq<byte>> {
    match (Child(stbl, STSC), Child(stbl, STCO), Child(stbl, STSZ))
    case (Some(a), Some(b), Some(c)) =>
      ReadFromTables(file, ReadStsc(a.prefix), ReadStco(b.prefix), ReadStsz(c.prefix), j)
    case _ => None
  }

  /** The sample tables of the `track`-th track of a file. */
  function SampleTable(file: seq<byte>, track: nat): Option<seq<Box>> {
    match Parse(file)
    case None => None
    case Some(boxes) =>
      match Path(boxes, [MOOV])
      case None => None
      case Some(moov) =>
        if track >= |Tracks(moov)| then None else Path(Tracks(moov)[track].children, [MDIA, MINF, STBL])
  }

  /** Sample `j` of the `track`-th track of a file. */
  function ReadSample(file: seq<byte>, track: nat, j: nat): Option<seq<byte>> {
    match SampleTable(file, track)
    case None => None
    case Some(stbl) => ReadFromTable(file, stbl, j)
  }

  /** The table of decoding times or of composition offsets of the `track`-th track. */
  function ReadTimesOf(file: seq<byte>, track: nat, table: FourCC): Option<seq<TimeEntry>> {
    match SampleTable(file, track)
    case None => None
    case Some(stbl) =>
      match Child(stbl, table)
      case None => None
      case Some(b) => ReadTimes(b.prefix)
  }

  // ---------------------------------------------------------------------------------------------
  // The reader reads what the muxer wrote
  // ---------------------------------------------------------------------------------------------

  predicate SmallEntries(stsc: seq<StscEntry>) {
    forall i :: 0 <= i < |stsc| ==> stsc[i].firstChunk < 0x1_0000_0000 && stsc[i].perChunk < 0x1_0000_0000
  }

  lemma {:induction false} EntriesRoundTrip(stsc: seq<StscEntry>)
    requires SmallEntries(stsc)
    ensures ReadEntries(Flat(stsc)) == stsc && Small(Flat(stsc))
  {
    if stsc != [] {
      EntriesRoundTrip(stsc[1..]);
      assert Flat(stsc)[3..] == Flat(stsc[1..]);
    }
  }

  lemma StscRoundTrip(stsc: seq<StscEntry>)
    requires SmallEntries(stsc) && |stsc| < 0x1_0000_0000
    ensures ReadStsc(StscBody(stsc)) == Some(stsc)
  {
    EntriesRoundTrip(stsc);
    var x := [0, |stsc|] + Flat(stsc);
    FieldsRoundTrip(x);
    assert x[2..2 + 3 * x[1]] == Flat(stsc);
  }

  lemma StcoRoundTrip(stco: seq<nat>)
    requires Small(stco) && |stco| < 0x1_0000_0000
    ensures ReadStco(StcoBody(stco)) == Some(stco)
  {
    var x := [0, |stco|] + stco;
    FieldsRoundTrip(x);
    assert x[2..2 + x[1]] == stco;
  }

  lemma StszRoundTrip(stsz: seq<nat>)
    requires Small(stsz) && |stsz| < 0x1_0000_0000
    ensures ReadStsz(StszBody(stsz)) == Some(stsz)
  {
    var x := [0, 0, |stsz|] + stsz;
    FieldsRoundTrip(x);
    assert x[3..3 + x[2]] == stsz;
  }

  lemma TreeIsShaped(m: Muxer, f: FileInfo)
    requires Proper(f)
    ensures forall i | 0 <= i < 4 :: Shaped(FileBoxes(m, f)[i])
  {
    TrakIsShaped(m, f, Video, MediaOffset(f));
    TrakIsShaped(m, f, Audio, MediaOffset(f));
  }

  lemma StsdIsShaped(f: FileInfo, kind: Kind)
    requires Proper(f)
    ensures Shaped(StsdBox(f, kind))
  {
    var t := InfoOf(f, kind);
    var config := Leaf(if kind == Video then AVCC else ESDS, t.config);
    var entry := Box(if kind == Video then AVC1 else MP4A, t.entry, [config]);
    assert Shaped(config);
    assert Shaped(entry);
  }

  lemma StblIsShaped(m: Muxer, f: FileInfo, kind: Kind, mediaOffset: nat)
    requires Proper(f)
    ensures Shaped(StblBox(m, f, kind, mediaOffset))
  {
    hide StsdBox, StscBody, StszBody, StcoBody, Sizes, Shifted, Offsets, StscOf, Samples, TimesBody, Stts, Ctts;
    StsdIsShaped(f, kind);
    var bs := StblChildren(m, f, kind, mediaOffset);
    forall i | 1 <= i < |bs| ensures Shaped(bs[i]) {
      assert bs[i].children == [] && bs[i].kind in {STTS, CTTS, STSC, STSZ, STCO};
    }
  }

  lemma TrakIsShaped(m: Muxer, f: FileInfo, kind: Kind, mediaOffset: nat)
    requires Proper(f)
    ensures Shaped(TrakBox(m, f, kind, mediaOffset))
  {
    hide StblChildren;
    var t := InfoOf(f, kind);
    StblIsShaped(m, f, kind, mediaOffset);
    assert Shaped(Leaf(URL, t.url));
    assert Shaped(Box(DREF, t.dref, [Leaf(URL, t.url)]));
    assert Shaped(DinfBox(t));
    assert Shaped(MinfBox(m, f, kind, mediaOffset));
    assert Shaped(MdiaBox(m, f, kind, mediaOffset));
    assert Shaped(Leaf(ELST, t.elst));
    assert Shaped(Box(EDTS, [], [Leaf(ELST, t.elst)]));
  }

  /** The whole file parses back into its tree of boxes, each box's size field equal to its extent. */
  lemma {:induction false} FileParses(m: Muxer, f: FileInfo)
    requires Proper(f) && |FileBytes(m, f)| < 0x1_0000_0000
    ensures Parse(FileBytes(m, f)) == Some(FileBoxes(m, f))
  {
    var bs := FileBoxes(m, f);
    TreeIsShaped(m, f);
    forall i | 0 <= i < |bs| ensures WellFormed(bs[i]) {
      PartsAreSmaller(bs, i);
      PartsFit(bs[i]);
    }
    ParseRoundTrip(bs);
  }

  lemma StblChildrenFound(m: Muxer, f: FileInfo, kind: Kind, mediaOffset: nat)
    ensures var bs := StblChildren(m, f, kind, mediaOffset);
            && Child(bs, STTS) == Some(Leaf(STTS, TimesBody(Stts(TimesOf(Samples(m, kind))))))
            && (kind == Video ==> Child(bs, CTTS) == Some(Leaf(CTTS, TimesBody(Ctts(Samples(m, kind))))))
            && Child(bs, STSC) == Some(Leaf(STSC, StscBody(StscOf(m, kind))))
            && Child(bs, STSZ) == Some(Leaf(STSZ, StszBody(Sizes(Samples(m, kind)))))
            && Child(bs, STCO) == Some(Leaf(STCO, StcoBody(Shifted(Offsets(m, kind), mediaOffset))))
  {
    var bs := StblChildren(m, f, kind, mediaOffset);
    var n := if kind == Video then 3 else 2;
    assert bs[n].kind == STSC && bs[n + 1].kind == STSZ && bs[n + 2].kind == STCO;
    assert bs[1].kind == STTS && (kind == Video ==> bs[2].kind == CTTS);
    FirstChild(bs, 1);
    if kind == Video {
      FirstChild(bs, 2);
    }
    FirstChild(bs, n);
    FirstChild(bs, n + 1);
    FirstChild(bs, n + 2);
  }

  function TrackNumber(kind: Kind): nat {
    if kind == Video then 0 else 1
  }

  lemma TracksOfCons(b: Box, bs: seq<Box>)
    ensures Tracks([b] + bs) == if b.kind == TRAK then [b] + Tracks(bs) else Tracks(bs)
  {
    assert ([b] + bs)[1..] == bs;
  }

  lemma PathStep(bs: seq<Box>, kinds: seq<FourCC>, b: Box)
    requires kinds != [] && Child(bs, kinds[0]) == Some(b)
    ensures Path(bs, kinds) == Path(b.children, kinds[1..])
  {
  }

  lemma TracksFound(m: Muxer, f: FileInfo)
    ensures var bs := FileBoxes(m, f);
            var moov := MoovBox(m, f, MediaOffset(f));
            && Path(bs, [MOOV]) == Some(moov.children)
            && Tracks(moov.children) == [TrakBox(m, f, Video, MediaOffset(f)), TrakBox(m, f, Audio, MediaOffset(f))]
  {
    var bs := FileBoxes(m, f);
    FirstChild(bs, 3);
    var cs := bs[3].children;
    assert cs == [cs[0]] + ([cs[1]] + ([cs[2]] + []));
    TracksOfCons(cs[2], []);
    TracksOfCons(cs[1], [cs[2]] + []);
    TracksOfCons(cs[0], [cs[1]] + ([cs[2]] + []));
    PathStep(bs, [MOOV], bs[3]);
  }

  lemma StblFound(m: Muxer, f: FileInfo, kind: Kind, mediaOffset: nat)
    ensures Path(TrakBox(m, f, kind, mediaOffset).children, [MDIA, MINF, STBL])
            == Some(StblChildren(m, f, kind, mediaOffset))
  {
    var a := TrakBox(m, f, kind, mediaOffset).children;
    FirstChild(a, 2);
    FirstChild(a[2].children, 2);
    FirstChild(a[2].children[2].children, 2);
    assert [MDIA, MINF, STBL][1..] == [MINF, STBL] && [MINF, STBL][1..] == [STBL] && [STBL][1..] == [];
    PathStep(a, [MDIA, MINF, STBL], a[2]);
    PathStep(a[2].children, [MINF, STBL], a[2].children[2]);
    PathStep(a[2].children[2].children, [STBL], a[2].children[2].children[2]);
  }

  lemma {:induction false} CountsBounded(gs: seq<Group>, kind: Kind, i: nat)
    requires i < |Counts(ChunksOf(gs), kind)|
    ensures Counts(ChunksOf(gs), kind)[i] <= |Members(gs, kind)|
  {
    CountsOfChunks(gs, kind);
    if i < |Counts(ChunksOf(gs[..|gs| - 1]), kind)| {
      CountsBounded(gs[..|gs| - 1], kind, i);
    }
  }

  lemma {:induction false} StartsBounded(gs: seq<Group>, kind: Kind, i: nat)
    requires i < |Starts(gs, kind)|
    ensures Starts(gs, kind)[i] <= |GroupBytes(gs)|
  {
    if i < |Starts(gs[..|gs| - 1], kind)| {
      StartsBounded(gs[..|gs| - 1], kind, i);
    }
  }

  lemma {:induction false} EntriesBounded(counts: seq<nat>, limit: nat)
    requires |counts| <= limit && forall i :: 0 <= i < |counts| ==> counts[i] <= limit
    ensures |Stsc(counts)| <= |counts|
    ensures forall i :: 0 <= i < |Stsc(counts)| ==> Stsc(counts)[i].firstChunk <= limit && Stsc(counts)[i].perChunk <= limit
  {
    if counts != [] {
      EntriesBounded(counts[..|counts| - 1], limit);
    }
  }

  lemma StblFits(m: Muxer, f: FileInfo, kind: Kind)
    ensures Size(StblBox(m, f, kind, MediaOffset(f))) <= |FileBytes(m, f)|
  {
    var bs := FileBoxes(m, f);
    var moov := bs[3].children;
    var k := TrackNumber(kind) + 1;
    PartsAreSmaller(bs, 3);
    PartsAreSmaller(moov, k);
    PartsAreSmaller(moov[k].children, 2);
    PartsAreSmaller(moov[k].children[2].children, 2);
    PartsAreSmaller(moov[k].children[2].children[2].children, 2);
  }

  /** Neither table has more entries than its box, and so the file, has bytes. */
  lemma TableLengths(m: Muxer, f: FileInfo, kind: Kind)
    ensures |Sizes(Samples(m, kind))| <= |FileBytes(m, f)| && |Offsets(m, kind)| <= |FileBytes(m, f)|
  {
    StblFits(m, f, kind);
    var bs := StblChildren(m, f, kind, MediaOffset(f));
    PartsAreSmaller(bs, |bs| - 1);
    PartsAreSmaller(bs, |bs| - 2);
    assert bs[|bs| - 1].prefix == StcoBody(Shifted(Offsets(m, kind), MediaOffset(f)));
    assert bs[|bs| - 2].prefix == StszBody(Sizes(Samples(m, kind)));
  }

  lemma MediaDataInFile(m: Muxer, f: FileInfo)
    ensures var at := MediaOffset(f);
            at + |m.mdat| <= |FileBytes(m, f)| && FileBytes(m, f)[at..at + |m.mdat|] == m.mdat
  {
    var bs := FileBoxes(m, f);
    var front, back := SerializeAll([bs[0], bs[1]]), SerializeAll([bs[2], bs[3]]);
    assert bs == [bs[0], bs[1]] + [bs[2], bs[3]];
    SerializeAllAppend([bs[0], bs[1]], [bs[2], bs[3]]);
    assert [bs[0], bs[1]][1..] == [bs[1]] && [bs[1]][1..] == [];
    assert |front| == MediaOffset(f) - 8;
    LeafBody(bs[2], [bs[3]]);
    assert [bs[2], bs[3]] == [bs[2]] + [bs[3]];
    SliceBehind(front, back, 8, 8 + |m.mdat|);
  }

  lemma LeafBody(b: Box, rest: seq<Box>)
    requires b.children == []
    ensures var s := SerializeAll([b] + rest);
            |s| >= 8 + |b.prefix| && s[8..8 + |b.prefix|] == b.prefix
  {
    assert ([b] + rest)[1..] == rest;
    var size, kind := BigEndian(4, Size(b)), BigEndian(4, b.kind);
    assert Serialize(b) == size + kind + b.prefix;
    assert SerializeAll([b] + rest) == size + kind + b.prefix + SerializeAll(rest);
    HeaderSlices(size, kind, b.prefix, SerializeAll(rest));
  }

  /** All the numbers in the tables of a file below 4 GiB fit their 32-bit fields. */
  predicate TablesFit(m: Muxer, f: FileInfo, kind: Kind) {
    && SmallEntries(StscOf(m, kind)) && |StscOf(m, kind)| < 0x1_0000_0000
    && Small(Shifted(Offsets(m, kind), MediaOffset(f))) && |Offsets(m, kind)| < 0x1_0000_0000
    && Small(Sizes(Samples(m, kind))) && |Sizes(Samples(m, kind))| < 0x1_0000_0000
  }

  lemma {:induction false} EntriesFit(m: Muxer, gs: seq<Group>, f: FileInfo, kind: Kind)
    requires m.chunks == ChunksOf(gs) && Samples(m, kind) == Members(gs, kind) && Offsets(m, kind) == Starts(gs, kind)
    requires |FileBytes(m, f)| < 0x1_0000_0000
    ensures SmallEntries(StscOf(m, kind)) && |StscOf(m, kind)| < 0x1_0000_0000
  {
    var counts := Counts(ChunksOf(gs), kind);
    TableLengths(m, f, kind);
    SizesShape(Samples(m, kind));
    TrackShape(gs, kind);
    forall i | 0 <= i < |counts| ensures counts[i] <= |FileBytes(m, f)| {
      CountsBounded(gs, kind, i);
    }
    EntriesBounded(counts, |FileBytes(m, f)|);
  }

  lemma {:induction false} FileFits(m: Muxer, gs: seq<Group>, f: FileInfo, kind: Kind)
    requires m.chunks == ChunksOf(gs) && Samples(m, kind) == Members(gs, kind) && Offsets(m, kind) == Starts(gs, kind)
    requires m.mdat == GroupBytes(gs) && |FileBytes(m, f)| < 0x1_0000_0000
    ensures TablesFit(m, f, kind)
  {
    EntriesFit(m, gs, f, kind);
    TableLengths(m, f, kind);
    MediaDataInFile(m, f);
    SizesShape(Samples(m, kind));
    forall i | 0 <= i < |Starts(gs, kind)| ensures Starts(gs, kind)[i] + MediaOffset(f) <= |FileBytes(m, f)| {
      StartsBounded(gs, kind, i);
    }
    forall i | 0 <= i < |Members(gs, kind)| ensures |Stored(Members(gs, kind)[i])| <= |FileBytes(m, f)| {
      var c, first := WhereIs(gs, kind, i);
    }
  }

  lemma {:induction false} TablesRead(m: Muxer, f: FileInfo, kind: Kind, j: nat, bytes: seq<byte>)
    requires TablesFit(m, f, kind) && j < |Sizes(Samples(m, kind))|
    requires Found(StscOf(m, kind), Shifted(Offsets(m, kind), MediaOffset(f)), Sizes(Samples(m, kind)), j,
                   m.mdat, MediaOffset(f), bytes)
    ensures ReadFromTables(FileBytes(m, f), ReadStsc(StscBody(StscOf(m, kind))),
                           ReadStco(StcoBody(Shifted(Offsets(m, kind), MediaOffset(f)))),
                           ReadStsz(StszBody(Sizes(Samples(m, kind)))), j)
            == Some(bytes)
  {
    hide FileBytes, ReadStsc, ReadStco, ReadStsz, StscBody, StcoBody, StszBody, ReadFromTables;
    var stsc, stco, stsz := StscOf(m, kind), Shifted(Offsets(m, kind), MediaOffset(f)), Sizes(Samples(m, kind));
    StscRoundTrip(stsc);
    StcoRoundTrip(stco);
    StszRoundTrip(stsz);
    MediaDataInFile(m, f);
    FoundIsRead(FileBytes(m, f), m.mdat, MediaOffset(f), stsc, stco, stsz, j, bytes);
  }

  lemma FoundIsRead(file: seq<byte>, media: seq<byte>, mediaOffset: nat, stsc: seq<StscEntry>, stco: seq<nat>,
                    stsz: seq<nat>, j: nat, bytes: seq<byte>)
    requires mediaOffset + |media| <= |file| && file[mediaOffset..mediaOffset + |media|] == media
    requires j < |stsz| && Found(stsc, stco, stsz, j, media, mediaOffset, bytes)
    ensures ReadFromTables(file, Some(stsc), Some(stco), Some(stsz), j) == Some(bytes)
  {
    RangeInMedia(file, media, mediaOffset, Locate(stsc, stco, stsz, j).value, stsz[j]);
  }

  lemma RangeInMedia(file: seq<byte>, media: seq<byte>, mediaOffset: nat, at: nat, n: nat)
    requires mediaOffset + |media| <= |file| && file[mediaOffset..mediaOffset + |media|] == media
    requires mediaOffset <= at && at - mediaOffset + n <= |media|
    ensures at + n <= |file| && file[at..at + n] == media[at - mediaOffset..at - mediaOffset + n]
  {
    var x := at - mediaOffset;
    var a, b := file[at..at + n], media[x..x + n];
    forall k | 0 <= k < n ensures a[k] == b[k] {
      assert a[k] == file[at + k];
      assert b[k] == file[mediaOffset..mediaOffset + |media|][x + k];
    }
  }

  /**
   For every order of arrival, a reader of the file's bytes gets back, for each sample of each track, exactly the
   bytes that were stored for it.
   */
  lemma {:induction false} FileServesEverySample(ps: seq<Payload>, f: FileInfo, kind: Kind, j: nat)
    requires Proper(f) && |FileBytes(Sealed(AddAll(EMPTY, ps)), f)| < 0x1_0000_0000
    requires j < |Kept(ps, kind)|
    ensures ReadSample(FileBytes(Sealed(AddAll(EMPTY, ps)), f), TrackNumber(kind), j)
            == Some(Stored(Kept(ps, kind)[j]))
  {
    var m0, gs := AddAll(EMPTY, ps), Division(ps);
    var m := Sealed(m0);
    RunDescribes(ps);
    SealedOffsets(m0, gs, kind);
    SealedKeeps(m0, kind);
    FileFits(m, gs, f, kind);
    EverySampleIsFound(ps, kind, j, MediaOffset(f));
    SampleReads(m, f, kind, j, Stored(Kept(ps, kind)[j]));
  }

  lemma {:induction false} SampleReads(m: Muxer, f: FileInfo, kind: Kind, j: nat, bytes: seq<byte>)
    requires Proper(f) && |FileBytes(m, f)| < 0x1_0000_0000
    requires TablesFit(m, f, kind) && j < |Sizes(Samples(m, kind))|
    requires Found(StscOf(m, kind), Shifted(Offsets(m, kind), MediaOffset(f)), Sizes(Samples(m, kind)), j,
                   m.mdat, MediaOffset(f), bytes)
    ensures ReadSample(FileBytes(m, f), TrackNumber(kind), j) == Some(bytes)
  {
    hide SampleTable, FileBytes, StblChildren;
    TableFound(m, f, kind);
    StblChildrenFound(m, f, kind, MediaOffset(f));
    TablesRead(m, f, kind, j, bytes);
    TableOf(m, f, kind, j);
  }

  lemma TableFound(m: Muxer, f: FileInfo, kind: Kind)
    requires Proper(f) && |FileBytes(m, f)| < 0x1_0000_0000
    ensures SampleTable(FileBytes(m, f), TrackNumber(kind)) == Some(StblChildren(m, f, kind, MediaOffset(f)))
  {
    hide FileBytes, StblChildren;
    FileParses(m, f);
    TracksFound(m, f);
    StblFound(m, f, kind, MediaOffset(f));
  }

  lemma TableOf(m: Muxer, f: FileInfo, kind: Kind, j: nat)
    ensures ReadFromTable(FileBytes(m, f), StblChildren(m, f, kind, MediaOffset(f)), j)
            == ReadFromTables(FileBytes(m, f), ReadStsc(StscBody(StscOf(m, kind))),
                              ReadStco(StcoBody(Shifted(Offsets(m, kind), MediaOffset(f)))),
                              ReadStsz(StszBody(Sizes(Samples(m, kind)))), j)
  {
    StblChildrenFound(m, f, kind, MediaOffset(f));
  }

  // ---------------------------------------------------------------------------------------------
  // Times
  // ---------------------------------------------------------------------------------------------

  lemma SttsReads(m: Muxer, f: FileInfo, kind: Kind)
    requires Proper(f) && |FileBytes(m, f)| < 0x1_0000_0000
    ensures ReadTimesOf(FileBytes(m, f), TrackNumber(kind), STTS) == Some(Stts(TimesOf(Samples(m, kind))))
  {
    hide FileBytes, StblChildren, SampleTable, Sizes, TimesBody, ReadTimes;
    TableFound(m, f, kind);
    StblChildrenFound(m, f, kind, MediaOffset(f));
    TableLengths(m, f, kind);
    SizesShape(Samples(m, kind));
    var dts := TimesOf(Samples(m, kind));
    TurnsBounds(dts);
    TableComesBack(Stts(dts));
  }

  lemma CttsReads(m: Muxer, f: FileInfo)
    requires Proper(f) && |FileBytes(m, f)| < 0x1_0000_0000
    ensures ReadTimesOf(FileBytes(m, f), TrackNumber(Video), CTTS) == Some(Ctts(m.video))
  {
    hide FileBytes, StblChildren, SampleTable, Sizes, TimesBody, ReadTimes;
    TableFound(m, f, Video);
    StblChildrenFound(m, f, Video, MediaOffset(f));
    TableLengths(m, f, Video);
    SizesShape(m.video);
    TableComesBack(Ctts(m.video));
  }

  /**
   A reader of the file's bytes finds the composition offset of every video sample, but the decoding times of a track only
   if it has at most one sample, or three with the first two at one time and the third one at another.
   */
  lemma {:induction false} FileTellsTimesIff(ps: seq<Payload>, f: FileInfo, kind: Kind)
    requires Proper(f) && |FileBytes(Sealed(AddAll(EMPTY, ps)), f)| < 0x1_0000_0000
    ensures var file, dts := FileBytes(Sealed(AddAll(EMPTY, ps)), f), TimesOf(Kept(ps, kind));
            var stts := ReadTimesOf(file, TrackNumber(kind), STTS);
            stts.Some? && (TellsTimes(stts.value, dts) <==> |dts| <= 1 || ThreeByChance(dts))
    ensures var ctts := ReadTimesOf(FileBytes(Sealed(AddAll(EMPTY, ps)), f), TrackNumber(Video), CTTS);
            ctts.Some? && TellsOffsets(ctts.value, Kept(ps, Video))
  {
    hide FileBytes, ReadTimesOf, Stts, Ctts, TellsTimes, TellsOffsets, AddAll, Sealed;
    var m0 := AddAll(EMPTY, ps);
    SamplesAreKept(ps, kind);
    SamplesAreKept(ps, Video);
    SealedKeeps(m0, kind);
    SealedKeeps(m0, Video);
    SttsReads(Sealed(m0), f, kind);
    CttsReads(Sealed(m0), f);
    SttsTellsTimesIff(TimesOf(Kept(ps, kind)));
    CttsTellsOffsets(Kept(ps, Video));
  }
}
