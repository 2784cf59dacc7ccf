/** A whole run of the MP4 muxer: a file at every key frame that follows samples, and a new start behind it. */
module Mp4Run {
  import opened Bytes
  import opened Media
  import opened Mp4Tables
  import opened Mp4File

  /** The muxer's state behind a sample. */
  function Filed(m: Muxer, p: Payload): Muxer {
    Add(if p.kind == Video && p.iFrame then EMPTY else m, p)
  }

  /** The file that a sample makes it write first. */
  function Written(m: Muxer, f: FileInfo, p: Payload): Option<seq<byte>> {
    if p.kind == Video && p.iFrame && (m.video != [] || m.audio != []) then Some(FileBytes(Sealed(m), f)) else None
  }

  datatype Session = Session(m: Muxer, files: seq<seq<byte>>)

  /** `info` is what the boxes around the media of each file say; it may differ from file to file. */
  function Run(ps: seq<Payload>, info: seq<Payload> -> FileInfo): Session {
    if ps == [] then Session(EMPTY, [])
    else
      var before, p := Run(ps[..|ps| - 1], info), Last(ps);
      var file := Written(before.m, info(Open(ps[..|ps| - 1])), p);
      Session(Filed(before.m, p), if file.Some? then before.files + [file.value] else before.files)
  }

  /** The samples since the last key frame, which are in no file yet. */
  function Open(ps: seq<Payload>): seq<Payload> {
    if ps == [] then []
    else if Last(ps).kind == Video && Last(ps).iFrame then [Last(ps)]
    else Open(ps[..|ps| - 1]) + [Last(ps)]
  }

  /** The samples of each file. */
  function Batches(ps: seq<Payload>): seq<seq<Payload>> {
    if ps == [] then []
    else
      var init, p := ps[..|ps| - 1], Last(ps);
      if p.kind == Video && p.iFrame && Open(init) != [] then Batches(init) + [Open(init)] else Batches(init)
  }

  function FileOf(b: seq<Payload>, info: seq<Payload> -> FileInfo): seq<byte> {
    FileBytes(Sealed(AddAll(EMPTY, b)), info(b))
  }

  function FilesOf(bs: seq<seq<Payload>>, info: seq<Payload> -> FileInfo): (r: seq<seq<byte>>)
    ensures |r| == |bs|
  {
    if bs == [] then [] else FilesOf(bs[..|bs| - 1], info) + [FileOf(Last(bs), info)]
  }

  function Flatten(bs: seq<seq<Payload>>): seq<Payload> {
    if bs == [] then [] else Flatten(bs[..|bs| - 1]) + Last(bs)
  }

  lemma {:induction false} SomethingKept(ps: seq<Payload>)
    ensures ps != [] <==> Kept(ps, Video) != [] || Kept(ps, Audio) != []
    decreases |ps|
  {
    if ps != [] {
      SomethingKept(ps[..|ps| - 1]);
    }
  }

  lemma AddOne(ps: seq<Payload>, p: Payload)
    ensures AddAll(EMPTY, ps + [p]) == Add(AddAll(EMPTY, ps), p) && AddAll(EMPTY, [p]) == Add(EMPTY, p)
  {
    hide Add;
    assert (ps + [p])[..|ps|] == ps && [p][..0] == [];
  }

  /** The state is that of the samples since the last key frame, and the files are those of the batches before. */
  lemma {:induction false} RunWritesBatches(ps: seq<Payload>, info: seq<Payload> -> FileInfo)
    ensures Run(ps, info) == Session(AddAll(EMPTY, Open(ps)), FilesOf(Batches(ps), info))
    decreases |ps|
  {
    hide FileBytes, Add, Sealed;
    if ps != [] {
      var init, p := ps[..|ps| - 1], Last(ps);
      var held := Open(init);
      RunWritesBatches(init, info);
      AddOne(held, p);
      SamplesAreKept(held, Video);
      SamplesAreKept(held, Audio);
      SomethingKept(held);
      FilesSnoc(Batches(init), held, info);
    }
  }

  lemma {:induction false} FileAt(bs: seq<seq<Payload>>, info: seq<Payload> -> FileInfo, i: nat)
    requires i < |bs|
    ensures FilesOf(bs, info)[i] == FileOf(bs[i], info)
    decreases |bs|
  {
    hide FileOf;
    if i < |bs| - 1 {
      FileAt(bs[..|bs| - 1], info, i);
    }
  }

  lemma FilesSnoc(bs: seq<seq<Payload>>, b: seq<Payload>, info: seq<Payload> -> FileInfo)
    ensures FilesOf(bs + [b], info) == FilesOf(bs, info) + [FileOf(b, info)]
  {
    hide FileOf;
    assert (bs + [b])[..|bs|] == bs;
  }

  /** Every sample is in exactly one batch or still open, in order; every batch but the first starts with a key frame. */
  lemma {:induction false} BatchesTile(ps: seq<Payload>)
    ensures Flatten(Batches(ps)) + Open(ps) == ps
    ensures forall i :: 0 <= i < |Batches(ps)| ==> Batches(ps)[i] != [] && (i > 0 ==> Batches(ps)[i][0].iFrame)
    ensures Batches(ps) != [] ==> Open(ps) != [] && Open(ps)[0].iFrame
    decreases |ps|
  {
    if ps != [] {
      var init, p := ps[..|ps| - 1], Last(ps);
      BatchesTile(init);
      assert ps == init + [p];
      assert (Batches(init) + [Open(init)])[..|Batches(init)|] == Batches(init);
      assert Flatten(Batches(init)) + (Open(init) + [p]) == Flatten(Batches(init)) + Open(init) + [p];
    }
  }

  /**
   In every run each file serves every sample of either track that has arrived since the file before it; files and open
   samples together are everything that has arrived, and every file but the first starts with a key frame.
   */
  lemma {:induction false} EveryFileServesItsSamples(
      ps: seq<Payload>, info: seq<Payload> -> FileInfo, i: nat, kind: Kind, j: nat)
    requires i < |Batches(ps)| && j < |Kept(Batches(ps)[i], kind)|
    requires Proper(info(Batches(ps)[i])) && |FileOf(Batches(ps)[i], info)| < 0x1_0000_0000
    ensures Flatten(Batches(ps)) + Open(ps) == ps && (i > 0 ==> Batches(ps)[i] != [] && Batches(ps)[i][0].iFrame)
    ensures |Run(ps, info).files| == |Batches(ps)|
    ensures ReadSample(Run(ps, info).files[i], TrackNumber(kind), j) == Some(Stored(Kept(Batches(ps)[i], kind)[j]))
  {
    hide ReadSample, FileBytes, Sealed, AddAll, Stored, Kept, Proper;
    BatchesTile(ps);
    RunWritesBatches(ps, info);
    FileAt(Batches(ps), info, i);
    FileServesEverySample(Batches(ps)[i], info(Batches(ps)[i]), kind, j);
  }
}
