/**
 The sample tables of the MP4 muxer: run-length chunk bookkeeping during arrival, and the lookup that
 ISO/IEC 14496-12 (sections 8.7.3 to 8.7.5) prescribes for the tables written from it.
 */
module Mp4Tables {
  import opened Bytes
  import opened Media
  import opened Boxes

  const CHUNK_LIMIT := 1024 * 1024

  /** A chunk under construction or finished: consecutive samples of one track. */
  datatype Chunk = Chunk(kind: Kind, count: nat, size: nat)

  datatype Muxer = Muxer(
    chunks: seq<Chunk>, chunkOffset: nat, videoOffsets: seq<nat>, audioOffsets: seq<nat>,
    video: seq<Payload>, audio: seq<Payload>, mdat: seq<byte>)

  const EMPTY := Muxer([], 0, [], [], [], [], [])

  /** Records the offset of the chunk that is being closed in the list of its track. */
  function PushOffset(m: Muxer): Muxer
    requires m.chunks != []
  {
    if Last(m.chunks).kind == Video then m.(videoOffsets := m.videoOffsets + [m.chunkOffset])
    else m.(audioOffsets := m.audioOffsets + [m.chunkOffset])
  }

  function CalChunk(m: Muxer, kind: Kind, len: nat): Muxer {
    if m.chunks != [] && Last(m.chunks).kind == kind && Last(m.chunks).size + len <= CHUNK_LIMIT then
      var c := Last(m.chunks);
      m.(chunks := m.chunks[|m.chunks| - 1 := Chunk(kind, c.count + 1, c.size + len)])
    else
      var closed := if m.chunks == [] then m
                    else PushOffset(m).(chunkOffset := m.chunkOffset + Last(m.chunks).size);
      closed.(chunks := m.chunks + [Chunk(kind, 1, len)])
  }

  /** A sample that does not end the file. */
  function Add(m: Muxer, p: Payload): Muxer {
    var m' := CalChunk(m.(mdat := m.mdat + Stored(p)), p.kind, |Stored(p)|);
    if p.kind == Video then m'.(video := m.video + [p]) else m'.(audio := m.audio + [p])
  }

  function AddAll(m: Muxer, ps: seq<Payload>): Muxer {
    if ps == [] then m else Add(AddAll(m, ps[..|ps| - 1]), Last(ps))
  }

  /** The muxer just before it writes the file: the last chunk's offset is recorded as well. */
  function Sealed(m: Muxer): Muxer {
    if m.chunks == [] then m else PushOffset(m)
  }

  function Samples(m: Muxer, kind: Kind): seq<Payload> {
    if kind == Video then m.video else m.audio
  }

  function Offsets(m: Muxer, kind: Kind): seq<nat> {
    if kind == Video then m.videoOffsets else m.audioOffsets
  }

  // ---------------------------------------------------------------------------------------------
  // What is written
  // ---------------------------------------------------------------------------------------------

  datatype StscEntry = StscEntry(firstChunk: nat, perChunk: nat)

  function Counts(chunks: seq<Chunk>, kind: Kind): seq<nat> {
    if chunks == [] then []
    else if Last(chunks).kind == kind then Counts(chunks[..|chunks| - 1], kind) + [Last(chunks).count]
    else Counts(chunks[..|chunks| - 1], kind)
  }

  /** One entry per change of the number of samples per chunk. */
  function Stsc(counts: seq<nat>): seq<StscEntry> {
    var n := |counts|;
    if n == 0 then []
    else Stsc(counts[..n - 1])
         + if n > 1 && counts[n - 1] == counts[n - 2] then [] else [StscEntry(n, counts[n - 1])]
  }

  function Sizes(ps: seq<Payload>): seq<nat> {
    if ps == [] then [] else Sizes(ps[..|ps| - 1]) + [|Stored(Last(ps))|]
  }

  // ---------------------------------------------------------------------------------------------
  // How a reader looks a sample up
  // ---------------------------------------------------------------------------------------------

  /** The samples in chunk `c` (counted from 1): the last entry that starts at or before `c` decides. */
  function PerChunk(stsc: seq<StscEntry>, c: nat): nat {
    if stsc == [] then 0
    else if Last(stsc).firstChunk <= c then Last(stsc).perChunk
    else PerChunk(stsc[..|stsc| - 1], c)
  }

  datatype Place = Place(chunk: nat, first: nat)

  /** The chunk that holds sample `j`, and the first sample of that chunk, searching from chunk `c` on. */
  function FindChunk(stsc: seq<StscEntry>, chunks: nat, c: nat, first: nat, j: nat): Option<Place>
    decreases if c < chunks then chunks - c else 0
  {
    if c >= chunks then None
    else if j < first + PerChunk(stsc, c + 1) then Some(Place(c, first))
    else FindChunk(stsc, chunks, c + 1, first + PerChunk(stsc, c + 1), j)
  }

  /** The file position of sample `j` according to the three tables. */
  function Locate(stsc: seq<StscEntry>, stco: seq<nat>, stsz: seq<nat>, j: nat): Option<nat>
    requires j < |stsz|
  {
    match FindChunk(stsc, |stco|, 0, 0, j)
    case None => None
    case Some(p) => if p.chunk < |stco| && p.first <= j then Some(stco[p.chunk] + Sum(stsz, p.first, j)) else None
  }

  // ---------------------------------------------------------------------------------------------
  // stsc
  // ---------------------------------------------------------------------------------------------

  lemma {:induction false} StscBounds(counts: seq<nat>)
    ensures forall i :: 0 <= i < |Stsc(counts)| ==> 1 <= Stsc(counts)[i].firstChunk <= |counts|
    ensures counts != [] ==> Stsc(counts) != [] && Last(Stsc(counts)).perChunk == Last(counts)
  {
    if counts != [] {
      StscBounds(counts[..|counts| - 1]);
    }
  }

  /** The run-length table expands to the list of counts it was made from. */
  lemma {:induction false} StscExpands(counts: seq<nat>, c: nat)
    requires 1 <= c <= |counts|
    ensures PerChunk(Stsc(counts), c) == counts[c - 1]
  {
    var n := |counts|;
    var init := counts[..n - 1];
    var t := Stsc(counts);
    StscBounds(counts);
    StscBounds(init);
    if n > 1 && counts[n - 1] == counts[n - 2] {
      assert t == Stsc(init);
      if c < n {
        StscExpands(init, c);
      }
    } else {
      assert t[..|t| - 1] == Stsc(init);
      if c < n {
        StscExpands(init, c);
      }
    }
  }

  // ---------------------------------------------------------------------------------------------
  // Chunks as groups of samples
  // ---------------------------------------------------------------------------------------------

  /** The samples of one chunk. */
  datatype Group = Group(kind: Kind, samples: seq<Payload>)

  function GroupBytes(gs: seq<Group>): seq<byte> {
    if gs == [] then [] else GroupBytes(gs[..|gs| - 1]) + StoredAll(Last(gs).samples)
  }

  function Members(gs: seq<Group>, kind: Kind): seq<Payload> {
    if gs == [] then []
    else if Last(gs).kind == kind then Members(gs[..|gs| - 1], kind) + Last(gs).samples
    else Members(gs[..|gs| - 1], kind)
  }

  function Starts(gs: seq<Group>, kind: Kind): seq<nat> {
    if gs == [] then []
    else if Last(gs).kind == kind then Starts(gs[..|gs| - 1], kind) + [|GroupBytes(gs[..|gs| - 1])|]
    else Starts(gs[..|gs| - 1], kind)
  }

  function ChunkOf(g: Group): Chunk {
    Chunk(g.kind, |g.samples|, |StoredAll(g.samples)|)
  }

  function ChunksOf(gs: seq<Group>): seq<Chunk> {
    if gs == [] then [] else ChunksOf(gs[..|gs| - 1]) + [ChunkOf(Last(gs))]
  }

  /** The bookkeeping of the muxer describes a division of all samples into groups. */
  predicate Describes(m: Muxer, gs: seq<Group>) {
    && m.chunks == ChunksOf(gs) && m.mdat == GroupBytes(gs)
    && m.video == Members(gs, Video) && m.audio == Members(gs, Audio)
    && if gs == [] then m.chunkOffset == 0 && m.videoOffsets == [] && m.audioOffsets == []
       else
         var closed := gs[..|gs| - 1];
         m.chunkOffset == |GroupBytes(closed)| && m.videoOffsets == Starts(closed, Video)
         && m.audioOffsets == Starts(closed, Audio)
  }

  /** The division after one more sample. */
  function Regroup(gs: seq<Group>, p: Payload): seq<Group> {
    if JoinsLast(gs, p) then
      gs[..|gs| - 1] + [Group(p.kind, Last(gs).samples + [p])]
    else gs + [Group(p.kind, [p])]
  }

  lemma ChunksOfShape(gs: seq<Group>)
    ensures |ChunksOf(gs)| == |gs|
    ensures gs != [] ==> Last(ChunksOf(gs)) == ChunkOf(Last(gs)) && ChunksOf(gs)[..|gs| - 1] == ChunksOf(gs[..|gs| - 1])
  {
    if gs != [] {
      ChunksOfShape(gs[..|gs| - 1]);
    }
  }

  lemma GroupViewsSnoc(gs: seq<Group>, g: Group)
    ensures GroupBytes(gs + [g]) == GroupBytes(gs) + StoredAll(g.samples)
    ensures ChunksOf(gs + [g]) == ChunksOf(gs) + [ChunkOf(g)]
    ensures forall k: Kind :: Members(gs + [g], k) == if g.kind == k then Members(gs, k) + g.samples else Members(gs, k)
    ensures forall k: Kind ::
              Starts(gs + [g], k) == if g.kind == k then Starts(gs, k) + [|GroupBytes(gs)|] else Starts(gs, k)
  {
    assert (gs + [g])[..|gs + [g]| - 1] == gs;
  }

  predicate JoinsLast(gs: seq<Group>, p: Payload) {
    gs != [] && Last(gs).kind == p.kind && |StoredAll(Last(gs).samples)| + |Stored(p)| <= CHUNK_LIMIT
  }

  lemma LastChunk(m: Muxer, gs: seq<Group>)
    requires Describes(m, gs) && gs != []
    ensures m.chunks != [] && Last(m.chunks) == ChunkOf(Last(gs))
    ensures m.chunks[..|m.chunks| - 1] == ChunksOf(gs[..|gs| - 1])
  {
    ChunksOfShape(gs);
  }

  lemma {:induction false} JoinDescribes(m: Muxer, closed: seq<Group>, g: Group, p: Payload)
    requires Describes(m, closed + [g]) && g.kind == p.kind
    requires |StoredAll(g.samples)| + |Stored(p)| <= CHUNK_LIMIT
    ensures Describes(Add(m, p), closed + [Group(p.kind, g.samples + [p])])
  {
    hide StoredAll, GroupBytes, Members, Starts, ChunksOf;
    var gs, g' := closed + [g], Group(p.kind, g.samples + [p]);
    assert gs[..|gs| - 1] == closed && (closed + [g'])[..|gs| - 1] == closed;
    LastChunk(m, gs);
    JoinViews(closed, g, p);
    ReplaceLast(m.chunks, ChunksOf(closed), ChunkOf(g'));
  }

  /** The views of a division whose last group gains a sample. */
  lemma {:induction false} JoinViews(closed: seq<Group>, g: Group, p: Payload)
    requires g.kind == p.kind
    ensures var gs, gs' := closed + [g], closed + [Group(p.kind, g.samples + [p])];
            && GroupBytes(gs') == GroupBytes(gs) + Stored(p)
            && ChunksOf(gs') == ChunksOf(closed) + [Chunk(p.kind, |g.samples| + 1, |StoredAll(g.samples)| + |Stored(p)|)]
            && (forall k: Kind :: Members(gs', k) == if k == p.kind then Members(gs, k) + [p] else Members(gs, k))
  {
    GroupViewsSnoc(closed, g);
    GroupViewsSnoc(closed, Group(p.kind, g.samples + [p]));
    StoredAllSnoc(g.samples, p);
    Associate(GroupBytes(closed), StoredAll(g.samples), Stored(p));
    AssociatePayloads(Members(closed, p.kind), g.samples, p);
  }

  lemma ReplaceLast(s: seq<Chunk>, init: seq<Chunk>, c: Chunk)
    requires s != [] && s[..|s| - 1] == init
    ensures s[|s| - 1 := c] == init + [c]
  {
  }

  lemma SampleAlone(p: Payload)
    ensures StoredAll([p]) == Stored(p)
  {
    StoredAllSnoc([], p);
    assert [] + [p] == [p] && [] + Stored(p) == Stored(p);
  }

  lemma {:induction false} OpenFirst(m: Muxer, p: Payload)
    requires Describes(m, [])
    ensures Describes(Add(m, p), [Group(p.kind, [p])])
  {
    var g := Group(p.kind, [p]);
    GroupViewsSnoc([], g);
    assert [] + [g] == [g] && [g][..0] == [];
    SampleAlone(p);
    assert [] + [p] == [p] && [] + Stored(p) == Stored(p);
  }

  lemma {:induction false} OpenAnother(m: Muxer, closed: seq<Group>, last: Group, p: Payload)
    requires Describes(m, closed + [last]) && !JoinsLast(closed + [last], p)
    ensures Describes(Add(m, p), closed + [last] + [Group(p.kind, [p])])
  {
    var gs, g := closed + [last], Group(p.kind, [p]);
    assert gs[..|gs| - 1] == closed && (gs + [g])[..|gs|] == gs;
    LastChunk(m, gs);
    GroupViewsSnoc(closed, last);
    GroupViewsSnoc(gs, g);
    SampleAlone(p);
    var m' := Add(m, p);
    assert m'.chunks == m.chunks + [ChunkOf(g)];
    assert m'.mdat == GroupBytes(gs) + Stored(p);
    assert m'.chunkOffset == |GroupBytes(gs)|;
  }

  /** Each arrival refines the division of the samples into chunks, and the bookkeeping follows. */
  lemma {:induction false} AddDescribes(m: Muxer, gs: seq<Group>, p: Payload)
    requires Describes(m, gs)
    ensures Describes(Add(m, p), Regroup(gs, p))
  {
    if JoinsLast(gs, p) {
      assert gs == gs[..|gs| - 1] + [Last(gs)];
      JoinDescribes(m, gs[..|gs| - 1], Last(gs), p);
    } else if gs == [] {
      OpenFirst(m, p);
      assert gs + [Group(p.kind, [p])] == [Group(p.kind, [p])];
    } else {
      assert gs == gs[..|gs| - 1] + [Last(gs)];
      OpenAnother(m, gs[..|gs| - 1], Last(gs), p);
    }
  }

  lemma AssociatePayloads(a: seq<Payload>, b: seq<Payload>, p: Payload)
    ensures a + b + [p] == a + (b + [p])
  {
  }

  // ---------------------------------------------------------------------------------------------
  // Lookup
  // ---------------------------------------------------------------------------------------------

  function PrefixSum(xs: seq<nat>, c: nat): nat
    requires c <= |xs|
    decreases c
  {
    if c == 0 then 0 else PrefixSum(xs, c - 1) + xs[c - 1]
  }

  lemma {:induction false} PrefixSumOfPrefix(xs: seq<nat>, x: nat, c: nat)
    requires c <= |xs|
    ensures PrefixSum(xs + [x], c) == PrefixSum(xs, c)
  {
    if c > 0 {
      PrefixSumOfPrefix(xs, x, c - 1);
    }
  }

  lemma PrefixSumSnoc(xs: seq<nat>, x: nat)
    ensures PrefixSum(xs + [x], |xs| + 1) == PrefixSum(xs, |xs|) + x
  {
    PrefixSumOfPrefix(xs, x, |xs|);
  }

  lemma {:induction false} CountsOfChunks(gs: seq<Group>, kind: Kind)
    ensures Counts(ChunksOf(gs), kind)
            == if gs == [] then []
               else if Last(gs).kind == kind then Counts(ChunksOf(gs[..|gs| - 1]), kind) + [|Last(gs).samples|]
               else Counts(ChunksOf(gs[..|gs| - 1]), kind)
  {
    ChunksOfShape(gs);
  }

  lemma {:induction false} TrackShape(gs: seq<Group>, kind: Kind)
    ensures var counts := Counts(ChunksOf(gs), kind);
            |Starts(gs, kind)| == |counts| && PrefixSum(counts, |counts|) == |Members(gs, kind)|
  {
    CountsOfChunks(gs, kind);
    if gs != [] {
      var closed := gs[..|gs| - 1];
      TrackShape(closed, kind);
      if Last(gs).kind == kind {
        PrefixSumSnoc(Counts(ChunksOf(closed), kind), |Last(gs).samples|);
      }
    }
  }

  /** Chunk `c` of a track starts with sample `first`, holds sample `j`, and the sample lies in it where it should. */
  predicate HoldsIn(
      counts: seq<nat>, starts: seq<nat>, ps: seq<Payload>, bytes: seq<byte>, c: nat, first: nat, j: nat)
  {
    && c < |counts| == |starts| && first == PrefixSum(counts, c) <= j < first + counts[c] && j < |ps|
    && var at := starts[c] + |StoredAll(ps[first..j])|;
       at + |Stored(ps[j])| <= |bytes| && bytes[at..at + |Stored(ps[j])|] == Stored(ps[j])
  }

  predicate Holds(gs: seq<Group>, kind: Kind, c: nat, first: nat, j: nat) {
    HoldsIn(Counts(ChunksOf(gs), kind), Starts(gs, kind), Members(gs, kind), GroupBytes(gs), c, first, j)
  }

  lemma {:induction false} StillIn(
      counts: seq<nat>, starts: seq<nat>, ps: seq<Payload>, bytes: seq<byte>, c: nat, first: nat, j: nat,
      n: nat, at: nat, more: seq<Payload>, moreBytes: seq<byte>)
    requires HoldsIn(counts, starts, ps, bytes, c, first, j)
    ensures HoldsIn(counts, starts, ps, bytes + moreBytes, c, first, j)
    ensures HoldsIn(counts + [n], starts + [at], ps + more, bytes + moreBytes, c, first, j)
  {
    PrefixSumOfPrefix(counts, n, c);
    assert (ps + more)[first..j] == ps[first..j];
    var here := starts[c] + |StoredAll(ps[first..j])|;
    SliceBefore(bytes, moreBytes, here, here + |Stored(ps[j])|);
  }

  lemma {:induction false} NewestIn(
      counts: seq<nat>, starts: seq<nat>, ps: seq<Payload>, bytes: seq<byte>, samples: seq<Payload>, i: nat)
    requires |counts| == |starts| && PrefixSum(counts, |counts|) == |ps| && i < |samples|
    ensures HoldsIn(counts + [|samples|], starts + [|bytes|], ps + samples, bytes + StoredAll(samples),
                    |starts|, |ps|, |ps| + i)
  {
    PrefixSumOfPrefix(counts, |samples|, |counts|);
    assert (ps + samples)[|ps|..|ps| + i] == samples[..i];
    StoredSlice(samples, i);
    var at := |StoredAll(samples[..i])|;
    SliceBehind(bytes, StoredAll(samples), at, at + |Stored(samples[i])|);
  }

  /** The chunk of a track that holds sample `j`. */
  lemma {:induction false} WhereIs(gs: seq<Group>, kind: Kind, j: nat) returns (c: nat, first: nat)
    requires j < |Members(gs, kind)|
    ensures Holds(gs, kind, c, first, j)
  {
    hide StoredAll, Stored, PrefixSum, Sum, HoldsIn;
    var closed, g := gs[..|gs| - 1], Last(gs);
    var counts, starts, ps := Counts(ChunksOf(closed), kind), Starts(closed, kind), Members(closed, kind);
    CountsOfChunks(gs, kind);
    TrackShape(closed, kind);
    if j < |ps| {
      c, first := WhereIs(closed, kind, j);
      StillIn(counts, starts, ps, GroupBytes(closed), c, first, j, |g.samples|, |GroupBytes(closed)|, g.samples,
              StoredAll(g.samples));
    } else {
      c, first := |starts|, |ps|;
      NewestIn(counts, starts, ps, GroupBytes(closed), g.samples, j - first);
    }
  }

  /** The reader's search stops at the chunk whose range of samples contains `j`. */
  lemma {:induction false} SearchFinds(counts: seq<nat>, from: nat, c: nat, j: nat)
    requires from <= c < |counts| && PrefixSum(counts, c) <= j < PrefixSum(counts, c) + counts[c]
    ensures FindChunk(Stsc(counts), |counts|, from, PrefixSum(counts, from), j) == Some(Place(c, PrefixSum(counts, c)))
    decreases c - from
  {
    StscExpands(counts, from + 1);
    if from < c {
      PrefixSumGrows(counts, from + 1, c);
      SearchFinds(counts, from + 1, c, j);
    }
  }

  lemma {:induction false} PrefixSumGrows(xs: seq<nat>, a: nat, b: nat)
    requires a <= b <= |xs|
    ensures PrefixSum(xs, a) <= PrefixSum(xs, b)
    decreases b
  {
    if a < b {
      PrefixSumGrows(xs, a, b - 1);
    }
  }

  lemma {:induction false} SizesShape(ps: seq<Payload>)
    ensures |Sizes(ps)| == |ps| && forall i :: 0 <= i < |ps| ==> Sizes(ps)[i] == |Stored(ps[i])|
  {
    if ps != [] {
      SizesShape(ps[..|ps| - 1]);
    }
  }

  function Shifted(xs: seq<nat>, shift: nat): (r: seq<nat>)
    ensures |r| == |xs| && forall i :: 0 <= i < |xs| ==> r[i] == xs[i] + shift
  {
    if xs == [] then [] else Shifted(xs[..|xs| - 1], shift) + [Last(xs) + shift]
  }

  /** The division that a whole history of arrivals leads to. */
  function Division(ps: seq<Payload>): seq<Group> {
    if ps == [] then [] else Regroup(Division(ps[..|ps| - 1]), Last(ps))
  }

  lemma {:induction false} RunDescribes(ps: seq<Payload>)
    ensures Describes(AddAll(EMPTY, ps), Division(ps))
  {
    if ps != [] {
      RunDescribes(ps[..|ps| - 1]);
      AddDescribes(AddAll(EMPTY, ps[..|ps| - 1]), Division(ps[..|ps| - 1]), Last(ps));
    }
  }

  lemma SealedOffsets(m: Muxer, gs: seq<Group>, kind: Kind)
    requires Describes(m, gs)
    ensures Offsets(Sealed(m), kind) == Starts(gs, kind)
  {
    ChunksOfShape(gs);
    if gs != [] {
      LastChunk(m, gs);
    }
  }

  lemma AddKeeps(m: Muxer, p: Payload, kind: Kind)
    ensures Samples(Add(m, p), kind) == if p.kind == kind then Samples(m, kind) + [p] else Samples(m, kind)
  {
  }

  lemma {:induction false} SamplesAreKept(ps: seq<Payload>, kind: Kind)
    ensures Samples(AddAll(EMPTY, ps), kind) == Kept(ps, kind)
  {
    if ps != [] {
      SamplesAreKept(ps[..|ps| - 1], kind);
      AddKeeps(AddAll(EMPTY, ps[..|ps| - 1]), Last(ps), kind);
    }
  }

  /** The tables of a division into groups lead to sample `j`. */
  predicate Found(stsc: seq<StscEntry>, stco: seq<nat>, stsz: seq<nat>, j: nat, media: seq<byte>, mediaOffset: nat, bytes: seq<byte>)
    requires j < |stsz|
  {
    match Locate(stsc, stco, stsz, j)
    case None => false
    case Some(at) =>
      && mediaOffset <= at && at - mediaOffset + stsz[j] <= |media|
      && media[at - mediaOffset..at - mediaOffset + stsz[j]] == bytes
  }

  lemma {:induction false} FoundInGroups(gs: seq<Group>, kind: Kind, j: nat, mediaOffset: nat)
    requires j < |Members(gs, kind)| == |Sizes(Members(gs, kind))|
    ensures Found(Stsc(Counts(ChunksOf(gs), kind)), Shifted(Starts(gs, kind), mediaOffset), Sizes(Members(gs, kind)), j,
                  GroupBytes(gs), mediaOffset, Stored(Members(gs, kind)[j]))
  {
    hide Members, Starts, ChunksOf, GroupBytes, Counts, Stsc, StoredAll, Stored, FindChunk, Sizes;
    var members := Members(gs, kind);
    var c, first := WhereIs(gs, kind, j);
    SearchFinds(Counts(ChunksOf(gs), kind), 0, c, j);
    SizesShape(members);
    SumOfSizes(members, Sizes(members), first, j);
  }

  /**
   For every order in which audio and video samples arrive between two resets, the three tables lead a reader from
   the number of a sample in its track to a range of the media data that holds exactly that sample's bytes.
   */
  lemma {:induction false} EverySampleIsFound(ps: seq<Payload>, kind: Kind, j: nat, mediaOffset: nat)
    requires j < |Kept(ps, kind)|
    ensures var m := Sealed(AddAll(EMPTY, ps));
            && Samples(m, kind) == Kept(ps, kind) && |Sizes(Kept(ps, kind))| == |Kept(ps, kind)|
            && Found(Stsc(Counts(m.chunks, kind)), Shifted(Offsets(m, kind), mediaOffset), Sizes(Kept(ps, kind)), j,
                     m.mdat, mediaOffset, Stored(Kept(ps, kind)[j]))
  {
    var m0, gs := AddAll(EMPTY, ps), Division(ps);
    RunDescribes(ps);
    SamplesAreKept(ps, kind);
    SealedOffsets(m0, gs, kind);
    SealedKeeps(m0, kind);
    assert Members(gs, kind) == Kept(ps, kind);
    SizesShape(Kept(ps, kind));
    FoundInGroups(gs, kind, j, mediaOffset);
  }

  lemma SealedKeeps(m: Muxer, kind: Kind)
    ensures var s := Sealed(m);
            Samples(s, kind) == Samples(m, kind) && s.chunks == m.chunks && s.mdat == m.mdat
  {
  }
}
