/**
 What the DASH muxer serves: the media data it keeps are the bytes of the samples it holds, so every fragment it
 writes reads back sample by sample, and every segment named by the manifest is still in its cache.
 */
module DashManifest {
  import opened Bytes
  import opened Media
  import opened Boxes
  import opened DashSegment
  import opened DashFragments

  predicate AllOf(ps: seq<Payload>, kind: Kind) {
    forall i :: 0 <= i < |ps| ==> ps[i].kind == kind
  }

  /** A track holds samples of its kind and exactly their bytes. */
  predicate Faithful(t: Track, kind: Kind) {
    AllOf(t.samples, kind) && t.mdat == StoredAll(t.samples)
  }

  lemma StoredLast(ps: seq<Payload>)
    requires ps != []
    ensures StoredAll(ps) == StoredAll(ps[..|ps| - 1]) + Stored(Last(ps))
  {
    hide StoredAll, Stored;
    StoredAllSnoc(ps[..|ps| - 1], Last(ps));
    assert ps == ps[..|ps| - 1] + [Last(ps)];
  }

  /** The closing sample's bytes are the tail of the audio data. */
  lemma LastIsTail(t: Track)
    requires Faithful(t, Audio) && t.samples != []
    ensures WithoutLast(t) == StoredAll(t.samples[..|t.samples| - 1])
    ensures LastBytes(t) == StoredAll([Last(t.samples)])
  {
    var held := t.samples;
    StoredLast(held);
    StoredLast([Last(held)]);
    assert [Last(held)][..0] == [];
  }

  /** The bytes that a closing fragment is written with. */
  function BodyOf(d: Dash, kind: Kind): seq<byte> {
    if kind == Video then d.video.mdat
    else if d.audio.samples == [] then []
    else WithoutLast(d.audio)
  }

  lemma NextCache(d: Dash, p: Payload, kind: Kind)
    ensures Of(Next(d, p), kind).cache
            == if Writes(d, p, kind) then Emit(Of(d, kind).cache, Pending(d, p, kind), BodyOf(d, kind))
               else Of(d, kind).cache
  {
    if Closes(d, p) {
      ClosingIsLong(d, p);
    }
  }

  lemma {:induction false} NextFaithful(d: Dash, p: Payload, kind: Kind)
    requires Faithful(Of(d, kind), kind)
    ensures Faithful(Of(Next(d, p), kind), kind)
  {
    hide Next, SegmentBytes, Stored;
    NextPending(d, p, kind);
    NextMdat(d, p, kind);
    StoredAllSnoc(Of(d, kind).samples, p);
    StoredAllSnoc([], p);
    assert [] + [p] == [p];
    if kind == Audio && d.audio.samples != [] {
      LastIsTail(d.audio);
      assert |d.audio.samples| == 1 ==> [Last(d.audio.samples)] == d.audio.samples;
    }
  }

  lemma NextMdat(d: Dash, p: Payload, kind: Kind)
    ensures Of(Next(d, p), kind).mdat
            == if Writes(d, p, kind) then
                 if kind == Video then Stored(p) else LastBytes(d.audio)
               else if p.kind == kind then Of(d, kind).mdat + Stored(p)
               else if Closes(d, p) && d.audio.samples != [] then LastBytes(d.audio)
               else Of(d, kind).mdat
  {
    assert [] + Stored(p) == Stored(p);
    if Closes(d, p) {
      ClosingIsLong(d, p);
    }
  }

  lemma {:induction false} AlwaysFaithful(ps: seq<Payload>, kind: Kind)
    ensures Faithful(Of(Run(ps), kind), kind)
    decreases |ps|
  {
    hide SegmentBytes;
    if ps != [] {
      AlwaysFaithful(ps[..|ps| - 1], kind);
      NextFaithful(Run(ps[..|ps| - 1]), Last(ps), kind);
    }
  }

  /** The segment of fragment number `j`. */
  function SegmentOf(fs: seq<seq<Payload>>, j: nat): seq<byte>
    requires j < |fs| && fs[j] != []
  {
    SegmentBytes(fs[j], j, StoredAll(fs[j][..|fs[j]| - 1]))
  }

  lemma {:induction false} BodyOfPending(d: Dash, p: Payload, kind: Kind)
    requires Faithful(Of(d, kind), kind) && Writes(d, p, kind)
    ensures var f := Pending(d, p, kind); BodyOf(d, kind) == StoredAll(f[..|f| - 1])
  {
    var f := Pending(d, p, kind);
    if kind == Video {
      assert f[..|f| - 1] == d.video.samples;
    } else {
      LastIsTail(d.audio);
    }
  }

  /** The segment number and the segment durations follow the list of fragments. */
  predicate Listed(c: Cache, fs: seq<seq<Payload>>)
    requires Sizeable(fs)
  {
    && c.sequence == |fs|
    && forall j: nat :: j < |fs| ==> j in c.info && c.info[j] == MpdInfo(fs[j][0].dts % U32, Span(fs[j]))
  }

  lemma InsertListed(c: Cache, fs: seq<seq<Payload>>, f: seq<Payload>, segment: seq<byte>)
    requires Sizeable(fs) && |f| > 1 && Listed(c, fs)
    ensures Listed(Insert(c, f, segment), fs + [f])
  {
  }

  lemma {:induction false} AlwaysListed(ps: seq<Payload>, kind: Kind)
    ensures Sizeable(Fragments(ps, kind)) && Listed(Of(Run(ps), kind).cache, Fragments(ps, kind))
    decreases |ps|
  {
    FragmentsAreSizeable(ps, kind);
    if ps != [] {
      var init, p := ps[..|ps| - 1], Last(ps);
      AlwaysListed(init, kind);
      NextListed(Run(init), Fragments(init, kind), p, kind);
    }
  }

  lemma NextListed(d: Dash, fs: seq<seq<Payload>>, p: Payload, kind: Kind)
    requires Sizeable(fs) && Listed(Of(d, kind).cache, fs)
    ensures Sizeable(WithNext(fs, d, p, kind)) && Listed(Of(Next(d, p), kind).cache, WithNext(fs, d, p, kind))
  {
    NextCache(d, p, kind);
    if Writes(d, p, kind) {
      var c, f := Of(d, kind).cache, Pending(d, p, kind);
      InsertListed(c, fs, f, SegmentBytes(f, c.sequence, BodyOf(d, kind)));
    }
  }

  /** The segment of a fragment, below 4 GiB, gives back each counted sample. */
  lemma {:induction false} SegmentReadsBack(fs: seq<seq<Payload>>, j: nat, i: nat)
    requires j < |fs| && i < |fs[j]| - 1 && |StoredAll(fs[j][..|fs[j]| - 1])| + 12 * |fs[j]| + 152 < U32
    ensures ReadSample(SegmentOf(fs, j), i) == Some(Stored(fs[j][i]))
  {
    SegmentSize(fs[j], j, StoredAll(fs[j][..|fs[j]| - 1]));
    SegmentServesEverySample(fs[j], j, i);
  }

  /** The size of a segment, in terms of its samples. */
  lemma {:induction false} SegmentSize(f: seq<Payload>, sequence: nat, body: seq<byte>)
    requires f != []
    ensures |SegmentBytes(f, sequence, body)| == |body| + 12 * |f| + 152
  {
    SegmentLayout(f, sequence, body);
    SizeOfTraf(f);
    var m := MoofBox(f, sequence, 0);
    assert m.children[1..] == [TrafBox(f, 0)] && m.children[1..][1..] == [];
    assert SizeAll(m.children) == Size(m.children[0]) + SizeAll(m.children[1..]);
  }

  lemma SizeOfTraf(f: seq<Payload>)
    requires f != []
    ensures Size(TrafBox(f, 0)) == 12 * |f| + 52
  {
    SizeOfThree(TrafBox(f, 0));
  }

  // ---------------------------------------------------------------------------------------------
  // The manifest
  // ---------------------------------------------------------------------------------------------

  function Starts(fs: seq<seq<Payload>>): (r: seq<nat>)
    requires Sizeable(fs)
    ensures |r| == |fs| && forall j :: 0 <= j < |fs| ==> r[j] == fs[j][0].dts
  {
    if fs == [] then [] else Starts(fs[..|fs| - 1]) + [Last(fs)[0].dts]
  }

  function Segments(fs: seq<seq<Payload>>): (r: seq<seq<byte>>)
    requires Sizeable(fs)
    ensures |r| == |fs|
  {
    if fs == [] then [] else Segments(fs[..|fs| - 1]) + [SegmentOf(fs, |fs| - 1)]
  }

  /** Segment `j` holds the samples of fragment `j`. */
  lemma {:induction false} SegmentsAt(fs: seq<seq<Payload>>, j: nat)
    requires Sizeable(fs) && j < |fs|
    ensures Segments(fs)[j] == SegmentOf(fs, j)
    decreases |fs|
  {
    hide SegmentBytes;
    if j < |fs| - 1 {
      SegmentsAt(fs[..|fs| - 1], j);
    }
  }

  /** The start times strictly increase and fit 32 bits. */
  predicate Rising(starts: seq<nat>) {
    && (forall i, j :: 0 <= i < j < |starts| ==> starts[i] < starts[j])
    && forall i :: 0 <= i < |starts| ==> starts[i] < U32
  }

  function Oldest(n: nat): nat {
    if n < 7 then 0 else n - 7
  }

  /** The cache holds the latest seven segments, or all of them when there are fewer. */
  predicate Holds(m4s: map<nat, seq<byte>>, starts: seq<nat>, segments: seq<seq<byte>>)
    requires |starts| == |segments|
  {
    var n := |starts|;
    && |m4s| == n - Oldest(n)
    && (forall j :: Oldest(n) <= j < n ==> starts[j] in m4s && m4s[starts[j]] == segments[j])
    && (forall k :: k in m4s ==> Within(k, starts))
  }

  predicate Within(k: nat, starts: seq<nat>) {
    exists j :: Oldest(|starts|) <= j < |starts| && k == starts[j]
  }

  /** Eviction takes out exactly the oldest segment of a full cache. */
  lemma {:induction false} EvictsOldest(m4s: map<nat, seq<byte>>, starts: seq<nat>, segments: seq<seq<byte>>)
    requires |starts| == |segments| >= 7 && Rising(starts) && Holds(m4s, starts, segments)
    ensures Evict(m4s) == m4s - {starts[|starts| - 7]} && |Evict(m4s)| == 6
  {
    var oldest, least := starts[|starts| - 7], MinKey(m4s.Keys);
    assert |m4s.Keys| == |m4s|;
    assert oldest in m4s.Keys && least in m4s;
    assert Within(least, starts);
    assert least == oldest;
    var rest := m4s - {least};
    assert rest.Keys == m4s.Keys - {least} && |rest.Keys| == |rest|;
    assert Evict(m4s) == Evict(rest);
  }

  lemma RisingPrefix(starts: seq<nat>, start: nat)
    requires Rising(starts + [start])
    ensures Rising(starts) && start < U32 && forall j :: 0 <= j < |starts| ==> starts[j] < start
  {
    var all := starts + [start];
    assert all[|starts|] == start;
    assert forall j :: 0 <= j < |starts| ==> all[j] == starts[j];
  }

  /** A new segment takes the place of the oldest one. */
  lemma {:induction false} InsertHolds(m4s: map<nat, seq<byte>>, starts: seq<nat>, segments: seq<seq<byte>>, start: nat, segment: seq<byte>)
    requires |starts| == |segments| && Rising(starts + [start]) && Holds(m4s, starts, segments)
    ensures Holds(Evict(m4s)[start := segment], starts + [start], segments + [segment])
  {
    var n := |starts|;
    RisingPrefix(starts, start);
    var kept := Evict(m4s);
    if n >= 7 {
      EvictsOldest(m4s, starts, segments);
    }
    InsertKept(kept, starts, segments, start, segment);
  }

  /** What eviction leaves, ready for one more. */
  predicate HasRoom(m4s: map<nat, seq<byte>>, starts: seq<nat>, segments: seq<seq<byte>>)
    requires |starts| == |segments|
  {
    var n := |starts|;
    var oldest := Oldest(n + 1);
    && |m4s| == n - oldest
    && (forall j :: oldest <= j < n ==> starts[j] in m4s && m4s[starts[j]] == segments[j])
    && (forall k :: k in m4s ==> exists j :: oldest <= j < n && k == starts[j])
  }

  lemma InsertKept(kept: map<nat, seq<byte>>, starts: seq<nat>, segments: seq<seq<byte>>, start: nat, segment: seq<byte>)
    requires |starts| == |segments| && HasRoom(kept, starts, segments)
    requires forall j :: 0 <= j < |starts| ==> starts[j] < start
    ensures Holds(kept[start := segment], starts + [start], segments + [segment])
  {
    var m, all := kept[start := segment], starts + [start];
    MapGrows(kept, start, segment);
    forall k | k in m ensures Within(k, all) {
      if k == start {
        assert all[|starts|] == k;
      } else {
        var j :| Oldest(|starts| + 1) <= j < |starts| && k == starts[j];
        assert all[j] == k;
      }
    }
  }

  /** Every fragment, as it is written, is served under its start time. */
  lemma {:induction false} WrittenFragmentIsServed(ps: seq<Payload>, p: Payload, kind: Kind)
    requires Writes(Run(ps), p, kind)
    ensures var fs, c := Fragments(ps + [p], kind), Of(Run(ps + [p]), kind).cache;
            && fs == Fragments(ps, kind) + [Pending(Run(ps), p, kind)] && Sizeable(fs)
            && GetM4s(c, Last(fs)[0].dts % U32) == Some(Last(Segments(fs)))
  {
    hide SegmentBytes, Next, Closes, Segments;
    assert (ps + [p])[..|ps|] == ps;
    AlwaysFaithful(ps, kind);
    AlwaysListed(ps, kind);
    NextSegments(Run(ps), Fragments(ps, kind), p, kind);
    NextCache(Run(ps), p, kind);
  }

  lemma {:induction false} AlwaysHolds(ps: seq<Payload>, kind: Kind)
    requires Sizeable(Fragments(ps, kind)) && Rising(Starts(Fragments(ps, kind)))
    ensures Holds(Of(Run(ps), kind).cache.m4s, Starts(Fragments(ps, kind)), Segments(Fragments(ps, kind)))
    decreases |ps|
  {
    if ps != [] {
      var init, p := ps[..|ps| - 1], Last(ps);
      var fs, d := Fragments(init, kind), Run(init);
      FragmentsAreSizeable(init, kind);
      AlwaysFaithful(init, kind);
      AlwaysListed(init, kind);
      NextCache(d, p, kind);
      if Writes(d, p, kind) {
        var f := Pending(d, p, kind);
        GrownStarts(fs, f);
        NextSegments(d, fs, p, kind);
        RisingPrefix(Starts(fs), f[0].dts);
        AlwaysHolds(init, kind);
        NextHolds(Of(d, kind).cache, Of(Next(d, p), kind).cache, fs, f, NextSegment(d, p, kind));
      } else {
        AlwaysHolds(init, kind);
      }
    }
  }

  /** The segment that a closing fragment is written to. */
  function NextSegment(d: Dash, p: Payload, kind: Kind): seq<byte>
    requires Writes(d, p, kind)
  {
    SegmentBytes(Pending(d, p, kind), Of(d, kind).cache.sequence, BodyOf(d, kind))
  }

  lemma {:induction false} NextHolds(c: Cache, c': Cache, fs: seq<seq<Payload>>, f: seq<Payload>, segment: seq<byte>)
    requires Sizeable(fs) && |f| > 1 && c' == Insert(c, f, segment) && Segments(fs + [f]) == Segments(fs) + [segment]
    requires Rising(Starts(fs) + [f[0].dts]) && Holds(c.m4s, Starts(fs), Segments(fs))
    ensures Holds(c'.m4s, Starts(fs + [f]), Segments(fs + [f]))
  {
    GrownStarts(fs, f);
    InsertNext(c, c', Starts(fs), Segments(fs), f, segment);
  }

  lemma {:induction false} InsertNext(c: Cache, c': Cache, starts: seq<nat>, segments: seq<seq<byte>>, f: seq<Payload>, segment: seq<byte>)
    requires f != [] && c' == Insert(c, f, segment) && |starts| == |segments|
    requires Rising(starts + [f[0].dts]) && Holds(c.m4s, starts, segments)
    ensures Holds(c'.m4s, starts + [f[0].dts], segments + [segment])
  {
    RisingPrefix(starts, f[0].dts);
    SmallMod(f[0].dts);
    InsertHolds(c.m4s, starts, segments, f[0].dts, segment);
  }

  lemma SmallMod(x: nat)
    ensures x < U32 ==> x % U32 == x
  {
  }

  lemma GrownStarts(fs: seq<seq<Payload>>, f: seq<Payload>)
    requires Sizeable(fs) && |f| > 1
    ensures Starts(fs + [f]) == Starts(fs) + [f[0].dts]
  {
    assert (fs + [f])[..|fs|] == fs;
  }

  lemma NextSegments(d: Dash, fs: seq<seq<Payload>>, p: Payload, kind: Kind)
    requires Sizeable(fs) && Writes(d, p, kind) && Faithful(Of(d, kind), kind) && Listed(Of(d, kind).cache, fs)
    ensures Segments(fs + [Pending(d, p, kind)]) == Segments(fs) + [NextSegment(d, p, kind)]
  {
    hide SegmentBytes, BodyOf, Faithful, Closes;
    var f := Pending(d, p, kind);
    BodyOfPending(d, p, kind);
    assert (fs + [f])[..|fs|] == fs && Last(fs + [f]) == f;
  }

  /** The manifest always names the latest three segments of both tracks, as soon as both have three. */
  lemma {:induction false} ManifestIsCurrent(ps: seq<Payload>)
    ensures var d := Run(ps); d.mpd == NewMpd(d.video.cache, d.audio.cache, None)
    decreases |ps|
  {
    if ps != [] {
      var init, p := ps[..|ps| - 1], Last(ps);
      ManifestIsCurrent(init);
      NextCache(Run(init), p, Video);
      NextCache(Run(init), p, Audio);
      NextMpd(Run(init), p);
    }
  }

  lemma NextMpd(d: Dash, p: Payload)
    requires d.mpd == NewMpd(d.video.cache, d.audio.cache, None)
    ensures Next(d, p).mpd == NewMpd(Next(d, p).video.cache, Next(d, p).audio.cache, None)
  {
  }

  function Entries3(m: Mpd, kind: Kind): seq<MpdInfo> {
    if kind == Video then m.video else m.audio
  }

  /** Entry `i` of three named segments is that of fragment `|fs| - 3 + i`, and the segment is in the cache. */
  predicate NamedAndServed(c: Cache, named: seq<MpdInfo>, fs: seq<seq<Payload>>, i: nat)
    requires Sizeable(fs)
  {
    && i < |named| == 3 <= |fs|
    && var j := |fs| - 3 + i;
    && named[i] == MpdInfo(fs[j][0].dts, Span(fs[j]))
    && GetM4s(c, named[i].startTime) == Some(Segments(fs)[j])
  }

  /**
   In every run whose fragments of a track start at strictly increasing times below 2^32, each segment that the
   manifest names for the track is the segment of one of its latest three fragments, and it is served.
   */
  lemma {:induction false} ManifestIsServed(ps: seq<Payload>, kind: Kind, i: nat)
    requires Run(ps).mpd.Some? && i < 3
    requires Sizeable(Fragments(ps, kind)) && Rising(Starts(Fragments(ps, kind)))
    ensures NamedAndServed(Of(Run(ps), kind).cache, Entries3(Run(ps).mpd.value, kind), Fragments(ps, kind), i)
  {
    hide SegmentBytes;
    ManifestIsCurrent(ps);
    AlwaysListed(ps, kind);
    AlwaysHolds(ps, kind);
    LatestServed(Of(Run(ps), kind).cache, Fragments(ps, kind), i);
  }

  lemma {:induction false} LatestServed(c: Cache, fs: seq<seq<Payload>>, i: nat)
    requires Sizeable(fs) && Rising(Starts(fs)) && |fs| >= 3 && i < 3
    requires Listed(c, fs) && Holds(c.m4s, Starts(fs), Segments(fs))
    ensures NamedAndServed(c, Latest(c), fs, i)
  {
    hide SegmentBytes, Segments, Starts, Span, Rising, Holds, Listed, InfoAt;
    LatestNamed(c, fs, i);
    LatestHeld(c.m4s, Starts(fs), Segments(fs), |fs| - 3 + i);
  }

  lemma LatestNamed(c: Cache, fs: seq<seq<Payload>>, i: nat)
    requires Sizeable(fs) && |fs| >= 3 && i < 3 && Listed(c, fs)
    ensures var j := |fs| - 3 + i; Latest(c)[i] == MpdInfo(fs[j][0].dts % U32, Span(fs[j]))
  {
  }

  lemma LatestHeld(m4s: map<nat, seq<byte>>, starts: seq<nat>, segments: seq<seq<byte>>, j: nat)
    requires |starts| == |segments| && Rising(starts) && Holds(m4s, starts, segments)
    requires |starts| - 3 <= j < |starts|
    ensures starts[j] % U32 == starts[j] && starts[j] in m4s && m4s[starts[j]] == segments[j]
  {
  }

  // ---------------------------------------------------------------------------------------------
  // Start times from the input
  // ---------------------------------------------------------------------------------------------

  /** A sample that can start a fragment: the first one, any audio sample, and a video key frame. */
  predicate CanStart(samples: seq<Payload>, i: nat) {
    i < |samples| && (i == 0 || samples[i].kind == Audio || samples[i].iFrame)
  }

  /** The samples that can start a fragment arrive in strictly increasing order of time, below 2^32. */
  ghost predicate RisingInput(samples: seq<Payload>) {
    && (forall i: nat, j: nat :: i < j && CanStart(samples, i) && CanStart(samples, j) ==> samples[i].dts < samples[j].dts)
    && forall i: nat :: CanStart(samples, i) ==> samples[i].dts < U32
  }

  /** How many samples of the track have arrived before fragment `i`. */
  function Before(fs: seq<seq<Payload>>, i: nat): nat
    requires Sizeable(fs) && i <= |fs|
  {
    |Counted(fs[..i])|
  }

  lemma {:induction false} BeforeGrows(fs: seq<seq<Payload>>, i: nat, j: nat)
    requires Sizeable(fs) && i < j <= |fs|
    ensures Before(fs, i) < Before(fs, j)
    decreases j
  {
    assert fs[..j][..j - 1] == fs[..j - 1];
    if i < j - 1 {
      BeforeGrows(fs, i, j - 1);
    }
  }

  /** Fragment `i` starts with the sample at its place among all arrivals. */
  lemma {:induction false} StartsThere(fs: seq<seq<Payload>>, held: seq<Payload>, all: seq<Payload>, i: nat)
    requires Sizeable(fs) && Counted(fs) + held == all && i < |fs|
    ensures Before(fs, i) < |all| && all[Before(fs, i)] == fs[i][0]
    decreases |fs|
  {
    var init, f := fs[..|fs| - 1], Last(fs);
    assert fs[..|fs|] == fs;
    if i < |fs| - 1 {
      Associate3(Counted(init), f[..|f| - 1], held);
      StartsThere(init, f[..|f| - 1] + held, all, i);
      assert init[..i] == fs[..i];
    } else {
      assert all[|Counted(init)|] == f[..|f| - 1][0];
    }
  }

  lemma Associate3(a: seq<Payload>, b: seq<Payload>, c: seq<Payload>)
    ensures a + b + c == a + (b + c)
  {
  }

  lemma {:induction false} KindKept(ps: seq<Payload>, kind: Kind, i: nat)
    requires i < |Kept(ps, kind)|
    ensures Kept(ps, kind)[i].kind == kind
    decreases |ps|
  {
    if i < |Kept(ps[..|ps| - 1], kind)| {
      KindKept(ps[..|ps| - 1], kind, i);
    }
  }

  lemma {:induction false} StartIsCandidate(ps: seq<Payload>, kind: Kind, i: nat)
    requires Sizeable(Fragments(ps, kind)) && i < |Fragments(ps, kind)|
    ensures var fs, all := Fragments(ps, kind), Kept(ps, kind);
            CanStart(all, Before(fs, i)) && all[Before(fs, i)] == fs[i][0]
  {
    hide Kept, Fragments, Run;
    var fs, all := Fragments(ps, kind), Kept(ps, kind);
    EverySampleOnce(ps, kind);
    StartsThere(fs, Of(Run(ps), kind).samples, all, i);
    KindKept(ps, kind, Before(fs, i));
    if i == 0 {
      assert fs[..0] == [];
    } else if kind == Video {
      FragmentsStartWithKeyFrames(ps, i);
    }
  }

  lemma {:induction false} StartsRise(ps: seq<Payload>, kind: Kind)
    requires RisingInput(Kept(ps, kind)) && Sizeable(Fragments(ps, kind))
    ensures Rising(Starts(Fragments(ps, kind)))
  {
    hide Kept, Fragments, CanStart, Starts;
    var fs, all := Fragments(ps, kind), Kept(ps, kind);
    var starts := Starts(fs);
    forall i: nat, j: nat | i < j < |starts| ensures starts[i] < starts[j] {
      StartIsCandidate(ps, kind, i);
      StartIsCandidate(ps, kind, j);
      BeforeGrows(fs, i, j);
    }
    forall i: nat | i < |starts| ensures starts[i] < U32 {
      StartIsCandidate(ps, kind, i);
    }
  }

  /**
   In particular when the samples that can start a fragment - the first one, and then key frames or audio samples -
   arrive in strictly increasing order of time below 2^32, every segment that the manifest names is served.
   */
  lemma {:induction false} RisingInputIsServed(ps: seq<Payload>, kind: Kind, i: nat)
    requires Run(ps).mpd.Some? && i < 3 && RisingInput(Kept(ps, kind))
    ensures Sizeable(Fragments(ps, kind))
    ensures NamedAndServed(Of(Run(ps), kind).cache, Entries3(Run(ps).mpd.value, kind), Fragments(ps, kind), i)
  {
    FragmentsAreSizeable(ps, kind);
    StartsRise(ps, kind);
    ManifestIsServed(ps, kind, i);
  }

  /** All the way: what is served under a start time that the manifest names gives back each sample of its fragment. */
  lemma {:induction false} NamedSegmentServesSamples(ps: seq<Payload>, kind: Kind, i: nat, k: nat)
    requires Run(ps).mpd.Some? && i < 3 && RisingInput(Kept(ps, kind))
    requires Sizeable(Fragments(ps, kind)) && |Fragments(ps, kind)| >= 3
    requires var f := Fragments(ps, kind)[|Fragments(ps, kind)| - 3 + i];
             k < |f| - 1 && |StoredAll(f[..|f| - 1])| + 12 * |f| + 152 < U32
    ensures var named := Entries3(Run(ps).mpd.value, kind);
            i < |named|
            && var served := GetM4s(Of(Run(ps), kind).cache, named[i].startTime);
               && served.Some?
               && ReadSample(served.value, k) == Some(Stored(Fragments(ps, kind)[|Fragments(ps, kind)| - 3 + i][k]))
  {
    hide Run, Kept, Fragments, ReadSample, SegmentBytes, Stored, StoredAll, RisingInput, GetM4s;
    var fs := Fragments(ps, kind);
    var j := |fs| - 3 + i;
    RisingInputIsServed(ps, kind, i);
    SegmentsAt(fs, j);
    SegmentReadsBack(fs, j, k);
  }
}
