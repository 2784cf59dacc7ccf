/**
 DASH time: when a fragment is cut, what the manifest says about it, and what a player makes of the times in a segment.
 */
module DashTimeline {
  import opened Bytes
  import opened Media
  import opened DashSegment
  import opened DashFragments
  import opened DashManifest

  // ---------------------------------------------------------------------------------------------
  // When a fragment is cut
  // ---------------------------------------------------------------------------------------------

  /** A key frame at least five seconds behind the first held sample; the distance is a signed 32-bit number. */
  predicate CutsAt(held: seq<Payload>, p: Payload) {
    p.kind == Video && p.iFrame && held != [] && 5000 <= Minus32(p.dts, held[0].dts) < 0x8000_0000
  }

  lemma ClosesIff(d: Dash, p: Payload)
    ensures Closes(d, p) <==> CutsAt(d.video.samples, p)
  {
    var held := d.video.samples + [p];
    assert Last(held) == p && (d.video.samples != [] ==> held[0] == d.video.samples[0]);
  }

  /**
   In every run a sample cuts exactly one video fragment, of all that is held and itself, when it is a key frame that
   comes at least five seconds behind the first held sample, and none otherwise; an audio fragment goes with it when two
   audio samples are held. The segments are numbered in that order.
   */
  lemma {:induction false} FragmentIsCutIff(ps: seq<Payload>, p: Payload)
    ensures var cut, video, audio := CutsAt(Run(ps).video.samples, p), Run(ps).video.samples, Run(ps).audio.samples;
            && Fragments(ps + [p], Video) == Fragments(ps, Video) + (if cut then [video + [p]] else [])
            && Fragments(ps + [p], Audio) == Fragments(ps, Audio) + (if cut && |audio| >= 2 then [audio] else [])
    ensures forall kind :: Of(Run(ps + [p]), kind).cache.sequence == |Fragments(ps + [p], kind)|
  {
    hide Run, Closes, CutsAt;
    assert (ps + [p])[..|ps|] == ps;
    ClosesIff(Run(ps), p);
    if Closes(Run(ps), p) {
      ClosingIsLong(Run(ps), p);
    }
    AlwaysListed(ps + [p], Video);
    AlwaysListed(ps + [p], Audio);
    forall kind ensures Of(Run(ps + [p]), kind).cache.sequence == |Fragments(ps + [p], kind)| {
      AlwaysListed(ps + [p], kind);
    }
  }

  /** In plain numbers: five seconds are enough, and less is not. */
  lemma FiveSecondsAreEnough(held: seq<Payload>, p: Payload)
    requires p.kind == Video && p.iFrame && held != [] && -0x8000_0000 <= p.dts - held[0].dts < 0x8000_0000
    ensures CutsAt(held, p) <==> p.dts - held[0].dts >= 5000
  {
  }

  // ---------------------------------------------------------------------------------------------
  // What the manifest says
  // ---------------------------------------------------------------------------------------------

  /** Where the samples behind fragment `j` begin, on a 32-bit clock. */
  function NextStart(fs: seq<seq<Payload>>, held: seq<Payload>, j: nat): nat
    requires Sizeable(fs) && j < |fs| && held != []
  {
    (if j + 1 < |fs| then fs[j + 1][0].dts else held[0].dts) % U32
  }

  lemma SpanEnds(f: seq<Payload>)
    requires f != []
    ensures (f[0].dts % U32 + Span(f)) % U32 == Last(f).dts % U32
    ensures -0x8000_0000 <= Span(f) < 0x8000_0000
  {
    var x := Last(f).dts - f[0].dts;
    SameRemainder(Span(f), x, x / U32 - Span(f) / U32);
    SameRemainder(f[0].dts % U32 + Span(f), Last(f).dts, f[0].dts / U32 + (x - Span(f)) / U32);
  }

  /**
   In every run the entry of each fragment starts with the decode time of its segment and ends, by its duration and by the
   durations that a reader finds in the segment, where the next fragment or the held samples begin.
   */
  lemma {:induction false} EntriesTile(ps: seq<Payload>, kind: Kind, j: nat)
    requires j < |Fragments(ps, kind)|
    ensures var fs, held, c := Fragments(ps, kind), Of(Run(ps), kind).samples, Of(Run(ps), kind).cache;
            && Sizeable(fs) && held != [] && j in c.info
            && var e, durations := c.info[j], RunOf(fs[j], j).durations;
               && e.startTime == fs[j][0].dts % U32 && -0x8000_0000 <= e.duration < 0x8000_0000
               && (e.startTime + e.duration) % U32 == NextStart(fs, held, j)
               && (e.startTime + Sum(durations, 0, |durations|)) % U32 == NextStart(fs, held, j)
  {
    hide Run, Fragments, RunOf, Span;
    AlwaysListed(ps, kind);
    FragmentsTile(ps, kind, j, j);
    FragmentsChain(ps, kind);
    SpanEnds(Fragments(ps, kind)[j]);
    FragmentEnds(Fragments(ps, kind)[j], j);
  }

  /** The manifest is there as soon as both tracks have three fragments, and has the entries of the latest three. */
  lemma {:induction false} ManifestNamesLatest(ps: seq<Payload>, kind: Kind, i: nat)
    requires i < 3
    ensures Run(ps).mpd.Some? <==> |Fragments(ps, Video)| >= 3 && |Fragments(ps, Audio)| >= 3
    ensures Run(ps).mpd.Some? ==>
              var n, named, info := |Fragments(ps, kind)|, Entries3(Run(ps).mpd.value, kind), Of(Run(ps), kind).cache.info;
              |named| == 3 <= n && n - 3 + i in info && named[i] == info[n - 3 + i]
  {
    hide Run, Fragments, Span;
    ManifestIsCurrent(ps);
    AlwaysListed(ps, Video);
    AlwaysListed(ps, Audio);
  }

  /** A video entry is at least five seconds long. */
  lemma {:induction false} VideoEntriesAreLong(ps: seq<Payload>, j: nat)
    requires j < |Fragments(ps, Video)|
    ensures j in Run(ps).video.cache.info && Run(ps).video.cache.info[j].duration >= 5000
    decreases |ps|
  {
    AlwaysListed(ps, Video);
    var init, p := ps[..|ps| - 1], Last(ps);
    AlwaysListed(init, Video);
    if j < |Fragments(init, Video)| {
      VideoEntriesAreLong(init, j);
    }
  }

  // ---------------------------------------------------------------------------------------------
  // What a player makes of a segment
  // ---------------------------------------------------------------------------------------------

  /**
   Following the decode time, the durations and the composition offsets in the bytes of a segment, a player decodes and
   shows each sample at its own times, on a 32-bit clock.
   */
  lemma {:induction false} SegmentTellsTimes(ps: seq<Payload>, sequence: nat, body: seq<byte>, i: nat)
    requires i < |ps| - 1 && SmallSizes(ps) && |SegmentBytes(ps, sequence, body)| < U32
    ensures var s := ReadSegment(SegmentBytes(ps, sequence, body));
            && s.Some? && i <= |s.value.run.durations| && i < |s.value.run.offsets|
            && var at := s.value.decodeTime + Sum(s.value.run.durations, 0, i);
               && at % U32 == ps[i].dts % U32
               && (at + s.value.run.offsets[i]) % U32 == ps[i].pts % U32
  {
    hide ReadSegment, SegmentBytes, Entries;
    SegmentReads(ps, sequence, body);
    EntriesLists(ps);
    var r, d := RunOf(ps, sequence), ps[0].dts;
    DurationsSum(ps, r.durations, i);
    var sum := Sum(r.durations, 0, i);
    SameRemainder(d % U32 + sum, d + sum, d / U32);
    Minus32Adds(d % U32 + sum, ps[i].dts, ps[i].pts);
    Rebase(d % U32 + sum, ps[i].dts, ps[i].pts);
  }
}
