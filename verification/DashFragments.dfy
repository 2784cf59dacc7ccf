/**
 The DASH muxer as a state machine: it holds samples until a key frame closes a fragment of at least five seconds,
 keeps the latest fragments under their start times, and names three of each track in the manifest.
 */
module DashFragments {
  import opened Bytes
  import opened Media
  import opened Boxes
  import opened DashSegment

  const DASH_CACHE := 3
  const FRAGMENT_DURATION := 5000

  datatype MpdInfo = MpdInfo(startTime: nat, duration: int)

  /** What a track has published: its segments by start time, and the start and length of every segment by number. */
  datatype Cache = Cache(sequence: nat, m4s: map<nat, seq<byte>>, info: map<nat, MpdInfo>)

  /** The samples held for the next fragment, and their bytes. */
  datatype Track = Track(samples: seq<Payload>, mdat: seq<byte>, cache: Cache)

  datatype Mpd = Mpd(video: seq<MpdInfo>, audio: seq<MpdInfo>)

  datatype Dash = Dash(video: Track, audio: Track, mpd: Option<Mpd>)

  const FRESH := Track([], [], Cache(0, map[], map[]))
  const EMPTY := Dash(FRESH, FRESH, None)

  function Of(d: Dash, kind: Kind): Track {
    if kind == Video then d.video else d.audio
  }

  /** The low 32 bits as a signed number. */
  function Int32(x: int): (r: int)
    ensures -0x8000_0000 <= r < 0x8000_0000 && r % U32 == x % U32
  {
    if x % U32 < 0x8000_0000 then x % U32 else x % U32 - U32
  }

  /** Drops the earliest segments until no more than twice the cache size remain. */
  function Evict(m4s: map<nat, seq<byte>>): map<nat, seq<byte>>
    decreases |m4s|
  {
    if |m4s| <= 2 * DASH_CACHE then m4s
    else
      assert |m4s.Keys| == |m4s|;
      Evict(m4s - {MinKey(m4s.Keys)})
  }

  function Span(ps: seq<Payload>): int
    requires ps != []
  {
    Int32(Last(ps).dts - ps[0].dts)
  }

  function Insert(c: Cache, f: seq<Payload>, segment: seq<byte>): Cache
    requires f != []
  {
    Cache(c.sequence + 1, Evict(c.m4s)[f[0].dts % U32 := segment],
          c.info[c.sequence := MpdInfo(f[0].dts % U32, Span(f))])
  }

  function Emit(c: Cache, f: seq<Payload>, body: seq<byte>): Cache
    requires f != []
  {
    Insert(c, f, SegmentBytes(f, c.sequence, body))
  }

  /** Drops the bytes of the last sample: it only closes the fragment. */
  function WithoutLast(t: Track): seq<byte>
    requires t.samples != []
  {
    var n := |Raw(Last(t.samples))|;
    if n <= |t.mdat| then t.mdat[..|t.mdat| - n] else []
  }

  function LastBytes(t: Track): seq<byte>
    requires t.samples != []
  {
    var n := |Raw(Last(t.samples))|;
    if n <= |t.mdat| then t.mdat[|t.mdat| - n..] else t.mdat
  }

  function InfoAt(c: Cache, k: int): MpdInfo {
    if k in c.info then c.info[k] else MpdInfo(0, 0)
  }

  function Latest(c: Cache): seq<MpdInfo> {
    [InfoAt(c, c.sequence - 3), InfoAt(c, c.sequence - 2), InfoAt(c, c.sequence - 1)]
  }

  function NewMpd(video: Cache, audio: Cache, mpd: Option<Mpd>): Option<Mpd> {
    if video.sequence < DASH_CACHE || audio.sequence < DASH_CACHE then mpd
    else Some(Mpd(Latest(video), Latest(audio)))
  }

  function FlushAudio(t: Track): Track {
    if |t.samples| > 1 then t.(cache := Emit(t.cache, t.samples, WithoutLast(t))) else t
  }

  function ResetVideo(t: Track): Track
    requires t.samples != []
  {
    t.(samples := [Last(t.samples)], mdat := [])
  }

  function ResetAudio(t: Track): Track {
    if t.samples == [] then t else t.(samples := [Last(t.samples)], mdat := LastBytes(t))
  }

  /** Whether the sample closes a fragment. */
  predicate Closes(d: Dash, p: Payload) {
    p.kind == Video && p.iFrame && Span(d.video.samples + [p]) >= FRAGMENT_DURATION
  }

  function Hold(t: Track, p: Payload): Track {
    t.(samples := t.samples + [p])
  }

  function Store(t: Track, p: Payload): Track {
    t.(mdat := t.mdat + Stored(p))
  }

  /** Both tracks' fragments are written, the manifest is renewed, and the last sample of each track is carried over. */
  function Close(d: Dash, p: Payload): Dash {
    var held := Hold(d.video, p);
    var video, audio := held.(cache := Emit(held.cache, held.samples, held.mdat)), FlushAudio(d.audio);
    Dash(ResetVideo(video), ResetAudio(audio), NewMpd(video.cache, audio.cache, d.mpd))
  }

  function Next(d: Dash, p: Payload): Dash {
    if p.kind == Audio then d.(audio := Store(Hold(d.audio, p), p))
    else
      var held := if Closes(d, p) then Close(d, p) else d.(video := Hold(d.video, p));
      held.(video := Store(held.video, p))
  }

  function Run(ps: seq<Payload>): Dash {
    if ps == [] then EMPTY else Next(Run(ps[..|ps| - 1]), Last(ps))
  }

  /** The segment stored under a start time. */
  function GetM4s(c: Cache, segment: nat): Option<seq<byte>> {
    if segment in c.m4s then Some(c.m4s[segment]) else None
  }

  // ---------------------------------------------------------------------------------------------
  // The fragments of a run
  // ---------------------------------------------------------------------------------------------

  /** The samples of a track when a fragment is written; the last one belongs to the next fragment. */
  function Pending(d: Dash, p: Payload, kind: Kind): seq<Payload> {
    if kind == Video then d.video.samples + [p] else d.audio.samples
  }

  predicate Writes(d: Dash, p: Payload, kind: Kind) {
    Closes(d, p) && |Pending(d, p, kind)| > 1
  }

  /** The fragments that a run has written for a track, oldest first. */
  function Fragments(ps: seq<Payload>, kind: Kind): seq<seq<Payload>> {
    if ps == [] then []
    else
      var before, d := Fragments(ps[..|ps| - 1], kind), Run(ps[..|ps| - 1]);
      if Writes(d, Last(ps), kind) then before + [Pending(d, Last(ps), kind)] else before
  }

  function Counted(fs: seq<seq<Payload>>): seq<Payload>
    requires forall i :: 0 <= i < |fs| ==> fs[i] != []
  {
    if fs == [] then [] else Counted(fs[..|fs| - 1]) + Last(fs)[..|Last(fs)| - 1]
  }

  predicate Sizeable(fs: seq<seq<Payload>>) {
    forall i :: 0 <= i < |fs| ==> |fs[i]| > 1
  }

  /** A fragment that closes has more than one video sample. */
  lemma ClosingIsLong(d: Dash, p: Payload)
    requires Closes(d, p)
    ensures d.video.samples != []
  {
    assert d.video.samples == [] ==> d.video.samples + [p] == [p];
  }

  lemma {:induction false} FragmentsAreSizeable(ps: seq<Payload>, kind: Kind)
    ensures Sizeable(Fragments(ps, kind))
    decreases |ps|
  {
    if ps != [] {
      FragmentsAreSizeable(ps[..|ps| - 1], kind);
    }
  }

  lemma NextSamples(d: Dash, p: Payload, kind: Kind)
    ensures Of(Next(d, p), kind).samples
            == if kind != p.kind then
                 if Closes(d, p) && d.audio.samples != [] then [Last(d.audio.samples)] else Of(d, kind).samples
               else if Closes(d, p) then [p] else Of(d, kind).samples + [p]
  {
    if Closes(d, p) {
      assert Last(d.video.samples + [p]) == p;
    }
  }

  lemma CountedSnoc(fs: seq<seq<Payload>>, f: seq<Payload>)
    requires Sizeable(fs) && |f| > 1
    ensures Counted(fs + [f]) == Counted(fs) + f[..|f| - 1]
  {
    assert (fs + [f])[..|fs|] == fs;
  }

  lemma CarryOver(before: seq<Payload>, f: seq<Payload>)
    requires f != []
    ensures before + f == before + f[..|f| - 1] + [Last(f)]
  {
  }

  /**
   Conservation: for every run, the samples counted in the fragments followed by the samples still held are exactly
   the samples of the track that have arrived, each once and in order.
   */
  lemma {:induction false} EverySampleOnce(ps: seq<Payload>, kind: Kind)
    ensures Sizeable(Fragments(ps, kind))
    ensures Counted(Fragments(ps, kind)) + Of(Run(ps), kind).samples == Kept(ps, kind)
    decreases |ps|
  {
    FragmentsAreSizeable(ps, kind);
    if ps != [] {
      var init, p := ps[..|ps| - 1], Last(ps);
      EverySampleOnce(init, kind);
      StepKeepsSamples(Run(init), Fragments(init, kind), p, kind, Kept(init, kind));
    }
  }

  function WithNext(fs: seq<seq<Payload>>, d: Dash, p: Payload, kind: Kind): seq<seq<Payload>> {
    if Writes(d, p, kind) then fs + [Pending(d, p, kind)] else fs
  }

  lemma {:induction false} StepKeepsSamples(d: Dash, fs: seq<seq<Payload>>, p: Payload, kind: Kind, kept: seq<Payload>)
    requires Sizeable(fs) && Counted(fs) + Of(d, kind).samples == kept
    ensures Sizeable(WithNext(fs, d, p, kind))
    ensures Counted(WithNext(fs, d, p, kind)) + Of(Next(d, p), kind).samples
            == if p.kind == kind then kept + [p] else kept
  {
    NextPending(d, p, kind);
    if Writes(d, p, kind) {
      FragmentKeeps(fs, Of(d, kind).samples, Pending(d, p, kind), kept);
    }
    Associated(Counted(fs), Of(d, kind).samples, p);
  }

  lemma FragmentKeeps(fs: seq<seq<Payload>>, held: seq<Payload>, f: seq<Payload>, kept: seq<Payload>)
    requires Sizeable(fs) && |f| > 1 && held <= f && Counted(fs) + held == kept
    ensures Sizeable(fs + [f])
    ensures Counted(fs + [f]) + [Last(f)] == kept + f[|held|..]
  {
    hide Counted;
    CountedSnoc(fs, f);
    CarryOver(Counted(fs), f);
    assert f == held + f[|held|..];
    assert Counted(fs) + (held + f[|held|..]) == Counted(fs) + held + f[|held|..];
  }

  lemma NextPending(d: Dash, p: Payload, kind: Kind)
    ensures Writes(d, p, kind) && p.kind == kind ==> kind == Video
    ensures Of(Next(d, p), kind).samples
            == if Writes(d, p, kind) then [Last(Pending(d, p, kind))]
               else if p.kind == kind then Of(d, kind).samples + [p]
               else Of(d, kind).samples
  {
    NextSamples(d, p, kind);
    if Closes(d, p) {
      ClosingIsLong(d, p);
    }
    if |d.audio.samples| == 1 {
      assert [Last(d.audio.samples)] == d.audio.samples;
    }
  }

  lemma Associated(a: seq<Payload>, b: seq<Payload>, p: Payload)
    ensures a + (b + [p]) == a + b + [p]
  {
  }

  // ---------------------------------------------------------------------------------------------
  // Tiling
  // ---------------------------------------------------------------------------------------------

  /** Each fragment is closed by the very sample that opens the next one; the held samples open with the last of them. */
  predicate Chained(fs: seq<seq<Payload>>, held: seq<Payload>)
    requires Sizeable(fs)
  {
    && (forall i :: 0 < i < |fs| ==> fs[i][0] == Last(fs[i - 1]))
    && (fs != [] ==> held != [] && held[0] == Last(Last(fs)))
  }

  lemma {:induction false} FragmentsChain(ps: seq<Payload>, kind: Kind)
    ensures Sizeable(Fragments(ps, kind)) && Chained(Fragments(ps, kind), Of(Run(ps), kind).samples)
    decreases |ps|
  {
    FragmentsAreSizeable(ps, kind);
    if ps != [] {
      var init, p := ps[..|ps| - 1], Last(ps);
      FragmentsChain(init, kind);
      StepChains(Run(init), Fragments(init, kind), p, kind);
    }
  }

  lemma {:induction false} StepChains(d: Dash, fs: seq<seq<Payload>>, p: Payload, kind: Kind)
    requires Sizeable(fs) && Chained(fs, Of(d, kind).samples)
    ensures Sizeable(WithNext(fs, d, p, kind))
    ensures Chained(WithNext(fs, d, p, kind), Of(Next(d, p), kind).samples)
  {
    NextPending(d, p, kind);
    if Writes(d, p, kind) {
      ChainSnoc(fs, Of(d, kind).samples, Pending(d, p, kind));
    }
  }

  lemma ChainSnoc(fs: seq<seq<Payload>>, held: seq<Payload>, f: seq<Payload>)
    requires Sizeable(fs) && Chained(fs, held) && |f| > 1 && held <= f
    ensures Chained(fs + [f], [Last(f)])
  {
  }

  lemma Minus32Adds(a: int, b: int, c: int)
    ensures (a + Minus32(c, b)) % U32 == (a + c - b) % U32
  {
    var r, q := (c - b) % U32, (c - b) / U32;
    assert c - b == U32 * q + r;
    SameRemainder(a + r, a + c - b, q);
  }

  lemma SameRemainder(x: int, y: int, q: int)
    requires y == x + U32 * q
    ensures x % U32 == y % U32
  {
  }

  /** The durations in a run add up to the distance between its first and its closing sample. */
  lemma {:induction false} DurationsSum(ps: seq<Payload>, durations: seq<nat>, n: nat)
    requires n <= |durations| == |ps| - 1
    requires forall i :: 0 <= i < |durations| ==> durations[i] == Minus32(ps[i + 1].dts, ps[i].dts)
    ensures (ps[0].dts + Sum(durations, 0, n)) % U32 == ps[n].dts % U32
    decreases n
  {
    if n > 0 {
      DurationsSum(ps, durations, n - 1);
      var a, s := ps[0].dts, Sum(durations, 0, n - 1);
      Minus32Adds(a + s, ps[n - 1].dts, ps[n].dts);
      Rebase(a + s, ps[n - 1].dts, ps[n].dts);
    }
  }

  lemma Rebase(x: int, y: int, z: int)
    requires x % U32 == y % U32
    ensures (x + z - y) % U32 == z % U32
  {
    var q := x / U32 - y / U32;
    assert x - y == U32 * q;
    SameRemainder(z, x + z - y, q);
  }

  /** The end of a fragment: its decode time plus its sample durations, as a 32-bit clock shows it. */
  function EndTime(f: seq<Payload>, sequence: nat): nat
    requires f != []
  {
    var r := RunOf(f, sequence);
    (f[0].dts % U32 + Sum(r.durations, 0, |r.durations|)) % U32
  }

  /** Tiling: in every run each fragment ends exactly where the next one, or the samples still held, begin. */
  lemma {:induction false} FragmentsTile(ps: seq<Payload>, kind: Kind, i: nat, sequence: nat)
    requires i < |Fragments(ps, kind)|
    ensures var fs, held := Fragments(ps, kind), Of(Run(ps), kind).samples;
            && fs[i] != [] && (i + 1 < |fs| ==> fs[i + 1] != [] && EndTime(fs[i], sequence) == fs[i + 1][0].dts % U32)
            && (i + 1 == |fs| ==> held != [] && EndTime(fs[i], sequence) == held[0].dts % U32)
  {
    FragmentsChain(ps, kind);
    FragmentEnds(Fragments(ps, kind)[i], sequence);
  }

  lemma {:induction false} FragmentEnds(f: seq<Payload>, sequence: nat)
    requires f != []
    ensures EndTime(f, sequence) == Last(f).dts % U32
  {
    EntriesLists(f);
    var r := RunOf(f, sequence);
    DurationsSum(f, r.durations, |r.durations|);
    SameRemainder(f[0].dts % U32 + Sum(r.durations, 0, |r.durations|), f[0].dts + Sum(r.durations, 0, |r.durations|),
                  f[0].dts / U32);
  }

  /** Every video fragment closes with a key frame, so every one after the first starts with a key frame. */
  lemma {:induction false} FragmentsStartWithKeyFrames(ps: seq<Payload>, i: nat)
    requires i < |Fragments(ps, Video)|
    ensures Fragments(ps, Video)[i] != []
    ensures Last(Fragments(ps, Video)[i]).iFrame && (i > 0 ==> Fragments(ps, Video)[i][0].iFrame)
  {
    FragmentsChain(ps, Video);
    FragmentsEndWithKeyFrames(ps);
    assert i > 0 ==> Last(Fragments(ps, Video)[i - 1]).iFrame;
  }

  lemma {:induction false} FragmentsEndWithKeyFrames(ps: seq<Payload>)
    ensures forall i :: 0 <= i < |Fragments(ps, Video)| ==>
              Fragments(ps, Video)[i] != [] && Last(Fragments(ps, Video)[i]).iFrame
    decreases |ps|
  {
    if ps != [] {
      FragmentsEndWithKeyFrames(ps[..|ps| - 1]);
    }
  }
}
