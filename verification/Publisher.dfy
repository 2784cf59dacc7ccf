/**
 A publisher and its subscribers: a subscriber waits until both stream headers are there, then gets them, the fast
 start, and from then on every frame that arrives.
 */
module Publisher {
  import opened Bytes
  import opened Media
  import opened AnnexB
  import opened TsPackets
  import opened Hls
  import AvcRecord

  /** What is sent to a subscriber. */
  datatype Note = MetaData(m: seq<byte>) | AudioHeader(h: seq<byte>) | VideoHeader(h: seq<byte>) | MediaData(p: Payload)

  type Id = nat

  /** How a subscriber went live: behind how many inputs of the muxer, and where its own frames of each stream start. */
  datatype Start = Start(at: nat, video: nat, audio: nat)

  /** `inputs` is the history of the muxer, `starts` records how live subscribers started. */
  datatype State = State(
    inputs: seq<Input>, metaData: seq<byte>, audioHeader: seq<byte>, videoHeader: seq<byte>,
    live: set<Id>, waiting: set<Id>, logs: map<Id, seq<Note>>, starts: map<Id, Start>)

  const NEW := State([], [], [], [], {}, {}, map[], map[])

  datatype Event =
    | Arrives(p: Payload, tail: seq<byte>)
    | GetsMetaData(m: seq<byte>)
    | GetsAudioHeader(h: seq<byte>)
    | GetsVideoHeader(h: seq<byte>)
    | Joins(id: Id)
    | Leaves(id: Id)
    | Second(nowMs: nat)

  predicate HasBoth(s: State) {
    s.audioHeader != [] && s.videoHeader != []
  }

  function MuxerOf(s: State): Hls
    requires LegalRun(s.inputs)
  {
    Run(s.inputs)
  }

  function Notes(ps: seq<Payload>): seq<Note> {
    if ps == [] then [] else Notes(ps[..|ps| - 1]) + [MediaData(Last(ps))]
  }

  function MetaNote(s: State): seq<Note> {
    if s.metaData != [] then [MetaData(s.metaData)] else []
  }

  /** What a subscriber gets at once. */
  function Welcome(s: State): seq<Note>
    requires LegalRun(s.inputs)
  {
    MetaNote(s) + if HasBoth(s) then [AudioHeader(s.audioHeader), VideoHeader(s.videoHeader)] + Notes(FastOut(MuxerOf(s))) else []
  }

  function StartNow(s: State): Start
    requires LegalRun(s.inputs)
  {
    var h := MuxerOf(s);
    Start(|s.inputs|, h.preVideo, if h.audio.first <= h.preAudio then h.preAudio else |Kept(Arrived(s.inputs), Audio)|)
  }

  function Log(s: State, id: Id): seq<Note> {
    if id in s.logs then s.logs[id] else []
  }

  /** Nothing for one that is live already. */
  function AddSubscriber(s: State, id: Id): State
    requires LegalRun(s.inputs)
  {
    if id in s.live then s
    else
      var s' := s.(logs := s.logs[id := Log(s, id) + Welcome(s)]);
      if HasBoth(s) then s'.(live := s.live + {id}, starts := s.starts[id := StartNow(s)])
      else s'.(waiting := s.waiting + {id})
  }

  function JoinAll(s: State, ids: set<Id>): State
    requires LegalRun(s.inputs) && HasBoth(s)
  {
    s.(live := s.live + ids,
       logs := map id | id in s.logs.Keys + ids :: if id in ids then Log(s, id) + Welcome(s) else s.logs[id],
       starts := map id | id in s.starts.Keys + ids :: if id in ids then StartNow(s) else s.starts[id])
  }

  /** Once the second header is there, those who waited are let in. */
  function LetIn(s: State): State
    requires LegalRun(s.inputs) && HasBoth(s)
  {
    JoinAll(s.(waiting := {}), s.waiting)
  }

  function Leave(s: State, id: Id): State {
    s.(live := s.live - {id}, waiting := s.waiting - {id}, logs := s.logs - {id}, starts := s.starts - {id})
  }

  /** Every live subscriber is sent the frame. */
  function Broadcast(s: State, p: Payload): State {
    s.(logs := map id | id in s.logs :: if id in s.live then s.logs[id] + [MediaData(p)] else s.logs[id])
  }

  /** The parameter sets of a header in byte stream format, when it consists of exactly two units. */
  function ParameterSets(h: seq<byte>): Option<AvcRecord.Sets> {
    match Units(h)
    case Some(us) => if |us| == 2 then Some(AvcRecord.Sets(us[0], us[1])) else None
    case None => None
  }

  /** What the muxer learns from a video header: what is not a byte stream is read as a configuration record. */
  function SetsOf(h: seq<byte>, sets: AvcRecord.Sets): Option<AvcRecord.Sets> {
    if |h| >= 4 && h[..4] == CODE then ParameterSets(h) else Some(AvcRecord.ReadRecord(h, sets))
  }

  /** The sets that the muxer knows already. */
  function SetsIn(h: Hls): AvcRecord.Sets {
    AvcRecord.Sets(h.config.sps, h.config.pps)
  }

  function Add(s: State, i: Input): State {
    s.(inputs := s.inputs + [i])
  }

  predicate Possible(s: State, e: Event)
    requires LegalRun(s.inputs)
  {
    match e
    case Arrives(p, tail) => Legal(MuxerOf(s), Media(p, tail))
    case GetsAudioHeader(h) => |h| >= 2
    case GetsVideoHeader(h) => |h| >= 4
    case _ => true
  }

  lemma LegalMore(ins: seq<Input>, i: Input)
    requires LegalRun(ins) && Legal(Run(ins), i)
    ensures LegalRun(ins + [i]) && Run(ins + [i]) == Step(Run(ins), i)
  {
    assert (ins + [i])[..|ins|] == ins;
  }

  function Next(s: State, e: Event): (s': State)
    requires LegalRun(s.inputs) && Possible(s, e)
    ensures LegalRun(s'.inputs)
  {
    match e
    case Arrives(p, tail) =>
      LegalMore(s.inputs, Media(p, tail));
      Broadcast(Add(s, Media(p, tail)), p)
    case GetsMetaData(m) => s.(metaData := m)
    case GetsAudioHeader(h) =>
      if s.audioHeader == h then s
      else
        var pending := s.audioHeader == [] && s.videoHeader != [];
        var s1 := s.(audioHeader := h);
        LegalMore(s.inputs, NewAdts(AdtsOf(h)));
        Add(if pending then LetIn(s1) else s1, NewAdts(AdtsOf(h)))
    case GetsVideoHeader(h) =>
      if s.videoHeader == h then s
      else
        var pending := s.videoHeader == [] && s.audioHeader != [];
        var s1 := s.(videoHeader := h);
        var s2 := if pending then LetIn(s1) else s1;
        (match SetsOf(h, SetsIn(MuxerOf(s)))
         case None => s2
         case Some(sets) =>
           LegalMore(s.inputs, NewSets(sets.sps, sets.pps));
           Add(s2, NewSets(sets.sps, sets.pps)))
    case Joins(id) => AddSubscriber(s, id)
    case Leaves(id) => Leave(s, id)
    case Second(nowMs) =>
      LegalMore(s.inputs, Tick(nowMs));
      Add(s, Tick(nowMs))
  }

  // ---------------------------------------------------------------------------------------------
  // What every subscriber sees
  // ---------------------------------------------------------------------------------------------

  predicate OnlyMeta(ns: seq<Note>) {
    forall i :: 0 <= i < |ns| ==> ns[i].MetaData?
  }

  /** Nobody waits once both headers are there, and nobody both waits and is live. */
  predicate Orderly(s: State) {
    && s.live !! s.waiting
    && (HasBoth(s) ==> s.waiting == {})
    && s.live <= s.logs.Keys <= s.live + s.waiting && s.live <= s.starts.Keys
  }

  /** The frames of a stream among notes. */
  function Frames(ns: seq<Note>, kind: Kind): seq<Payload> {
    if ns == [] then []
    else if Last(ns).MediaData? && Last(ns).p.kind == kind then Frames(ns[..|ns| - 1], kind) + [Last(ns).p]
    else Frames(ns[..|ns| - 1], kind)
  }

  /** Metadata, then one audio header and one video header, then frames only. */
  predicate WellOpened(ns: seq<Note>) {
    exists n :: 0 <= n < |ns| && Opens(ns, n)
  }

  predicate Opens(ns: seq<Note>, n: nat) {
    && n + 2 <= |ns| && OnlyMeta(ns[..n]) && ns[n].AudioHeader? && ns[n].h != [] && ns[n + 1].VideoHeader? && ns[n + 1].h != []
    && forall i :: n + 2 <= i < |ns| ==> ns[i].MediaData?
  }

  /** The frames sent are a gap-free stretch of the stream, from the start on up to now. */
  predicate Stretch(sent: seq<Payload>, all: seq<Payload>, from: nat) {
    from <= |all| && sent == all[from..]
  }

  /** A start is the last key frame at the time, once there has been one. */
  predicate AtKeyFrame(all: seq<Payload>, start: nat) {
    if Keys(all) == 0 then start == 0 else LastKey(all, start)
  }

  /**
   What the subscriber found when it went live: the video started at the last key frame, and the audio with the frames
   that had arrived since that key frame, or, if any of those was gone, with what came next.
   */
  predicate WellStarted(start: Start, inputs: seq<Input>) {
    && start.at <= |inputs| && LegalRun(inputs[..start.at])
    && var then', h := Arrived(inputs[..start.at]), Run(inputs[..start.at]);
    && AtKeyFrame(Kept(then', Video), start.video)
    && start.audio == if h.audio.first <= AudioBeforeKey(then') then AudioBeforeKey(then') else |Kept(then', Audio)|
  }

  predicate Served(ns: seq<Note>, start: Start, inputs: seq<Input>) {
    && WellOpened(ns)
    && Stretch(Frames(ns, Video), Kept(Arrived(inputs), Video), start.video)
    && Stretch(Frames(ns, Audio), Kept(Arrived(inputs), Audio), start.audio)
    && WellStarted(start, inputs)
  }

  predicate AllServed(s: State) {
    && Orderly(s)
    && (forall id :: id in s.live ==> Served(s.logs[id], s.starts[id], s.inputs))
    && (forall id :: id in s.waiting ==> OnlyMeta(Log(s, id)))
  }

  lemma {:induction false} FramesAppend(a: seq<Note>, b: seq<Note>, kind: Kind)
    ensures Frames(a + b, kind) == Frames(a, kind) + Frames(b, kind)
    decreases |b|
  {
    if b == [] {
      assert a + b == a;
    } else {
      assert (a + b)[..|a + b| - 1] == a + b[..|b| - 1] && Last(a + b) == Last(b);
      FramesAppend(a, b[..|b| - 1], kind);
      if Last(b).MediaData? && Last(b).p.kind == kind {
        assert Frames(a, kind) + Frames(b[..|b| - 1], kind) + [Last(b).p] == Frames(a, kind) + (Frames(b[..|b| - 1], kind) + [Last(b).p]);
      }
    }
  }

  lemma {:induction false} FramesOfNotes(ps: seq<Payload>, kind: Kind)
    ensures Frames(Notes(ps), kind) == Kept(ps, kind)
    ensures |Notes(ps)| == |ps| && forall i :: 0 <= i < |ps| ==> Notes(ps)[i].MediaData?
    decreases |ps|
  {
    if ps != [] {
      FramesOfNotes(ps[..|ps| - 1], kind);
      assert Notes(ps)[..|Notes(ps)| - 1] == Notes(ps[..|ps| - 1]);
    }
  }

  lemma {:induction false} NoFramesInMeta(ns: seq<Note>, kind: Kind)
    requires forall i :: 0 <= i < |ns| ==> !ns[i].MediaData?
    ensures Frames(ns, kind) == []
    decreases |ns|
  {
    if ns != [] {
      NoFramesInMeta(ns[..|ns| - 1], kind);
    }
  }

  /** The fast start is the rest of both streams from the start on. */
  lemma {:induction false} FastOutIsStretch(ins: seq<Input>)
    requires LegalRun(ins)
    ensures var h, video, audio := Run(ins), Kept(Arrived(ins), Video), Kept(Arrived(ins), Audio);
            && Stretch(Kept(FastOut(h), Video), video, h.preVideo) && AtKeyFrame(video, h.preVideo)
            && Stretch(Kept(FastOut(h), Audio), audio, if h.audio.first <= h.preAudio then h.preAudio else |audio|)
  {
    hide Merge, Kept, Arrived, AllOfKind, Keys, LastKey;
    var h, video, audio := Run(ins), Kept(Arrived(ins), Video), Kept(Arrived(ins), Audio);
    LastGopIsRetained(ins);
    AudioTails(ins);
    FromTail(h.video, video, h.preVideo);
    FromTail(h.audio, audio, h.preAudio);
    KeptIsPure(Arrived(ins), Video);
    KeptIsPure(Arrived(ins), Audio);
    var a, v := From(h.audio, h.preAudio), From(h.video, h.preVideo);
    SuffixPure(video, if h.preVideo <= |video| then h.preVideo else 0, Video);
    SuffixPure(audio, h.preAudio, Audio);
    MergeKeeps(a, v, Video);
    MergeKeeps(a, v, Audio);
    LastKeyBound(video, h.preVideo);
    WholeFromStart(h, video);
  }

  lemma LastKeyBound(all: seq<Payload>, k: nat)
    ensures LastKey(all, k) ==> k < |all|
  {
  }

  /** Without a key frame nothing has been evicted. */
  lemma WholeFromStart(h: Hls, all: seq<Payload>)
    requires Retains(h, all)
    ensures Keys(all) == 0 ==> h.video.first == 0 && h.preVideo == 0
  {
  }

  lemma {:induction false} WelcomeServes(s: State, before: seq<Note>)
    requires LegalRun(s.inputs) && HasBoth(s) && OnlyMeta(before)
    ensures Served(before + Welcome(s), StartNow(s), s.inputs)
  {
    hide FastOut, Kept, Arrived, AtKeyFrame, Keys, WellStarted;
    var metas := before + MetaNote(s);
    var headers := [AudioHeader(s.audioHeader), VideoHeader(s.videoHeader)];
    var media := FastOut(MuxerOf(s));
    var ns := before + Welcome(s);
    assert ns == metas + (headers + Notes(media));
    FramesOfNotes(media, Video);
    FramesOfNotes(media, Audio);
    OpensNow(metas, headers, Notes(media));
    FramesBehind(metas, headers, Notes(media), Video);
    FramesBehind(metas, headers, Notes(media), Audio);
    FastOutIsStretch(s.inputs);
    StartsWell(s);
  }

  lemma StartsWell(s: State)
    requires LegalRun(s.inputs)
    ensures WellStarted(StartNow(s), s.inputs)
  {
    hide FastOut, Kept, Arrived, AtKeyFrame, AudioBeforeKey;
    assert s.inputs[..|s.inputs|] == s.inputs;
    FastOutIsStretch(s.inputs);
    AudioPlaceIsNoted(s.inputs);
  }

  /** Later inputs do not matter. */
  lemma StillStarted(start: Start, ins: seq<Input>, i: Input)
    requires WellStarted(start, ins)
    ensures WellStarted(start, ins + [i])
  {
    assert (ins + [i])[..start.at] == ins[..start.at];
  }

  lemma OpensNow(metas: seq<Note>, headers: seq<Note>, rest: seq<Note>)
    requires OnlyMeta(metas) && |headers| == 2 && headers[0].AudioHeader? && headers[0].h != []
    requires headers[1].VideoHeader? && headers[1].h != [] && forall i :: 0 <= i < |rest| ==> rest[i].MediaData?
    ensures WellOpened(metas + (headers + rest))
  {
    var ns := metas + (headers + rest);
    assert ns[..|metas|] == metas;
    assert Opens(ns, |metas|);
  }

  lemma FramesBehind(metas: seq<Note>, headers: seq<Note>, rest: seq<Note>, kind: Kind)
    requires OnlyMeta(metas) && |headers| == 2 && headers[0].AudioHeader? && headers[1].VideoHeader?
    ensures Frames(metas + (headers + rest), kind) == Frames(rest, kind)
  {
    FramesAppend(metas, headers + rest, kind);
    FramesAppend(headers, rest, kind);
    NoFramesInMeta(metas, kind);
    NoFramesInMeta(headers, kind);
    assert [] + ([] + Frames(rest, kind)) == Frames(rest, kind);
  }

  /** One more frame on the stretch of either stream. */
  lemma StretchGrows(ns: seq<Note>, ins: seq<Input>, p: Payload, tail: seq<byte>, kind: Kind, start: nat)
    requires Stretch(Frames(ns, kind), Kept(Arrived(ins), kind), start)
    ensures Stretch(Frames(ns + [MediaData(p)], kind), Kept(Arrived(ins + [Media(p, tail)]), kind), start)
  {
    hide Kept, Arrived, Frames;
    ArrivedStep(ins, Media(p, tail), kind);
    OneFrame(p, kind);
    FramesAppend(ns, [MediaData(p)], kind);
    if p.kind == kind {
      StretchMore(Frames(ns, kind), Kept(Arrived(ins), kind), start, p);
    } else {
      assert Frames(ns, kind) + [] == Frames(ns, kind);
    }
  }

  lemma OpenedMore(ns: seq<Note>, p: Payload)
    requires WellOpened(ns)
    ensures WellOpened(ns + [MediaData(p)])
  {
    var n: nat :| n < |ns| && Opens(ns, n);
    assert (ns + [MediaData(p)])[..n] == ns[..n];
    assert Opens(ns + [MediaData(p)], n);
  }

  lemma ServedMore(ns: seq<Note>, start: Start, ins: seq<Input>, p: Payload, tail: seq<byte>)
    requires Served(ns, start, ins)
    ensures Served(ns + [MediaData(p)], start, ins + [Media(p, tail)])
  {
    hide Kept, Arrived, Frames, Stretch, WellStarted, WellOpened;
    OpenedMore(ns, p);
    StretchGrows(ns, ins, p, tail, Video, start.video);
    StretchGrows(ns, ins, p, tail, Audio, start.audio);
    StillStarted(start, ins, Media(p, tail));
  }

  lemma OneFrame(p: Payload, kind: Kind)
    ensures Frames([MediaData(p)], kind) == if p.kind == kind then [p] else []
  {
    assert [MediaData(p)][..0] == [];
    assert Frames([], kind) == [] && [] + [p] == [p];
  }

  lemma StretchMore(sent: seq<Payload>, all: seq<Payload>, start: nat, p: Payload)
    requires Stretch(sent, all, start)
    ensures Stretch(sent + [p], all + [p], start)
  {
    assert (all + [p])[start..] == all[start..] + [p];
  }

  /** Other inputs change nothing for a subscriber. */
  lemma ServedSame(ns: seq<Note>, start: Start, ins: seq<Input>, i: Input)
    requires Served(ns, start, ins) && !i.Media?
    ensures Served(ns, start, ins + [i])
  {
    hide Kept, Arrived, WellStarted, Frames, WellOpened;
    ArrivedStep(ins, i, Video);
    ArrivedStep(ins, i, Audio);
    StillStarted(start, ins, i);
  }

  lemma MetaMore(before: seq<Note>, s: State)
    requires OnlyMeta(before)
    ensures OnlyMeta(before + MetaNote(s))
  {
  }

  lemma {:induction false} JoinServes(s: State, id: Id)
    requires LegalRun(s.inputs) && AllServed(s)
    ensures AllServed(AddSubscriber(s, id))
  {
    hide Served, Welcome, StartNow;
    if id !in s.live {
      if HasBoth(s) {
        WelcomeServes(s, Log(s, id));
      } else {
        WelcomeIsMeta(s);
        MetaMore(Log(s, id), s);
      }
    }
  }

  lemma WelcomeIsMeta(s: State)
    requires LegalRun(s.inputs) && !HasBoth(s)
    ensures Welcome(s) == MetaNote(s)
  {
  }

  lemma {:induction false} LetInServes(s: State)
    requires LegalRun(s.inputs) && HasBoth(s) && s.live !! s.waiting
    requires s.live <= s.logs.Keys <= s.live + s.waiting && s.live <= s.starts.Keys
    requires forall id :: id in s.live ==> Served(s.logs[id], s.starts[id], s.inputs)
    requires forall id :: id in s.waiting ==> OnlyMeta(Log(s, id))
    ensures AllServed(LetIn(s))
  {
    hide Served, Welcome, StartNow, OnlyMeta;
    var s' := LetIn(s);
    forall id | id in s'.live ensures Served(s'.logs[id], s'.starts[id], s'.inputs) {
      if id in s.waiting {
        WelcomeServes(s.(waiting := {}), Log(s, id));
        SameWelcome(s);
      }
    }
  }

  lemma SameWelcome(s: State)
    requires LegalRun(s.inputs)
    ensures Welcome(s.(waiting := {})) == Welcome(s) && StartNow(s.(waiting := {})) == StartNow(s)
  {
  }

  lemma {:induction false} BroadcastServes(s: State, p: Payload, tail: seq<byte>)
    requires AllServed(s)
    ensures AllServed(Broadcast(Add(s, Media(p, tail)), p))
  {
    hide Served, OnlyMeta;
    forall id | id in s.live ensures Served(s.logs[id] + [MediaData(p)], s.starts[id], s.inputs + [Media(p, tail)]) {
      ServedMore(s.logs[id], s.starts[id], s.inputs, p, tail);
    }
  }

  lemma {:induction false} AddServes(s: State, i: Input)
    requires AllServed(s) && !i.Media?
    ensures AllServed(Add(s, i))
  {
    hide Served, OnlyMeta;
    forall id | id in s.live ensures Served(s.logs[id], s.starts[id], s.inputs + [i]) {
      ServedSame(s.logs[id], s.starts[id], s.inputs, i);
    }
  }

  lemma {:induction false} StepServes(s: State, e: Event)
    requires LegalRun(s.inputs) && Possible(s, e) && AllServed(s)
    ensures AllServed(Next(s, e))
  {
    hide Served, OnlyMeta, AddSubscriber, LetIn, Broadcast, Welcome;
    match e
    case Arrives(p, tail) => BroadcastServes(s, p, tail);
    case GetsMetaData(m) =>
    case GetsAudioHeader(h) =>
      if s.audioHeader != h {
        var s1 := s.(audioHeader := h);
        if s.audioHeader == [] && s.videoHeader != [] {
          LetInServes(s1);
          AddServes(LetIn(s1), NewAdts(AdtsOf(h)));
        } else {
          AddServes(s1, NewAdts(AdtsOf(h)));
        }
      }
    case GetsVideoHeader(h) =>
      if s.videoHeader != h {
        var s1 := s.(videoHeader := h);
        var s2 := if s.videoHeader == [] && s.audioHeader != [] then LetIn(s1) else s1;
        if s.videoHeader == [] && s.audioHeader != [] {
          LetInServes(s1);
        }
        var sets := SetsOf(h, SetsIn(MuxerOf(s)));
        if sets.Some? {
          AddServes(s2, NewSets(sets.value.sps, sets.value.pps));
        }
      }
    case Joins(id) => JoinServes(s, id);
    case Leaves(id) =>
    case Second(nowMs) => AddServes(s, Tick(nowMs));
  }

  predicate PossibleRun(es: seq<Event>)
    decreases |es|, 0
  {
    es == [] || (PossibleRun(es[..|es| - 1]) && Possible(After(es[..|es| - 1]), Last(es)))
  }

  function After(es: seq<Event>): (s: State)
    requires PossibleRun(es)
    ensures LegalRun(s.inputs)
    decreases |es|, 1
  {
    if es == [] then NEW else Next(After(es[..|es| - 1]), Last(es))
  }

  /**
   In every run, whoever is live has been sent an audio header and then a video header before any frame, and since
   then a gap-free stretch of each stream that starts, for video, at what was the last key frame, and for audio at the
   place noted with it if that was still queued; waiting and live subscribers are kept apart, and nobody waits once both
   headers are there.
   */
  lemma {:induction false} EverySubscriberIsServed(es: seq<Event>)
    requires PossibleRun(es)
    ensures AllServed(After(es))
    decreases |es|
  {
    hide Next, AllServed, Possible;
    if es == [] {
      NobodyYet();
    } else {
      EverySubscriberIsServed(es[..|es| - 1]);
      StepServes(After(es[..|es| - 1]), Last(es));
    }
  }

  lemma NobodyYet()
    ensures AllServed(NEW)
  {
  }

  /** A header gathered from two clean parameter sets, none of them empty, gives them back, whatever was known before. */
  lemma ParameterSetsSurvive(sps: seq<byte>, pps: seq<byte>, before: AvcRecord.Sets)
    requires Clean([sps, pps])
    ensures SetsOf(Join([sps, pps]), before) == Some(AvcRecord.Sets(sps, pps))
  {
    SplitsBack([sps, pps]);
    assert Join([sps, pps])[..4] == CODE;
  }
}
