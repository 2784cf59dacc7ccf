/** What every subscriber has been sent, told by the events alone and not by the publisher's state. */
module Subscribers {
  import opened Bytes
  import opened Media
  import opened AnnexB
  import opened TsPackets
  import opened Hls
  import opened Publisher
  import AvcRecord

  function LastMeta(es: seq<Event>): seq<byte> {
    if es == [] then [] else if Last(es).GetsMetaData? then Last(es).m else LastMeta(es[..|es| - 1])
  }

  function LastAudio(es: seq<Event>): seq<byte> {
    if es == [] then [] else if Last(es).GetsAudioHeader? then Last(es).h else LastAudio(es[..|es| - 1])
  }

  function LastVideo(es: seq<Event>): seq<byte> {
    if es == [] then [] else if Last(es).GetsVideoHeader? then Last(es).h else LastVideo(es[..|es| - 1])
  }

  predicate HadBoth(es: seq<Event>) {
    LastAudio(es) != [] && LastVideo(es) != []
  }

  function ArrivalsOf(es: seq<Event>): seq<Payload> {
    if es == [] then []
    else if Last(es).Arrives? then ArrivalsOf(es[..|es| - 1]) + [Last(es).p]
    else ArrivalsOf(es[..|es| - 1])
  }

  /** It has joined and has not left since. */
  predicate Present(es: seq<Event>, id: Id) {
    es != [] && if Last(es) == Leaves(id) then false else Last(es) == Joins(id) || Present(es[..|es| - 1], id)
  }

  /** The number of events behind which it was present and both headers were there. */
  function LiveSince(es: seq<Event>, id: Id): (n: Option<nat>)
    ensures n.Some? ==> 0 < n.value <= |es|
  {
    if !Present(es, id) then None
    else
      var before := LiveSince(es[..|es| - 1], id);
      if before.Some? then before else if HadBoth(es) then Some(|es|) else None
  }

  function MetaNow(es: seq<Event>): seq<Note> {
    if LastMeta(es) != [] then [MetaData(LastMeta(es))] else []
  }

  /** The metadata that it is sent: when it joins, and again when it has waited and goes live. */
  function MetasSent(es: seq<Event>, id: Id): seq<Note> {
    if !Present(es, id) then []
    else
      var init := es[..|es| - 1];
      if LiveSince(init, id).None? && (Last(es) == Joins(id) || HadBoth(es)) then MetasSent(init, id) + MetaNow(es)
      else MetasSent(init, id)
  }

  /** Metadata, then these two headers, then frames only. */
  predicate OpensWith(ns: seq<Note>, metas: seq<Note>, audio: seq<byte>, video: seq<byte>) {
    && metas + [AudioHeader(audio), VideoHeader(video)] <= ns
    && forall i :: |metas| + 2 <= i < |ns| ==> ns[i].MediaData?
  }

  predicate Greeted(s: State, es: seq<Event>, id: Id) {
    var since := LiveSince(es, id);
    && (id in s.live <==> since.Some?)
    && (id in s.waiting <==> Present(es, id) && since.None?)
    && (id in s.logs <==> Present(es, id))
    && (id in s.waiting ==> s.logs[id] == MetasSent(es, id))
    && (since.Some? ==>
          var n := since.value;
          && OpensWith(s.logs[id], MetasSent(es, id), LastAudio(es[..n]), LastVideo(es[..n]))
          && id in s.starts && PossibleRun(es[..n - 1]) && s.starts[id].at == |After(es[..n - 1]).inputs|)
  }

  /** The publisher knows what was set last. */
  predicate Informed(s: State, es: seq<Event>) {
    s.metaData == LastMeta(es) && s.audioHeader == LastAudio(es) && s.videoHeader == LastVideo(es)
  }

  lemma {:induction false} PublisherIsInformed(es: seq<Event>)
    requires PossibleRun(es)
    ensures Informed(After(es), es)
    decreases |es|
  {
    hide Run, LegalRun, FastOut, Arrived, Kept, SetsOf;
    if es != [] {
      PublisherIsInformed(es[..|es| - 1]);
      HeadersOfNext(After(es[..|es| - 1]), Last(es));
    }
  }

  lemma HeadersOfNext(s: State, e: Event)
    requires LegalRun(s.inputs) && Possible(s, e)
    ensures Next(s, e).metaData == (if e.GetsMetaData? then e.m else s.metaData)
    ensures Next(s, e).audioHeader == (if e.GetsAudioHeader? then e.h else s.audioHeader)
    ensures Next(s, e).videoHeader == (if e.GetsVideoHeader? then e.h else s.videoHeader)
  {
    hide Run, LegalRun, FastOut, Arrived, Kept, SetsOf, Welcome, StartNow;
  }

  lemma {:induction false} PrefixIsPossible(es: seq<Event>, n: nat)
    requires PossibleRun(es) && n <= |es|
    ensures PossibleRun(es[..n])
    decreases |es|
  {
    if n < |es| {
      PrefixIsPossible(es[..|es| - 1], n);
      assert es[..|es| - 1][..n] == es[..n];
    } else {
      assert es[..n] == es;
    }
  }

  /** Once it could have been live, it is. */
  lemma {:induction false} LiveAtOnce(es: seq<Event>, id: Id)
    ensures Present(es, id) && HadBoth(es) ==> LiveSince(es, id).Some?
    ensures LiveSince(es, id).Some? ==> Present(es, id)
    ensures !Present(es, id) ==> MetasSent(es, id) == []
  {
  }

  /** What has been sent so far, followed by what goes out when it goes live. */
  lemma OpensNow(before: seq<Note>, s: State)
    requires LegalRun(s.inputs) && HasBoth(s)
    ensures OpensWith(before + Welcome(s), before + MetaNote(s), s.audioHeader, s.videoHeader)
  {
    hide FastOut, Run, LegalRun;
    var headers, media := [AudioHeader(s.audioHeader), VideoHeader(s.videoHeader)], Notes(FastOut(MuxerOf(s)));
    FramesOfNotes(FastOut(MuxerOf(s)), Video);
    assert before + Welcome(s) == before + MetaNote(s) + headers + media;
  }

  /** Nothing has changed for it, except that it may have been sent frames. */
  predicate Carried(s: State, s': State, id: Id) {
    && (id in s'.live <==> id in s.live) && (id in s'.waiting <==> id in s.waiting) && (id in s'.logs <==> id in s.logs)
    && (id in s.waiting && id in s.logs ==> s'.logs[id] == s.logs[id])
    && (id in s.live && id in s.logs ==>
          s.logs[id] <= s'.logs[id] && forall i :: |s.logs[id]| <= i < |s'.logs[id]| ==> s'.logs[id][i].MediaData?)
    && (id in s.live && id in s.starts ==> id in s'.starts && s'.starts[id] == s.starts[id])
  }

  lemma StillGreeted(s: State, s': State, es: seq<Event>, id: Id)
    requires es != [] && Greeted(s, es[..|es| - 1], id) && Carried(s, s', id) && s.live !! s.waiting
    requires Present(es, id) == Present(es[..|es| - 1], id)
    requires LiveSince(es[..|es| - 1], id).Some? || !(Last(es) == Joins(id) || HadBoth(es)) || !Present(es, id)
    ensures Greeted(s', es, id)
  {
    hide Run, LegalRun, FastOut, LastMeta, LastAudio, LastVideo, After, Present, HadBoth;
    var init := es[..|es| - 1];
    LiveAtOnce(init, id);
    LiveAtOnce(es, id);
    assert LiveSince(es, id) == LiveSince(init, id) && MetasSent(es, id) == MetasSent(init, id);
    if LiveSince(es, id).Some? {
      var n := LiveSince(es, id).value;
      assert es[..n] == init[..n] && es[..n - 1] == init[..n - 1];
    }
  }

  /** It goes live with this event; `s1` is what the publisher knows when it does. */
  lemma NowGreeted(s: State, s1: State, s': State, es: seq<Event>, id: Id)
    requires PossibleRun(es) && es != [] && Greeted(s, es[..|es| - 1], id) && s == After(es[..|es| - 1])
    requires LegalRun(s1.inputs) && HasBoth(s1) && Informed(s1, es) && s1.inputs == s.inputs && s1.logs == s.logs
    requires Present(es, id) && LiveSince(es[..|es| - 1], id).None?
    requires id in s'.live && id !in s'.waiting && id in s'.logs && id in s'.starts
    requires s'.logs[id] == Log(s1, id) + Welcome(s1) && s'.starts[id] == StartNow(s1)
    ensures Greeted(s', es, id)
  {
    hide Run, LegalRun, FastOut, LastMeta, LastAudio, LastVideo, Present, Welcome, OpensWith;
    var init := es[..|es| - 1];
    LiveAtOnce(init, id);
    assert es[..|es|] == es;
    PossibleInit(es);
    OpensNow(Log(s1, id), s1);
    assert LiveSince(es, id) == Some(|es|);
    assert Log(s1, id) == MetasSent(init, id);
    assert MetasSent(es, id) == MetasSent(init, id) + MetaNow(es);
  }

  lemma PossibleInit(es: seq<Event>)
    requires PossibleRun(es) && es != []
    ensures PossibleRun(es[..|es| - 1]) && Possible(After(es[..|es| - 1]), Last(es))
    ensures After(es) == Next(After(es[..|es| - 1]), Last(es))
  {
    hide Next, Possible;
  }

  predicate LetsIn(s: State, e: Event)
    requires LegalRun(s.inputs) && Possible(s, e)
  {
    !HasBoth(s) && HasBoth(Next(s, e)) && !e.Joins?
  }

  /** What the publisher knows when it lets those in who have waited. */
  function Told(s: State, e: Event): State {
    match e
    case GetsAudioHeader(h) => s.(audioHeader := h)
    case GetsVideoHeader(h) => s.(videoHeader := h)
    case _ => s
  }

  /** Events that are not about it. */
  lemma OthersCarry(s: State, e: Event, id: Id)
    requires LegalRun(s.inputs) && Possible(s, e) && Orderly(s)
    requires e != Leaves(id) && (e == Joins(id) ==> id in s.live) && (id in s.waiting ==> !LetsIn(s, e))
    ensures Carried(s, Next(s, e), id)
  {
    hide Run, LegalRun, FastOut, SetsOf, Welcome, StartNow, AdtsOf;
  }

  lemma WaitersGoLive(s: State, e: Event, id: Id)
    requires LegalRun(s.inputs) && Possible(s, e) && Orderly(s) && LetsIn(s, e) && id in s.waiting
    ensures var s1, s' := Told(s, e), Next(s, e);
            && HasBoth(s1) && id in s'.live && id !in s'.waiting && id in s'.logs && id in s'.starts
            && s'.logs[id] == Log(s1, id) + Welcome(s1) && s'.starts[id] == StartNow(s1)
  {
    hide Run, LegalRun, FastOut, SetsOf, Welcome, StartNow, AdtsOf;
    SameWelcome(Told(s, e));
  }

  lemma JoinersGoLive(s: State, id: Id)
    requires LegalRun(s.inputs) && Orderly(s) && HasBoth(s) && id !in s.live
    ensures var s' := Next(s, Joins(id));
            && id in s'.live && id !in s'.waiting && id in s'.logs && id in s'.starts
            && s'.logs[id] == Log(s, id) + Welcome(s) && s'.starts[id] == StartNow(s)
  {
    hide Run, LegalRun, FastOut, Welcome, StartNow;
  }

  lemma JoinersWait(s: State, es: seq<Event>, id: Id)
    requires es != [] && Last(es) == Joins(id) && Greeted(s, es[..|es| - 1], id) && Informed(s, es)
    requires LegalRun(s.inputs) && !HasBoth(s) && id !in s.live
    ensures Greeted(Next(s, Joins(id)), es, id)
  {
    hide Run, LegalRun, LastMeta, LastAudio, LastVideo, After;
    LiveAtOnce(es[..|es| - 1], id);
    WelcomeIsMeta(s);
  }

  lemma LeaversAreGone(s: State, es: seq<Event>, id: Id)
    requires es != [] && Last(es) == Leaves(id) && LegalRun(s.inputs)
    ensures Greeted(Next(s, Leaves(id)), es, id)
  {
    hide Run, LegalRun, LastMeta, LastAudio, LastVideo, After;
  }

  lemma PresentStep(es: seq<Event>, id: Id)
    requires es != [] && Last(es) != Leaves(id) && Last(es) != Joins(id)
    ensures Present(es, id) == Present(es[..|es| - 1], id)
  {
  }

  lemma {:induction false} GreetedStep(es: seq<Event>, id: Id)
    requires PossibleRun(es) && es != []
    requires PossibleRun(es[..|es| - 1]) && Greeted(After(es[..|es| - 1]), es[..|es| - 1], id)
    ensures Greeted(After(es), es, id)
  {
    hide LastMeta, LastAudio, LastVideo, After, LiveSince, MetasSent, Welcome, StartNow, Run, LegalRun, Present;
    hide Possible, Carried, Served, OnlyMeta, Next, OpensWith;
    var init, e := es[..|es| - 1], Last(es);
    var s := After(init);
    PossibleInit(es);
    EverySubscriberIsServed(init);
    PublisherIsInformed(init);
    PublisherIsInformed(es);
    LiveAtOnce(init, id);
    LiveAtOnce(es, id);
    HeadersOfNext(s, e);
    if e == Leaves(id) {
      LeaversAreGone(s, es, id);
    } else if e == Joins(id) && id !in s.live {
      JoinerIsPresent(es, id);
      if HasBoth(s) {
        JoinersGoLive(s, id);
        NowGreeted(s, s, After(es), es, id);
      } else {
        JoinersWait(s, es, id);
      }
    } else if id in s.waiting && LetsIn(s, e) {
      PresentStep(es, id);
      WaitersGoLive(s, e, id);
      NowGreeted(s, Told(s, e), After(es), es, id);
    } else {
      if e == Joins(id) {
        JoinerIsPresent(es, id);
      } else {
        PresentStep(es, id);
      }
      OthersCarry(s, e, id);
      StillGreeted(s, After(es), es, id);
    }
  }

  lemma JoinerIsPresent(es: seq<Event>, id: Id)
    requires es != [] && Last(es) == Joins(id)
    ensures Present(es, id)
  {
  }

  /**
   In every run, whoever has joined and not left is live exactly since both headers were there, and has been sent: the
   metadata that was set last, whenever it joined or was let in; then the audio header and the video header that were set
   last when it went live; and from then on nothing but frames.
   */
  lemma {:induction false} EverySubscriberIsGreeted(es: seq<Event>, id: Id)
    requires PossibleRun(es)
    ensures Greeted(After(es), es, id)
    decreases |es|
  {
    hide Greeted, After, Possible;
    if es == [] {
      NobodyIsGreeted(id);
    } else {
      PossibleInit(es);
      EverySubscriberIsGreeted(es[..|es| - 1], id);
      GreetedStep(es, id);
    }
  }

  lemma NobodyIsGreeted(id: Id)
    ensures Greeted(After([]), [], id)
  {
  }

  // ---------------------------------------------------------------------------------------------
  // What the muxer has been given
  // ---------------------------------------------------------------------------------------------

  /** The audio configuration is that of the last audio header. */
  function AdtsNow(es: seq<Event>): Option<seq<byte>> {
    if |LastAudio(es)| < 2 then None else Some(AdtsOf(LastAudio(es)))
  }

  /** The parameter sets are those that the video headers have announced one after the other. */
  function SetsNow(es: seq<Event>): AvcRecord.Sets {
    if es == [] then AvcRecord.Sets([], [])
    else
      var known := SetsNow(es[..|es| - 1]);
      if !Last(es).GetsVideoHeader? then known
      else
        match SetsOf(Last(es).h, known)
        case None => known
        case Some(sets) => sets
  }

  lemma ConfigOfStep(h: Hls, i: Input)
    requires Steady(h) && Legal(h, i)
    ensures Step(h, i).config == match i
                                 case NewSets(sps, pps) => h.config.(sps := sps, pps := pps)
                                 case NewAdts(adts) => h.config.(adts := Some(adts))
                                 case _ => h.config
  {
    hide PacketTs;
    if i.Media? {
      PacketTsShape(if i.p.kind == Audio then h.(audio := h.audio.Push(i.p))
                    else var g := StartGop(h, i.p); g.(video := g.video.Push(i.p)), i);
    }
  }

  /** Reading a video header twice is reading it once. */
  lemma SetsAgain(h: seq<byte>, known: AvcRecord.Sets)
    ensures var sets := SetsOf(h, known);
            sets.Some? ==> SetsOf(h, sets.value) == sets
    ensures forall other :: SetsOf(h, known).None? ==> SetsOf(h, other).None?
  {
    hide ParameterSets;
    if |h| >= 6 {
      var n := h[5] as nat % 32;
      AvcRecord.ReadAgain(h[6..], n, known.sps);
      var t := AvcRecord.ReadUnits(h[6..], n, known.sps).1;
      if t != [] {
        AvcRecord.ReadAgain(t[1..], t[0] as nat, known.pps);
      }
    }
  }

  predicate Given(s: State, es: seq<Event>)
    requires LegalRun(s.inputs)
  {
    && Arrived(s.inputs) == ArrivalsOf(es)
    && MuxerOf(s).config == Config(SetsNow(es).sps, SetsNow(es).pps, AdtsNow(es))
  }

  /** What the last video header says has been taken in. */
  predicate Settled(es: seq<Event>) {
    LastVideo(es) != [] ==> SetsOf(LastVideo(es), SetsNow(es)) in {None, Some(SetsNow(es))}
  }

  lemma {:induction false} SetsAreSettled(es: seq<Event>)
    ensures Settled(es)
    decreases |es|
  {
    hide SetsOf;
    if es != [] {
      SetsAreSettled(es[..|es| - 1]);
      if Last(es).GetsVideoHeader? {
        SetsAgain(Last(es).h, SetsNow(es[..|es| - 1]));
      }
    }
  }

  /** The input that an event turns into, if it does. */
  lemma InputOf(s: State, e: Event)
    requires LegalRun(s.inputs) && Possible(s, e)
    ensures var ins, sets := Next(s, e).inputs, if e.GetsVideoHeader? then SetsOf(e.h, SetsIn(MuxerOf(s))) else None;
            && (e.Arrives? ==> ins == s.inputs + [Media(e.p, e.tail)])
            && (e.GetsAudioHeader? ==> ins == if e.h == s.audioHeader then s.inputs else s.inputs + [NewAdts(AdtsOf(e.h))])
            && (e.GetsVideoHeader? ==> ins == if e.h == s.videoHeader || sets == None then s.inputs
                                              else s.inputs + [NewSets(sets.value.sps, sets.value.pps)])
            && (e.Second? ==> ins == s.inputs + [Tick(e.nowMs)])
            && (e.GetsMetaData? || e.Joins? || e.Leaves? ==> ins == s.inputs)
  {
    hide Run, LegalRun, FastOut, SetsOf, Welcome, StartNow, AdtsOf;
  }

  lemma OneMoreInput(ins: seq<Input>, i: Input)
    requires LegalRun(ins) && Legal(Run(ins), i)
    ensures LegalRun(ins + [i]) && Arrived(ins + [i]) == if i.Media? then Arrived(ins) + [i.p] else Arrived(ins)
    ensures Run(ins + [i]).config == match i
                                     case NewSets(sps, pps) => Run(ins).config.(sps := sps, pps := pps)
                                     case NewAdts(adts) => Run(ins).config.(adts := Some(adts))
                                     case _ => Run(ins).config
  {
    hide Step;
    LegalMore(ins, i);
    ConfigOfStep(Run(ins), i);
    assert (ins + [i])[..|ins|] == ins;
  }

  /** In every run the muxer has been given all frames that arrived, and its configuration is what the headers say. */
  lemma {:induction false} MuxerIsGiven(es: seq<Event>)
    requires PossibleRun(es)
    ensures Given(After(es), es)
    decreases |es|
  {
    hide Next, Run, LegalRun, Possible, After, SetsOf, LastAudio, LastVideo, AdtsOf, Legal;
    if es == [] {
      NothingGiven();
    } else {
      var init, e := es[..|es| - 1], Last(es);
      PossibleInit(es);
      MuxerIsGiven(init);
      GivenStep(init, e, After(init));
      assert es == init + [e];
    }
  }

  lemma NothingGiven()
    ensures Given(NEW, []) && After([]) == NEW
  {
  }

  lemma GivenStep(init: seq<Event>, e: Event, s: State)
    requires PossibleRun(init) && s == After(init) && Possible(s, e) && Given(s, init)
    ensures Given(Next(s, e), init + [e])
  {
    hide Next, Run, LegalRun, After, SetsOf, AdtsOf, Step;
    var es := init + [e];
    assert es[..|es| - 1] == init;
    InputOf(s, e);
    PublisherIsInformed(init);
    match e
    case Arrives(p, tail) => OneMoreInput(s.inputs, Media(p, tail));
    case GetsAudioHeader(h) => OneMoreInput(s.inputs, NewAdts(AdtsOf(h)));
    case GetsVideoHeader(h) => SetsGiven(init, h, s);
    case Second(nowMs) => OneMoreInput(s.inputs, Tick(nowMs));
    case _ =>
  }

  lemma SetsGiven(init: seq<Event>, h: seq<byte>, s: State)
    requires PossibleRun(init) && s == After(init) && Possible(s, GetsVideoHeader(h)) && Given(s, init)
    ensures Given(Next(s, GetsVideoHeader(h)), init + [GetsVideoHeader(h)])
  {
    hide Next, Run, LegalRun, After, SetsOf, AdtsOf, Step;
    var e := GetsVideoHeader(h);
    var es := init + [e];
    assert es[..|es| - 1] == init;
    InputOf(s, e);
    PublisherIsInformed(init);
    SetsAreSettled(init);
    var sets := SetsOf(h, SetsIn(MuxerOf(s)));
    if sets.Some? {
      OneMoreInput(s.inputs, NewSets(sets.value.sps, sets.value.pps));
    }
  }

  lemma {:induction false} InputsGrow(es: seq<Event>, n: nat)
    requires PossibleRun(es) && n <= |es| && PossibleRun(es[..n])
    ensures After(es[..n]).inputs <= After(es).inputs
    decreases |es|
  {
    hide Next, Run, LegalRun, Possible, After, SetsOf, AdtsOf;
    if n < |es| {
      var init := es[..|es| - 1];
      PossibleInit(es);
      assert init[..n] == es[..n];
      InputsGrow(init, n);
      InputOf(After(init), Last(es));
    } else {
      assert es[..n] == es;
    }
  }

  /**
   In every run the frames that a live subscriber has been sent are a gap-free end of all that arrived on each stream: the
   video from the last key frame before it went live, the audio from the frames that came since that key frame or, at the
   latest, from the first one after it went live.
   */
  lemma {:induction false} EveryLogIsGapFree(es: seq<Event>, id: Id)
    requires PossibleRun(es) && LiveSince(es, id).Some?
    ensures id in After(es).logs && id in After(es).starts
    ensures var before, all := ArrivalsOf(es[..LiveSince(es, id).value - 1]), ArrivalsOf(es);
            var log, start := After(es).logs[id], After(es).starts[id];
            && AtKeyFrame(Kept(before, Video), start.video)
            && start.audio in {AudioBeforeKey(before), |Kept(before, Audio)|}
            && Stretch(Frames(log, Video), Kept(all, Video), start.video)
            && Stretch(Frames(log, Audio), Kept(all, Audio), start.audio)
  {
    hide Next, Run, LegalRun, Possible, After, LiveSince, OpensWith, WellOpened, Kept, Frames, AudioBeforeKey, Stretch;
    hide AtKeyFrame, ArrivalsOf, Arrived, Present, MetasSent, PossibleRun, LastAudio, LastVideo;
    EverySubscriberIsServed(es);
    EverySubscriberIsGreeted(es, id);
    MuxerIsGiven(es);
    var n := LiveSince(es, id).value;
    MuxerIsGiven(es[..n - 1]);
    InputsGrow(es, n - 1);
    var start, then' := After(es).starts[id], After(es[..n - 1]).inputs;
    assert After(es).inputs[..start.at] == then';
    assert Arrived(then') == ArrivalsOf(es[..n - 1]);
  }

  // ---------------------------------------------------------------------------------------------
  // What video headers say
  // ---------------------------------------------------------------------------------------------

  /** A byte stream of clean units sets both parameter sets when there are two units, and otherwise neither. */
  lemma ByteStreamIsTakenIff(us: seq<seq<byte>>, before: AvcRecord.Sets)
    requires us != [] && Clean(us)
    ensures SetsOf(Join(us), before) == if |us| == 2 then Some(AvcRecord.Sets(us[0], us[1])) else None
  {
    hide Clean;
    SplitsBack(us);
    assert Join(us)[..4] == CODE;
  }

  /** A configuration record of version 1 sets the last parameter set of either kind. */
  lemma RecordIsTaken(front: seq<byte>, spss: seq<seq<byte>>, ppss: seq<seq<byte>>, before: AvcRecord.Sets)
    requires |front| == 5 && front[0] == 1
    requires |spss| < 32 && |ppss| < 256 && AvcRecord.Short(spss) && AvcRecord.Short(ppss)
    ensures SetsOf(AvcRecord.Record(front, spss, ppss), before)
            == Some(AvcRecord.Sets(if spss == [] then before.sps else Last(spss), if ppss == [] then before.pps else Last(ppss)))
  {
    hide AvcRecord.ReadRecord, AvcRecord.Units;
    AvcRecord.RecordReadsBack(front, spss, ppss, before);
    var h := AvcRecord.Record(front, spss, ppss);
    assert h[0] == 1 && h[..4][0] == 1;
  }
}
