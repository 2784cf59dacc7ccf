/** The publisher itself: sets of live and waiting subscribers that are changed in place around one muxer. */
module MediaPublisher {
  import opened Bytes
  import opened Media
  import opened TsPackets
  import opened Hls
  import H = Hls
  import opened Publisher
  import P = Publisher
  import M = MediaMuxer

  /** After some of those who waited have been added one by one. */
  lemma JoinOne(s: State, done: set<Id>, id: Id)
    requires LegalRun(s.inputs) && HasBoth(s) && id !in done && id !in s.live
    ensures P.AddSubscriber(JoinAll(s, done), id) == JoinAll(s, done + {id})
  {
    hide Welcome, StartNow;
    SameForAll(s, JoinAll(s, done));
    var a, b := P.AddSubscriber(JoinAll(s, done), id), JoinAll(s, done + {id});
    assert s.live + done + {id} == s.live + (done + {id});
    assert a.logs == b.logs;
    assert a.starts == b.starts;
  }

  /** Who has subscribed does not matter for what a new subscriber gets. */
  lemma SameForAll(s: State, t: State)
    requires LegalRun(s.inputs) && t.inputs == s.inputs && t.metaData == s.metaData
    requires t.audioHeader == s.audioHeader && t.videoHeader == s.videoHeader
    ensures Welcome(t) == Welcome(s) && StartNow(t) == StartNow(s) && HasBoth(t) == HasBoth(s)
  {
    hide FastOut;
  }

  lemma JoinNone(s: State)
    requires LegalRun(s.inputs) && HasBoth(s)
    ensures JoinAll(s, {}) == s
  {
    assert JoinAll(s, {}).logs == s.logs && JoinAll(s, {}).starts == s.starts;
    assert s.live + {} == s.live;
  }

  /** Notes of frames, one after the other. */
  lemma NotesSnoc(ps: seq<Payload>, i: nat)
    requires i < |ps|
    ensures Notes(ps[..i + 1]) == Notes(ps[..i]) + [MediaData(ps[i])]
  {
    assert ps[..i + 1][..i] == ps[..i];
  }

  lemma SameSends(s: State, p: Payload, logs: map<Id, seq<Note>>, done: set<Id>)
    requires logs == SentTo(s.logs, p, done) && done == s.live
    ensures logs == Broadcast(s, p).logs
  {
  }

  function SentTo(logs: map<Id, seq<Note>>, p: Payload, done: set<Id>): map<Id, seq<Note>> {
    map id | id in logs :: if id in done then logs[id] + [MediaData(p)] else logs[id]
  }

  lemma SendOne(logs: map<Id, seq<Note>>, p: Payload, done: set<Id>, id: Id)
    requires id in logs && id !in done
    ensures SentTo(logs, p, done)[id := SentTo(logs, p, done)[id] + [MediaData(p)]] == SentTo(logs, p, done + {id})
  {
  }

  lemma SendNobody(logs: map<Id, seq<Note>>, p: Payload)
    ensures SentTo(logs, p, {}) == logs
  {
  }

  class MediaPublisher {
    const mediaMuxer: M.MediaMuxer
    var subscriber: set<Id>
    var waitHeaderSubscriber: set<Id>
    var metaData: seq<byte>
    var audioHeader: seq<byte>
    var videoHeader: seq<byte>
    /** What has been sent to each subscriber. */
    var sent: map<Id, seq<Note>>
    ghost var s: State

    ghost predicate Tied()
      reads this
    {
      && subscriber == s.live && waitHeaderSubscriber == s.waiting && sent == s.logs
      && metaData == s.metaData && audioHeader == s.audioHeader && videoHeader == s.videoHeader
    }

    ghost predicate Valid()
      reads this, mediaMuxer
    {
      Tied() && mediaMuxer.Valid() && LegalRun(s.inputs) && mediaMuxer.h == MuxerOf(s) && s.live <= s.logs.Keys
    }

    constructor ()
      ensures Valid() && s == NEW && fresh(mediaMuxer)
    {
      mediaMuxer := new M.MediaMuxer();
      subscriber, waitHeaderSubscriber, metaData, audioHeader, videoHeader, sent := {}, {}, [], [], [], map[];
      s := NEW;
    }

    method Send(id: Id, note: Note)
      modifies this`sent
      ensures sent == old(sent)[id := (if id in old(sent) then old(sent)[id] else []) + [note]]
    {
      sent := sent[id := (if id in sent then sent[id] else []) + [note]];
    }

    /** Metadata at once; the headers and the fast start only if both headers are there. */
    method OnNewSubscriber(id: Id) returns (pending: bool)
      requires Valid()
      modifies this`sent
      ensures pending == !HasBoth(s)
      ensures Welcome(s) != [] ==> sent == old(sent)[id := Log(s, id) + Welcome(s)]
      ensures Welcome(s) == [] ==> sent == old(sent)
    {
      hide FastOut, Notes, M.MediaMuxer.Valid, Run, LegalRun;
      ghost var before := Log(s, id);
      assert before + [] == before;
      if metaData != [] {
        Send(id, MetaData(metaData));
      }
      if audioHeader == [] || videoHeader == [] {
        assert MetaNote(s) + [] == MetaNote(s);
        return true;
      }
      Send(id, AudioHeader(audioHeader));
      Send(id, VideoHeader(videoHeader));
      ghost var opened' := before + MetaNote(s) + [AudioHeader(audioHeader), VideoHeader(videoHeader)];
      assert before + MetaNote(s) + [AudioHeader(audioHeader)] + [VideoHeader(videoHeader)] == opened';
      assert sent[id] == opened';
      assert sent == old(sent)[id := opened'];
      var fastOut := mediaMuxer.GetFastOut();
      SendFrames(id, fastOut);
      FourParts(before, MetaNote(s), [AudioHeader(audioHeader), VideoHeader(videoHeader)], Notes(fastOut));
      pending := false;
    }

    method SendFrames(id: Id, frames: seq<Payload>)
      requires id in sent
      modifies this`sent
      ensures sent == old(sent)[id := old(sent)[id] + Notes(frames)]
    {
      hide Notes;
      NoNotes(sent[id], frames);
      var i := 0;
      while i < |frames|
        invariant 0 <= i <= |frames| && sent == old(sent)[id := old(sent)[id] + Notes(frames[..i])]
      {
        NotesSnoc(frames, i);
        AssociateNotes(old(sent)[id], Notes(frames[..i]), [MediaData(frames[i])]);
        Send(id, MediaData(frames[i]));
        i := i + 1;
      }
      assert frames[..i] == frames;
    }

    /** A subscriber waits for the headers, or is live from now on. */
    method AddSubscriber(id: Id) returns (added: bool)
      requires Valid()
      modifies this`sent, this`subscriber, this`waitHeaderSubscriber, this`s
      ensures Valid() && s == P.AddSubscriber(old(s), id) && added == (id !in old(subscriber))
    {
      hide Welcome, M.MediaMuxer.Valid, StartNow, JoinAll, Run, LegalRun;
      if id in subscriber {
        return false;
      }
      ghost var next := P.AddSubscriber(s, id);
      if id !in sent {
        sent := sent[id := []];
        SameForAll(s, s.(logs := s.logs[id := []]));
        s := s.(logs := s.logs[id := []]);
        assert P.AddSubscriber(s, id) == next;
      }
      assert Log(s, id) + [] == Log(s, id);
      assert sent[id := Log(s, id)] == sent;
      var pending := OnNewSubscriber(id);
      if pending {
        waitHeaderSubscriber := waitHeaderSubscriber + {id};
      } else {
        subscriber := subscriber + {id};
      }
      s := next;
      added := true;
    }

    method RemoveSubscriber(id: Id)
      requires Valid()
      modifies this`sent, this`subscriber, this`waitHeaderSubscriber, this`s
      ensures Valid() && s == Leave(old(s), id)
    {
      hide M.MediaMuxer.Valid;
      subscriber := subscriber - {id};
      waitHeaderSubscriber := waitHeaderSubscriber - {id};
      sent := sent - {id};
      s := Leave(s, id);
    }

    /** Adds everybody who has waited, one by one. */
    method LetWaitingIn()
      requires Valid() && HasBoth(s) && s.live !! s.waiting
      modifies this`sent, this`subscriber, this`waitHeaderSubscriber, this`s
      ensures Valid() && s == LetIn(old(s))
    {
      hide M.MediaMuxer.Valid, JoinAll, P.AddSubscriber, Run, LegalRun;
      var waitSubscriber := waitHeaderSubscriber;
      waitHeaderSubscriber := {};
      s := s.(waiting := {});
      ghost var from := s;
      ghost var done: set<Id> := {};
      JoinNone(from);
      while waitSubscriber != {}
        invariant Valid() && s == JoinAll(from, done)
        invariant done !! waitSubscriber && done + waitSubscriber == old(s).waiting
        decreases |waitSubscriber|
      {
        var id :| id in waitSubscriber;
        JoinOne(from, done, id);
        var _ := AddSubscriber(id);
        waitSubscriber := waitSubscriber - {id};
        done := done + {id};
      }
      assert done == old(s).waiting;
    }

    /** A new audio header lets those in who waited for it. */
    method OnAudioHeader(header: seq<byte>)
      requires Valid() && |header| >= 2 && s.live !! s.waiting
      modifies this, mediaMuxer
      ensures Valid() && s == Next(old(s), GetsAudioHeader(header))
    {
      hide M.MediaMuxer.Valid, JoinAll, LetIn, Run, LegalRun, Step, AdtsOf;
      var pendingArrive := audioHeader == [] && header != [] && videoHeader != [];
      if audioHeader == header {
        return;
      }
      audioHeader := header;
      s := s.(audioHeader := header);
      if pendingArrive {
        LetWaitingIn();
      }
      LegalMore(s.inputs, NewAdts(AdtsOf(header)));
      mediaMuxer.ReadAudioHeader(header);
      s := Add(s, NewAdts(AdtsOf(header)));
    }

    method OnVideoHeader(header: seq<byte>)
      requires Valid() && |header| >= 4 && s.live !! s.waiting
      modifies this, mediaMuxer
      ensures Valid() && s == Next(old(s), GetsVideoHeader(header))
    {
      hide M.MediaMuxer.Valid, JoinAll, SetsOf, LetIn, Run, LegalRun, Step;
      var pendingArrive := videoHeader == [] && header != [] && audioHeader != [];
      if videoHeader == header {
        return;
      }
      videoHeader := header;
      s := s.(videoHeader := header);
      if pendingArrive {
        LetWaitingIn();
      }
      ghost var sets := SetsOf(header, SetsIn(mediaMuxer.h));
      mediaMuxer.ReadVideoHeader(header);
      if sets.Some? {
        LegalMore(s.inputs, NewSets(sets.value.sps, sets.value.pps));
        s := Add(s, NewSets(sets.value.sps, sets.value.pps));
      }
    }

    method OnMetaData(m: seq<byte>)
      requires Valid()
      modifies this`metaData, this`s
      ensures Valid() && s == Next(old(s), GetsMetaData(m))
    {
      hide M.MediaMuxer.Valid;
      metaData := m;
      s := s.(metaData := m);
    }

    /** A frame goes to the muxer, and then to everybody who is live. */
    method OnFrame(p: Payload, tail: seq<byte>)
      requires Valid() && Possible(s, Arrives(p, tail))
      modifies this`sent, this`s, mediaMuxer
      ensures Valid() && s == Next(old(s), Arrives(p, tail))
    {
      hide M.MediaMuxer.Valid, H.OnAudio, H.OnVideo, SentTo;
      ghost var i := H.Media(p, tail);
      LegalMore(s.inputs, i);
      if p.kind == Audio {
        mediaMuxer.OnAudio(p, tail);
      } else {
        mediaMuxer.OnVideo(p, tail);
      }
      s := Add(s, i);
      SendToAll(p);
    }

    method SendToAll(p: Payload)
      requires Valid()
      modifies this`sent, this`s
      ensures Valid() && s == Broadcast(old(s), p)
    {
      hide M.MediaMuxer.Valid, SentTo, Run, LegalRun;
      SendToEach(p, subscriber);
      SameSends(s, p, sent, subscriber);
      s := Broadcast(s, p);
    }

    method SendToEach(p: Payload, ids: set<Id>)
      requires ids <= sent.Keys
      modifies this`sent
      ensures sent == SentTo(old(sent), p, ids)
    {
      var subscribers := ids;
      ghost var done: set<Id> := {};
      SendNobody(sent, p);
      while subscribers != {}
        invariant done !! subscribers && done + subscribers == ids
        invariant sent == SentTo(old(sent), p, done)
        decreases |subscribers|
      {
        var id :| id in subscribers;
        SendOne(old(sent), p, done, id);
        Send(id, MediaData(p));
        subscribers := subscribers - {id};
        done := done + {id};
      }
      assert done == ids;
    }
  }

  lemma NoNotes(a: seq<Note>, ps: seq<Payload>)
    ensures a + Notes(ps[..0]) == a
  {
  }

  lemma AssociateNotes(a: seq<Note>, b: seq<Note>, c: seq<Note>)
    ensures a + b + c == a + (b + c)
  {
  }

  lemma FourParts(a: seq<Note>, b: seq<Note>, c: seq<Note>, d: seq<Note>)
    ensures a + b + c + d == a + (b + (c + d))
  {
  }
}
