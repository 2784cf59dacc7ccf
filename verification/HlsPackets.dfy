/** The packets of a whole run of the HLS muxer: what the segments contain, and how the counters go on. */
module HlsPackets {
  import opened Bytes
  import opened Media
  import opened TsPackets
  import opened TsRoundTrip
  import opened TsReader
  import opened Hls

  /** The counters behind the two tables and the given frames. */
  function CountersAfter(c: Counters, xs: seq<Sent>): Counters
    decreases |xs|
  {
    if xs == [] then c
    else CountersAfter(CountOn(c, KindOf(xs[0]), |Packets(xs[0], Count(c, KindOf(xs[0])))|), xs[1..])
  }

  function BehindTables(c: Counters): Counters {
    c.(pat := c.pat + 1, pmt := c.pmt + 1)
  }

  lemma {:induction false} OneMoreFrame(xs: seq<Sent>, x: Sent, c: Counters)
    ensures var c' := CountersAfter(c, xs);
            && AllPackets(xs + [x], c) == AllPackets(xs, c) + Packets(x, Count(c', KindOf(x)))
            && CountersAfter(c, xs + [x]) == CountOn(c', KindOf(x), |Packets(x, Count(c', KindOf(x)))|)
    decreases |xs|
  {
    hide Packets;
    if xs == [] {
      assert ([] + [x])[1..] == [] && [] + [x] == [x];
      var ks := Packets(x, Count(c, KindOf(x)));
      assert ks + [] == ks && [] + ks == ks;
      assert AllPackets([x], c) == ks + AllPackets([x][1..], CountOn(c, KindOf(x), |ks|));
    } else {
      var ks := Packets(xs[0], Count(c, KindOf(xs[0])));
      var c1 := CountOn(c, KindOf(xs[0]), |ks|);
      assert (xs + [x])[1..] == xs[1..] + [x] && (xs + [x])[0] == xs[0];
      OneMoreFrame(xs[1..], x, c1);
      var more := Packets(x, Count(CountersAfter(c1, xs[1..]), KindOf(x)));
      assert ks + (AllPackets(xs[1..], c1) + more) == ks + AllPackets(xs[1..], c1) + more;
    }
  }

  /** Table counters play no part in the frames' packets. */
  lemma {:induction false} TablesApart(xs: seq<Sent>, c: Counters)
    ensures AllPackets(xs, BehindTables(c)) == AllPackets(xs, c)
    ensures CountersAfter(BehindTables(c), xs) == BehindTables(CountersAfter(c, xs))
    decreases |xs|
  {
    hide Packets;
    if xs != [] {
      TablesApart(xs[1..], CountOn(c, KindOf(xs[0]), |Packets(xs[0], Count(c, KindOf(xs[0])))|));
    }
  }

  /** The counters of the muxer are those behind its last segment. */
  predicate InStep(h: Hls) {
    if h.ts.items == [] then h.counters == Counters(0, 0, 0, 0)
    else
      var m := h.ts.At(h.ts.Next() - 1);
      h.counters == BehindTables(CountersAfter(m.counters, m.frames))
  }

  /** What a step of the muxer appends to the segment under way. */
  function Emitted(h: Hls, i: Input): seq<Packet>
    requires i.Media? ==> Acceptable(h, i)
  {
    if !i.Media? then []
    else
      var g := if i.p.kind == Video then StartGop(h, i.p) else h;
      var ks := Packets(SentOf(h, i), Count(h.counters, i.p.kind));
      if g.ts.Has(g.tsSeq) then ks else [PatPacket(h.counters.pat)] + ([PmtPacket(h.counters.pmt)] + ks)
  }

  function SegmentOf(m: TsMedia): seq<Packet> {
    SegmentPackets(m.frames, m.counters)
  }

  lemma SegmentGrows(m: TsMedia, x: Sent, duration: int)
    ensures var c := CountersAfter(m.counters, m.frames);
            && SegmentOf(m.(duration := duration, frames := m.frames + [x])) == SegmentOf(m) + Packets(x, Count(c, KindOf(x)))
            && CountersAfter(m.counters, m.frames + [x]) == CountOn(c, KindOf(x), |Packets(x, Count(c, KindOf(x)))|)
  {
    hide Packets, PatPacket, PmtPacket;
    OneMoreFrame(m.frames, x, m.counters);
    var ks := Packets(x, Count(CountersAfter(m.counters, m.frames), KindOf(x)));
    ThreeParts([PatPacket(m.counters.pat)], [PmtPacket(m.counters.pmt)], AllPackets(m.frames, m.counters), ks);
  }

  lemma ThreeParts(a: seq<Packet>, b: seq<Packet>, c: seq<Packet>, d: seq<Packet>)
    ensures a + (b + (c + d)) == a + (b + c) + d
  {
  }

  /** Packing appends exactly the emitted packets to the segment under way, and keeps the counters in step. */
  lemma {:induction false} PackingEmits(h: Hls, i: Input)
    requires i.Media? && Acceptable(h, i) && Poised(h) && InStep(h)
    ensures var h' := PacketTs(h, i);
            var m := h'.ts.At(h.tsSeq);
            var ks := Packets(SentOf(h, i), Count(h.counters, i.p.kind));
            && InStep(h')
            && SegmentOf(m) == (if h.ts.Has(h.tsSeq) then SegmentOf(h.ts.At(h.tsSeq)) + ks
                                else [PatPacket(h.counters.pat)] + ([PmtPacket(h.counters.pmt)] + ks))
            && h'.counters == CountOn(if h.ts.Has(h.tsSeq) then h.counters else BehindTables(h.counters), i.p.kind, |ks|)
  {
    hide Packets, PatPacket, PmtPacket, SegmentPackets, CountersAfter;
    var o := Opened(h, i.p);
    var m, x := o.ts.At(h.tsSeq), SentOf(h, i);
    SegmentGrows(m, x, i.p.dts - m.firstDts);
    if !h.ts.Has(h.tsSeq) {
      FreshSegment(m, h.counters);
      assert SegmentOf(m) + Packets(x, Count(h.counters, i.p.kind))
             == [PatPacket(h.counters.pat)] + ([PmtPacket(h.counters.pmt)] + Packets(x, Count(h.counters, i.p.kind)));
    }
  }

  lemma FreshSegment(m: TsMedia, c: Counters)
    requires m.frames == [] && m.counters == c
    ensures SegmentOf(m) == [PatPacket(c.pat)] + [PmtPacket(c.pmt)] && CountersAfter(c, []) == c
  {
    hide PatPacket, PmtPacket;
    assert [PmtPacket(c.pmt)] + [] == [PmtPacket(c.pmt)];
  }

  lemma PackingInStep(h: Hls, i: Input)
    requires i.Media? && Acceptable(h, i) && Poised(h) && InStep(h)
    ensures InStep(PacketTs(h, i))
  {
    PackingEmits(h, i);
  }

  /** Dropping the earliest segments does not matter. */
  lemma InStepSame(h: Hls, h': Hls)
    requires InStep(h) && h.ts.items != [] && h'.ts.items != [] && h'.counters == h.counters
    requires h'.ts.Next() == h.ts.Next() && h'.ts.At(h'.ts.Next() - 1) == h.ts.At(h.ts.Next() - 1)
    ensures InStep(h')
  {
  }

  /** Eviction leaves the segment under way alone. */
  lemma OnVideoEnds(h: Hls, i: Input, g: Hls)
    requires Steady(h) && Legal(h, i) && i.Media? && i.p.kind == Video && Poised(g) && g.config == h.config
    requires g == StartGop(h, i.p).(video := StartGop(h, i.p).video.Push(i.p))
    ensures var a, b := PacketTs(g, i), OnVideo(h, i);
            && a.ts.items != [] && b.ts.items != [] && b.ts.Next() == a.ts.Next() && b.counters == a.counters
            && b.ts.At(b.ts.Next() - 1) == a.ts.At(a.ts.Next() - 1)
  {
    hide PacketTs, StartGop;
    PacketTsShape(g, i);
  }

  lemma {:induction false} VideoKeepsCounters(h: Hls, i: Input)
    requires Steady(h) && Legal(h, i) && InStep(h) && i.Media? && i.p.kind == Video
    ensures InStep(OnVideo(h, i))
  {
    hide PacketTs, CountersAfter, InStep, StartGop, OnVideo;
    var g := StartGop(h, i.p);
    StartGopCuts(h, i.p);
    var g' := g.(video := g.video.Push(i.p));
    CutInStep(h, g');
    OnVideoEnds(h, i, g');
    PackingInStep(g', i);
    InStepSame(PacketTs(g', i), OnVideo(h, i));
  }

  lemma CutInStep(h: Hls, g: Hls)
    requires InStep(h) && g.ts == h.ts && g.counters == h.counters
    ensures InStep(g)
  {
  }

  lemma {:induction false} StepKeepsCounters(h: Hls, i: Input)
    requires Steady(h) && Legal(h, i) && InStep(h)
    ensures InStep(Step(h, i))
  {
    hide PacketTs, CountersAfter, OnVideo, InStep;
    if i.Media? {
      if i.p.kind == Audio {
        var g := h.(audio := h.audio.Push(i.p));
        CutInStep(h, g);
        PacketTsShape(g, i);
        PackingInStep(g, i);
        InStepSame(PacketTs(g, i), Step(h, i));
      } else {
        VideoKeepsCounters(h, i);
      }
    } else {
      CutInStep(h, Step(h, i));
    }
  }

  // ---------------------------------------------------------------------------------------------
  // Continuity counters over a whole run
  // ---------------------------------------------------------------------------------------------

  function OfPid(ks: seq<Packet>, pid: nat): seq<Packet> {
    if ks == [] then [] else if ks[0].pid == pid then [ks[0]] + OfPid(ks[1..], pid) else OfPid(ks[1..], pid)
  }

  lemma {:induction false} OfPidAppend(a: seq<Packet>, b: seq<Packet>, pid: nat)
    ensures OfPid(a + b, pid) == OfPid(a, pid) + OfPid(b, pid)
    decreases |a|
  {
    if a == [] {
      assert a + b == b;
    } else {
      assert (a + b)[1..] == a[1..] + b;
      OfPidAppend(a[1..], b, pid);
    }
  }

  lemma {:induction false} OfPidCounted(ks: seq<Packet>, of: nat, counter: nat, pid: nat)
    requires Counted(ks, of, counter)
    ensures OfPid(ks, pid) == if of == pid then ks else []
    decreases |ks|
  {
    if ks != [] {
      assert ks[0].pid == of;
      assert Counted(ks[1..], of, counter + 1) by {
        forall i | 0 <= i < |ks[1..]| ensures ks[1..][i].pid == of && ks[1..][i].counter == (counter + 1 + i) % 16 {
          assert ks[1..][i] == ks[i + 1];
        }
      }
      OfPidCounted(ks[1..], of, counter + 1, pid);
    }
  }

  lemma CountedAppend(a: seq<Packet>, b: seq<Packet>, pid: nat)
    requires Counted(a, pid, 0) && Counted(b, pid, |a|)
    ensures Counted(a + b, pid, 0)
  {
    forall i | 0 <= i < |a + b| ensures (a + b)[i].pid == pid && (a + b)[i].counter == (0 + i) % 16 {
      assert i >= |a| ==> (a + b)[i] == b[i - |a|];
    }
  }

  function CountOf(c: Counters, pid: nat): nat {
    if pid == 0 then c.pat else if pid == PMT_PID then c.pmt else if pid == VIDEO_PID then c.video else c.audio
  }

  const PIDS := {0, PMT_PID, VIDEO_PID, AUDIO_PID}

  /** Of every PID the packets are numbered from 0 on, modulo 16, and the muxer's counter says how many there are. */
  predicate Numbered(ks: seq<Packet>, c: Counters) {
    forall pid :: pid in PIDS ==> Counted(OfPid(ks, pid), pid, 0) && |OfPid(ks, pid)| == CountOf(c, pid)
  }

  /** Packets of one PID that go on where the counter stands. */
  lemma {:induction false} NumberedMore(ks: seq<Packet>, c: Counters, more: seq<Packet>, of: nat, c': Counters)
    requires Numbered(ks, c) && of in PIDS && Counted(more, of, CountOf(c, of))
    requires forall pid :: pid in PIDS ==> CountOf(c', pid) == CountOf(c, pid) + if pid == of then |more| else 0
    ensures Numbered(ks + more, c')
  {
    forall pid | pid in PIDS
      ensures Counted(OfPid(ks + more, pid), pid, 0) && |OfPid(ks + more, pid)| == CountOf(c', pid)
    {
      OfPidAppend(ks, more, pid);
      OfPidCounted(more, of, CountOf(c, of), pid);
      if pid == of {
        CountedAppend(OfPid(ks, pid), more, pid);
      } else {
        assert OfPid(ks, pid) + [] == OfPid(ks, pid);
      }
    }
  }

  function AllEmitted(ins: seq<Input>): seq<Packet>
    requires LegalRun(ins)
  {
    if ins == [] then []
    else AllEmitted(ins[..|ins| - 1]) + Emitted(Run(ins[..|ins| - 1]), Last(ins))
  }

  lemma {:induction false} FrameNumbered(ks: seq<Packet>, c: Counters, x: Sent)
    requires Numbered(ks, c)
    ensures var more := Packets(x, Count(c, KindOf(x)));
            Numbered(ks + more, CountOn(c, KindOf(x), |more|))
  {
    hide Counted, FramePackets;
    var kind := KindOf(x);
    var more := Packets(x, Count(c, kind));
    PacketsAreCounted(x.frame, Raw(x.frame.p) + x.tail, Count(c, kind));
    NumberedMore(ks, c, more, PidOf(kind), CountOn(c, kind, |more|));
  }

  lemma {:induction false} TablesNumbered(ks: seq<Packet>, c: Counters)
    requires Numbered(ks, c)
    ensures Numbered(ks + [PatPacket(c.pat)] + [PmtPacket(c.pmt)], BehindTables(c))
  {
    hide Numbered, Counted, PatPacket, PmtPacket;
    OneTable(c.pat, c.pmt);
    NumberedMore(ks, c, [PatPacket(c.pat)], 0, c.(pat := c.pat + 1));
    NumberedMore(ks + [PatPacket(c.pat)], c.(pat := c.pat + 1), [PmtPacket(c.pmt)], PMT_PID, BehindTables(c));
  }

  lemma OneCounted(k: Packet, pid: nat, counter: nat)
    requires k.pid == pid && k.counter == counter % 16
    ensures Counted([k], pid, counter)
  {
  }

  lemma OneTable(pat: nat, pmt: nat)
    ensures Counted([PatPacket(pat)], 0, pat) && Counted([PmtPacket(pmt)], PMT_PID, pmt)
  {
    hide Counted, TableContents;
    OneCounted(PatPacket(pat), 0, pat);
    OneCounted(PmtPacket(pmt), PMT_PID, pmt);
  }

  lemma Regroup(a: seq<Packet>, b: seq<Packet>, c: seq<Packet>, d: seq<Packet>)
    ensures a + (b + (c + d)) == a + b + c + d
  {
  }

  lemma {:induction false} StepNumbered(h: Hls, i: Input, ks: seq<Packet>)
    requires Steady(h) && Legal(h, i) && InStep(h) && Numbered(ks, h.counters)
    ensures Numbered(ks + Emitted(h, i), Step(h, i).counters)
  {
    hide PacketTs, Packets, Numbered, PatPacket, PmtPacket, CountersAfter;
    if i.Media? {
      var g := if i.p.kind == Audio then h.(audio := h.audio.Push(i.p))
               else StartGop(h, i.p).(video := StartGop(h, i.p).video.Push(i.p));
      var x := SentOf(h, i);
      PacketTsShape(g, i);
      PackingEmits(g, i);
      if g.ts.Has(g.tsSeq) {
        FrameNumbered(ks, h.counters, x);
      } else {
        TablesNumbered(ks, h.counters);
        FrameNumbered(ks + [PatPacket(h.counters.pat)] + [PmtPacket(h.counters.pmt)], BehindTables(h.counters), x);
        Regroup(ks, [PatPacket(h.counters.pat)], [PmtPacket(h.counters.pmt)], Packets(x, Count(h.counters, i.p.kind)));
      }
    } else {
      assert ks + [] == ks;
    }
  }

  /** Over a whole run the continuity counters of each PID advance by one modulo 16 from packet to packet. */
  lemma {:induction false} CountersAdvance(ins: seq<Input>)
    requires LegalRun(ins)
    ensures InStep(Run(ins)) && Numbered(AllEmitted(ins), Run(ins).counters)
    decreases |ins|
  {
    hide Step, Numbered, Emitted;
    if ins == [] {
      NothingNumbered();
    } else {
      var init, i := ins[..|ins| - 1], Last(ins);
      CountersAdvance(init);
      StepKeepsCounters(Run(init), i);
      StepNumbered(Run(init), i, AllEmitted(init));
    }
  }

  lemma NothingNumbered()
    ensures Numbered([], INITIAL.counters)
  {
  }
}
