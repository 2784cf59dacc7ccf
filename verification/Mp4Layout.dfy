/** What the MP4 and DASH writers take for granted: how box types are spelled, what a sample's bytes are, where chunks end. */
module Mp4Layout {
  import opened Bytes
  import opened Media
  import opened Boxes
  import opened Mp4Tables
  import F = Mp4File
  import D = DashSegment

  // ---------------------------------------------------------------------------------------------
  // Names
  // ---------------------------------------------------------------------------------------------

  /** The four bytes of a box type, first one first. */
  function Name(s: string): nat
    requires |s| == 4 && forall i :: 0 <= i < 4 ==> s[i] < 128 as char
  {
    ((s[0] as nat * 256 + s[1] as nat) * 256 + s[2] as nat) * 256 + s[3] as nat
  }

  /** The types by which the readers look for boxes are those of ISO/IEC 14496-12 and 14496-15. */
  lemma ContainersAreSpelled()
    ensures MOOV == Name("moov") && TRAK == Name("trak") && MDIA == Name("mdia") && MINF == Name("minf") && STBL == Name("stbl")
    ensures MDAT == Name("mdat") && EDTS == Name("edts") && DINF == Name("dinf") && DREF == Name("dref") && STSD == Name("stsd")
    ensures AVC1 == Name("avc1") && MP4A == Name("mp4a") && MOOF == Name("moof") && TRAF == Name("traf")
  {
  }

  lemma FileBoxesAreSpelled()
    ensures F.STTS == Name("stts") && F.CTTS == Name("ctts") && F.STSC == Name("stsc") && F.STSZ == Name("stsz")
    ensures F.STCO == Name("stco") && F.FTYP == Name("ftyp") && F.FREE == Name("free") && F.MVHD == Name("mvhd")
    ensures F.TKHD == Name("tkhd") && F.ELST == Name("elst") && F.MDHD == Name("mdhd") && F.HDLR == Name("hdlr")
    ensures F.VMHD == Name("vmhd") && F.SMHD == Name("smhd") && F.URL == Name("url ") && F.AVCC == Name("avcC") && F.ESDS == Name("esds")
  {
  }

  lemma SegmentBoxesAreSpelled()
    ensures D.STYP == Name("styp") && D.SIDX == Name("sidx") && D.MFHD == Name("mfhd") && D.TFHD == Name("tfhd")
    ensures D.TFDT == Name("tfdt") && D.TRUN == Name("trun")
  {
  }

  // ---------------------------------------------------------------------------------------------
  // Samples
  // ---------------------------------------------------------------------------------------------

  /** A sample is the audio behind the two bytes of its tag, and the video with the four bytes of its length. */
  lemma StoredIs(p: Payload)
    ensures |p.data| >= 2 && Stored(p) == if p.kind == Audio then p.data[2..] else p.data
  {
  }

  // ---------------------------------------------------------------------------------------------
  // Chunks
  // ---------------------------------------------------------------------------------------------

  /** Samples of one kind, together no more than a mebibyte unless there is only one. */
  predicate Bounded(g: Group) {
    && g.samples != [] && (forall i :: 0 <= i < |g.samples| ==> g.samples[i].kind == g.kind)
    && (|g.samples| > 1 ==> |StoredAll(g.samples)| <= 1024 * 1024)
  }

  /** No chunk could have taken in the first sample of the next one. */
  predicate Full(g: Group, next: Group) {
    next.samples != [] && (g.kind == next.kind ==> |StoredAll(g.samples)| + |Stored(next.samples[0])| > 1024 * 1024)
  }

  predicate Divided(gs: seq<Group>) {
    && (forall i :: 0 <= i < |gs| ==> Bounded(gs[i]))
    && forall i :: 0 <= i < |gs| - 1 ==> Full(gs[i], gs[i + 1])
  }

  lemma RegroupDivides(gs: seq<Group>, p: Payload)
    requires Divided(gs)
    ensures Divided(Regroup(gs, p))
  {
    hide StoredAll, Stored;
    var gs' := Regroup(gs, p);
    if JoinsLast(gs, p) {
      StoredAllSnoc(Last(gs).samples, p);
      assert Bounded(gs[|gs| - 1]);
      assert forall i :: 0 <= i < |gs| - 1 ==> gs'[i] == gs[i];
      assert Last(gs').samples[0] == Last(gs).samples[0];
    } else {
      assert forall i :: 0 <= i < |gs| ==> gs'[i] == gs[i];
    }
  }

  /** The chunks of every run are as large as they may be: see `Divided`. */
  lemma {:induction false} ChunksAreDivided(ps: seq<Payload>)
    ensures Divided(Division(ps)) && AddAll(EMPTY, ps).chunks == ChunksOf(Division(ps))
    decreases |ps|
  {
    hide Divided, Regroup;
    RunDescribes(ps);
    if ps == [] {
      NothingDivided();
    } else {
      ChunksAreDivided(ps[..|ps| - 1]);
      RegroupDivides(Division(ps[..|ps| - 1]), Last(ps));
    }
  }

  lemma NothingDivided()
    ensures Divided([])
  {
  }

  // ---------------------------------------------------------------------------------------------
  // Table heads
  // ---------------------------------------------------------------------------------------------

  lemma {:induction false} FlatAt(stsc: seq<StscEntry>, i: nat)
    requires i < |stsc|
    ensures F.Flat(stsc)[3 * i + 2] == 1
  {
    if i > 0 {
      FlatAt(stsc[1..], i - 1);
      assert F.Flat(stsc)[3..] == F.Flat(stsc[1..]);
      assert F.Flat(stsc)[3 * i + 2] == F.Flat(stsc)[3..][3 * (i - 1) + 2];
    }
  }

  /** Version and flags of the tables are zero, and every run of chunks uses the only sample description. */
  lemma {:induction false} TablesAreHeaded(stsc: seq<StscEntry>, stco: seq<nat>, stsz: seq<nat>, i: nat)
    ensures FieldsOf(F.StscBody(stsc)) != [] && FieldsOf(F.StscBody(stsc))[0] == 0
    ensures FieldsOf(F.StcoBody(stco)) != [] && FieldsOf(F.StcoBody(stco))[0] == 0
    ensures FieldsOf(F.StszBody(stsz)) != [] && FieldsOf(F.StszBody(stsz))[0] == 0
    ensures i < |stsc| ==> |FieldsOf(F.StscBody(stsc))| > 2 + 3 * i + 2 && FieldsOf(F.StscBody(stsc))[2 + 3 * i + 2] == 1
  {
    FieldsOfFields([0, |stsc|] + F.Flat(stsc));
    FieldsOfFields([0, |stco|] + stco);
    FieldsOfFields([0, 0, |stsz|] + stsz);
    if i < |stsc| {
      FlatAt(stsc, i);
      assert ([0, |stsc|] + F.Flat(stsc))[2 + 3 * i + 2] == F.Flat(stsc)[3 * i + 2];
    }
  }
}
