/**
 The configuration record that a video header consists of when it is not in byte stream format (ISO/IEC 14496-15, section
 5.3.3.1), as the muxer reads it: whatever is missing reads as zero, and a unit that is cut off is skipped.
 */
module AvcRecord {
  import opened Bytes
  import opened Media
  import opened Bits
  import opened BitIO
  import opened BitFields
  import opened ByteReader

  datatype Sets = Sets(sps: seq<byte>, pps: seq<byte>)

  /** A length; zero, consuming nothing, when fewer than two bytes are left. */
  function ReadLength(s: seq<byte>): nat {
    if |s| < 2 then 0 else Value(s[..2])
  }

  function BehindLength(s: seq<byte>): seq<byte> {
    if |s| < 2 then s else s[2..]
  }

  /** `n` counted units: the last one that is complete, and what is left to read. */
  function ReadUnits(s: seq<byte>, n: nat, unit: seq<byte>): (seq<byte>, seq<byte>)
    decreases n
  {
    if n == 0 then (unit, s)
    else
      var len, t := ReadLength(s), BehindLength(s);
      if |t| < len then ReadUnits(t, n - 1, unit) else ReadUnits(t[len..], n - 1, t[..len])
  }

  lemma {:induction false} ReadAgain(s: seq<byte>, n: nat, unit: seq<byte>)
    ensures ReadUnits(s, n, ReadUnits(s, n, unit).0) == ReadUnits(s, n, unit)
    decreases n
  {
    hide ReadLength, BehindLength;
    if n > 0 && |BehindLength(s)| < ReadLength(s) {
      ReadAgain(BehindLength(s), n - 1, unit);
    }
  }

  /** The sets behind five bytes of profile, level and length size; the ones from before where there are none. */
  function ReadRecord(h: seq<byte>, sets: Sets): Sets {
    if |h| < 6 then sets
    else
      var (sps, t) := ReadUnits(h[6..], h[5] as nat % 32, sets.sps);
      if t == [] then Sets(sps, sets.pps) else Sets(sps, ReadUnits(t[1..], t[0] as nat, sets.pps).0)
  }

  // ---------------------------------------------------------------------------------------------
  // Records in the standard's layout
  // ---------------------------------------------------------------------------------------------

  function Units(us: seq<seq<byte>>): seq<byte> {
    if us == [] then [] else BigEndian(2, |us[0]|) + us[0] + Units(us[1..])
  }

  predicate Short(us: seq<seq<byte>>) {
    forall i :: 0 <= i < |us| ==> |us[i]| < 0x1_0000
  }

  /** `front` is profile, level and length size. */
  function Record(front: seq<byte>, spss: seq<seq<byte>>, ppss: seq<seq<byte>>): seq<byte>
    requires |front| == 5 && |spss| < 32 && |ppss| < 256
  {
    front + ([0xE0 + |spss|] + (Units(spss) + ([|ppss|] + Units(ppss))))
  }

  lemma CountedUnit(u: seq<byte>, rest: seq<byte>)
    requires |u| < 0x1_0000
    ensures var s := BigEndian(2, |u|) + u + rest;
            ReadLength(s) == |u| && BehindLength(s) == u + rest
  {
    hide Value, BigEndian;
    var n := BigEndian(2, |u|);
    Ranges();
    FieldRoundTrip(2, |u|);
    Associate(n, u, rest);
    Front(n, u + rest);
  }

  lemma Front(a: seq<byte>, b: seq<byte>)
    ensures (a + b)[..|a|] == a && (a + b)[|a|..] == b
  {
  }

  lemma {:induction false} UnitsReadBack(us: seq<seq<byte>>, rest: seq<byte>, unit: seq<byte>)
    requires Short(us)
    ensures ReadUnits(Units(us) + rest, |us|, unit) == (if us == [] then unit else Last(us), rest)
    decreases |us|
  {
    hide ReadLength, BehindLength, BigEndian;
    if us == [] {
      assert [] + rest == rest;
    } else {
      var u, more := us[0], Units(us[1..]) + rest;
      Associate(BigEndian(2, |u|) + u, Units(us[1..]), rest);
      CountedUnit(u, more);
      Front(u, more);
      UnitsReadBack(us[1..], rest, u);
    }
  }

  /** From a record in the standard's layout the muxer takes the last parameter set of either kind. */
  lemma RecordReadsBack(front: seq<byte>, spss: seq<seq<byte>>, ppss: seq<seq<byte>>, sets: Sets)
    requires |front| == 5 && |spss| < 32 && |ppss| < 256 && Short(spss) && Short(ppss)
    ensures ReadRecord(Record(front, spss, ppss), sets)
            == Sets(if spss == [] then sets.sps else Last(spss), if ppss == [] then sets.pps else Last(ppss))
  {
    hide Units, ReadUnits;
    var h := Record(front, spss, ppss);
    var behind := [|ppss|] + Units(ppss);
    assert h[5] == 0xE0 + |spss| && h[6..] == Units(spss) + behind;
    UnitsReadBack(spss, behind, sets.sps);
    UnitsReadBack(ppss, [], sets.pps);
    assert Units(ppss) + [] == Units(ppss);
    assert behind[1..] == Units(ppss);
  }

  /** A last unit that is cut off leaves the one before it, and its bytes unread. */
  lemma CutUnitIsSkipped(part: seq<byte>, len: nat, unit: seq<byte>)
    requires |part| < len < 0x1_0000
    ensures ReadUnits(BigEndian(2, len) + part, 1, unit) == (unit, part)
  {
    hide Value, BigEndian;
    Ranges();
    FieldRoundTrip(2, len);
    Front(BigEndian(2, len), part);
    var t := BigEndian(2, len) + part;
    assert ReadUnits(part, 0, unit) == (unit, part);
    assert ReadLength(t) == len && BehindLength(t) == part;
  }

  // ---------------------------------------------------------------------------------------------
  // The reader itself
  // ---------------------------------------------------------------------------------------------

  method TakeUnits(bb: BitBuffer, n: nat, unit: seq<byte>) returns (last: seq<byte>)
    requires Aligned(bb)
    modifies bb
    ensures Aligned(bb) && (last, Left(bb)) == ReadUnits(old(Left(bb)), n, unit)
  {
    hide Value;
    last := unit;
    ghost var all := ReadUnits(Left(bb), n, unit);
    var i := 0;
    while i < n
      invariant 0 <= i <= n && Aligned(bb) && ReadUnits(Left(bb), n - i, last) == all
    {
      var ok, len := GetBytes(bb, 2);
      if !ok {
        len := 0;
      }
      if |bb.data| - bb.curPos / 8 >= len {
        last := GetString(bb, len);
      }
      i := i + 1;
    }
  }

  /** Everything up to the number of sequence parameter sets. */
  method TakeFront(bb: BitBuffer) returns (spsNum: nat)
    requires bb.Valid() && bb.curPos == 0 && |bb.data| >= 6
    modifies bb
    ensures Aligned(bb) && Left(bb) == bb.data[6..] && spsNum == bb.data[5] as nat % 32
  {
    hide Pow2, Value;
    Powers();
    var _ := TakeBits(bb, 8, 0);
    var _ := TakeBits(bb, 8, 1);
    var _ := TakeBits(bb, 8, 2);
    var _ := TakeBits(bb, 8, 3);
    var _ := TakeBits(bb, 6, 4);
    var _ := TakeBits(bb, 2, 4);
    var _ := TakeBits(bb, 3, 5);
    spsNum := TakeBits(bb, 5, 5);
  }

  method TakeRecord(header: seq<byte>, sets: Sets) returns (r: Sets)
    ensures r == ReadRecord(header, sets)
  {
    hide Value, ReadUnits;
    var bb := new BitBuffer(header);
    if |header| < 6 {
      return sets;
    }
    var spsNum := TakeFront(bb);
    var sps := TakeUnits(bb, spsNum, sets.sps);
    ghost var t := Left(bb);
    var ok, ppsNum := GetBytes(bb, 1);
    if !ok {
      return Sets(sps, sets.pps);
    }
    FirstByte(t);
    var pps := TakeUnits(bb, ppsNum, sets.pps);
    r := Sets(sps, pps);
  }
}
