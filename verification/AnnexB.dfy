/**
 The byte stream format of H.264 (Annex B): NAL units behind start codes, and the scanner that both the transport
 stream reader and the muxer use to take them apart.
 */
module AnnexB {
  import opened Bytes
  import opened Media

  const CODE: seq<byte> := [0, 0, 0, 1]

  /** A three-byte start code at `i`, not at the very end. */
  predicate CodeAt(p: seq<byte>, i: nat) {
    i + 3 < |p| && p[i] == 0 && p[i + 1] == 0 && p[i + 2] == 1
  }

  /** The first start code at or behind `i`; the end when there is none. */
  function NextCode(p: seq<byte>, i: nat): (k: nat)
    requires i <= |p|
    ensures i <= k <= |p| && (k < |p| ==> CodeAt(p, k)) && forall j :: i <= j < k ==> !CodeAt(p, j)
    decreases |p| - i
  {
    if i == |p| || CodeAt(p, i) then i else NextCode(p, i + 1)
  }

  /** The units from `nal` on; `None` when one would have a negative length. */
  function UnitsFrom(p: seq<byte>, nal: nat): Option<seq<seq<byte>>>
    requires nal <= |p|
    decreases |p| - nal
  {
    var k := NextCode(p, nal);
    if k == |p| then Some([p[nal..]])
    else if k - 1 < nal then None
    else
      match UnitsFrom(p, k + 3)
      case None => None
      case Some(rest) => Some([p[nal..k - 1]] + rest)
  }

  /** A unit ends one byte before the next three-byte code: the fourth byte of that code is taken for granted. */
  function Units(p: seq<byte>): Option<seq<seq<byte>>> {
    var k := NextCode(p, 0);
    if k == |p| then Some([]) else UnitsFrom(p, k + 3)
  }

  function Join(units: seq<seq<byte>>): seq<byte> {
    if units == [] then [] else CODE + units[0] + Join(units[1..])
  }

  /** No start code inside the unit. */
  predicate Free(u: seq<byte>) {
    forall i: nat :: i + 2 < |u| ==> !(u[i] == 0 && u[i + 1] == 0 && u[i + 2] == 1)
  }

  /** No start code inside the last unit, except as its last three bytes. */
  predicate FreeAtEnd(u: seq<byte>) {
    forall i: nat :: i < |u| ==> !CodeAt(u, i)
  }

  predicate Clean(units: seq<seq<byte>>) {
    units != [] ==>
      && (forall i :: 0 <= i < |units| - 1 ==> Free(units[i]))
      && Last(units) != [] && FreeAtEnd(Last(units))
  }

  // ---------------------------------------------------------------------------------------------
  // When the units come back
  // ---------------------------------------------------------------------------------------------

  /** Scanning does not look behind its start. */
  lemma {:induction false} NextCodeShift(a: seq<byte>, p: seq<byte>, i: nat)
    requires i <= |p|
    ensures NextCode(a + p, |a| + i) == |a| + NextCode(p, i)
    decreases |p| - i
  {
    if i < |p| {
      assert CodeAt(a + p, |a| + i) == CodeAt(p, i);
      if !CodeAt(p, i) {
        NextCodeShift(a, p, i + 1);
      }
    }
  }

  function WithFirst(u: seq<byte>, rest: Option<seq<seq<byte>>>): Option<seq<seq<byte>>> {
    match rest
    case None => None
    case Some(us) => Some([u] + us)
  }

  /** One unit, and the units behind it. */
  lemma UnitsStep(p: seq<byte>, nal: nat)
    requires nal <= |p|
    ensures var k := NextCode(p, nal);
            UnitsFrom(p, nal) == if k == |p| then Some([p[nal..]]) else if k - 1 < nal then None
                                 else WithFirst(p[nal..k - 1], UnitsFrom(p, k + 3))
  {
    hide NextCode;
  }

  lemma {:induction false} UnitsShift(a: seq<byte>, p: seq<byte>, nal: nat)
    requires nal <= |p|
    ensures UnitsFrom(a + p, |a| + nal) == UnitsFrom(p, nal)
    decreases |p| - nal
  {
    hide NextCode, UnitsFrom, CodeAt;
    NextCodeShift(a, p, nal);
    UnitsStep(p, nal);
    UnitsStep(a + p, |a| + nal);
    var k := NextCode(p, nal);
    CodeFits(p, nal);
    if k < |p| {
      UnitsShift(a, p, k + 3);
      if nal <= k - 1 {
        SliceBehind(a, p, nal, k - 1);
      }
    } else {
      SliceBehind(a, p, nal, |p|);
      assert (a + p)[|a| + nal..] == (a + p)[|a| + nal..|a| + |p|] && p[nal..] == p[nal..|p|];
    }
  }

  lemma CodeFits(p: seq<byte>, nal: nat)
    requires nal <= |p|
    ensures NextCode(p, nal) < |p| ==> NextCode(p, nal) + 3 < |p|
  {
  }

  /** The scanner is at the first byte of a unit that another one follows. */
  lemma {:induction false} InsideUnit(u: seq<byte>, rest: seq<byte>, i: nat)
    requires rest != [] && i <= |u|
    ensures var p := u + CODE + rest;
            && (Free(u[i..]) ==> NextCode(p, i) == |u| + 1)
            && (!Free(u[i..]) ==> NextCode(p, i) + 2 < |u|)
    decreases |u| - i
  {
    var p := u + CODE + rest;
    if i == |u| {
      assert !CodeAt(p, i) && CodeAt(p, i + 1);
    } else {
      InsideUnit(u, rest, i + 1);
      assert u[i..][1..] == u[i + 1..];
      FreeStep(u[i..]);
      assert CodeAt(p, i) <==> i + 2 < |u| && u[i] == 0 && u[i + 1] == 0 && u[i + 2] == 1;
    }
  }

  lemma FreeStep(u: seq<byte>)
    requires u != []
    ensures Free(u) <==> Free(u[1..]) && !(2 < |u| && u[0] == 0 && u[1] == 0 && u[2] == 1)
  {
    if Free(u[1..]) && !(2 < |u| && u[0] == 0 && u[1] == 0 && u[2] == 1) {
      forall i: nat | i + 2 < |u| ensures !(u[i] == 0 && u[i + 1] == 0 && u[i + 2] == 1) {
        if i > 0 {
          assert u[1..][i - 1] == u[i];
        }
      }
    }
    if Free(u) {
      forall i: nat | i + 2 < |u[1..]| ensures !(u[1..][i] == 0 && u[1..][i + 1] == 0 && u[1..][i + 2] == 1) {
        assert u[i + 1] == u[1..][i];
      }
    }
  }

  lemma {:induction false} UnitThenMore(u: seq<byte>, rest: seq<byte>)
    requires rest != []
    ensures var r := UnitsFrom(u + CODE + rest, 0);
            && (Free(u) ==> r == WithFirst(u, UnitsFrom(rest, 0)))
            && (!Free(u) ==> r.Some? ==> r.value != [] && |r.value[0]| < |u|)
  {
    var p := u + CODE + rest;
    assert u[0..] == u;
    InsideUnit(u, rest, 0);
    if Free(u) {
      assert p == (u + CODE) + rest;
      UnitsShift(u + CODE, rest, 0);
      assert p[0..|u|] == u;
    }
  }

  lemma {:induction false} LastUnit(u: seq<byte>)
    ensures var r := UnitsFrom(u, 0);
            && (FreeAtEnd(u) ==> r == Some([u]))
            && (!FreeAtEnd(u) ==> r.Some? ==> r.value != [] && |r.value[0]| < |u|)
  {
    var k := NextCode(u, 0);
    if FreeAtEnd(u) {
      assert u[0..] == u;
    }
  }

  lemma JoinIsLong(units: seq<seq<byte>>)
    ensures units != [] ==> |Join(units)| >= 4
  {
  }

  /** The units behind the first start code come back exactly when they are clean. */
  lemma {:induction false} BehindTheCode(units: seq<seq<byte>>)
    requires units != []
    ensures UnitsFrom((units[0] + Join(units[1..])), 0) == Some(units) <==> CleanTail(units)
    decreases |units|
  {
    var u, rest := units[0], units[1..];
    if rest == [] {
      assert u + Join(rest) == u;
      assert units == [u];
      LastUnit(u);
    } else {
      var p := rest[0] + Join(rest[1..]);
      assert u + Join(rest) == u + CODE + p;
      assert units == [u] + rest;
      JoinIsLong(rest[1..]);
      if p == [] {
        EmptyEnd(u);
        assert rest == [[]];
      } else {
        UnitThenMore(u, p);
        BehindTheCode(rest);
      }
    }
  }

  /** The last unit is not empty and free except at its end, the others are free. */
  predicate CleanTail(units: seq<seq<byte>>)
    requires units != []
  {
    if |units| == 1 then FreeAtEnd(units[0])
    else Free(units[0]) && CleanTail(units[1..]) && (|units| == 2 ==> units[1] != [])
  }

  /** A start code with nothing behind it is not seen: it stays part of the unit before. */
  lemma EmptyEnd(u: seq<byte>)
    ensures UnitsFrom(u + CODE + [], 0) != Some([u, []])
  {
    var p := u + CODE + [];
    var k := NextCode(p, 0);
    if k == |p| {
      assert UnitsFrom(p, 0) == Some([p[0..]]);
    } else {
      assert k - 1 < |u|;
      assert k > 0 && UnitsFrom(p, 0).Some? ==> UnitsFrom(p, 0).value[0] == p[0..k - 1];
    }
  }

  lemma {:induction false} CleanIsTail(units: seq<seq<byte>>)
    requires units != []
    ensures Clean(units) <==> CleanTail(units) && Last(units) != []
    decreases |units|
  {
    if |units| > 1 {
      var rest := units[1..];
      CleanIsTail(rest);
      assert Last(rest) == Last(units);
      assert forall i :: 0 <= i < |rest| ==> rest[i] == units[i + 1];
      if Clean(rest) && Free(units[0]) {
        forall i | 0 <= i < |units| - 1 ensures Free(units[i]) {
          assert i > 0 ==> units[i] == rest[i - 1];
        }
      }
    }
  }

  lemma {:induction false} TailHasLast(units: seq<seq<byte>>)
    requires |units| > 1 && CleanTail(units)
    ensures Last(units) != []
    decreases |units|
  {
    if |units| > 2 {
      TailHasLast(units[1..]);
    } else {
      assert units[1] == Last(units);
    }
  }

  /**
   Splitting the concatenation of units behind four-byte start codes gives the units back exactly when none of them
   contains a start code (the last one may end with one) and the last one is not empty.
   */
  lemma {:induction false} SplitsBack(units: seq<seq<byte>>)
    ensures Units(Join(units)) == Some(units) <==> Clean(units)
  {
    if units != [] {
      var x := units[0] + Join(units[1..]);
      var p := Join(units);
      assert p == CODE + x;
      CleanIsTail(units);
      JoinIsLong(units[1..]);
      if x == [] {
        assert units == [[]];
        assert !CodeAt(p, 0) && !CodeAt(p, 1);
        assert Units(p) == Some([]);
      } else {
        assert !CodeAt(p, 0) && CodeAt(p, 1);
        assert NextCode(p, 0) == NextCode(p, 1) == 1;
        UnitsShift(CODE, x, 0);
        BehindTheCode(units);
        if |units| == 1 {
          assert Join(units[1..]) == [];
        } else if CleanTail(units) {
          TailHasLast(units);
        }
      }
    }
  }

  /** Behind a leading start code. */
  lemma {:induction false} UnitsBehindCode(y: seq<byte>)
    requires y != []
    ensures Units(CODE + y) == UnitsFrom(y, 0)
  {
    var p := CODE + y;
    assert !CodeAt(p, 0) && CodeAt(p, 1);
    assert NextCode(p, 0) == NextCode(p, 1) == 1;
    UnitsShift(CODE, y, 0);
  }

  /** When there is more than one unit, each is shorter than what they were found in. */
  lemma {:induction false} UnitsAreShort(p: seq<byte>, nal: nat)
    requires nal <= |p| && UnitsFrom(p, nal).Some?
    ensures var us := UnitsFrom(p, nal).value;
            us != [] && (|us| == 1 ==> us[0] == p[nal..]) && (|us| > 1 ==> forall i :: 0 <= i < |us| ==> |us[i]| < |p| - nal)
    decreases |p| - nal
  {
    var k := NextCode(p, nal);
    if k < |p| {
      UnitsAreShort(p, k + 3);
    }
  }

  // ---------------------------------------------------------------------------------------------
  // The scanner
  // ---------------------------------------------------------------------------------------------

  datatype Range = Range(start: nat, length: int)

  /** The units that ranges of a byte string denote; a negative length denotes none. */
  function Cut(p: seq<byte>, ranges: seq<Range>): Option<seq<seq<byte>>> {
    if ranges == [] then Some([])
    else if ranges[0].length < 0 || ranges[0].start + ranges[0].length > |p| then None
    else WithFirst(p[ranges[0].start..ranges[0].start + ranges[0].length], Cut(p, ranges[1..]))
  }

  function Append(a: Option<seq<seq<byte>>>, b: Option<seq<seq<byte>>>): Option<seq<seq<byte>>> {
    if a.None? || b.None? then None else Some(a.value + b.value)
  }

  lemma {:induction false} CutAppend(p: seq<byte>, a: seq<Range>, b: seq<Range>)
    ensures Cut(p, a + b) == Append(Cut(p, a), Cut(p, b))
    decreases |a|
  {
    if a == [] {
      assert a + b == b;
      if Cut(p, b).Some? {
        assert [] + Cut(p, b).value == Cut(p, b).value;
      }
    } else {
      assert (a + b)[1..] == a[1..] + b;
      CutAppend(p, a[1..], b);
      if Cut(p, a).Some? && Cut(p, b).Some? {
        var u := p[a[0].start..a[0].start + a[0].length];
        assert [u] + (Cut(p, a[1..]).value + Cut(p, b).value) == [u] + Cut(p, a[1..]).value + Cut(p, b).value;
      }
    }
  }

  /** What the scanner has yet to find: from a unit that starts at `nal`, or from no unit at all. */
  function ToCome(p: seq<byte>, i: nat, nal: Option<nat>): Option<seq<seq<byte>>>
    requires i <= |p| && (nal.Some? ==> nal.value <= i)
    decreases |p| - i
  {
    var k := NextCode(p, i);
    if k == |p| then (if nal.None? then Some([]) else Some([p[nal.value..]]))
    else if nal.None? then UnitsFrom(p, k + 3)
    else if k - 1 < nal.value then None
    else WithFirst(p[nal.value..k - 1], UnitsFrom(p, k + 3))
  }

  lemma ToComeFresh(p: seq<byte>, i: nat)
    requires i <= |p|
    ensures ToCome(p, i, Some(i)) == UnitsFrom(p, i)
  {
  }

  /** Collects the units as positions and lengths, as the reader does before it looks at any of them. */
  method Scan(p: seq<byte>) returns (nals: seq<Range>)
    ensures Cut(p, nals) == Units(p)
    ensures forall k :: 0 <= k < |nals| ==> nals[k].start + nals[k].length <= |p|
  {
    hide Cut, NextCode, UnitsFrom;
    nals := [];
    var nal: Option<nat> := None;
    var i := 0;
    NothingCut(p);
    AppendNothing(Units(p));
    while i + 3 < |p|
      invariant i <= |p| && (nal.Some? ==> nal.value <= i)
      invariant Append(Cut(p, nals), ToCome(p, i, nal)) == Units(p)
      invariant forall k :: 0 <= k < |nals| ==> nals[k].start + nals[k].length <= |p|
    {
      if p[i] != 0 || p[i + 1] != 0 || p[i + 2] != 1 {
        i := i + 1;
      } else {
        ghost var before, found := nals, ToCome(p, i, nal);
        if nal.Some? {
          nals := nals + [Range(nal.value, i - nal.value - 1)];
        }
        FoundNext(p, i, nal, before);
        i := i + 3;
        nal := Some(i);
        ToComeFresh(p, i);
      }
    }
    NoMoreCodes(p, i);
    if nal.Some? {
      CutAppend(p, nals, [Range(nal.value, |p| - nal.value)]);
      LastCut(p, nal.value);
      nals := nals + [Range(nal.value, |p| - nal.value)];
    } else {
      AppendNothing(Cut(p, nals));
    }
  }

  lemma LastCut(p: seq<byte>, nal: nat)
    requires nal <= |p|
    ensures Cut(p, [Range(nal, |p| - nal)]) == Some([p[nal..]])
  {
    hide Cut;
    CutOne(p, Range(nal, |p| - nal));
    ToTheEnd(p, nal);
  }

  lemma ToTheEnd(p: seq<byte>, nal: nat)
    requires nal <= |p|
    ensures p[nal..|p|] == p[nal..]
  {
  }

  lemma NothingCut(p: seq<byte>)
    ensures Cut(p, []) == Some([]) && ToCome(p, 0, None) == Units(p)
  {
  }

  lemma CutOne(p: seq<byte>, r: Range)
    requires r.length >= 0 && r.start + r.length <= |p|
    ensures Cut(p, [r]) == Some([p[r.start..r.start + r.length]])
  {
    var u := p[r.start..r.start + r.length];
    assert Cut(p, [r][1..]) == Some([]);
    assert [u] + [] == [u];
  }

  lemma AppendNothing(a: Option<seq<seq<byte>>>)
    ensures Append(a, Some([])) == a && Append(Some([]), a) == a
  {
    if a.Some? {
      assert a.value + [] == a.value && [] + a.value == a.value;
    }
  }

  lemma NoMoreCodes(p: seq<byte>, i: nat)
    requires i <= |p| <= i + 3
    ensures NextCode(p, i) == |p|
  {
  }

  lemma {:induction false} FoundNext(p: seq<byte>, i: nat, nal: Option<nat>, nals: seq<Range>)
    requires CodeAt(p, i) && (nal.Some? ==> nal.value <= i)
    ensures var nals' := if nal.None? then nals else nals + [Range(nal.value, i - nal.value - 1)];
            Append(Cut(p, nals'), UnitsFrom(p, i + 3)) == Append(Cut(p, nals), ToCome(p, i, nal))
  {
    assert NextCode(p, i) == i;
    if nal.Some? {
      var r := Range(nal.value, i - nal.value - 1);
      CutAppend(p, nals, [r]);
      if nal.value <= i - 1 {
        var u, rest := p[nal.value..i - 1], UnitsFrom(p, i + 3);
        CutOne(p, r);
        AppendAssociates(Cut(p, nals), u, rest);
      }
    }
  }

  lemma AppendAssociates(a: Option<seq<seq<byte>>>, u: seq<byte>, rest: Option<seq<seq<byte>>>)
    ensures Append(Append(a, Some([u])), rest) == Append(a, WithFirst(u, rest))
  {
    if a.Some? && rest.Some? {
      assert a.value + [u] + rest.value == a.value + ([u] + rest.value);
    }
  }
}
