/** Start codes of three bytes, which H.264 (annex B.1) allows in front of all units but the first and the parameter sets. */
module ShortCodes {
  import opened Bytes
  import opened Media
  import opened AnnexB

  const SHORT: seq<byte> := [0, 0, 1]

  function CodeOf(short: bool): seq<byte> {
    if short then SHORT else CODE
  }

  /** Units behind each other; `shorts` says of each but the first one whether the code in front of it is a short one. */
  function JoinMixed(us: seq<seq<byte>>, shorts: seq<bool>): seq<byte>
    requires us != [] && |shorts| == |us| - 1
  {
    if |us| == 1 then us[0] else us[0] + CodeOf(shorts[0]) + JoinMixed(us[1..], shorts[1..])
  }

  /** Each unit without its last byte if the code behind it is a short one. */
  function Shortened(us: seq<seq<byte>>, shorts: seq<bool>): (r: seq<seq<byte>>)
    requires us != [] && |shorts| == |us| - 1 && forall i :: 0 <= i < |us| ==> us[i] != []
    ensures |r| == |us|
  {
    if |us| == 1 then us
    else [if shorts[0] then us[0][..|us[0]| - 1] else us[0]] + Shortened(us[1..], shorts[1..])
  }

  lemma {:induction false} InsideBeforeShort(u: seq<byte>, rest: seq<byte>, i: nat)
    requires rest != [] && i <= |u| && Free(u[i..])
    ensures NextCode(u + SHORT + rest, i) == |u|
    decreases |u| - i
  {
    var p := u + SHORT + rest;
    if i == |u| {
      assert CodeAt(p, i);
    } else {
      FreeStep(u[i..]);
      assert u[i..][1..] == u[i + 1..];
      InsideBeforeShort(u, rest, i + 1);
      assert !CodeAt(p, i);
    }
  }

  lemma {:induction false} UnitBeforeShort(u: seq<byte>, rest: seq<byte>)
    requires u != [] && rest != [] && Free(u)
    ensures UnitsFrom(u + SHORT + rest, 0) == WithFirst(u[..|u| - 1], UnitsFrom(rest, 0))
  {
    var p := u + SHORT + rest;
    assert u[0..] == u;
    InsideBeforeShort(u, rest, 0);
    UnitsStep(p, 0);
    UnitsShift(u + SHORT, rest, 0);
    assert p[0..|u| - 1] == u[..|u| - 1];
  }

  predicate AllThere(us: seq<seq<byte>>) {
    forall i :: 0 <= i < |us| ==> us[i] != []
  }

  lemma MixedIsThere(us: seq<seq<byte>>, shorts: seq<bool>)
    requires us != [] && |shorts| == |us| - 1 && AllThere(us)
    ensures JoinMixed(us, shorts) != []
  {
  }

  lemma {:induction false} MixedFrom(us: seq<seq<byte>>, shorts: seq<bool>)
    requires us != [] && |shorts| == |us| - 1 && AllThere(us) && Clean(us)
    ensures UnitsFrom(JoinMixed(us, shorts), 0) == Some(Shortened(us, shorts))
    decreases |us|
  {
    hide UnitsFrom;
    if |us| == 1 {
      LastUnit(us[0]);
      assert us == [us[0]];
    } else {
      var u, more, rest := us[0], us[1..], JoinMixed(us[1..], shorts[1..]);
      assert Last(more) == Last(us) && forall i :: 0 <= i < |more| ==> more[i] == us[i + 1];
      MixedIsThere(more, shorts[1..]);
      MixedFrom(more, shorts[1..]);
      if shorts[0] {
        UnitBeforeShort(u, rest);
      } else {
        UnitThenMore(u, rest);
      }
    }
  }

  /** The scanner takes every code for one of four bytes: a unit in front of a short one loses its last byte. */
  lemma {:induction false} ShortCodesTakeAByte(us: seq<seq<byte>>, shorts: seq<bool>)
    requires us != [] && |shorts| == |us| - 1 && AllThere(us) && Clean(us)
    ensures Units(CODE + JoinMixed(us, shorts)) == Some(Shortened(us, shorts))
    ensures Units(CODE + JoinMixed(us, shorts)) == Some(us) <==> forall i :: 0 <= i < |shorts| ==> !shorts[i]
  {
    MixedIsThere(us, shorts);
    UnitsBehindCode(JoinMixed(us, shorts));
    MixedFrom(us, shorts);
    ShortenedIsWholeIff(us, shorts);
  }

  lemma {:induction false} ShortenedIsWholeIff(us: seq<seq<byte>>, shorts: seq<bool>)
    requires us != [] && |shorts| == |us| - 1 && AllThere(us)
    ensures Shortened(us, shorts) == us <==> forall i :: 0 <= i < |shorts| ==> !shorts[i]
    decreases |us|
  {
    if |us| > 1 {
      var more, rest := us[1..], shorts[1..];
      ShortenedIsWholeIff(more, rest);
      assert us == [us[0]] + more;
      assert forall i :: 0 < i < |shorts| ==> shorts[i] == rest[i - 1];
      if shorts[0] {
        assert |Shortened(us, shorts)[0]| < |us[0]|;
      } else if Shortened(more, rest) == more {
        assert Shortened(us, shorts) == us;
      } else {
        assert Shortened(us, shorts)[1..] == Shortened(more, rest);
      }
    }
  }
}
