/**
 The decoding and composition times in the sample tables, and what the lookup that ISO/IEC 14496-12 (sections 8.6.1.2 and
 8.6.1.3) prescribes makes of them: composition offsets come back, decoding times hardly ever.
 */
module Mp4Times {
  import opened Bytes
  import opened Media
  import opened Boxes

  /** `count` samples in a row with the same value. */
  datatype TimeEntry = TimeEntry(count: nat, value: nat)

  // ---------------------------------------------------------------------------------------------
  // What is written
  // ---------------------------------------------------------------------------------------------

  /** Time and delta of the last entry, what to count the next one with, and the entries so far. */
  datatype Loop = Loop(time: nat, delta: nat, count: nat, entries: seq<TimeEntry>)

  /** A sample with the delta of the entry before is only counted; the count goes into the next entry. */
  function Turn(l: Loop, dts: nat): Loop {
    var delta := Minus32(dts, l.time);
    if delta == l.delta then l.(count := l.count + 1) else Loop(dts, delta, 1, l.entries + [TimeEntry(l.count, delta)])
  }

  /** The first sample always gets an entry, with no delta. */
  function Turns(dts: seq<nat>): Loop {
    if dts == [] then Loop(0, 0, 1, [])
    else if |dts| == 1 then Loop(dts[0], 0, 1, [TimeEntry(1, 0)])
    else Turn(Turns(dts[..|dts| - 1]), dts[|dts| - 1])
  }

  function Stts(dts: seq<nat>): seq<TimeEntry> {
    Turns(dts).entries
  }

  function TimesOf(ps: seq<Payload>): (dts: seq<nat>)
    ensures |dts| == |ps|
  {
    seq(|ps|, i requires 0 <= i < |ps| => ps[i].dts)
  }

  /** One entry for each sample. */
  function Ctts(ps: seq<Payload>): (es: seq<TimeEntry>)
    ensures |es| == |ps|
  {
    seq(|ps|, i requires 0 <= i < |ps| => TimeEntry(1, Minus32(ps[i].pts, ps[i].dts)))
  }

  function FlatTimes(es: seq<TimeEntry>): (r: seq<nat>)
    ensures |r| == 2 * |es|
  {
    if es == [] then [] else [es[0].count, es[0].value] + FlatTimes(es[1..])
  }

  function TimesBody(es: seq<TimeEntry>): seq<byte> {
    Fields32([0, |es|] + FlatTimes(es))
  }

  // ---------------------------------------------------------------------------------------------
  // What is read
  // ---------------------------------------------------------------------------------------------

  function ReadPairs(fields: seq<nat>): seq<TimeEntry> {
    if |fields| < 2 then [] else [TimeEntry(fields[0], fields[1])] + ReadPairs(fields[2..])
  }

  function ReadTimes(body: seq<byte>): Option<seq<TimeEntry>> {
    var x := FieldsOf(body);
    if |x| < 2 || |x| < 2 + 2 * x[1] then None else Some(ReadPairs(x[2..2 + 2 * x[1]]))
  }

  function Repeat(n: nat, v: nat): (s: seq<nat>)
    ensures |s| == n && forall i :: 0 <= i < n ==> s[i] == v
  {
    seq(n, _ => v)
  }

  /** The value of each sample. */
  function Expand(es: seq<TimeEntry>): seq<nat> {
    if es == [] then [] else Expand(es[..|es| - 1]) + Repeat(Last(es).count, Last(es).value)
  }

  /** Every sample has a delta, and the deltas before it add up to its distance from the first one, on a 32-bit clock. */
  predicate TellsTimes(es: seq<TimeEntry>, dts: seq<nat>) {
    var deltas := Expand(es);
    |deltas| == |dts| && forall k :: 0 <= k < |dts| ==> Sum(deltas, 0, k) % U32 == Minus32(dts[k], dts[0])
  }

  predicate TellsOffsets(es: seq<TimeEntry>, ps: seq<Payload>) {
    var offsets := Expand(es);
    |offsets| == |ps| && forall k :: 0 <= k < |ps| ==> offsets[k] == Minus32(ps[k].pts, ps[k].dts)
  }

  // ---------------------------------------------------------------------------------------------
  // Tables come back
  // ---------------------------------------------------------------------------------------------

  predicate SmallTimes(es: seq<TimeEntry>) {
    forall i :: 0 <= i < |es| ==> es[i].count < U32 && es[i].value < U32
  }

  lemma {:induction false} PairsComeBack(es: seq<TimeEntry>)
    requires SmallTimes(es)
    ensures ReadPairs(FlatTimes(es)) == es && Small(FlatTimes(es))
    decreases |es|
  {
    if es != [] {
      PairsComeBack(es[1..]);
      assert FlatTimes(es)[2..] == FlatTimes(es[1..]);
    }
  }

  lemma TableComesBack(es: seq<TimeEntry>)
    requires SmallTimes(es) && |es| < U32
    ensures ReadTimes(TimesBody(es)) == Some(es)
  {
    PairsComeBack(es);
    var x := [0, |es|] + FlatTimes(es);
    FieldsRoundTrip(x);
    assert x[2..2 + 2 * x[1]] == FlatTimes(es);
  }

  lemma {:induction false} FlatTimesSnoc(es: seq<TimeEntry>, e: TimeEntry)
    ensures FlatTimes(es + [e]) == FlatTimes(es) + [e.count, e.value]
    decreases |es|
  {
    if es == [] {
      assert [] + [e] == [e] && [e][1..] == [];
    } else {
      assert (es + [e])[1..] == es[1..] + [e];
      FlatTimesSnoc(es[1..], e);
    }
  }

  // ---------------------------------------------------------------------------------------------
  // Composition offsets
  // ---------------------------------------------------------------------------------------------

  lemma CttsSnoc(ps: seq<Payload>)
    requires ps != []
    ensures Ctts(ps) == Ctts(ps[..|ps| - 1]) + [TimeEntry(1, Minus32(Last(ps).pts, Last(ps).dts))]
  {
  }

  /** The offsets of all samples come back. */
  lemma {:induction false} CttsTellsOffsets(ps: seq<Payload>)
    ensures TellsOffsets(Ctts(ps), ps)
    decreases |ps|
  {
    if ps != [] {
      var init := ps[..|ps| - 1];
      CttsSnoc(ps);
      CttsTellsOffsets(init);
      assert Ctts(ps)[..|ps| - 1] == Ctts(init);
      var e := Expand(Ctts(ps));
      assert e == Expand(Ctts(init)) + Repeat(1, Minus32(Last(ps).pts, Last(ps).dts));
      forall k | 0 <= k < |ps| ensures e[k] == Minus32(ps[k].pts, ps[k].dts) {
        assert k < |init| ==> e[k] == Expand(Ctts(init))[k] && init[k] == ps[k];
      }
    }
  }

  // ---------------------------------------------------------------------------------------------
  // Decoding times
  // ---------------------------------------------------------------------------------------------

  lemma {:induction false} TurnsBounds(dts: seq<nat>)
    ensures var l := Turns(dts);
            && 1 <= l.count <= |dts| + 1 && |l.entries| <= |dts| && l.delta < U32
            && (forall i :: 0 <= i < |l.entries| ==> l.entries[i].count <= |dts| && l.entries[i].value < U32)
            && (dts != [] ==> l.count <= |dts| && l.entries != [])
    decreases |dts|
  {
    if |dts| > 1 {
      TurnsBounds(dts[..|dts| - 1]);
    }
  }

  lemma TurnExpands(l: Loop, dts: nat)
    ensures var e, e', l' := Expand(l.entries), Expand(Turn(l, dts).entries), Turn(l, dts);
            && |e'| + l'.count == |e| + l.count + 1
            && |e| <= |e'| && e == e'[..|e|]
  {
    hide Minus32;
    var l' := Turn(l, dts);
    if l'.entries != l.entries {
      assert l'.entries[..|l'.entries| - 1] == l.entries;
    }
  }

  /** Deltas are never taken away again, and those of the samples being counted are missing. */
  lemma {:induction false} ExpandGrows(dts: seq<nat>, i: nat)
    requires 1 <= i <= |dts|
    ensures var e, e' := Expand(Stts(dts[..i])), Expand(Stts(dts));
            && |e'| + Turns(dts).count == |dts| + 1
            && |e| <= |e'| && e == e'[..|e|]
    decreases |dts|
  {
    hide Expand, Turn;
    if |dts| == 1 {
      assert dts[..i] == dts;
      FirstTurn(dts);
    } else {
      var init := dts[..|dts| - 1];
      TurnExpands(Turns(init), dts[|dts| - 1]);
      ExpandGrows(init, if i < |dts| then i else i - 1);
      if i < |dts| {
        assert init[..i] == dts[..i];
        PrefixOfPrefix(Expand(Stts(dts[..i])), Expand(Stts(init)), Expand(Stts(dts)));
      } else {
        assert dts[..i] == dts;
      }
    }
  }

  lemma PrefixOfPrefix(a: seq<nat>, b: seq<nat>, c: seq<nat>)
    requires |a| <= |b| <= |c| && a == b[..|a|] && b == c[..|b|]
    ensures a == c[..|a|]
  {
  }

  /** The samples behind `w` up to `i` are as far from `w` as entry `w` is from the one before it. */
  predicate Counted(dts: seq<nat>, w: nat, i: nat)
    requires w < i <= |dts|
  {
    forall s :: w < s < i ==> Minus32(dts[s], dts[w]) == Turns(dts[..w + 1]).delta
  }

  /** The next sample behind entry `w` that gets an entry; those in between are only counted. */
  lemma {:induction false} NextEntry(dts: seq<nat>, w: nat, i: nat) returns (m: nat)
    requires w + 1 <= i < |dts| && Turns(dts).count == 1
    requires Turns(dts[..w + 1]).time == dts[w]
    requires Turns(dts[..i]) == Turns(dts[..w + 1]).(count := i - w) && Counted(dts, w, i)
    ensures w < m < |dts| && Counted(dts, w, m)
    ensures var delta := Minus32(dts[m], dts[w]);
            && delta != Turns(dts[..w + 1]).delta
            && Turns(dts[..m + 1]) == Loop(dts[m], delta, 1, Stts(dts[..w + 1]) + [TimeEntry(m - w, delta)])
    decreases |dts| - i
  {
    hide Turns, Minus32;
    assert dts[..|dts|] == dts;
    TurnsStep(dts, i);
    if Minus32(dts[i], dts[w]) != Turns(dts[..w + 1]).delta {
      m := i;
    } else {
      m := NextEntry(dts, w, i + 1);
    }
  }

  lemma TurnsStep(dts: seq<nat>, i: nat)
    requires 1 <= i < |dts|
    ensures Turns(dts[..i + 1]) == Turn(Turns(dts[..i]), dts[i])
  {
    assert dts[..i + 1][..i] == dts[..i];
  }

  lemma FirstTurn(dts: seq<nat>)
    requires dts != []
    ensures Turns(dts[..1]) == Loop(dts[0], 0, 1, [TimeEntry(1, 0)]) && Expand([TimeEntry(1, 0)]) == [0]
  {
    assert Expand([TimeEntry(1, 0)]) == Expand([]) + Repeat(1, 0);
  }

  /** The deltas that an entry stands for, in the finished table. */
  lemma EntryExpands(dts: seq<nat>, w: nat, m: nat, delta: nat)
    requires w < m < |dts| && Turns(dts[..w + 1]).count == 1 && Turns(dts[..m + 1]).count == 1
    requires Stts(dts[..m + 1]) == Stts(dts[..w + 1]) + [TimeEntry(m - w, delta)]
    ensures |Expand(Stts(dts))| >= m + 1 && forall k :: w < k <= m ==> Expand(Stts(dts))[k] == delta
  {
    hide Turns;
    var a, b := Stts(dts[..w + 1]), Stts(dts[..m + 1]);
    ExpandGrows(dts[..w + 1], w + 1);
    assert dts[..w + 1][..w + 1] == dts[..w + 1];
    ExpandGrows(dts, m + 1);
    assert b[..|b| - 1] == a;
    var e := Expand(b);
    assert e == Expand(a) + Repeat(m - w, delta);
    forall k | w < k <= m ensures Expand(Stts(dts))[k] == delta {
      assert e[k] == Repeat(m - w, delta)[k - w - 1];
    }
  }

  lemma {:induction false} SumOfEqual(s: seq<nat>, lo: nat, hi: nat, v: nat)
    requires lo <= hi <= |s| && forall k :: lo <= k < hi ==> s[k] == v
    ensures Sum(s, 0, hi) == Sum(s, 0, lo) + (hi - lo) * v
    decreases hi
  {
    if lo < hi {
      SumOfEqual(s, lo, hi - 1, v);
    }
  }

  lemma Distances(a: nat, b: nat, c: nat)
    ensures Minus32(a, c) == (Minus32(a, b) + Minus32(b, c)) % U32
  {
  }

  /** The second of two samples at the same time, and a third one that is later: the only table that works by chance. */
  predicate ThreeByChance(dts: seq<nat>) {
    |dts| == 3 && Minus32(dts[1], dts[0]) == 0 && Minus32(dts[2], dts[0]) != 0
  }

  lemma ChanceTells(dts: seq<nat>)
    requires ThreeByChance(dts)
    ensures TellsTimes(Stts(dts), dts)
  {
    var d := Minus32(dts[2], dts[0]);
    FirstTurn(dts);
    TurnsStep(dts, 1);
    TurnsStep(dts, 2);
    assert dts[..3] == dts;
    var es := [TimeEntry(1, 0)] + [TimeEntry(2, d)];
    assert Stts(dts) == es && es[..1] == [TimeEntry(1, 0)];
    assert Expand(es) == [0] + Repeat(2, d);
    var x := Expand(es);
    assert x[1] == d;
    assert Sum(x, 0, 0) == 0 && Sum(x, 0, 1) == 0 && Sum(x, 0, 2) == d;
  }

  lemma FewTell(dts: seq<nat>)
    requires |dts| <= 1
    ensures TellsTimes(Stts(dts), dts)
  {
    if |dts| == 1 {
      FirstTurn(dts);
      assert dts[..1] == dts;
    }
  }

  /** Behind two samples at one time the third one comes later. */
  lemma {:induction false} SecondEntry(dts: seq<nat>) returns (delta: nat)
    requires |dts| >= 2 && TellsTimes(Stts(dts), dts)
    ensures |dts| >= 3 && Minus32(dts[1], dts[0]) == 0 && delta == Minus32(dts[2], dts[0]) && 0 < delta < U32
    ensures Turns(dts).count == 1 && Turns(dts[..3]) == Loop(dts[2], delta, 1, [TimeEntry(1, 0)] + [TimeEntry(2, delta)])
    ensures Sum(Expand(Stts(dts)), 0, 3) == 2 * delta
  {
    hide Turns;
    var e := Expand(Stts(dts));
    FirstTurn(dts);
    ExpandGrows(dts, 1);
    assert Sum(e, 0, 1) == Sum(e, 0, 0) + e[0];
    assert e[..1][0] == e[0];
    var m := NextEntry(dts, 0, 1);
    delta := Minus32(dts[m], dts[0]);
    EntryExpands(dts, 0, m, delta);
    assert Minus32(dts[1], dts[0]) == 0;
    SumOfEqual(e, 1, 2, delta);
    SumOfEqual(e, 1, 3, delta);
    assert Sum(e, 0, 2) == delta;
  }

  lemma {:induction false} NoFourth(dts: seq<nat>)
    requires |dts| >= 4
    ensures !TellsTimes(Stts(dts), dts)
  {
    if TellsTimes(Stts(dts), dts) {
      hide Turns, TellsTimes, Expand, Minus32, Counted, Sum, Agrees;
      var d := SecondEntry(dts);
      StartsCounting(dts, 2);
      var m := NextEntry(dts, 2, 3);
      var f := Minus32(dts[m], dts[2]);
      EntryExpands(dts, 2, m, f);
      AllReached(dts, d, f, m);
      NeverAgrees(d, f, m - 3);
    }
  }

  lemma AllReached(dts: seq<nat>, d: nat, f: nat, m: nat)
    requires TellsTimes(Stts(dts), dts) && 3 <= m < |dts| && Counted(dts, 2, m)
    requires d == Minus32(dts[2], dts[0]) == Turns(dts[..3]).delta && f == Minus32(dts[m], dts[2])
    requires var e := Expand(Stts(dts));
             && |e| > m && Sum(e, 0, 3) == 2 * d && forall i :: 2 < i <= m ==> e[i] == f
    ensures Agrees(d, f, m - 3)
  {
    hide Turns, TellsTimes, Expand, Minus32, Counted, Sum;
    Reached(dts, d, f, m, 3);
    Reached(dts, d, f, m, m);
    if m > 3 {
      Reached(dts, d, f, m, 4);
    }
  }

  lemma StartsCounting(dts: seq<nat>, w: nat)
    requires w < |dts|
    ensures Counted(dts, w, w + 1)
  {
  }

  /** What the table says about the samples up to the entry behind the third sample. */
  lemma Reached(dts: seq<nat>, d: nat, f: nat, m: nat, k: nat)
    requires TellsTimes(Stts(dts), dts) && 3 <= k <= m < |dts| && Counted(dts, 2, m)
    requires d == Minus32(dts[2], dts[0]) == Turns(dts[..3]).delta && f == Minus32(dts[m], dts[2])
    requires var e := Expand(Stts(dts));
             && |e| > m && Sum(e, 0, 3) == 2 * d && forall i :: 2 < i <= m ==> e[i] == f
    ensures (2 * d + (k - 3) * f) % U32 == ((if k < m then d else f) + d) % U32
  {
    hide Turns, TellsTimes, Expand, Minus32;
    Told(dts, k);
    SumOfEqual(Expand(Stts(dts)), 3, k, f);
    Distances(dts[k], dts[2], dts[0]);
  }

  /** What it takes that `n` samples are counted before an entry with delta `f`, behind one with delta `d`. */
  predicate Agrees(d: nat, f: nat, n: nat) {
    && (n == 0 ==> 2 * d % U32 == (f + d) % U32)
    && (n == 1 ==> (2 * d + f) % U32 == (f + d) % U32)
    && (n > 1 ==> (2 * d + f) % U32 == (d + d) % U32 && (2 * d + n * f) % U32 == (f + d) % U32)
  }

  lemma NeverAgrees(d: nat, f: nat, n: nat)
    requires 0 < d < U32 && f < U32 && f != d
    ensures !Agrees(d, f, n)
  {
    if Agrees(d, f, n) {
      if n == 0 {
        Cancel(d, d, f);
      } else if n == 1 {
        Cancel(d + f, d, 0);
      } else {
        Cancel(2 * d, f, 0);
        assert n * f == 0;
        Cancel(d, d, 0);
      }
    }
  }

  lemma Cancel(a: nat, b: nat, c: nat)
    requires b < U32 && c < U32 && (a + b) % U32 == (a + c) % U32
    ensures b == c
  {
  }

  lemma Told(dts: seq<nat>, k: nat)
    requires k < |dts| && TellsTimes(Stts(dts), dts)
    ensures |Expand(Stts(dts))| == |dts| && Sum(Expand(Stts(dts)), 0, k) % U32 == Minus32(dts[k], dts[0])
  {
  }

  /**
   A reader finds every sample's decoding time exactly when there is at most one sample, or there are three, the first two
   at one time and the third one at another.
   */
  lemma {:induction false} SttsTellsTimesIff(dts: seq<nat>)
    ensures TellsTimes(Stts(dts), dts) <==> |dts| <= 1 || ThreeByChance(dts)
  {
    hide TellsTimes, Stts;
    if |dts| <= 1 {
      FewTell(dts);
    } else if ThreeByChance(dts) {
      ChanceTells(dts);
    } else if TellsTimes(Stts(dts), dts) {
      if |dts| >= 4 {
        NoFourth(dts);
      }
      var _ := SecondEntry(dts);
    }
  }

  /** Frames 40 ms apart: the second one is shown with the first, and the third one is not listed at all. */
  lemma SteadyFrames()
    ensures Stts([0, 40, 80]) == [TimeEntry(1, 0), TimeEntry(1, 40)] && !TellsTimes(Stts([0, 40, 80]), [0, 40, 80])
  {
    var dts := [0, 40, 80];
    FirstTurn(dts);
    TurnsStep(dts, 1);
    TurnsStep(dts, 2);
    assert dts[..3] == dts;
    SttsTellsTimesIff(dts);
  }
}
