/** Media payloads, as immutable values. */
module Media {
  import opened Bytes

  datatype Option<+T> = None | Some(value: T)

  datatype Kind = Audio | Video

  datatype PayloadFields = Payload(kind: Kind, iFrame: bool, dts: nat, pts: nat, data: seq<byte>)

  /** Audio data starts with two bytes of FLV tag, video data with four bytes of NAL unit length. */
  function PrefixLength(kind: Kind): nat {
    if kind == Audio then 2 else 4
  }

  type Payload = p: PayloadFields | PrefixLength(p.kind) <= |p.data| witness Payload(Audio, false, 0, 0, [0, 0])

  /** The elementary stream bytes of a payload. */
  function Raw(p: Payload): seq<byte> {
    p.data[PrefixLength(p.kind)..]
  }

  function Last<T>(s: seq<T>): T
    requires s != []
  {
    s[|s| - 1]
  }

  /** The payloads of one kind, in order. */
  function Kept(ps: seq<Payload>, kind: Kind): seq<Payload> {
    if ps == [] then []
    else if Last(ps).kind == kind then Kept(ps[..|ps| - 1], kind) + [Last(ps)]
    else Kept(ps[..|ps| - 1], kind)
  }

  /** The bytes of a sample as they go into `mdat`: audio without its FLV tag, video with its NAL length. */
  function Stored(p: Payload): seq<byte> {
    if p.kind == Audio then Raw(p) else p.data
  }

  function StoredAll(ps: seq<Payload>): seq<byte> {
    if ps == [] then [] else Stored(ps[0]) + StoredAll(ps[1..])
  }

  lemma {:induction false} StoredAllSnoc(ps: seq<Payload>, p: Payload)
    ensures StoredAll(ps + [p]) == StoredAll(ps) + Stored(p)
    decreases |ps|
  {
    if ps == [] {
      assert [] + [p] == [p] && [p][1..] == [];
    } else {
      assert (ps + [p])[1..] == ps[1..] + [p];
      StoredAllSnoc(ps[1..], p);
    }
  }

  lemma SliceBehind(a: seq<byte>, b: seq<byte>, lo: nat, hi: nat)
    requires lo <= hi <= |b|
    ensures (a + b)[|a| + lo..|a| + hi] == b[lo..hi]
  {
  }

  lemma SliceBefore(a: seq<byte>, b: seq<byte>, lo: nat, hi: nat)
    requires lo <= hi <= |a|
    ensures (a + b)[lo..hi] == a[lo..hi]
  {
  }

  /** The bytes of sample `i` within the bytes of a list of samples. */
  lemma {:induction false} StoredSlice(ps: seq<Payload>, i: nat)
    requires i < |ps|
    ensures var at := |StoredAll(ps[..i])|;
            at + |Stored(ps[i])| <= |StoredAll(ps)| && StoredAll(ps)[at..at + |Stored(ps[i])|] == Stored(ps[i])
    decreases |ps|
  {
    hide Stored;
    if i == 0 {
      assert ps[..0] == [];
    } else {
      StoredSlice(ps[1..], i - 1);
      assert ps[..i][1..] == ps[1..][..i - 1];
      var at := |StoredAll(ps[1..][..i - 1])|;
      SliceBehind(Stored(ps[0]), StoredAll(ps[1..]), at, at + |Stored(ps[i])|);
    }
  }

  function Sum(sizes: seq<nat>, lo: nat, hi: nat): nat
    requires lo <= hi <= |sizes|
    decreases hi
  {
    if lo == hi then 0 else Sum(sizes, lo, hi - 1) + sizes[hi - 1]
  }

  lemma {:induction false} SumOfSizes(ps: seq<Payload>, sizes: seq<nat>, lo: nat, hi: nat)
    requires lo <= hi <= |ps| == |sizes|
    requires forall i :: 0 <= i < |ps| ==> sizes[i] == |Stored(ps[i])|
    ensures Sum(sizes, lo, hi) == |StoredAll(ps[lo..hi])|
    decreases hi
  {
    if lo < hi {
      SumOfSizes(ps, sizes, lo, hi - 1);
      assert ps[lo..hi] == ps[lo..hi - 1] + [ps[hi - 1]];
      StoredAllSnoc(ps[lo..hi - 1], ps[hi - 1]);
    } else {
      assert ps[lo..hi] == [];
    }
  }

  // ---------------------------------------------------------------------------------------------
  // The first and the last key of an ordered map
  // ---------------------------------------------------------------------------------------------

  predicate IsMin(s: set<nat>, k: nat) {
    k in s && forall j :: j in s ==> k <= j
  }

  lemma {:induction false} HasMin(s: set<nat>) returns (k: nat)
    requires s != {}
    ensures IsMin(s, k)
    decreases |s|
  {
    var x :| x in s;
    k := x;
    if s != {x} {
      var rest := HasMin(s - {x});
      k := if x < rest then x else rest;
      forall j | j in s ensures k <= j {
        assert j == x || j in s - {x};
      }
    }
  }

  lemma MinExists(s: set<nat>)
    requires s != {}
    ensures exists k :: IsMin(s, k)
  {
    var k := HasMin(s);
  }

  function MinKey(s: set<nat>): (k: nat)
    requires s != {}
    ensures IsMin(s, k)
  {
    MinExists(s);
    var k :| IsMin(s, k);
    k
  }

  function MaxKey(s: set<nat>): (k: nat)
    requires s != {}
    ensures k in s && forall j :: j in s ==> j <= k
    decreases |s|
  {
    MinExists(s);
    var x := MinKey(s);
    if s == {x} then x
    else
      var k := MaxKey(s - {x});
      assert forall j :: j in s ==> j == x || j in s - {x};
      k
  }

  lemma MapGrows<T>(m: map<nat, T>, k: nat, x: T)
    requires k !in m
    ensures |m[k := x]| == |m| + 1
  {
    var m' := m[k := x];
    assert m'.Keys == m.Keys + {k} && |m'.Keys| == |m'| && |m.Keys| == |m|;
  }
}
