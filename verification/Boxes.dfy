/**
 The box structure of ISO/IEC 14496-12 (section 4.2): a box is a 32-bit size, a four-character type and a body;
 some types hold further boxes after a fixed prefix. `Serialize` writes a tree of boxes, `Parse` reads one back.
 */
module Boxes {
  import opened Bytes
  import opened Media

  /** A four-character code, read as a number. */
  type FourCC = n: nat | n < 0x1_0000_0000

  function CodeOf(s: seq<byte>): (c: FourCC)
    requires |s| == 4
    ensures c == Value(s)
  {
    ValueBound(s);
    Ranges();
    Value(s)
  }

  /** A leaf keeps its whole body in `prefix` and has no children. */
  datatype Box = Box(kind: FourCC, prefix: seq<byte>, children: seq<Box>)

  const MOOV: FourCC := 0x6D6F6F76
  const TRAK: FourCC := 0x7472616B
  const EDTS: FourCC := 0x65647473
  const MDIA: FourCC := 0x6D646961
  const MINF: FourCC := 0x6D696E66
  const DINF: FourCC := 0x64696E66
  const DREF: FourCC := 0x64726566
  const STBL: FourCC := 0x7374626C
  const STSD: FourCC := 0x73747364
  const AVC1: FourCC := 0x61766331
  const MP4A: FourCC := 0x6D703461
  const MOOF: FourCC := 0x6D6F6F66
  const TRAF: FourCC := 0x74726166
  const MDAT: FourCC := 0x6D646174

  /** How many bytes precede the children of a container; `None` for a leaf. */
  function ContainerPrefix(kind: FourCC): Option<nat> {
    if kind in {MOOV, TRAK, EDTS, MDIA, MINF, DINF, STBL, MOOF, TRAF} then Some(0)
    else if kind in {DREF, STSD} then Some(8)
    else if kind == AVC1 then Some(78)
    else if kind == MP4A then Some(28)
    else None
  }

  function Size(b: Box): nat
    decreases b, 1
  {
    8 + |b.prefix| + SizeAll(b.children)
  }

  function SizeAll(bs: seq<Box>): nat
    decreases bs, 0
  {
    if bs == [] then 0 else Size(bs[0]) + SizeAll(bs[1..])
  }

  function Serialize(b: Box): (s: seq<byte>)
    ensures |s| == Size(b)
    decreases b, 1
  {
    BigEndian(4, Size(b)) + BigEndian(4, b.kind) + b.prefix + SerializeAll(b.children)
  }

  function SerializeAll(bs: seq<Box>): (s: seq<byte>)
    ensures |s| == SizeAll(bs)
    decreases bs, 0
  {
    if bs == [] then [] else Serialize(bs[0]) + SerializeAll(bs[1..])
  }

  /** The tree uses the container types, and only those, as containers. */
  predicate Shaped(b: Box) {
    && (match ContainerPrefix(b.kind)
        case Some(n) => |b.prefix| == n
        case None => b.children == [])
    && forall i | 0 <= i < |b.children| :: Shaped(b.children[i])
  }

  /** In addition every size fits its 32-bit field. */
  predicate WellFormed(b: Box) {
    && Size(b) < 0x1_0000_0000
    && (match ContainerPrefix(b.kind)
        case Some(n) => |b.prefix| == n
        case None => b.children == [])
    && forall i | 0 <= i < |b.children| :: WellFormed(b.children[i])
  }

  predicate AllWellFormed(bs: seq<Box>) {
    forall i | 0 <= i < |bs| :: WellFormed(bs[i])
  }

  lemma {:induction false} PartsAreSmaller(bs: seq<Box>, i: nat)
    requires i < |bs|
    ensures Size(bs[i]) <= SizeAll(bs)
    decreases |bs|
  {
    if i > 0 {
      PartsAreSmaller(bs[1..], i - 1);
    }
  }

  /** When the whole fits its size field, so does every part. */
  lemma {:induction false} PartsFit(b: Box)
    requires Shaped(b) && Size(b) < 0x1_0000_0000
    ensures WellFormed(b)
    decreases b
  {
    forall i | 0 <= i < |b.children| ensures WellFormed(b.children[i]) {
      PartsAreSmaller(b.children, i);
      PartsFit(b.children[i]);
    }
  }

  /** Reads boxes that tile `s` exactly, each one's children tiling the rest of its body. */
  function Parse(s: seq<byte>): Option<seq<Box>>
    decreases |s|, 0
  {
    if s == [] then Some([])
    else if |s| < 8 then None
    else
      var size := Value(s[..4]);
      if size < 8 || size > |s| then None
      else
        match ParseBody(CodeOf(s[4..8]), s[8..size])
        case None => None
        case Some(b) =>
          match Parse(s[size..])
          case None => None
          case Some(rest) => Some([b] + rest)
  }

  function ParseBody(kind: FourCC, body: seq<byte>): Option<Box>
    decreases |body|, 1
  {
    match ContainerPrefix(kind)
    case None => Some(Box(kind, body, []))
    case Some(n) =>
      if |body| < n then None
      else
        match Parse(body[n..])
        case None => None
        case Some(children) => Some(Box(kind, body[..n], children))
  }

  lemma HeaderSlices(size: seq<byte>, kind: seq<byte>, body: seq<byte>, rest: seq<byte>)
    requires |size| == |kind| == 4
    ensures var s := size + kind + body + rest;
            var n := 8 + |body|;
            s[..4] == size && s[4..8] == kind && s[8..n] == body && s[n..] == rest
  {
  }

  lemma {:induction false} ParseOfSerialized(b: Box, rest: seq<byte>)
    requires WellFormed(b)
    ensures ParseBody(b.kind, b.prefix + SerializeAll(b.children)) == Some(b)
    ensures var s := Serialize(b) + rest;
            |s| >= 8 && Value(s[..4]) == Size(b) && CodeOf(s[4..8]) == b.kind && s[Size(b)..] == rest
            && s[8..Size(b)] == b.prefix + SerializeAll(b.children)
    decreases b, 1
  {
    var body := b.prefix + SerializeAll(b.children);
    var size, kind := BigEndian(4, Size(b)), BigEndian(4, b.kind);
    assert Serialize(b) + rest == size + kind + body + rest;
    HeaderSlices(size, kind, body, rest);
    Ranges();
    FieldRoundTrip(4, Size(b));
    FieldRoundTrip(4, b.kind);
    match ContainerPrefix(b.kind)
    case None =>
      assert body == b.prefix;
    case Some(n) =>
      ParseRoundTrip(b.children);
      assert body[..n] == b.prefix && body[n..] == SerializeAll(b.children);
  }

  /** Every well-formed tree is recovered from its bytes, so sizes equal extents and children tile their parents. */
  lemma {:induction false} ParseRoundTrip(bs: seq<Box>)
    requires AllWellFormed(bs)
    ensures Parse(SerializeAll(bs)) == Some(bs)
    decreases bs, 0
  {
    if bs != [] {
      ParseOfSerialized(bs[0], SerializeAll(bs[1..]));
      ParseRoundTrip(bs[1..]);
      assert bs == [bs[0]] + bs[1..];
    }
  }

  lemma {:induction false} SerializeAllAppend(a: seq<Box>, b: seq<Box>)
    ensures SerializeAll(a + b) == SerializeAll(a) + SerializeAll(b)
    decreases |a|
  {
    if a == [] {
      assert a + b == b;
    } else {
      assert (a + b)[1..] == a[1..] + b;
      SerializeAllAppend(a[1..], b);
      assert Serialize(a[0]) + (SerializeAll(a[1..]) + SerializeAll(b))
             == Serialize(a[0]) + SerializeAll(a[1..]) + SerializeAll(b);
    }
  }

  function Leaf(kind: FourCC, body: seq<byte>): Box {
    Box(kind, body, [])
  }

  /** The first child of the given kind, as a reader looks it up. */
  function Child(bs: seq<Box>, kind: FourCC): Option<Box> {
    if bs == [] then None
    else if bs[0].kind == kind then Some(bs[0])
    else Child(bs[1..], kind)
  }

  lemma {:induction false} FirstChild(bs: seq<Box>, n: nat)
    requires n < |bs| && forall i | 0 <= i < n :: bs[i].kind != bs[n].kind
    ensures Child(bs, bs[n].kind) == Some(bs[n])
    decreases |bs|
  {
    if n > 0 {
      FirstChild(bs[1..], n - 1);
    }
  }

  // ---------------------------------------------------------------------------------------------
  // Lists of 32-bit fields
  // ---------------------------------------------------------------------------------------------

  function Fields32(xs: seq<nat>): (s: seq<byte>)
    ensures |s| == 4 * |xs|
  {
    if xs == [] then [] else BigEndian(4, xs[0]) + Fields32(xs[1..])
  }

  function Field32(s: seq<byte>, i: nat): nat
    requires 4 * i + 4 <= |s|
  {
    Value(s[4 * i..4 * i + 4])
  }

  lemma {:induction false} Field32At(xs: seq<nat>, i: nat)
    requires i < |xs|
    ensures Field32(Fields32(xs), i) == xs[i] % 0x1_0000_0000
  {
    var s := Fields32(xs);
    if i == 0 {
      assert s[0..4] == BigEndian(4, xs[0]);
      Ranges();
      ValueOfBigEndian(4, xs[0]);
    } else {
      Field32At(xs[1..], i - 1);
      assert s[4 * i..4 * i + 4] == Fields32(xs[1..])[4 * (i - 1)..4 * (i - 1) + 4];
    }
  }

  lemma {:induction false} Fields32Append(a: seq<nat>, b: seq<nat>)
    ensures Fields32(a + b) == Fields32(a) + Fields32(b)
    decreases |a|
  {
    if a == [] {
      assert a + b == b;
    } else {
      assert (a + b)[1..] == a[1..] + b;
      Fields32Append(a[1..], b);
      assert BigEndian(4, a[0]) + (Fields32(a[1..]) + Fields32(b)) == BigEndian(4, a[0]) + Fields32(a[1..]) + Fields32(b);
    }
  }

  lemma FieldsSnoc(xs: seq<nat>, x: nat)
    ensures Fields32(xs) + BigEndian(4, x) == Fields32(xs + [x])
  {
    Fields32Append(xs, [x]);
    assert [x][1..] == [] && BigEndian(4, x) + [] == BigEndian(4, x);
    assert Fields32([x]) == BigEndian(4, x) + Fields32([x][1..]);
  }

  /** The fields that a byte string holds; trailing bytes that do not make up a field are left over. */
  function FieldsOf(s: seq<byte>): seq<nat> {
    if |s| < 4 then [] else [Value(s[..4])] + FieldsOf(s[4..])
  }

  lemma ThreeFields(xs: seq<nat>, a: nat, b: nat, c: nat)
    ensures Fields32(xs) + BigEndian(4, a) + BigEndian(4, b) + BigEndian(4, c) == Fields32(xs + [a, b, c])
  {
    FieldsSnoc(xs, a);
    FieldsSnoc(xs + [a], b);
    FieldsSnoc(xs + [a] + [b], c);
    assert xs + [a] + [b] + [c] == xs + [a, b, c];
  }

  lemma {:induction false} FieldsOfFields(xs: seq<nat>)
    ensures |FieldsOf(Fields32(xs))| == |xs|
    ensures forall i :: 0 <= i < |xs| ==> FieldsOf(Fields32(xs))[i] == xs[i] % 0x1_0000_0000
  {
    if xs != [] {
      var s := Fields32(xs);
      assert s[..4] == BigEndian(4, xs[0]) && s[4..] == Fields32(xs[1..]);
      Ranges();
      ValueOfBigEndian(4, xs[0]);
      FieldsOfFields(xs[1..]);
    }
  }

  predicate Small(xs: seq<nat>) {
    forall i :: 0 <= i < |xs| ==> xs[i] < 0x1_0000_0000
  }

  lemma {:induction false} FieldsRoundTrip(xs: seq<nat>)
    requires Small(xs)
    ensures FieldsOf(Fields32(xs)) == xs
  {
    FieldsOfFields(xs);
  }
}
