/** Writing boxes in place: a zero size first, the contents, and the size patched in once it is known. */
module BoxWriter {
  import opened Bytes
  import opened Bits
  import opened BitIO
  import opened Boxes

  /** The buffer is at a byte boundary and has room for `n` more bytes. */
  ghost predicate Ready(bs: BitStream, n: nat)
    reads bs, bs.buf
  {
    bs.Valid() && bs.Room(n)
  }

  lemma BoxOfParts(b: Box, before: seq<byte>)
    ensures before + BigEndian(4, Size(b)) + (BigEndian(4, b.kind) + b.prefix + SerializeAll(b.children))
            == before + Serialize(b)
  {
    var s, k, p, c := BigEndian(4, Size(b)), BigEndian(4, b.kind), b.prefix, SerializeAll(b.children);
    assert s + (k + p + c) == s + k + p + c;
    assert before + s + (k + p + c) == before + (s + (k + p + c));
  }

  lemma SerializeAllSnoc(cs: seq<Box>, b: Box)
    ensures SerializeAll(cs + [b]) == SerializeAll(cs) + Serialize(b) && SizeAll(cs + [b]) == SizeAll(cs) + Size(b)
  {
    SerializeAllAppend(cs, [b]);
    assert SerializeAll([b][1..]) == [];
    assert SerializeAll([b]) == Serialize(b) + SerializeAll([b][1..]);
    assert Serialize(b) + [] == Serialize(b);
  }

  lemma {:induction false} PrefixSizes(cs: seq<Box>, i: nat)
    requires i <= |cs|
    ensures SizeAll(cs[..i]) <= SizeAll(cs)
  {
    assert cs == cs[..i] + cs[i..];
    SerializeAllAppend(cs[..i], cs[i..]);
    assert |SerializeAll(cs)| == |SerializeAll(cs[..i])| + |SerializeAll(cs[i..])|;
  }

  /** The next box of a list: what it adds, and that it fits when the list fits. */
  lemma {:induction false} NextBox(head: seq<byte>, cs: seq<Box>, i: nat)
    requires i < |cs|
    ensures head + SerializeAll(cs[..i]) + Serialize(cs[i]) == head + SerializeAll(cs[..i + 1])
    ensures SizeAll(cs[..i]) + Size(cs[i]) == SizeAll(cs[..i + 1]) <= SizeAll(cs)
  {
    assert cs[..i + 1] == cs[..i] + [cs[i]];
    SerializeAllSnoc(cs[..i], cs[i]);
    PrefixSizes(cs, i + 1);
    Associate(head, SerializeAll(cs[..i]), Serialize(cs[i]));
  }

  /** Opens a box: its size is not known yet. */
  method BeginBox(bs: BitStream, kind: FourCC) returns (preSize: nat)
    requires Ready(bs, 8)
    modifies bs, bs.buf
    ensures Ready(bs, 0) && preSize == |old(bs.Content())|
    ensures bs.Content() == old(bs.Content()) + BigEndian(4, 0) + BigEndian(4, kind)
  {
    preSize := bs.curPos / 8;
    bs.WriteBytes(4, 0);
    bs.WriteBytes(4, kind);
  }

  /** Closes the box that was opened at `preSize`: patches the number of bytes written since. */
  method EndBox(bs: BitStream, preSize: nat, ghost before: seq<byte>, ghost box: Box)
    requires Ready(bs, 0) && preSize == |before|
    requires bs.Content() == before + BigEndian(4, 0) + (BigEndian(4, box.kind) + box.prefix + SerializeAll(box.children))
    modifies bs, bs.buf
    ensures Ready(bs, 0) && bs.Content() == before + Serialize(box)
  {
    ghost var rest := BigEndian(4, box.kind) + box.prefix + SerializeAll(box.children);
    SizePlace(before, BigEndian(4, 0), rest);
    BodyLength(box);
    var newSize := bs.curPos / 8;
    assert newSize == |bs.Content()|;
    var boxSize := newSize - preSize;
    assert boxSize == Size(box);
    var ok := bs.ModifyBytes(preSize, 4, boxSize);
    BoxOfParts(box, before);
  }

  lemma BodyLength(b: Box)
    ensures |BigEndian(4, b.kind) + b.prefix + SerializeAll(b.children)| == Size(b) - 4
  {
  }

  lemma SizePlace(before: seq<byte>, size: seq<byte>, rest: seq<byte>)
    requires |size| == 4
    ensures var c := before + size + rest;
            |c| == |before| + 4 + |rest| && c[..|before|] == before && c[|before| + 4..] == rest
  {
  }

  /** Writes a whole tree of boxes. */
  method WriteBox(bs: BitStream, b: Box)
    requires Ready(bs, Size(b))
    modifies bs, bs.buf
    ensures Ready(bs, 0) && bs.Content() == old(bs.Content()) + Serialize(b)
    decreases b, 1
  {
    ghost var before := bs.Content();
    var preSize := BeginBox(bs, b.kind);
    bs.WriteData(b.prefix);
    WriteBoxes(bs, b.children);
    HeaderAndBody(before, BigEndian(4, 0), BigEndian(4, b.kind), b.prefix, SerializeAll(b.children));
    EndBox(bs, preSize, before, b);
  }

  lemma HeaderAndBody(before: seq<byte>, size: seq<byte>, kind: seq<byte>, prefix: seq<byte>, rest: seq<byte>)
    ensures before + size + kind + prefix + rest == before + size + (kind + prefix + rest)
  {
  }

  method WriteBoxes(bs: BitStream, cs: seq<Box>)
    requires Ready(bs, SizeAll(cs))
    modifies bs, bs.buf
    ensures Ready(bs, 0) && bs.Content() == old(bs.Content()) + SerializeAll(cs)
    decreases cs, 0
  {
    ghost var before := bs.Content();
    if cs != [] {
      WriteBox(bs, cs[0]);
      WriteBoxes(bs, cs[1..]);
      Associate(before, Serialize(cs[0]), SerializeAll(cs[1..]));
    }
  }
}
