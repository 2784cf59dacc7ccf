/** The bit reader on whole fields: runs of bits within bytes, numbers of whole bytes, and strings. */
module ByteReader {
  import opened Bytes
  import opened Bits
  import opened BitIO
  import opened BitFields

  /** The next `n` bits, as a part of bytes `i` to `k`. */
  method Take(bb: BitBuffer, n: nat, ghost i: nat, ghost k: nat) returns (v: nat)
    requires bb.Valid() && 8 * i <= bb.curPos && bb.curPos + n <= 8 * k <= 8 * |bb.data|
    modifies bb
    ensures bb.Valid() && bb.curPos == old(bb.curPos) + n
    ensures v == Value(bb.data[i..k]) / Pow2(8 * k - old(bb.curPos) - n) % Pow2(n)
  {
    hide BitField, Pow2, Value;
    FieldIsArithmetic(bb.data, i, k - i, bb.curPos - 8 * i, n, 8 * k - bb.curPos - n);
    var ok;
    ok, v := bb.GetBits(n);
  }

  lemma ValueOfOne(s: seq<byte>, i: nat)
    requires i < |s|
    ensures Value(s[i..i + 1]) == s[i]
  {
    ValueOfSnoc([], s[i]);
    assert s[i..i + 1] == [] + [s[i]];
  }

  /** The next `n` bits, from one byte. */
  method TakeBits(bb: BitBuffer, n: nat, ghost i: nat) returns (v: nat)
    requires bb.Valid() && 8 * i <= bb.curPos && bb.curPos + n <= 8 * i + 8 && i < |bb.data|
    modifies bb
    ensures bb.Valid() && bb.curPos == old(bb.curPos) + n
    ensures v == bb.data[i] / Pow2(8 * i + 8 - old(bb.curPos) - n) % Pow2(n)
  {
    hide Pow2, Value;
    ValueOfOne(bb.data, i);
    v := Take(bb, n, i, i + 1);
  }

  /** What the cursor has not passed yet. */
  function Left(bb: BitBuffer): seq<byte>
    requires bb.Valid()
    reads bb
  {
    bb.data[bb.curPos / 8..]
  }

  predicate Aligned(bb: BitBuffer)
    reads bb
  {
    bb.Valid() && bb.curPos % 8 == 0
  }

  /** The next `n` bytes as a number; nothing is consumed when fewer are left. */
  method GetBytes(bb: BitBuffer, n: nat) returns (ok: bool, v: nat)
    requires Aligned(bb)
    modifies bb
    ensures Aligned(bb) && ok == (n <= |old(Left(bb))|)
    ensures if ok then v == Value(old(Left(bb))[..n]) && Left(bb) == old(Left(bb))[n..] else Left(bb) == old(Left(bb))
  {
    hide Pow2, Value, BitField;
    ghost var at := bb.curPos / 8;
    if bb.curPos + 8 * n <= 8 * |bb.data| {
      WholeBytes(bb.data, at, n);
    }
    ok, v := bb.GetBits(8 * n);
    if ok {
      assert bb.curPos / 8 == at + n;
    }
  }

  lemma WholeBytes(s: seq<byte>, at: nat, n: nat)
    requires at + n <= |s|
    ensures BitField(s, 8 * at, 8 * n) == Value(s[at..][..n]) && s[at..][n..] == s[at + n..]
  {
    hide BitField, Value;
    FieldIsArithmetic(s, at, n, 0, 8 * n, 0);
    assert s[at..at + n] == s[at..][..n];
    var v := Value(s[at..at + n]);
    ValueBound(s[at..at + n]);
    PowersOfBytes(n);
    assert Pow2(0) == 1 && v / 1 == v;
    ModUnique(v, Pow2(8 * n), 0, v);
  }

  /** The next `len` bytes, which are there. */
  method GetString(bb: BitBuffer, len: nat) returns (s: seq<byte>)
    requires Aligned(bb) && len <= |Left(bb)|
    modifies bb
    ensures Aligned(bb) && s == old(Left(bb))[..len] && Left(bb) == old(Left(bb))[len..]
  {
    var at := bb.curPos / 8;
    s := bb.data[at..at + len];
    bb.SkipBytes(len);
    assert bb.curPos / 8 == at + len;
    assert bb.data[at..][len..] == bb.data[at + len..];
  }

  lemma TwoThen(s: seq<byte>, len: nat)
    requires 2 + len <= |s|
    ensures s[2..][..len] == s[2..2 + len] && s[2..][len..] == s[2 + len..]
  {
  }

  lemma OneByte(b: byte)
    ensures Value([b]) == b
  {
    ValueOfSnoc([], b);
    assert [] + [b] == [b];
  }

  lemma FirstByte(s: seq<byte>)
    requires s != []
    ensures Value(s[..1]) == s[0]
  {
    OneByte(s[0]);
    assert s[..1] == [s[0]];
  }
}
