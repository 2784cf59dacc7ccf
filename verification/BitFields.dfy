/** Runs of bit fields that fill whole bytes: writing them appends one big-endian number, reading one is arithmetic. */
module BitFields {
  import opened Bytes
  import opened Bits
  import opened BitIO
  import opened BoxWriter

  /** Bits `8 k` wide are the bits of `k` bytes. */
  lemma {:induction false} BitsOfNumber(k: nat, v: nat)
    ensures BitsOf(8 * k, v) == BitsOfBytes(BigEndian(k, v))
    decreases k
  {
    if k > 0 {
      BitsOfNumber(k - 1, v / 256);
      var s := BigEndian(k - 1, v / 256) + [v % 256];
      assert s[..|s| - 1] == BigEndian(k - 1, v / 256);
      LastByte(8 * (k - 1), v);
    }
  }

  lemma LastByte(n: nat, v: nat)
    ensures BitsOf(n + 8, v) == BitsOf(n, v / 256) + BitsOf(8, v % 256)
  {
    Pow2Of8();
    FieldsJoin(n, v / 256, 8, v % 256);
  }

  /** The bytes behind the ones written before. */
  lemma BytesFromBits(before: seq<byte>, now: seq<byte>, k: nat, v: nat)
    requires BitsOfBytes(now) == BitsOfBytes(before) + BitsOf(8 * k, v)
    ensures now == before + BigEndian(k, v)
  {
    BitsOfNumber(k, v);
    BitsOfBytesAppend(before, BigEndian(k, v));
    BitsDetermineBytes(now, before + BigEndian(k, v));
  }

  function Two(a: nat, n: nat, b: nat): nat {
    a * Pow2(n) + b
  }

  lemma AssociateBits(w: seq<bool>, a: seq<bool>, b: seq<bool>)
    ensures w + a + b == w + (a + b)
  {
  }

  lemma TwoFields(w: seq<bool>, m: nat, a: nat, n: nat, b: nat)
    requires b < Pow2(n)
    ensures w + BitsOf(m, a) + BitsOf(n, b) == w + BitsOf(m + n, Two(a, n, b))
  {
    FieldsJoin(m, a, n, b);
    AssociateBits(w, BitsOf(m, a), BitsOf(n, b));
  }

  /** Adds a field to the number being written. */
  method WriteField(bs: BitStream, n: nat, b: nat, ghost w: seq<bool>, ghost m: nat, ghost a: nat)
    requires bs.Valid() && 0 < n && b < Pow2(n) && bs.curPos + n <= 8 * bs.buf.Length && bs.Written() == w + BitsOf(m, a)
    modifies bs, bs.buf
    ensures bs.Valid() && bs.curPos == old(bs.curPos) + n && bs.Written() == w + BitsOf(m + n, Two(a, n, b))
  {
    hide BitsOf, BitsOfBytes, Pow2;
    var ok := bs.WriteBits(n, b);
    TwoFields(w, m, a, n, b);
  }

  /** The first field of a number. */
  method WriteFirst(bs: BitStream, n: nat, a: nat) returns (ghost w: seq<bool>)
    requires Ready(bs, 0) && 0 < n && bs.curPos + n <= 8 * bs.buf.Length
    modifies bs, bs.buf
    ensures bs.Valid() && bs.curPos == old(bs.curPos) + n && bs.Written() == w + BitsOf(n, a)
    ensures w == BitsOfBytes(old(bs.Content()))
  {
    hide BitsOf, BitsOfBytes, Pow2;
    bs.WrittenIsContent();
    w := bs.Written();
    var ok := bs.WriteBits(n, a);
  }

  /** A number is complete at the end of a byte. */
  lemma Completed(bs: BitStream, before: seq<byte>, k: nat, v: nat)
    requires bs.Valid() && bs.curPos % 8 == 0 && bs.Written() == BitsOfBytes(before) + BitsOf(8 * k, v)
    ensures bs.Content() == before + BigEndian(k, v)
  {
    bs.WrittenIsContent();
    BytesFromBits(before, bs.Content(), k, v);
  }

  method WriteTwo(bs: BitStream, m: nat, a: nat, n: nat, b: nat, k: nat)
    requires Ready(bs, k) && 0 < m && 0 < n && m + n == 8 * k && b < Pow2(n)
    modifies bs, bs.buf
    ensures Ready(bs, 0) && bs.Content() == old(bs.Content()) + BigEndian(k, Two(a, n, b))
  {
    hide BitsOf, BitsOfBytes, Pow2, BigEndian, Two;
    ghost var before := bs.Content();
    ghost var w := WriteFirst(bs, m, a);
    WriteField(bs, n, b, w, m, a);
    Completed(bs, before, k, Two(a, n, b));
  }

  method WriteThree(bs: BitStream, l: nat, a: nat, m: nat, b: nat, n: nat, c: nat, k: nat)
    requires Ready(bs, k) && 0 < l && 0 < m && 0 < n && l + m + n == 8 * k && b < Pow2(m) && c < Pow2(n)
    modifies bs, bs.buf
    ensures Ready(bs, 0) && bs.Content() == old(bs.Content()) + BigEndian(k, Two(Two(a, m, b), n, c))
  {
    hide BitsOf, BitsOfBytes, Pow2, BigEndian, Two;
    ghost var before := bs.Content();
    ghost var w := WriteFirst(bs, l, a);
    WriteField(bs, m, b, w, l, a);
    WriteField(bs, n, c, w, l + m, Two(a, m, b));
    Completed(bs, before, k, Two(Two(a, m, b), n, c));
  }

  method WriteFour(bs: BitStream, i: nat, z: nat, l: nat, a: nat, m: nat, b: nat, n: nat, c: nat, k: nat)
    requires Ready(bs, k) && 0 < i && 0 < l && 0 < m && 0 < n && i + l + m + n == 8 * k
    requires a < Pow2(l) && b < Pow2(m) && c < Pow2(n)
    modifies bs, bs.buf
    ensures Ready(bs, 0) && bs.Content() == old(bs.Content()) + BigEndian(k, Two(Two(Two(z, l, a), m, b), n, c))
  {
    hide BitsOf, BitsOfBytes, Pow2, BigEndian, Two;
    ghost var before := bs.Content();
    ghost var w := WriteFirst(bs, i, z);
    WriteField(bs, l, a, w, i, z);
    WriteField(bs, m, b, w, i + l, Two(z, l, a));
    WriteField(bs, n, c, w, i + l + m, Two(Two(z, l, a), m, b));
    Completed(bs, before, k, Two(Two(Two(z, l, a), m, b), n, c));
  }

  lemma Powers()
    ensures Pow2(0) == 1 && Pow2(1) == 2 && Pow2(2) == 4 && Pow2(3) == 8 && Pow2(4) == 16 && Pow2(5) == 32 && Pow2(6) == 64
    ensures Pow2(7) == 0x80 && Pow2(8) == 0x100 && Pow2(9) == 0x200 && Pow2(10) == 0x400 && Pow2(11) == 0x800
    ensures Pow2(12) == 0x1000 && Pow2(13) == 0x2000 && Pow2(14) == 0x4000 && Pow2(15) == 0x8000 && Pow2(16) == 0x1_0000
  {
    assert Pow2(1) == 2 * Pow2(0) && Pow2(2) == 2 * Pow2(1) && Pow2(3) == 2 * Pow2(2) && Pow2(4) == 2 * Pow2(3);
    assert Pow2(5) == 2 * Pow2(4) && Pow2(6) == 2 * Pow2(5) && Pow2(7) == 2 * Pow2(6) && Pow2(8) == 2 * Pow2(7);
    assert Pow2(9) == 2 * Pow2(8) && Pow2(10) == 2 * Pow2(9) && Pow2(11) == 2 * Pow2(10) && Pow2(12) == 2 * Pow2(11);
    assert Pow2(13) == 2 * Pow2(12) && Pow2(14) == 2 * Pow2(13) && Pow2(15) == 2 * Pow2(14) && Pow2(16) == 2 * Pow2(15);
  }

  // ---------------------------------------------------------------------------------------------
  // Reading
  // ---------------------------------------------------------------------------------------------

  lemma {:induction false} NumberOfBytes(s: seq<byte>)
    ensures NumberOf(BitsOfBytes(s)) == Value(s)
  {
    BigEndianOfValue(s);
    BitsOfNumber(|s|, Value(s));
    NumberOfBitsOf(8 * |s|, Value(s));
    ValueBound(s);
    PowersOfBytes(|s|);
    ModUnique(Value(s), Range(|s|), 0, Value(s));
  }

  lemma {:induction false} PowersOfBytes(k: nat)
    ensures Pow2(8 * k) == Range(k)
    decreases k
  {
    if k > 0 {
      PowersOfBytes(k - 1);
      Eightfold(8 * (k - 1));
    }
  }

  lemma Eightfold(n: nat)
    ensures Pow2(n + 8) == 256 * Pow2(n)
  {
    assert Pow2(n + 8) == 2 * Pow2(n + 7) && Pow2(n + 7) == 2 * Pow2(n + 6) && Pow2(n + 6) == 2 * Pow2(n + 5);
    assert Pow2(n + 5) == 2 * Pow2(n + 4) && Pow2(n + 4) == 2 * Pow2(n + 3) && Pow2(n + 3) == 2 * Pow2(n + 2);
    assert Pow2(n + 2) == 2 * Pow2(n + 1) && Pow2(n + 1) == 2 * Pow2(n);
  }

  lemma {:induction false} BigEndianOfValue(s: seq<byte>)
    ensures BigEndian(|s|, Value(s)) == s
    decreases |s|
  {
    if s != [] {
      BigEndianOfValue(s[..|s| - 1]);
      assert s == s[..|s| - 1] + [s[|s| - 1]];
    }
  }

  /** The upper and the lower part of a bit string, as numbers. */
  lemma {:induction false} NumberSplits(a: seq<bool>, b: seq<bool>)
    ensures NumberOf(a + b) == NumberOf(a) * Pow2(|b|) + NumberOf(b) && NumberOf(b) < Pow2(|b|)
    decreases |b|
  {
    if b == [] {
      assert a + b == a;
    } else {
      var b' := b[..|b| - 1];
      NumberSplits(a, b');
      assert (a + b)[..|a + b| - 1] == a + b';
      MulAssociates(2, NumberOf(a), Pow2(|b'|));
      assert 2 * (NumberOf(a) * Pow2(|b'|)) == NumberOf(a) * (2 * Pow2(|b'|));
    }
  }

  /** A field that starts `lead` bits into byte `i` and ends `rest` bits before the end of byte `i + k - 1`. */
  lemma {:induction false} FieldIsArithmetic(s: seq<byte>, i: nat, k: nat, lead: nat, n: nat, rest: nat)
    requires i + k <= |s| && lead + n + rest == 8 * k
    ensures BitField(s, 8 * i + lead, n) == Value(s[i..i + k]) / Pow2(rest) % Pow2(n)
  {
    hide BitsOfBytes, NumberOf, Pow2, Value;
    var bits := BitsOfBytes(s[i..i + k]);
    var a, f, b := bits[..lead], bits[lead..lead + n], bits[lead + n..];
    BytesWithin(s, i, k);
    SliceOfSlice(BitsOfBytes(s), 8 * i, 8 * (i + k), lead, lead + n);
    assert bits == a + f + b;
    NumberOfBytes(s[i..i + k]);
    NumberSplits(a + f, b);
    NumberSplits(a, f);
    QuotientAndRest(Value(s[i..i + k]), Pow2(rest), NumberOf(a + f), NumberOf(b));
    QuotientAndRest(NumberOf(a + f), Pow2(n), NumberOf(a), NumberOf(f));
  }

  lemma QuotientAndRest(v: nat, m: nat, q: nat, r: nat)
    requires m > 0 && r < m && v == q * m + r
    ensures v / m == q && v % m == r
  {
    ModUnique(v, m, q, r);
  }

  lemma SliceOfSlice<T>(x: seq<T>, p: nat, q: nat, a: nat, b: nat)
    requires p <= q <= |x| && a <= b <= q - p
    ensures x[p..q][a..b] == x[p + a..p + b]
  {
    forall k | 0 <= k < b - a ensures x[p..q][a..b][k] == x[p + a..p + b][k] {
      assert x[p..q][a + k] == x[p + a + k];
    }
  }

  lemma BytesWithin(s: seq<byte>, i: nat, k: nat)
    requires i + k <= |s|
    ensures BitsOfBytes(s)[8 * i..8 * (i + k)] == BitsOfBytes(s[i..i + k])
  {
    hide BitsOfBytes;
    BitsOfPrefix(s, i);
    BitsOfPrefix(s[i..], k);
    DropThenTake(s, i, k);
    DropThenTake(BitsOfBytes(s), 8 * i, 8 * k);
  }

  lemma DropThenTake<T>(x: seq<T>, p: nat, n: nat)
    requires p + n <= |x|
    ensures x[p..p + n] == x[p..][..n]
  {
  }
}
