/** Byte strings and the big-endian integer fields that every codec of the server uses. */
module Bytes {

  type byte = b: int | 0 <= b < 256

  /** The number of values of a 32-bit unsigned number. */
  const U32 := 0x1_0000_0000

  /** Subtraction of 32-bit unsigned numbers. */
  function Minus32(a: int, b: int): nat {
    (a - b) % U32
  }

  /** The number of values that `n` bytes can hold. */
  function Range(n: nat): (r: nat)
    ensures r > 0
  {
    if n == 0 then 1 else 256 * Range(n - 1)
  }

  /** The low `n` bytes of `v`, most significant byte first. */
  function BigEndian(n: nat, v: nat): (s: seq<byte>)
    ensures |s| == n
  {
    if n == 0 then [] else BigEndian(n - 1, v / 256) + [v % 256]
  }

  /** The number that a byte string spells, most significant byte first. */
  function Value(s: seq<byte>): nat {
    if s == [] then 0 else 256 * Value(s[..|s| - 1]) + s[|s| - 1]
  }

  lemma {:induction false} ValueBound(s: seq<byte>)
    ensures Value(s) < Range(|s|)
    decreases |s|
  {
    if s != [] {
      ValueBound(s[..|s| - 1]);
    }
  }

  lemma ValueOfSnoc(s: seq<byte>, b: byte)
    ensures Value(s + [b]) == 256 * Value(s) + b
  {
    assert (s + [b])[..|s + [b]| - 1] == s;
  }

  lemma ModBy256(v: nat, m: nat)
    requires m > 0
    ensures v % (256 * m) == 256 * ((v / 256) % m) + v % 256
  {
    var q, r := v / 256, v % 256;
    DivisionAlgorithm(q, m);
    ModSplit(v, 256, m, q, r, q / m, q % m);
  }

  lemma {:induction false} ValueOfBigEndian(n: nat, v: nat)
    ensures Value(BigEndian(n, v)) == v % Range(n)
  {
    if n == 0 {
      assert v % 1 == 0;
    } else {
      ValueOfBigEndian(n - 1, v / 256);
      ValueOfSnoc(BigEndian(n - 1, v / 256), v % 256);
      ModBy256(v, Range(n - 1));
    }
  }

  lemma MulAssociates(a: nat, b: nat, c: nat)
    ensures a * (b * c) == (a * b) * c
  {
  }

  lemma MulDistributes(a: nat, b: nat, c: nat)
    ensures a * (b + c) == a * b + a * c
  {
  }

  lemma DivisionAlgorithm(v: nat, m: nat)
    requires m > 0
    ensures v == m * (v / m) + v % m && v % m < m
  {
  }

  lemma ModSplit(v: nat, a: nat, b: nat, q: nat, r: nat, q': nat, r': nat)
    requires r < a && r' < b && v == a * q + r && q == b * q' + r'
    ensures a * b > 0 && v % (a * b) == a * r' + r
  {
    MulStep(a, 0, b);
    MulStep(a, r', b);
    MulDistributes(a, b * q', r');
    MulAssociates(a, b, q');
    ModUnique(v, a * b, q', a * r' + r);
  }

  lemma ModUnique(v: nat, m: nat, q: nat, r: nat)
    requires m > 0 && r < m && v == m * q + r
    ensures v % m == r && v / m == q
  {
    MulStep(m, v / m, q);
    MulStep(m, q, v / m);
  }

  lemma MulStep(m: nat, a: nat, b: nat)
    ensures a < b ==> m * a + m <= m * b
  {
    if a < b {
      assert m * b == m * (a + 1) + m * (b - a - 1);
    }
  }

  lemma Ranges()
    ensures Range(1) == 0x100 && Range(2) == 0x1_0000 && Range(3) == 0x100_0000 && Range(4) == 0x1_0000_0000
  {
    assert Range(0) == 1;
    assert Range(1) == 256 * Range(0);
    assert Range(2) == 256 * Range(1);
    assert Range(3) == 256 * Range(2);
    assert Range(4) == 256 * Range(3);
  }

  /** A field of `n` bytes gives back every value that fits it. */
  lemma FieldRoundTrip(n: nat, v: nat)
    requires v < Range(n)
    ensures Value(BigEndian(n, v)) == v
  {
    ValueOfBigEndian(n, v);
    ModUnique(v, Range(n), 0, v);
  }

  lemma Associate(a: seq<byte>, b: seq<byte>, c: seq<byte>)
    ensures a + b + c == a + (b + c)
  {
  }

  /** Concatenation of a list of byte strings. */
  function Concat(parts: seq<seq<byte>>): seq<byte> {
    if parts == [] then [] else parts[0] + Concat(parts[1..])
  }

  lemma {:induction false} ConcatAppend(a: seq<seq<byte>>, b: seq<seq<byte>>)
    ensures Concat(a + b) == Concat(a) + Concat(b)
  {
    if a == [] {
      assert a + b == b;
    } else {
      ConcatAppend(a[1..], b);
      assert (a + b)[1..] == a[1..] + b;
      assert a[0] + (Concat(a[1..]) + Concat(b)) == (a[0] + Concat(a[1..])) + Concat(b);
    }
  }
}
