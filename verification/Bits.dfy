/** Bits of numbers and of byte strings, most significant first. */
module Bits {
  import opened Bytes

  function Pow2(n: nat): (p: nat)
    ensures p > 0
  {
    if n == 0 then 1 else 2 * Pow2(n - 1)
  }

  /** The low `n` bits of `v`. */
  function BitsOf(n: nat, v: nat): (s: seq<bool>)
    ensures |s| == n
  {
    if n == 0 then [] else BitsOf(n - 1, v / 2) + [v % 2 == 1]
  }

  function NumberOf(s: seq<bool>): nat {
    if s == [] then 0 else 2 * NumberOf(s[..|s| - 1]) + if s[|s| - 1] then 1 else 0
  }

  function BitsOfBytes(s: seq<byte>): (r: seq<bool>)
    ensures |r| == 8 * |s|
  {
    if s == [] then [] else BitsOfBytes(s[..|s| - 1]) + BitsOf(8, s[|s| - 1])
  }

  /** The number that `n` bits from bit `pos` of a byte string spell. */
  function BitField(s: seq<byte>, pos: nat, n: nat): nat
    requires pos + n <= 8 * |s|
  {
    NumberOf(BitsOfBytes(s)[pos..pos + n])
  }

  lemma NumberOfSnoc(s: seq<bool>, b: bool)
    ensures NumberOf(s + [b]) == 2 * NumberOf(s) + if b then 1 else 0
  {
    assert (s + [b])[..|s + [b]| - 1] == s;
  }

  lemma ModBy2(v: nat, m: nat)
    requires m > 0
    ensures v % (2 * m) == 2 * ((v / 2) % m) + v % 2
  {
    var q := v / 2;
    DivisionAlgorithm(q, m);
    ModSplit(v, 2, m, q, v % 2, q / m, q % m);
  }

  lemma {:induction false} NumberOfBitsOf(n: nat, v: nat)
    ensures NumberOf(BitsOf(n, v)) == v % Pow2(n)
  {
    if n == 0 {
      assert v % 1 == 0;
    } else {
      NumberOfBitsOf(n - 1, v / 2);
      NumberOfSnoc(BitsOf(n - 1, v / 2), v % 2 == 1);
      ModBy2(v, Pow2(n - 1));
    }
  }

  /** A bit field gives back every value that fits it. */
  lemma NumberRoundTrip(n: nat, v: nat)
    requires v < Pow2(n)
    ensures NumberOf(BitsOf(n, v)) == v
  {
    NumberOfBitsOf(n, v);
    ModUnique(v, Pow2(n), 0, v);
  }

  /** Two fields side by side are one field of the combined number. */
  lemma {:induction false} FieldsJoin(m: nat, a: nat, n: nat, b: nat)
    requires b < Pow2(n)
    ensures BitsOf(m, a) + BitsOf(n, b) == BitsOf(m + n, a * Pow2(n) + b)
  {
    if n == 0 {
      assert BitsOf(m, a) + [] == BitsOf(m, a);
    } else {
      FieldsJoin(m, a, n - 1, b / 2);
      var p := Pow2(n - 1);
      assert a * (2 * p) == 2 * (a * p);
      assert (a * Pow2(n) + b) / 2 == a * p + b / 2 && (a * Pow2(n) + b) % 2 == b % 2;
      assert BitsOf(m, a) + (BitsOf(n - 1, b / 2) + [b % 2 == 1]) == BitsOf(m, a) + BitsOf(n - 1, b / 2) + [b % 2 == 1];
    }
  }

  lemma {:induction false} BitsOfBytesAppend(a: seq<byte>, b: seq<byte>)
    ensures BitsOfBytes(a + b) == BitsOfBytes(a) + BitsOfBytes(b)
    decreases |b|
  {
    if b == [] {
      assert a + b == a;
    } else {
      var b', last := b[..|b| - 1], b[|b| - 1];
      assert (a + b)[..|a + b| - 1] == a + b';
      BitsOfBytesAppend(a, b');
      assert BitsOfBytes(a) + BitsOfBytes(b') + BitsOf(8, last) == BitsOfBytes(a) + (BitsOfBytes(b') + BitsOf(8, last));
    }
  }

  lemma BitsOfOneByte(b: byte)
    ensures BitsOfBytes([b]) == BitsOf(8, b)
  {
    assert BitsOfBytes([b]) == BitsOfBytes([b][..0]) + BitsOf(8, b);
  }

  /** The bits of byte `i`. */
  lemma BitsOfByteAt(s: seq<byte>, i: nat)
    requires i < |s|
    ensures BitsOfBytes(s)[8 * i..8 * i + 8] == BitsOf(8, s[i])
  {
    assert s == s[..i] + [s[i]] + s[i + 1..];
    BitsOfBytesAppend(s[..i] + [s[i]], s[i + 1..]);
    BitsOfBytesAppend(s[..i], [s[i]]);
    BitsOfOneByte(s[i]);
  }

  lemma {:induction false} BitsDetermineNumber(n: nat, a: nat, b: nat)
    requires BitsOf(n, a) == BitsOf(n, b) && a < Pow2(n) && b < Pow2(n)
    ensures a == b
  {
    NumberRoundTrip(n, a);
    NumberRoundTrip(n, b);
  }

  lemma Pow2Of8()
    ensures Pow2(8) == 256
  {
    assert Pow2(1) == 2 && Pow2(2) == 4 && Pow2(3) == 8 && Pow2(4) == 16;
    assert Pow2(5) == 32 && Pow2(6) == 64 && Pow2(7) == 128;
  }

  /** Equal bits, equal bytes. */
  lemma {:induction false} BitsDetermineBytes(a: seq<byte>, b: seq<byte>)
    requires BitsOfBytes(a) == BitsOfBytes(b)
    ensures a == b
  {
    assert |a| == |b|;
    forall i | 0 <= i < |a| ensures a[i] == b[i] {
      BitsOfByteAt(a, i);
      BitsOfByteAt(b, i);
      Pow2Of8();
      BitsDetermineNumber(8, a[i], b[i]);
    }
  }

  // ---------------------------------------------------------------------------------------------
  // Single bits
  // ---------------------------------------------------------------------------------------------

  lemma DivByTwice(v: nat, m: nat)
    requires m > 0
    ensures (v / 2) / m == v / (2 * m)
  {
    var q := v / 2;
    var q', r' := q / m, q % m;
    DivisionAlgorithm(q, m);
    MulAssociates(2, m, q');
    ModUnique(v, 2 * m, q', 2 * r' + v % 2);
  }

  /** Testing a bit with a mask. */
  lemma {:induction false} BitOf(n: nat, v: nat, i: nat)
    requires i < n
    ensures BitsOf(n, v)[i] == ((v / Pow2(n - 1 - i)) % 2 == 1)
  {
    if i == n - 1 {
      assert v / 1 == v;
    } else {
      BitOf(n - 1, v / 2, i);
      DivByTwice(v, Pow2(n - 2 - i));
    }
  }

  /** Setting a bit that was clear. */
  lemma {:induction false} SetBit(n: nat, v: nat, j: nat)
    requires j < n && !BitsOf(n, v)[j]
    ensures BitsOf(n, v + Pow2(n - 1 - j)) == BitsOf(n, v)[j := true]
  {
    if j < n - 1 {
      SetBit(n - 1, v / 2, j);
      var p := Pow2(n - 2 - j);
      assert (v + 2 * p) / 2 == v / 2 + p && (v + 2 * p) % 2 == v % 2;
    }
  }

  lemma {:induction false} SetBitFits(n: nat, v: nat, j: nat)
    requires v < Pow2(n) && j < n && !BitsOf(n, v)[j]
    ensures v + Pow2(n - 1 - j) < Pow2(n)
  {
    if j < n - 1 {
      SetBitFits(n - 1, v / 2, j);
    }
  }
}
