/** The bit writer and the bit reader that the container formats share, and their agreement. */
module BitIO {
  import opened Bytes
  import opened Bits

  lemma BitsOfPrefix(s: seq<byte>, i: nat)
    requires i <= |s|
    ensures BitsOfBytes(s)[..8 * i] == BitsOfBytes(s[..i])
    ensures BitsOfBytes(s)[8 * i..] == BitsOfBytes(s[i..])
  {
    assert s == s[..i] + s[i..];
    BitsOfBytesAppend(s[..i], s[i..]);
  }

  /** ORing one clear bit into a byte of a buffer changes that bit of the buffer only. */
  lemma SetBitInBytes(s: seq<byte>, i: nat, j: nat)
    requires i < |s| && j < 8 && !BitsOfBytes(s)[8 * i + j]
    ensures s[i] + Pow2(7 - j) < 256
    ensures BitsOfBytes(s[i := s[i] + Pow2(7 - j)]) == BitsOfBytes(s)[8 * i + j := true]
  {
    hide BitsOfBytes, BitsOf;
    BitsOfByteAt(s, i);
    assert BitsOf(8, s[i])[j] == BitsOfBytes(s)[8 * i..8 * i + 8][j];
    Pow2Of8();
    SetBitFits(8, s[i], j);
    SetBit(8, s[i], j);
    ReplaceByte(s, i, s[i] + Pow2(7 - j));
    Patched(BitsOfBytes(s), BitsOfBytes(s[i := s[i] + Pow2(7 - j)]), 8 * i, 8, j);
  }

  lemma ReplaceByte(s: seq<byte>, i: nat, b: byte)
    requires i < |s|
    ensures var x, y := BitsOfBytes(s), BitsOfBytes(s[i := b]);
            x[..8 * i] == y[..8 * i] && x[8 * i + 8..] == y[8 * i + 8..] && y[8 * i..8 * i + 8] == BitsOf(8, b)
  {
    var t := s[i := b];
    BitsOfByteAt(t, i);
    BitsOfPrefix(s, i);
    BitsOfPrefix(t, i);
    BitsOfPrefix(s, i + 1);
    BitsOfPrefix(t, i + 1);
    assert t[..i] == s[..i] && t[i + 1..] == s[i + 1..];
  }

  lemma Patched(a: seq<bool>, b: seq<bool>, p: nat, n: nat, j: nat)
    requires |a| == |b| && p + n <= |a| && j < n
    requires a[..p] == b[..p] && a[p + n..] == b[p + n..] && b[p..p + n] == a[p..p + n][j := true]
    ensures b == a[p + j := true]
  {
    forall k | 0 <= k < |a| ensures b[k] == a[p + j := true][k] {
      if k < p {
        assert a[k] == a[..p][k] && b[k] == b[..p][k];
      } else if k < p + n {
        assert a[k] == a[p..p + n][k - p] && b[k] == b[p..p + n][k - p];
      } else {
        assert a[k] == a[p + n..][k - p - n] && b[k] == b[p + n..][k - p - n];
      }
    }
  }

  lemma {:induction false} BigEndianByte(n: nat, v: nat, i: nat)
    requires i < n
    ensures BigEndian(n, v)[i] == (v / Range(n - 1 - i)) % 256
  {
    if i == n - 1 {
      assert v / 1 == v;
    } else {
      BigEndianByte(n - 1, v / 256, i);
      DivBy256(v, Range(n - 2 - i));
    }
  }

  lemma DivBy256(v: nat, m: nat)
    requires m > 0
    ensures (v / 256) / m == v / (256 * m)
  {
    var q := v / 256;
    var q', r' := q / m, q % m;
    DivisionAlgorithm(q, m);
    MulAssociates(256, m, q');
    ModUnique(v, 256 * m, q', 256 * r' + v % 256);
  }

  predicate AllClear(s: seq<bool>) {
    forall k :: 0 <= k < |s| ==> !s[k]
  }

  class BitStream {
    const buf: array<byte>
    var curPos: nat

    /** The buffer is zero from the write position on, so that bits can be ORed into it. */
    ghost predicate Valid()
      reads this, buf
    {
      curPos <= 8 * buf.Length && AllClear(BitsOfBytes(buf[..])[curPos..])
    }

    ghost function Written(): seq<bool>
      requires Valid()
      reads this, buf
    {
      BitsOfBytes(buf[..])[..curPos]
    }

    /** The whole bytes written so far. */
    function Content(): seq<byte>
      requires curPos <= 8 * buf.Length
      reads this, buf
    {
      buf[..curPos / 8]
    }

    /** At a byte boundary, with room for `n` more bytes. */
    predicate Room(n: nat)
      reads this
    {
      curPos % 8 == 0 && curPos / 8 + n <= buf.Length
    }

    constructor (size: nat)
      ensures Valid() && fresh(buf) && buf.Length == size && curPos == 0 && Content() == [] && Written() == []
    {
      buf := new byte[size](_ => 0);
      curPos := 0;
      new;
      assert forall i :: 0 <= i < size ==> buf[..][i] == 0;
      ZeroBytes(buf[..]);
    }

    /** At a byte boundary the bits written are the bits of the bytes written. */
    lemma WrittenIsContent()
      requires Valid() && curPos % 8 == 0
      ensures Written() == BitsOfBytes(Content())
    {
      BitsOfPrefix(buf[..], curPos / 8);
      assert buf[..][..curPos / 8] == Content();
    }

    /** Writes the low `bits` bits of `val`; refuses, changing nothing, when they do not fit the buffer. */
    method WriteBits(bits: nat, val: nat) returns (ok: bool)
      requires Valid() && bits > 0
      modifies this`curPos, buf
      ensures Valid() && ok == (old(curPos) + bits <= 8 * buf.Length)
      ensures Written() == if ok then old(Written()) + BitsOf(bits, val) else old(Written())
      ensures curPos == old(curPos) + if ok then bits else 0
    {
      if curPos + bits > 8 * buf.Length {
        return false;
      }
      var i := 0;
      while i != bits
        invariant 0 <= i <= bits && curPos == old(curPos) + i && old(curPos) + bits <= 8 * buf.Length
        invariant Valid() && Written() == old(Written()) + BitsOf(bits, val)[..i]
      {
        var mask := Pow2(bits - 1 - i);
        BitOf(bits, val, i);
        ghost var sofar := Written();
        OrBit((val / mask) % 2 == 1);
        assert BitsOf(bits, val)[..i + 1] == BitsOf(bits, val)[..i] + [BitsOf(bits, val)[i]];
        i := i + 1;
      }
      assert BitsOf(bits, val)[..bits] == BitsOf(bits, val);
      ok := true;
    }

    /** ORs one bit into the buffer at the write position. */
    method OrBit(bit: bool)
      requires Valid() && curPos < 8 * buf.Length
      modifies this`curPos, buf
      ensures Valid() && curPos == old(curPos) + 1 && Written() == old(Written()) + [bit]
    {
      ghost var before := BitsOfBytes(buf[..]);
      var i, j := curPos / 8, curPos % 8;
      assert curPos == 8 * i + j && !before[curPos..][0];
      if bit {
        SetBitInBytes(buf[..], i, j);
        ghost var s := buf[..];
        buf[i] := buf[i] + Pow2(7 - j);
        assert buf[..] == s[i := s[i] + Pow2(7 - j)];
      }
      ghost var after := BitsOfBytes(buf[..]);
      assert after == before[curPos := bit];
      assert after[curPos + 1..] == before[curPos..][1..];
      assert after[..curPos + 1] == before[..curPos] + [bit];
      curPos := curPos + 1;
    }

    /** Writes the low `n` bytes of `v`, most significant first. */
    method WriteBytes(n: nat, v: nat)
      requires Valid() && Room(n)
      modifies this`curPos, buf
      ensures Valid() && curPos == old(curPos) + 8 * n
      ensures Content() == old(Content()) + BigEndian(n, v)
    {
      var at := curPos / 8;
      ghost var s := buf[..];
      var i := 0;
      while i != n
        modifies buf
        invariant 0 <= i <= n
        invariant buf[..at] == s[..at] && buf[at + n..] == s[at + n..]
        invariant forall k :: 0 <= k < i ==> buf[at + k] == BigEndian(n, v)[k]
      {
        BigEndianByte(n, v, i);
        buf[at + i] := (v / Range(n - 1 - i)) % 256;
        i := i + 1;
      }
      curPos := curPos + 8 * n;
      assert curPos / 8 == at + n;
      assert buf[at..at + n] == BigEndian(n, v);
      assert buf[..at + n] == buf[..at] + buf[at..at + n];
      StillClear(s, buf[..], at, at + n);
    }

    /** Copies `data` behind what has been written. */
    method WriteData(data: seq<byte>)
      requires Valid() && Room(|data|)
      modifies this`curPos, buf
      ensures Valid() && curPos == old(curPos) + 8 * |data|
      ensures Content() == old(Content()) + data
    {
      var at := curPos / 8;
      ghost var s := buf[..];
      forall i | 0 <= i < |data| {
        buf[at + i] := data[i];
      }
      curPos := curPos + 8 * |data|;
      assert buf[..at] == s[..at] && buf[at..at + |data|] == data;
      assert buf[..at + |data|] == buf[..at] + buf[at..at + |data|];
      assert buf[at + |data|..] == s[at + |data|..];
      StillClear(s, buf[..], at, at + |data|);
    }

    /**
     Overwrites `n` bytes at byte position `pos`; refuses when the position has not been written yet. What runs past the
     write position lands in the part of the buffer that bits are still to be ORed into.
     */
    method ModifyBytes(pos: nat, n: nat, v: nat) returns (ok: bool)
      requires Valid() && curPos % 8 == 0 && (pos < curPos / 8 ==> pos + n <= buf.Length)
      modifies buf
      ensures ok == (pos < curPos / 8) && (!ok || pos + n <= curPos / 8 ==> Valid())
      ensures Content() == if !ok then old(Content())
                           else if pos + n <= curPos / 8 then old(Content())[..pos] + BigEndian(n, v) + old(Content())[pos + n..]
                           else old(Content())[..pos] + BigEndian(n, v)[..curPos / 8 - pos]
      ensures ok && pos + n > curPos / 8 ==> buf[curPos / 8..pos + n] == BigEndian(n, v)[curPos / 8 - pos..]
    {
      if pos >= curPos / 8 {
        return false;
      }
      ghost var s := buf[..];
      var i := 0;
      while i != n
        modifies buf
        invariant 0 <= i <= n
        invariant buf[..pos] == s[..pos] && buf[pos + n..] == s[pos + n..]
        invariant forall k :: 0 <= k < i ==> buf[pos + k] == BigEndian(n, v)[k]
      {
        BigEndianByte(n, v, i);
        buf[pos + i] := (v / Range(n - 1 - i)) % 256;
        i := i + 1;
      }
      ok := true;
      var end := curPos / 8;
      if pos + n <= end {
        PatchedSlices(s, buf[..], pos, n, end, BigEndian(n, v));
        StillClear(s, buf[..], end, end);
      } else {
        PatchedPast(s, buf[..], pos, n, end, BigEndian(n, v));
      }
    }
  }

  lemma PatchedPast(s: seq<byte>, t: seq<byte>, pos: nat, n: nat, end: nat, b: seq<byte>)
    requires pos < end < pos + n <= |s| == |t| && |b| == n
    requires t[..pos] == s[..pos] && forall k :: 0 <= k < n ==> t[pos + k] == b[k]
    ensures t[..end] == s[..end][..pos] + b[..end - pos] && t[end..pos + n] == b[end - pos..]
  {
    assert t[pos..pos + n] == b;
    assert t[..end] == t[..pos] + t[pos..end];
    assert t[pos..end] == b[..end - pos];
  }

  lemma PatchedSlices(s: seq<byte>, t: seq<byte>, pos: nat, n: nat, end: nat, b: seq<byte>)
    requires pos + n <= end <= |s| == |t| && |b| == n
    requires t[..pos] == s[..pos] && t[pos + n..] == s[pos + n..] && forall k :: 0 <= k < n ==> t[pos + k] == b[k]
    ensures t[..end] == s[..end][..pos] + b + s[..end][pos + n..]
    ensures t[end..] == s[end..]
  {
    assert t[pos..pos + n] == b;
    assert t[..end] == t[..pos] + t[pos..pos + n] + t[pos + n..][..end - pos - n];
    assert t[end..] == t[pos + n..][end - pos - n..];
    assert s[end..] == s[pos + n..][end - pos - n..];
  }

  lemma {:induction false} ZeroBytes(s: seq<byte>)
    requires forall i :: 0 <= i < |s| ==> s[i] == 0
    ensures AllClear(BitsOfBytes(s))
    decreases |s|
  {
    if s != [] {
      ZeroBytes(s[..|s| - 1]);
      ZeroBits(8);
    }
  }

  lemma {:induction false} ZeroBits(n: nat)
    ensures AllClear(BitsOf(n, 0))
  {
    if n > 0 {
      ZeroBits(n - 1);
    }
  }

  lemma StillClear(s: seq<byte>, t: seq<byte>, at: nat, end: nat)
    requires at <= end <= |s| == |t| && t[end..] == s[end..] && AllClear(BitsOfBytes(s)[8 * at..])
    ensures AllClear(BitsOfBytes(t)[8 * end..])
  {
    BitsOfPrefix(s, end);
    BitsOfPrefix(t, end);
    assert BitsOfBytes(s)[8 * end..] == BitsOfBytes(s)[8 * at..][8 * (end - at)..];
  }

  lemma NumberOfPrefix(s: seq<bool>, i: nat, j: nat)
    requires i <= j < |s|
    ensures NumberOf(s[i..j + 1]) == 2 * NumberOf(s[i..j]) + if s[j] then 1 else 0
  {
    assert s[i..j + 1] == s[i..j] + [s[j]];
    NumberOfSnoc(s[i..j], s[j]);
  }

  lemma TestBit(s: seq<byte>, i: nat, j: nat)
    requires i < |s| && j < 8
    ensures BitsOfBytes(s)[8 * i + j] == ((s[i] / Pow2(7 - j)) % 2 == 1)
  {
    BitsOfByteAt(s, i);
    BitOf(8, s[i], j);
    assert BitsOfBytes(s)[8 * i + j] == BitsOfBytes(s)[8 * i..8 * i + 8][j];
  }

  class BitBuffer {
    const data: seq<byte>
    var curPos: nat

    predicate Valid()
      reads this
    {
      curPos <= 8 * |data|
    }

    constructor (data: seq<byte>)
      ensures Valid() && this.data == data && curPos == 0
    {
      this.data, curPos := data, 0;
    }

    /** Reads the next `bits` bits as a number; refuses, staying in place, when fewer are left. */
    method GetBits(bits: nat) returns (ok: bool, result: nat)
      requires Valid()
      modifies this
      ensures Valid() && ok == (old(curPos) + bits <= 8 * |data|)
      ensures ok ==> curPos == old(curPos) + bits && result == BitField(data, old(curPos), bits)
      ensures !ok ==> curPos == old(curPos) && result == 0
    {
      if curPos + bits > 8 * |data| {
        return false, 0;
      }
      result := 0;
      ghost var start := curPos;
      ghost var all := BitsOfBytes(data);
      assert all[start..start] == [];
      var i := 0;
      while i != bits
        invariant 0 <= i <= bits && curPos == start + i && start + bits <= 8 * |data|
        invariant result == NumberOf(all[start..curPos])
      {
        var mask := Pow2(7 - curPos % 8);
        TestBit(data, curPos / 8, curPos % 8);
        assert curPos == 8 * (curPos / 8) + curPos % 8;
        result := 2 * result;
        if (data[curPos / 8] / mask) % 2 == 1 {
          result := result + 1;
        }
        NumberOfPrefix(all, start, curPos);
        curPos := curPos + 1;
        i := i + 1;
      }
      ok := true;
    }

    /** Moves past `n` bytes, or past all that are left. */
    method SkipBytes(n: nat)
      requires Valid()
      modifies this
      ensures Valid()
      ensures curPos == old(curPos) + 8 * (if n <= (8 * |data| - old(curPos)) / 8 then n else (8 * |data| - old(curPos)) / 8)
    {
      var left := (8 * |data| - curPos) / 8;
      curPos := curPos + 8 * (if left <= n then left else n);
    }
  }

  /** What was written as an `n`-bit field is read back there, reduced to its `n` low bits. */
  lemma FieldReadsBack(s: seq<byte>, before: seq<bool>, n: nat, v: nat, after: seq<bool>)
    requires BitsOfBytes(s) == before + BitsOf(n, v) + after
    ensures |before| + n <= 8 * |s| && BitField(s, |before|, n) == v % Pow2(n)
  {
    assert BitsOfBytes(s)[|before|..|before| + n] == BitsOf(n, v);
    NumberOfBitsOf(n, v);
  }
}
