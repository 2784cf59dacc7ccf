/** The growing byte queue of the sockets: a buffer with a read and a write position that is enlarged, shrunk and reset. */
module IoBuffer {
  import opened Bytes

  const DEFAULT_SIZE := 64 * 1024
  const SHRINK_SIZE := 2 * 64 * 1024

  class IoBuffer {
    /** Length 0 stands for the buffer that has not been allocated. */
    var buf: array<byte>
    var start: nat
    var end: nat

    ghost predicate Valid()
      reads this
    {
      start <= end <= buf.Length
    }

    /** What is queued. */
    function Contents(): (s: seq<byte>)
      requires Valid()
      reads this, buf
    {
      buf[start..end]
    }

    constructor (capacity: nat)
      ensures Valid() && fresh(buf) && buf.Length == capacity && Contents() == []
    {
      buf, start, end := new byte[capacity], 0, 0;
    }

    function CapacityLeft(): nat
      requires Valid()
      reads this
    {
      buf.Length - end
    }

    /** Resets an empty buffer, giving back most of a large one. */
    method ShrinkCapacity(capacity: nat)
      requires Valid() && start == end
      modifies this
      ensures Valid() && Contents() == [] && start == end == 0
      ensures buf.Length == if old(buf.Length) > SHRINK_SIZE then capacity else old(buf.Length)
      ensures buf == old(buf) || fresh(buf)
    {
      if buf.Length > SHRINK_SIZE {
        buf := new byte[capacity];
      }
      start, end := 0, 0;
    }

    /** The number of queued bytes; an empty buffer starts over at its beginning. */
    method Size() returns (size: nat)
      requires Valid()
      modifies this
      ensures Valid() && Contents() == old(Contents()) && size == |Contents()|
      ensures size == 0 ==> start == 0 && buf.Length == if old(buf.Length) > SHRINK_SIZE then DEFAULT_SIZE else old(buf.Length)
      ensures size > 0 ==> start == old(start)
      ensures buf == old(buf) || (size == 0 && fresh(buf))
    {
      if end == start {
        ShrinkCapacity(DEFAULT_SIZE);
      }
      size := end - start;
    }

    method Empty() returns (empty: bool)
      requires Valid()
      modifies this
      ensures Valid() && Contents() == old(Contents()) && empty == (Contents() == [])
      ensures buf == old(buf) || (empty && fresh(buf))
    {
      var size := Size();
      empty := size == 0;
    }

    /** Enlarges the buffer when fewer than `len` bytes are free at its end; everything stays at its position. */
    method MakeSpaceIfNeed(len: nat)
      requires Valid()
      modifies this
      ensures Valid() && Contents() == old(Contents()) && start == old(start) && end == old(end)
      ensures CapacityLeft() >= len && buf.Length >= old(buf.Length)
      ensures buf == old(buf) || (fresh(buf) && buf.Length >= 2 * old(buf.Length))
    {
      if CapacityLeft() >= len {
        return;
      }
      var newCapacity := if buf.Length + len >= buf.Length * 2 then buf.Length + len else buf.Length * 2;
      var larger := new byte[newCapacity];
      var i := 0;
      while i < buf.Length
        modifies larger
        invariant 0 <= i <= buf.Length
        invariant forall k :: 0 <= k < i ==> larger[k] == buf[k]
      {
        larger[i] := buf[i];
        i := i + 1;
      }
      assert larger[start..end] == buf[start..end];
      buf := larger;
    }

    /** Queues `data`, whatever it takes. */
    method Write(data: seq<byte>)
      requires Valid()
      modifies this, buf
      ensures Valid() && Contents() == old(Contents()) + data
      ensures buf == old(buf) || fresh(buf)
    {
      MakeSpaceIfNeed(|data|);
      ghost var before := Contents();
      forall i | 0 <= i < |data| {
        buf[end + i] := data[i];
      }
      end := end + |data|;
      assert buf[start..end] == before + data;
    }

    method WriteU8(v: nat)
      requires Valid() && v < 0x100
      modifies this, buf
      ensures Valid() && Contents() == old(Contents()) + [v]
      ensures buf == old(buf) || fresh(buf)
    {
      Write([v]);
    }

    method WriteU16(v: nat)
      requires Valid()
      modifies this, buf
      ensures Valid() && Contents() == old(Contents()) + BigEndian(2, v)
      ensures buf == old(buf) || fresh(buf)
    {
      Write(BigEndian(2, v));
    }

    /** Three bytes: those of the four-byte form behind its first one. */
    method WriteU24(v: nat)
      requires Valid()
      modifies this, buf
      ensures Valid() && Contents() == old(Contents()) + BigEndian(3, v)
      ensures buf == old(buf) || fresh(buf)
    {
      LowThree(v);
      Write(BigEndian(4, v)[1..]);
    }

    method WriteU32(v: nat)
      requires Valid()
      modifies this, buf
      ensures Valid() && Contents() == old(Contents()) + BigEndian(4, v)
      ensures buf == old(buf) || fresh(buf)
    {
      Write(BigEndian(4, v));
    }

    method WriteU64(v: nat)
      requires Valid()
      modifies this, buf
      ensures Valid() && Contents() == old(Contents()) + BigEndian(8, v)
      ensures buf == old(buf) || fresh(buf)
    {
      Write(BigEndian(8, v));
    }

    /** Takes up to `len` bytes off the front. */
    method Read(len: nat) returns (data: seq<byte>)
      requires Valid()
      modifies this
      ensures Valid() && data + Contents() == old(Contents())
      ensures |data| == if len <= |old(Contents())| then len else |old(Contents())|
      ensures buf == old(buf) || fresh(buf)
    {
      var size := Size();
      if size == 0 {
        return [];
      }
      if len >= size {
        data := buf[start..start + size];
        start := start + size;
      } else {
        data := buf[start..start + len];
        start := start + len;
      }
    }

    /** Takes a number of `n` bytes off the front, if there are that many. */
    method ReadNumber(n: nat) returns (ok: bool, v: nat)
      requires Valid()
      modifies this
      ensures Valid() && ok == (n <= |old(Contents())|) && (buf == old(buf) || fresh(buf))
      ensures if ok then v == Value(old(Contents())[..n]) && Contents() == old(Contents())[n..]
              else Contents() == old(Contents())
    {
      hide Value;
      v := 0;
      var size := Size();
      if size < n {
        return false, 0;
      }
      ghost var s := Contents();
      var i := 0;
      NoValue();
      assert s[..0] == [] && s[0..] == s;
      while i < n
        invariant 0 <= i <= n && Valid() && v == Value(s[..i]) && Contents() == s[i..]
        invariant buf == old(buf) || fresh(buf)
      {
        ValueOfSnoc(s[..i], s[i]);
        assert s[..i + 1] == s[..i] + [s[i]];
        TailStep(s, i);
        assert buf[start..end][0] == buf[start] && buf[start..end][1..] == buf[start + 1..end];
        v := v * 256 + buf[start];
        start := start + 1;
        i := i + 1;
      }
      ok := true;
    }

    /** Looks at `len` bytes behind the first `beginPos`, taking nothing. */
    method Peek(beginPos: nat, len: nat) returns (ok: bool, data: seq<byte>)
      requires Valid()
      modifies this
      ensures Valid() && Contents() == old(Contents()) && (buf == old(buf) || fresh(buf))
      ensures ok == (beginPos + len <= |Contents()|)
      ensures ok ==> data == Contents()[beginPos..beginPos + len]
    {
      var size := Size();
      if size < beginPos + len {
        return false, [];
      }
      ok, data := true, buf[start + beginPos..start + beginPos + len];
    }

    /** Drops `len` bytes from the front. When there are fewer, the read position runs past the end and the queue is broken. */
    method Skip(len: nat)
      requires Valid()
      modifies this
      ensures len <= |old(Contents())| ==> Valid() && Contents() == old(Contents())[len..]
      ensures len > |old(Contents())| ==> !Valid() && start - end == len - |old(Contents())|
      ensures buf == old(buf) || fresh(buf)
    {
      var _ := Size();
      start := start + len;
    }

    /** Hands the queue to a descriptor that takes `accepted` bytes of it; a negative number is a failed call. */
    method WriteToFd(accepted: int) returns (ret: int, ghost written: seq<byte>)
      requires Valid() && -1 <= accepted <= |Contents()|
      modifies this
      ensures Valid() && written + Contents() == old(Contents()) && (buf == old(buf) || fresh(buf))
      ensures |written| == if accepted > 0 then accepted else 0
      ensures ret == if old(Contents()) == [] then 0 else accepted
    {
      written := [];
      var empty := Empty();
      if empty {
        return 0, [];
      }
      ret := accepted;
      if ret > 0 {
        written := Contents()[..ret];
        start := start + ret;
      }
    }
  }

  lemma TailStep(s: seq<byte>, i: nat)
    requires i < |s|
    ensures s[i..][0] == s[i] && s[i..][1..] == s[i + 1..]
  {
  }

  lemma NoValue()
    ensures Value([]) == 0
  {
  }

  lemma LowThree(v: nat)
    ensures BigEndian(4, v)[1..] == BigEndian(3, v)
  {
    LowBytes(3, v);
  }

  lemma {:induction false} LowBytes(n: nat, v: nat)
    ensures BigEndian(n + 1, v)[1..] == BigEndian(n, v)
    decreases n
  {
    if n > 0 {
      LowBytes(n - 1, v / 256);
      assert (BigEndian(n, v / 256) + [v % 256])[1..] == BigEndian(n, v / 256)[1..] + [v % 256];
    }
  }

  /** What `ReadNumber` takes off is what the writers put in, for every value that fits. */
  lemma NumbersComeBack(n: nat, v: nat, rest: seq<byte>)
    requires v < Range(n)
    ensures Value((BigEndian(n, v) + rest)[..n]) == v && (BigEndian(n, v) + rest)[n..] == rest
  {
    FieldRoundTrip(n, v);
    assert (BigEndian(n, v) + rest)[..n] == BigEndian(n, v);
  }
}
