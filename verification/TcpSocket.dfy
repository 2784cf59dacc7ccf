/** Sending on a socket: direct writes, what is left over goes through a buffer, and the event loop is told when to call. */
module TcpSocket {
  import opened Bytes
  import opened Media
  import I = IoBuffer

  datatype Interest = PollIn | PollOut

  // ---------------------------------------------------------------------------------------------
  // The link as a state machine
  // ---------------------------------------------------------------------------------------------

  /** Bytes handed to the kernel, bytes still buffered, and whether the socket waits to become writable. */
  datatype Link = Link(wire: seq<byte>, buffered: seq<byte>, waiting: bool)

  /** What is sent and what the system call returned: the bytes it took, or -1. */
  datatype Op =
    | Send(data: seq<byte>, ret: int)
    | Writable(ret: int)

  predicate Possible(l: Link, op: Op) {
    match op
    case Send(data, ret) => -1 <= ret <= |data|
    case Writable(ret) => -1 <= ret <= |l.buffered|
  }

  function OnSend(l: Link, data: seq<byte>, ret: int): Link
    requires -1 <= ret <= |data|
  {
    if l.buffered != [] then l.(buffered := l.buffered + data)
    else if ret <= 0 then l
    else Link(l.wire + data[..ret], data[ret..], l.waiting || ret < |data|)
  }

  function OnWritable(l: Link, ret: int): Link
    requires -1 <= ret <= |l.buffered|
  {
    var n := if ret > 0 then ret else 0;
    Link(l.wire + l.buffered[..n], l.buffered[n..], l.waiting && n < |l.buffered|)
  }

  function Step(l: Link, op: Op): Link
    requires Possible(l, op)
  {
    match op
    case Send(data, ret) => OnSend(l, data, ret)
    case Writable(ret) => OnWritable(l, ret)
  }

  const IDLE := Link([], [], false)

  predicate LegalRun(ops: seq<Op>)
    decreases |ops|, 0
  {
    ops == [] || (LegalRun(ops[..|ops| - 1]) && Possible(Run(ops[..|ops| - 1]), Last(ops)))
  }

  function Run(ops: seq<Op>): Link
    requires LegalRun(ops)
    decreases |ops|, 1
  {
    if ops == [] then IDLE else Step(Run(ops[..|ops| - 1]), Last(ops))
  }

  /** Everything that was handed to `Send`. */
  function Given(ops: seq<Op>): seq<byte> {
    if ops == [] then []
    else Given(ops[..|ops| - 1]) + if Last(ops).Send? then Last(ops).data else []
  }

  /** A direct write that failed with something to send: its data is gone. */
  predicate Drops(l: Link, op: Op) {
    op.Send? && l.buffered == [] && op.ret <= 0 && op.data != []
  }

  predicate NothingDropped(ops: seq<Op>)
    requires LegalRun(ops)
    decreases |ops|
  {
    ops == [] || (NothingDropped(ops[..|ops| - 1]) && !Drops(Run(ops[..|ops| - 1]), Last(ops)))
  }

  lemma AssociateThree(a: seq<byte>, b: seq<byte>, c: seq<byte>)
    ensures a + (b + c) == a + b + c
  {
  }

  lemma SendStep(l: Link, data: seq<byte>, ret: int)
    requires -1 <= ret <= |data|
    ensures var l' := OnSend(l, data, ret);
            if Drops(l, Send(data, ret)) then l' == l else l'.wire + l'.buffered == l.wire + l.buffered + data
  {
    if l.buffered != [] {
      AssociateThree(l.wire, l.buffered, data);
    } else if ret > 0 {
      AssociateThree(l.wire, data[..ret], data[ret..]);
      assert data[..ret] + data[ret..] == data;
      assert l.wire + [] == l.wire;
    }
  }

  lemma WritableStep(l: Link, ret: int)
    requires -1 <= ret <= |l.buffered|
    ensures OnWritable(l, ret).wire + OnWritable(l, ret).buffered == l.wire + l.buffered
  {
    var n := if ret > 0 then ret else 0;
    AssociateThree(l.wire, l.buffered[..n], l.buffered[n..]);
    assert l.buffered[..n] + l.buffered[n..] == l.buffered;
  }

  /** Never more than what was given goes out, and less once something was dropped. */
  lemma {:induction false} SentLength(ops: seq<Op>)
    requires LegalRun(ops)
    ensures var l := Run(ops);
            |l.wire| + |l.buffered| <= |Given(ops)| && (!NothingDropped(ops) ==> |l.wire| + |l.buffered| < |Given(ops)|)
    decreases |ops|
  {
    if ops != [] {
      var init, op := ops[..|ops| - 1], Last(ops);
      SentLength(init);
      match op
      case Send(data, ret) => SendStep(Run(init), data, ret);
      case Writable(ret) => WritableStep(Run(init), ret);
    }
  }

  /**
   For every schedule, what is on the wire followed by what is buffered is everything that was sent, in order, exactly
   when no direct write failed.
   */
  lemma {:induction false} OrderedIff(ops: seq<Op>)
    requires LegalRun(ops)
    ensures Run(ops).wire + Run(ops).buffered == Given(ops) <==> NothingDropped(ops)
    decreases |ops|
  {
    SentLength(ops);
    if NothingDropped(ops) && ops != [] {
      var init, op := ops[..|ops| - 1], Last(ops);
      OrderedIff(init);
      match op
      case Send(data, ret) => SendStep(Run(init), data, ret);
      case Writable(ret) =>
        WritableStep(Run(init), ret);
        assert Given(init) + [] == Given(init);
    }
  }

  /** The socket waits to become writable exactly as long as something is buffered. */
  lemma {:induction false} WaitsWhileBuffered(ops: seq<Op>)
    requires LegalRun(ops)
    ensures Run(ops).waiting <==> Run(ops).buffered != []
    decreases |ops|
  {
    if ops != [] {
      WaitsWhileBuffered(ops[..|ops| - 1]);
    }
  }

  /** What the kernel has taken: by direct writes while nothing was buffered, and by writable events. */
  function Taken(ops: seq<Op>): nat
    requires LegalRun(ops)
  {
    if ops == [] then 0
    else
      var l, op := Run(ops[..|ops| - 1]), Last(ops);
      Taken(ops[..|ops| - 1]) + if op.ret > 0 && (op.Writable? || l.buffered == []) then op.ret else 0
  }

  /** Every byte that the kernel takes is on the wire, and no other; so a direct write is not put off. */
  lemma {:induction false} WireIsWhatWasTaken(ops: seq<Op>)
    requires LegalRun(ops)
    ensures |Run(ops).wire| == Taken(ops)
    decreases |ops|
  {
    if ops != [] {
      WireIsWhatWasTaken(ops[..|ops| - 1]);
    }
  }

  /** Writable events alone, each with what the system call returned. */
  function Writes(rets: seq<int>): seq<Op> {
    if rets == [] then [] else Writes(rets[..|rets| - 1]) + [Writable(Last(rets))]
  }

  /** What the kernel took in them; an error takes nothing. */
  function Took(rets: seq<int>): nat {
    if rets == [] then 0 else Took(rets[..|rets| - 1]) + if Last(rets) > 0 then Last(rets) else 0
  }

  /**
   Writable events move the buffer to the wire from its front, by exactly as many bytes as the kernel takes; once these
   are all that was buffered, everything has gone out, and the socket waits no longer.
   */
  lemma {:induction false} BufferDrains(ops: seq<Op>, rets: seq<int>)
    requires LegalRun(ops) && LegalRun(ops + Writes(rets))
    ensures var l, l', n := Run(ops), Run(ops + Writes(rets)), Took(rets);
            && n <= |l.buffered| && l'.wire == l.wire + l.buffered[..n] && l'.buffered == l.buffered[n..]
            && (n == |l.buffered| ==> !l'.waiting && (NothingDropped(ops) ==> l'.wire == Given(ops)))
    decreases |rets|
  {
    var all := ops + Writes(rets);
    OrderedIff(ops);
    if rets == [] {
      assert all == ops;
      WaitsWhileBuffered(ops);
    } else {
      var init, l, ret := rets[..|rets| - 1], Run(ops), Last(rets);
      assert all[..|all| - 1] == ops + Writes(init) && Last(all) == Writable(ret);
      BufferDrains(ops, init);
      WaitsWhileBuffered(all);
      OneMoreWrite(l.wire, l.buffered, Took(init), Took(rets) - Took(init));
      assert Took(rets) == |l.buffered| ==> l.wire + l.buffered[..Took(rets)] == l.wire + l.buffered;
    }
  }

  lemma OneMoreWrite(wire: seq<byte>, buffered: seq<byte>, n: nat, more: nat)
    requires n + more <= |buffered|
    ensures wire + buffered[..n] + buffered[n..][..more] == wire + buffered[..n + more]
    ensures buffered[n..][more..] == buffered[n + more..]
  {
  }

  /** The example: a first write that fails takes its data with it, although the next one goes out. */
  lemma FailedWriteLosesData(a: byte, b: byte)
    ensures var ops := [Send([a], -1), Send([b], 1)];
            LegalRun(ops) && Run(ops).wire == [b] && Given(ops) == [a, b]
  {
    var ops := [Send([a], -1), Send([b], 1)];
    var one := [Send([a], -1)];
    assert ops[..1] == one && one[..0] == [];
    assert Run(one) == IDLE;
    assert Given(one) == [] + [a] == [a];
    assert Given(ops) == [a] + [b];
  }

  // ---------------------------------------------------------------------------------------------
  // The event loop and the descriptor
  // ---------------------------------------------------------------------------------------------

  /** What the kernel has been told to watch, per descriptor; the calls fail as `epoll_ctl` does. */
  class IoLoop {
    var masks: map<int, set<Interest>>

    constructor ()
      ensures masks == map[]
    {
      masks := map[];
    }

    method AddFd(fd: int, events: set<Interest>) returns (ret: int)
      modifies this
      ensures ret == if fd in old(masks) then -1 else 0
      ensures masks == if fd in old(masks) then old(masks) else old(masks)[fd := events]
    {
      if fd in masks {
        return -1;
      }
      masks := masks[fd := events];
      ret := 0;
    }

    method ModFd(fd: int, events: set<Interest>) returns (ret: int)
      modifies this
      ensures ret == if fd in old(masks) then 0 else -1
      ensures masks == if fd in old(masks) then old(masks)[fd := events] else old(masks)
    {
      if fd !in masks {
        return -1;
      }
      masks := masks[fd := events];
      ret := 0;
    }

    method DelFd(fd: int) returns (ret: int)
      modifies this
      ensures ret == if fd in old(masks) then 0 else -1
      ensures masks == old(masks) - {fd}
    {
      ret := if fd in masks then 0 else -1;
      masks := masks - {fd};
    }
  }

  class TcpSocket {
    var events: set<Interest>
    const fd: int
    const ioLoop: IoLoop
    const writeBuffer: I.IoBuffer
    ghost var wire: seq<byte>

    /** The descriptor is registered exactly while it has interests, and with exactly these. */
    ghost predicate Registered()
      reads this, ioLoop
    {
      (fd in ioLoop.masks <==> events != {}) && (events != {} ==> ioLoop.masks[fd] == events)
    }

    ghost predicate Valid()
      reads this, ioLoop, writeBuffer, writeBuffer.buf
    {
      && writeBuffer.Valid() && Registered()
      && (writeBuffer.Contents() != [] ==> PollOut in events)
    }

    ghost function State(): Link
      requires writeBuffer.Valid()
      reads this, writeBuffer, writeBuffer.buf
    {
      Link(wire, writeBuffer.Contents(), PollOut in events)
    }

    constructor (ioLoop: IoLoop, fd: int)
      requires fd !in ioLoop.masks
      ensures Valid() && State() == IDLE && events == {} && this.ioLoop == ioLoop && this.fd == fd
      ensures fresh(writeBuffer) && fresh(writeBuffer.buf)
    {
      this.ioLoop, this.fd, events, wire := ioLoop, fd, {}, [];
      writeBuffer := new I.IoBuffer(0);
    }

    /** Adds an interest: the first one registers the descriptor. */
    method Enable(i: Interest)
      requires Registered()
      modifies this`events, ioLoop
      ensures Registered() && events == old(events) + {i}
      ensures ioLoop.masks - {fd} == old(ioLoop.masks) - {fd}
    {
      if i in events {
        assert events == events + {i};
        return;
      }
      var add := events == {};
      events := events + {i};
      if add {
        var ret := ioLoop.AddFd(fd, events);
        assert ret == 0;
      } else {
        var ret := ioLoop.ModFd(fd, events);
        assert ret == 0;
      }
    }

    /** Removes an interest: the last one takes the descriptor out of the loop. */
    method Disable(i: Interest)
      requires Registered()
      modifies this`events, ioLoop
      ensures Registered() && events == old(events) - {i}
      ensures ioLoop.masks - {fd} == old(ioLoop.masks) - {fd}
    {
      if i !in events {
        return;
      }
      events := events - {i};
      if events == {} {
        var ret := ioLoop.DelFd(fd);
        assert ret == 0;
      } else {
        var ret := ioLoop.ModFd(fd, events);
        assert ret == 0;
      }
    }

    /** The call tells how many bytes the kernel takes if the data is written directly; -1 is a failed write. */
    method Send(data: seq<byte>, direct: int) returns (ret: int)
      requires Valid() && -1 <= direct <= |data|
      modifies this`events, this`wire, ioLoop, writeBuffer, writeBuffer.buf
      ensures Valid() && State() == OnSend(old(State()), data, direct)
      ensures ret == if old(writeBuffer.Contents()) == [] then direct else |data|
      ensures ioLoop.masks - {fd} == old(ioLoop.masks) - {fd} && events - {PollOut} == old(events) - {PollOut}
      ensures writeBuffer.buf == old(writeBuffer.buf) || fresh(writeBuffer.buf)
    {
      var empty := writeBuffer.Empty();
      if empty {
        ret := direct;
        if ret > 0 {
          wire := wire + data[..ret];
          if ret < |data| {
            writeBuffer.Write(data[ret..]);
            assert [] + data[ret..] == data[ret..];
            Enable(PollOut);
          }
        }
      } else {
        writeBuffer.Write(data);
        ret := |data|;
      }
    }

    /** The descriptor has become writable: the kernel takes `accepted` bytes of the buffer. */
    method OnWrite(accepted: int) returns (ret: int)
      requires Valid() && -1 <= accepted <= |writeBuffer.Contents()|
      modifies this`events, this`wire, ioLoop, writeBuffer
      ensures Valid() && State() == OnWritable(old(State()), accepted)
      ensures ret == if old(writeBuffer.Contents()) == [] then 0 else accepted
      ensures ioLoop.masks - {fd} == old(ioLoop.masks) - {fd} && events - {PollOut} == old(events) - {PollOut}
      ensures writeBuffer.buf == old(writeBuffer.buf) || fresh(writeBuffer.buf)
    {
      ghost var written;
      ghost var before := writeBuffer.Contents();
      ret, written := writeBuffer.WriteToFd(accepted);
      assert before[..|written|] == written && before[|written|..] == writeBuffer.Contents();
      wire := wire + written;
      var empty := writeBuffer.Empty();
      if empty {
        Disable(PollOut);
      }
    }
  }
}
