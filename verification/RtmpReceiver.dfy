/**
 The receiving half of the RTMP chunk stream (RTMP 1.0, sections 5.3.1 and 5.4.1), after the handshake.

 `ParseStep` and `Run` specify one step of the chunk parser and the loop around it on values; the class
 `ReceivingEnd` is the parser itself, which updates the per-csid memory and the read buffer in place.
 */
module RtmpReceiver {
  import opened Bytes
  import opened Media

  /** What the receiver remembers about one chunk stream id, with the part of a message gathered so far. */
  datatype Head = Head(
    timestamp: nat, delta: nat, clock: nat, length: nat, typeId: byte, streamId: nat, msg: seq<byte>)

  const FRESH_HEAD := Head(0, 0, 0, 0, 0, 0, [])

  /** A message as handed to the application; `timestamp` is the receiver's own running clock. */
  datatype Message = Message(csId: nat, timestamp: nat, typeId: byte, body: seq<byte>)

  datatype Outcome = Success | NoEnoughData | Error

  /** The memory of the parser: one head per chunk stream id, the chunk size in force, the messages delivered. */
  datatype Core = Core(heads: map<nat, Head>, inChunk: nat, delivered: seq<Message>)

  datatype Receiver = Receiver(core: Core, buf: seq<byte>, open: bool)

  /** The verdict of the command handlers on the messages delivered so far, the last one being new. */
  type App = seq<Message> -> bool

  const SET_CHUNK_SIZE: byte := 1
  const AUDIO: byte := 8
  const VIDEO: byte := 9

  function HeadOf(heads: map<nat, Head>, c: nat): Head {
    if c in heads then heads[c] else FRESH_HEAD
  }

  datatype Basic = Incomplete | Basic(fmt: nat, csId: nat, len: nat)

  /** The basic header: two bits of format, then the chunk stream id in one, two or three bytes. */
  function ReadBasic(s: seq<byte>): (b: Basic)
    ensures b.Basic? ==> b.fmt < 4 && 1 <= b.len <= 3 && b.len <= |s|
  {
    if |s| < 1 then Incomplete
    else if s[0] % 64 == 0 then
      if |s| < 2 then Incomplete else Basic(s[0] / 64, 64 + s[1] as nat, 2)
    else if s[0] % 64 == 1 then
      if |s| < 3 then Incomplete else Basic(s[0] / 64, 64 + Value(s[1..3]), 3)
    else Basic(s[0] / 64, s[0] % 64, 1)
  }

  /** What RTMP 1.0, section 5.3.1.1, says about the three-byte form: the second byte is the low one. */
  function StandardCsId(s: seq<byte>): nat
    requires |s| >= 3
  {
    64 + s[1] as nat + 256 * s[2] as nat
  }

  /** The receiver reads a three-byte basic header as the standard says exactly when its two csid bytes are equal. */
  lemma ThreeByteFormIff(s: seq<byte>)
    requires |s| >= 3 && s[0] % 64 == 1
    ensures ReadBasic(s).Basic? && ReadBasic(s).len == 3
    ensures ReadBasic(s).csId == StandardCsId(s) <==> s[1] == s[2]
  {
    ValueOfSnoc([], s[1]);
    ValueOfSnoc([s[1]], s[2]);
    assert [] + [s[1]] == [s[1]] && s[1..3] == [s[1]] + [s[2]];
  }

  /** The header of csid 320 is taken for that of csid 65. */
  lemma ThreeByteFormIsSwapped()
    ensures StandardCsId([1, 0, 1]) == 320 && ReadBasic([1, 0, 1]) == Basic(0, 65, 3)
  {
    var s: seq<byte> := [1, 0, 1];
    assert s[1..3] == [0] + [1];
    ValueOfSnoc([0], 1);
    ValueOfSnoc([], 0);
    assert [] + [0] == [0];
  }

  function HeaderLength(fmt: nat): nat {
    if fmt == 0 then 11 else if fmt == 1 then 7 else if fmt == 2 then 3 else 0
  }

  /** The message header of a chunk, written over the remembered fields. Format 0 leaves `delta` alone. */
  function ApplyHeader(h: Head, fmt: nat, s: seq<byte>): Head
    requires |s| == HeaderLength(fmt)
  {
    if fmt == 0 then
      h.(timestamp := Value(s[..3]), clock := Value(s[..3]), length := Value(s[3..6]), typeId := s[6],
      streamId := Value([s[10], s[9], s[8], s[7]]))
    else if fmt == 1 then
      h.(delta := Value(s[..3]), length := Value(s[3..6]), typeId := s[6])
    else if fmt == 2 then
      h.(delta := Value(s[..3]))
    else h
  }

  /** How many body bytes the next chunk of this message must bring; the subtraction is 32 bits wide. */
  function ReadLength(h: Head, chunkSize: nat): nat {
    var left := (h.length - |h.msg|) % U32;
    if left > chunkSize then chunkSize else left
  }

  /** The 4-byte size in a Set Chunk Size message; a shorter body reads as zero. */
  function AnnouncedChunkSize(body: seq<byte>): nat {
    if |body| < 4 then 0 else Value(body[..4])
  }

  /** The answer of the message dispatcher: unknown types fail, control messages never do. */
  function Answer(delivered: seq<Message>, app: App): Outcome
    requires |delivered| > 0
  {
    var t := delivered[|delivered| - 1].typeId;
    if t in {0, 1, 3, 4, 5, 6, 15, 18} then Success
    else if t in {8, 9, 20} && app(delivered) then Success
    else Error
  }

  predicate Completes(h: Head, bytes: seq<byte>) {
    |h.msg| + |bytes| == h.length
  }

  /** The head `h` once `bytes` have been added to its message; a complete message moves the clock and is dropped. */
  function NextHead(h: Head, bytes: seq<byte>): Head {
    if Completes(h, bytes) then h.(clock := (h.clock + h.delta) % U32, msg := [])
    else h.(msg := h.msg + bytes)
  }

  /** The message that `bytes` complete on csid `c`. */
  function CompletedMessage(c: nat, h: Head, bytes: seq<byte>): Message {
    Message(c, (h.clock + h.delta) % U32, h.typeId, h.msg + bytes)
  }

  /** The memory after `bytes` have been added to the message of csid `c`, whose head is now `h`. */
  function Absorb(k: Core, c: nat, h: Head, bytes: seq<byte>, app: App): (res: (Core, Outcome))
    ensures res.1 != NoEnoughData
  {
    var heads := k.heads[c := NextHead(h, bytes)];
    if !Completes(h, bytes) then (k.(heads := heads), Success)
    else
      var m := CompletedMessage(c, h, bytes);
      var delivered := k.delivered + [m];
      (Core(heads, if m.typeId == SET_CHUNK_SIZE then AnnouncedChunkSize(m.body) else k.inChunk, delivered),
       Answer(delivered, app))
  }

  /** What the head of the buffer holds: too little (with what the memory becomes), or one chunk. */
  datatype Scan = Short(heads: map<nat, Head>) | Whole(csId: nat, head: Head, body: nat, end: nat)

  function ScanChunk(k: Core, buf: seq<byte>): (s: Scan)
    ensures s.Whole? ==> 1 <= s.body <= s.end <= |buf|
  {
    match ReadBasic(buf)
    case Incomplete => Short(k.heads)
    case Basic(fmt, c, n) =>
      var body := n + HeaderLength(fmt);
      if |buf| < body then Short(k.heads[c := HeadOf(k.heads, c)])
      else
        var h := ApplyHeader(HeadOf(k.heads, c), fmt, buf[n..body]);
        var end := body + ReadLength(h, k.inChunk);
        if |buf| < end then Short(k.heads[c := h]) else Whole(c, h, body, end)
  }

  /** One step of the parser: at most one chunk. */
  function ParseStep(r: Receiver, app: App): (res: (Receiver, Outcome))
    ensures res.1 == Success ==> |res.0.buf| < |r.buf|
    ensures res.0.open == r.open
  {
    match ScanChunk(r.core, r.buf)
    case Short(heads) => (r.(core := r.core.(heads := heads)), NoEnoughData)
    case Whole(c, h, body, end) =>
      var (core, outcome) := Absorb(r.core, c, h, r.buf[body..end], app);
      (Receiver(core, r.buf[end..], r.open), outcome)
  }

  /** A failed connection: its chunk stream memory and its unread bytes are gone. */
  function Closed(r: Receiver): Receiver {
    Receiver(r.core.(heads := map[]), [], false)
  }

  /** The parser run until it lacks data or fails. */
  function Run(r: Receiver, app: App): (res: Receiver)
    decreases |r.buf|
  {
    var (next, outcome) := ParseStep(r, app);
    match outcome
    case Success => Run(next, app)
    case NoEnoughData => next
    case Error => Closed(next)
  }

  /** The arrival of `data` from the socket. */
  function Receive(r: Receiver, data: seq<byte>, app: App): Receiver {
    if r.open then Run(r.(buf := r.buf + data), app) else r
  }

  /** The arrival of a byte stream cut into `pieces`. */
  function ReceiveAll(r: Receiver, pieces: seq<seq<byte>>, app: App): Receiver
    decreases |pieces|
  {
    if pieces == [] then r else ReceiveAll(Receive(r, pieces[0], app), pieces[1..], app)
  }

  // ---------------------------------------------------------------------------------------------
  // Fragmentation independence
  // ---------------------------------------------------------------------------------------------

  lemma BasicIsPrefixClosed(s: seq<byte>, more: seq<byte>)
    requires ReadBasic(s).Basic?
    ensures ReadBasic(s + more) == ReadBasic(s)
  {
    if s[0] % 64 == 1 {
      assert (s + more)[1..3] == s[1..3];
    }
  }

  /** A scan that found a chunk does not look past it. */
  lemma ScanIsPrefixClosed(k: Core, buf: seq<byte>, more: seq<byte>)
    requires ScanChunk(k, buf).Whole?
    ensures ScanChunk(k, buf + more) == ScanChunk(k, buf)
  {
    var Basic(fmt, c, n) := ReadBasic(buf);
    BasicIsPrefixClosed(buf, more);
    var body := n + HeaderLength(fmt);
    assert (buf + more)[n..body] == buf[n..body];
  }

  lemma StepIgnoresLaterBytes(r: Receiver, more: seq<byte>, app: App)
    requires ParseStep(r, app).1 != NoEnoughData
    ensures var (next, outcome) := ParseStep(r, app);
            ParseStep(r.(buf := r.buf + more), app) == (next.(buf := next.buf + more), outcome)
  {
    ScanIsPrefixClosed(r.core, r.buf, more);
    var Whole(c, h, body, end) := ScanChunk(r.core, r.buf);
    var all := r.buf + more;
    assert all[body..end] == r.buf[body..end];
    assert all[end..] == r.buf[end..] + more;
  }

  lemma HeaderIsIdempotent(h: Head, fmt: nat, s: seq<byte>)
    requires |s| == HeaderLength(fmt)
    ensures ApplyHeader(ApplyHeader(h, fmt, s), fmt, s) == ApplyHeader(h, fmt, s)
  {
  }

  /** A scan that lacked data may be retried with more bytes: the header it applied early does no harm. */
  lemma RescanIsHarmless(k: Core, buf: seq<byte>, more: seq<byte>)
    requires ScanChunk(k, buf).Short?
    ensures var again := k.(heads := ScanChunk(k, buf).heads);
            var s, s' := ScanChunk(k, buf + more), ScanChunk(again, buf + more);
            s == s' && (s.Whole? ==> k.heads - {s.csId} == again.heads - {s.csId})
  {
    if ReadBasic(buf).Basic? {
      var Basic(fmt, c, n) := ReadBasic(buf);
      BasicIsPrefixClosed(buf, more);
      var body := n + HeaderLength(fmt);
      if |buf| >= body {
        assert (buf + more)[n..body] == buf[n..body];
        HeaderIsIdempotent(HeadOf(k.heads, c), fmt, buf[n..body]);
      }
    }
  }

  lemma RetryIsHarmless(r: Receiver, more: seq<byte>, app: App)
    requires ParseStep(r, app).1 == NoEnoughData
    ensures ParseStep(ParseStep(r, app).0.(buf := r.buf + more), app) == ParseStep(r.(buf := r.buf + more), app)
  {
    RescanIsHarmless(r.core, r.buf, more);
    var s := ScanChunk(r.core, r.buf + more);
    if s.Whole? {
      var h' := NextHead(s.head, (r.buf + more)[s.body..s.end]);
      SameButOne(r.core.heads, ParseStep(r, app).0.core.heads, s.csId, h');
    }
  }

  lemma SameButOne(m: map<nat, Head>, m': map<nat, Head>, c: nat, h: Head)
    requires m - {c} == m' - {c}
    ensures m[c := h] == m'[c := h]
  {
    assert m[c := h] == (m - {c})[c := h];
    assert m'[c := h] == (m' - {c})[c := h];
  }

  lemma {:induction false} RunThenMore(r: Receiver, more: seq<byte>, app: App)
    requires r.open
    ensures Receive(Run(r, app), more, app) == Run(r.(buf := r.buf + more), app)
    decreases |r.buf|
  {
    var (next, outcome) := ParseStep(r, app);
    match outcome
    case Success =>
      StepIgnoresLaterBytes(r, more, app);
      RunThenMore(next, more, app);
    case NoEnoughData =>
      RetryIsHarmless(r, more, app);
    case Error =>
      StepIgnoresLaterBytes(r, more, app);
  }

  /** Two reads equal one read of their concatenation, state for state. */
  lemma {:induction false} TwoReads(r: Receiver, a: seq<byte>, b: seq<byte>, app: App)
    ensures Receive(Receive(r, a, app), b, app) == Receive(r, a + b, app)
  {
    if r.open {
      var mid := r.(buf := r.buf + a);
      var all := r.(buf := r.buf + (a + b));
      assert mid.(buf := mid.buf + b) == all by {
        assert mid.buf + b == all.buf;
      }
      RunThenMore(mid, b, app);
      assert Receive(r, a, app) == Run(mid, app);
      assert Receive(r, a + b, app) == Run(all, app);
    }
  }

  /** However the socket cuts the byte stream, the receiver ends in the same state with the same messages. */
  lemma {:induction false} FragmentationIndependence(r: Receiver, pieces: seq<seq<byte>>, app: App)
    requires pieces != []
    ensures ReceiveAll(r, pieces, app) == Receive(r, Concat(pieces), app)
    decreases |pieces|
  {
    var next := Receive(r, pieces[0], app);
    if |pieces| == 1 {
      assert Concat(pieces) == pieces[0];
    } else {
      FragmentationIndependence(next, pieces[1..], app);
      TwoReads(r, pieces[0], Concat(pieces[1..]), app);
    }
  }

  // ---------------------------------------------------------------------------------------------
  // Handlers that refuse
  // ---------------------------------------------------------------------------------------------

  /** The handlers that accept everything. */
  const YES: App := (d: seq<Message>) => true

  /** The last message is one that a handler is asked about, and it says no. */
  predicate Refused(d: seq<Message>, app: App) {
    d != [] && d[|d| - 1].typeId in {8, 9, 20} && !app(d)
  }

  /** Of the prefixes of `d` longer than `n`, the length of the first one that is refused. */
  function FirstRefused(d: seq<Message>, n: nat, app: App): (k: Option<nat>)
    ensures k.Some? ==> n < k.value <= |d| && Refused(d[..k.value], app)
    decreases |d| - n
  {
    if n >= |d| then None else if Refused(d[..n + 1], app) then Some(n + 1) else FirstRefused(d, n + 1, app)
  }

  /** One step delivers at most one message, whatever the handlers say; they only decide whether it succeeds. */
  lemma StepOrRefuse(r: Receiver, app: App)
    ensures var (next, outcome) := ParseStep(r, YES);
            && ParseStep(r, app).0 == next
            && (next.core.delivered == r.core.delivered
                || (|next.core.delivered| == |r.core.delivered| + 1 && r.core.delivered <= next.core.delivered))
            && (if next.core.delivered != r.core.delivered && Refused(next.core.delivered, app) then ParseStep(r, app).1 == Error
                else ParseStep(r, app).1 == outcome)
            && (outcome == NoEnoughData ==> next.core.delivered == r.core.delivered)
  {
  }

  lemma {:induction false} RunGrows(r: Receiver, app: App)
    ensures r.core.delivered <= Run(r, app).core.delivered
    decreases |r.buf|
  {
    hide ScanChunk, Absorb, Answer, ParseStep;
    StepOrRefuse(r, app);
    var (next, outcome) := ParseStep(r, app);
    StepProgress(r, app);
    if outcome == Success {
      RunGrows(next, app);
    }
  }

  lemma StepProgress(r: Receiver, app: App)
    ensures ParseStep(r, app).1 == Success ==> |ParseStep(r, app).0.buf| < |r.buf|
    ensures ParseStep(r, app).0.open == r.open
  {
    hide ScanChunk, Absorb;
  }

  /** A refusal ends the connection behind the refused message; without one the handlers do not matter. */
  lemma {:induction false} RefusalCuts(r: Receiver, app: App)
    ensures var all, got := Run(r, YES), Run(r, app);
            && r.core.delivered <= all.core.delivered
            && match FirstRefused(all.core.delivered, |r.core.delivered|, app)
               case None => got == all
               case Some(n) => !got.open && got.core.delivered == all.core.delivered[..n]
    decreases |r.buf|
  {
    hide ScanChunk, Absorb, Answer, ParseStep, Refused;
    StepOrRefuse(r, app);
    StepProgress(r, YES);
    RunGrows(r, YES);
    var (next, outcome) := ParseStep(r, YES);
    var all := Run(r, YES).core.delivered;
    var before := r.core.delivered;
    if outcome == Success {
      RunGrows(next, YES);
      RefusalCuts(next, app);
    }
    if |next.core.delivered| == |before| + 1 {
      assert all[..|before| + 1] == next.core.delivered;
    }
  }

  // ---------------------------------------------------------------------------------------------
  // The parser itself
  // ---------------------------------------------------------------------------------------------

  class ReceivingEnd {
    var csidHead: map<nat, Head>
    var inChunkSize: nat
    var ioBuffer: seq<byte>
    var delivered: seq<Message>
    var isOpen: bool
    const app: App

    function State(): Receiver
      reads this
    {
      Receiver(Core(csidHead, inChunkSize, delivered), ioBuffer, isOpen)
    }

    constructor (app: App)
      ensures State() == Receiver(Core(map[], 128, []), [], true) && this.app == app
    {
      csidHead, inChunkSize, ioBuffer, delivered, isOpen := map[], 128, [], [], true;
      this.app := app;
    }

    method OnSetChunkSize(body: seq<byte>)
      modifies this`inChunkSize
      ensures inChunkSize == AnnouncedChunkSize(body)
    {
      var chunkSize := 0;
      if |body| >= 4 {
        chunkSize := Value(body[..4]);
      }
      inChunkSize := chunkSize;
    }

    method OnRtmpMessage(m: Message) returns (outcome: Outcome)
      modifies this`inChunkSize, this`delivered
      ensures delivered == old(delivered) + [m]
      ensures inChunkSize == if m.typeId == SET_CHUNK_SIZE then AnnouncedChunkSize(m.body) else old(inChunkSize)
      ensures outcome == Answer(delivered, app)
    {
      delivered := delivered + [m];
      if m.typeId == SET_CHUNK_SIZE {
        OnSetChunkSize(m.body);
        return Success;
      } else if m.typeId in {0, 3, 4, 5, 6, 15, 18} {
        return Success;
      } else if m.typeId in {8, 9, 20} {
        return if app(delivered) then Success else Error;
      }
      return Error;
    }

    /** Reads the basic and the message header, without consuming them, into the memory of their csid. */
    method PeekHeader() returns (enough: bool, csId: nat, body: nat)
      modifies this`csidHead
      ensures !enough ==> ScanChunk(old(State()).core, ioBuffer) == Short(csidHead)
      ensures enough ==> csId in csidHead && csidHead == old(csidHead)[csId := csidHead[csId]] && body <= |ioBuffer|
      ensures enough ==> var h := csidHead[csId];
                         var end := body + ReadLength(h, inChunkSize);
                         ScanChunk(old(State()).core, ioBuffer)
                         == if |ioBuffer| < end then Short(csidHead) else Whole(csId, h, body, end)
    {
      enough, csId, body := false, 0, 0;
      if |ioBuffer| < 1 {
        return;
      }
      var fmt := ioBuffer[0] / 64;
      csId := ioBuffer[0] % 64;
      var chunkHeaderLen := 1;
      if csId == 0 {
        if |ioBuffer| < 2 {
          return;
        }
        csId, chunkHeaderLen := ioBuffer[1] as nat + 64, 2;
      } else if csId == 1 {
        if |ioBuffer| < 3 {
          return;
        }
        csId, chunkHeaderLen := Value(ioBuffer[1..3]) + 64, 3;
      }
      var msg := HeadOf(csidHead, csId);
      csidHead := csidHead[csId := msg];
      body := chunkHeaderLen + HeaderLength(fmt);
      if |ioBuffer| < body {
        return;
      }
      var s := ioBuffer[chunkHeaderLen..body];
      if fmt == 0 {
        msg := msg.(timestamp := Value(s[..3]), clock := Value(s[..3]), length := Value(s[3..6]),
        typeId := s[6], streamId := Value([s[10], s[9], s[8], s[7]]));
      } else if fmt == 1 {
        msg := msg.(delta := Value(s[..3]), length := Value(s[3..6]), typeId := s[6]);
      } else if fmt == 2 {
        msg := msg.(delta := Value(s[..3]));
      }
      csidHead := csidHead[csId := msg];
      assert csidHead == old(csidHead)[csId := msg];
      enough := true;
    }

    /** Consumes the header and its share of the body, if the buffer holds them. */
    method ReadBody(csId: nat, body: nat) returns (outcome: Outcome, oneMessageDone: bool)
      requires csId in csidHead && body <= |ioBuffer|
      modifies this`csidHead, this`ioBuffer
      ensures var h := old(csidHead)[csId];
              var end := body + ReadLength(h, inChunkSize);
              if |old(ioBuffer)| < end then
                outcome == NoEnoughData && !oneMessageDone && csidHead == old(csidHead) && ioBuffer == old(ioBuffer)
              else
                var bytes := old(ioBuffer)[body..end];
                && outcome == Success && oneMessageDone == Completes(h, bytes) && ioBuffer == old(ioBuffer)[end..]
                && csidHead == old(csidHead)[csId := NextHead(h, bytes).(msg := h.msg + bytes)]
    {
      oneMessageDone := false;
      var msg := csidHead[csId];
      var readLen := (msg.length - |msg.msg|) % U32;
      if readLen > inChunkSize {
        readLen := inChunkSize;
      }
      if |ioBuffer| < body + readLen {
        return NoEnoughData, false;
      }
      ioBuffer := ioBuffer[body..];
      msg := msg.(msg := msg.msg + ioBuffer[..readLen]);
      ioBuffer := ioBuffer[readLen..];
      if |msg.msg| == msg.length {
        msg := msg.(clock := (msg.clock + msg.delta) % U32);
        oneMessageDone := true;
      }
      csidHead := csidHead[csId := msg];
      outcome := Success;
      assert old(ioBuffer)[body..][..readLen] == old(ioBuffer)[body..body + readLen];
    }

    method Parse() returns (outcome: Outcome)
      modifies this`csidHead, this`ioBuffer, this`inChunkSize, this`delivered
      ensures (State(), outcome) == ParseStep(old(State()), app)
    {
      var oneMessageDone;
      var enough, csId, body := PeekHeader();
      if !enough {
        return NoEnoughData;
      }
      outcome, oneMessageDone := ReadBody(csId, body);
      assert csidHead == old(csidHead)[csId := csidHead[csId]];
      if !oneMessageDone {
        return outcome;
      }
      var msg := csidHead[csId];
      outcome := OnRtmpMessage(Message(csId, msg.clock, msg.typeId, msg.msg));
      csidHead := csidHead[csId := msg.(msg := [])];
      assert csidHead == old(csidHead)[csId := msg.(msg := [])];
    }

    method HandleClose()
      modifies this
      ensures State() == Closed(old(State()))
    {
      csidHead, ioBuffer, isOpen := map[], [], false;
    }

    /** The read callback: bytes from the socket, then the parse loop, which terminates on every input. */
    method HandleRead(data: seq<byte>)
      modifies this
      ensures State() == Receive(old(State()), data, app)
    {
      if !isOpen {
        return;
      }
      ioBuffer := ioBuffer + data;
      ghost var start := State();
      var outcome := Parse();
      while outcome == Success
        invariant outcome == Success ==> Run(State(), app) == Run(start, app)
        invariant outcome == NoEnoughData ==> State() == Run(start, app)
        invariant outcome == Error ==> Closed(State()) == Run(start, app)
        decreases |ioBuffer|, outcome == Success
      {
        ghost var before := State();
        outcome := Parse();
        assert (State(), outcome) == ParseStep(before, app);
      }
      if outcome == Error {
        HandleClose();
      }
    }
  }
}
