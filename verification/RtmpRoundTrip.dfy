/**
 The two memories of an RTMP connection kept in step: what the receiver rebuilds from the bytes of the sender,
 over whole runs, and when its clock agrees with the sender's.
 */
module RtmpRoundTrip {
  import opened Bytes
  import opened Media
  import opened RtmpReceiver
  import opened RtmpChunks
  import opened RtmpSender

  // ---------------------------------------------------------------------------------------------
  // One message
  // ---------------------------------------------------------------------------------------------

  /** The head of a csid once the header of message `m`, in format `fmt`, has been read over `h`. */
  function Opened(h: Head, fmt: nat, m: Outgoing): Head
    requires fmt < 4
  {
    ApplyHeader(h, fmt, MessageHeader(fmt, m))
  }

  /** The body is no longer than its 24-bit length can say. */
  predicate Fits24(m: Outgoing) {
    |Body(m)| < 0x100_0000
  }

  /** A delta as it goes out: its low 24 bits. */
  function OnWire(delta: nat): nat {
    delta % 0x100_0000
  }

  lemma FieldSlices(a: seq<byte>, b: seq<byte>, t: byte, d: seq<byte>)
    requires |a| == 3 && |b| == 3
    ensures var s := a + b + [t] + d;
            s[..3] == a && s[3..6] == b && s[6] == t
  {
  }

  lemma OpenedFields(h: Head, fmt: nat, m: Outgoing)
    requires fmt < 4 && Fits24(m) && h.msg == []
    requires fmt >= 2 ==> h.length == |Body(m)| && h.typeId == m.typeId
    ensures var o := Opened(h, fmt, m);
            && o.msg == [] && o.length == |Body(m)| && o.typeId == m.typeId
            && o.clock == (if fmt == 0 then OnWire(m.delta) else h.clock)
            && o.delta == if fmt == 1 || fmt == 2 then OnWire(m.delta) else h.delta
  {
    Ranges();
    ValueOfBigEndian(3, m.delta);
    FieldRoundTrip(3, |Body(m)|);
    var a, b := BigEndian(3, m.delta), BigEndian(3, |Body(m)|);
    if fmt == 0 {
      FieldSlices(a, b, m.typeId, LittleEndian4(m.streamId));
    } else if fmt == 1 {
      FieldSlices(a, b, m.typeId, []);
      assert a + b + [m.typeId] + [] == a + b + [m.typeId];
    } else if fmt == 2 {
      assert a[..3] == a;
    }
  }

  /** The head once the whole body has arrived. */
  function Finished(o: Head): Head {
    o.(clock := (o.clock + o.delta) % U32, msg := [])
  }

  /** The receiver's memory after a complete message on csid `c` whose opened head is `o`. */
  function AfterMessage(k: Core, c: nat, o: Head, body: seq<byte>): Core {
    Core(k.heads[c := Finished(o)],
         if o.typeId == SET_CHUNK_SIZE then AnnouncedChunkSize(body) else k.inChunk,
         k.delivered + [Message(c, Finished(o).clock, o.typeId, body)])
  }

  predicate Welcome(t: byte) {
    t in {0, 1, 3, 4, 5, 6, 8, 9, 15, 18, 20}
  }

  /** The receiver asks for as much as the sender puts into the next chunk. */
  lemma AsksForLeast(o: Head, rest: seq<byte>, chunkSize: nat)
    requires |o.msg| + |rest| == o.length < U32
    ensures ReadLength(o, chunkSize) == Least(|rest|, chunkSize)
  {
  }

  /** The last bytes of a body complete it. */
  lemma LastPart(k: Core, chunk: Chunk, o: Head, body: seq<byte>, app: App)
    requires o == Announced(k.heads, chunk) && o.msg + chunk.payload == body && o.length == |body|
    requires Welcome(o.typeId) && forall d: seq<Message> :: app(d)
    ensures Step(k, chunk, app) == (AfterMessage(k, chunk.csId, o, body), Success)
  {
    hide ApplyHeader, AnnouncedChunkSize;
  }

  /** Other bytes are added to the part that is there. */
  lemma SomePart(k: Core, chunk: Chunk, o: Head, app: App)
    requires o == Announced(k.heads, chunk) && |o.msg| + |chunk.payload| < o.length
    ensures Step(k, chunk, app) == (k.(heads := k.heads[chunk.csId := o.(msg := o.msg + chunk.payload)]), Success)
  {
    hide ApplyHeader;
  }

  /** The part of the body in the head does not matter once the message is complete. */
  lemma PartIsDropped(k: Core, c: nat, o: Head, part: seq<byte>, body: seq<byte>)
    ensures AfterMessage(k.(heads := k.heads[c := o.(msg := part)]), c, o.(msg := part), body) == AfterMessage(k, c, o, body)
  {
    assert k.heads[c := o.(msg := part)][c := Finished(o)] == k.heads[c := Finished(o)];
  }

  lemma FeedCons(k: Core, chunk: Chunk, cs: seq<Chunk>, app: App)
    ensures var next := Step(k, chunk, app);
            && Feed(k, [chunk] + cs, app) == Feed(next.0, cs, app)
            && (Smooth(k, [chunk] + cs, app) <==>
                  && |chunk.payload| == ReadLength(Announced(k.heads, chunk), k.inChunk)
                  && next.1 == Success && Smooth(next.0, cs, app))
  {
    hide Step, Announced, ReadLength;
    assert ([chunk] + cs)[1..] == cs;
  }

  lemma FeedNothing(k: Core, app: App)
    ensures Feed(k, [], app) == k && Smooth(k, [], app)
  {
  }

  lemma Unfinished(a: seq<byte>, rest: seq<byte>, n: nat, body: seq<byte>)
    requires a + rest == body && n <= |rest|
    ensures a + rest[..n] + rest[n..] == body
  {
  }

  lemma NextContinuation(c: nat, rest: seq<byte>, chunkSize: nat)
    requires 2 <= c < 64 && 0 < chunkSize && rest != []
    ensures var n := Least(|rest|, chunkSize);
            Continuations(c, rest, chunkSize) == [Chunk(3, c, [], rest[..n])] + Continuations(c, rest[n..], chunkSize)
  {
  }

  lemma BareHeader(heads: map<nat, Head>, c: nat, payload: seq<byte>)
    requires 2 <= c < 64 && c in heads
    ensures Announced(heads, Chunk(3, c, [], payload)) == heads[c]
  {
  }

  /** A head with part of a body, fed the rest in format 3 chunks, completes exactly that body. */
  lemma {:induction false} RestCompletes(k: Core, c: nat, body: seq<byte>, rest: seq<byte>, app: App)
    requires 2 <= c < 64 && 0 < k.inChunk && |body| < U32 && rest != []
    requires c in k.heads && k.heads[c].length == |body| && k.heads[c].msg + rest == body
    requires Welcome(k.heads[c].typeId) && forall d: seq<Message> :: app(d)
    ensures var cs := Continuations(c, rest, k.inChunk);
            Smooth(k, cs, app) && Feed(k, cs, app) == AfterMessage(k, c, k.heads[c], body)
    decreases |rest|
  {
    hide Step, Announced, ReadLength, AfterMessage, Feed, Smooth, Continuations, Welcome;
    var h := k.heads[c];
    var n := Least(|rest|, k.inChunk);
    var chunk := Chunk(3, c, [], rest[..n]);
    BareHeader(k.heads, c, rest[..n]);
    AsksForLeast(h, rest, k.inChunk);
    NextContinuation(c, rest, k.inChunk);
    FeedCons(k, chunk, Continuations(c, rest[n..], k.inChunk), app);
    if n == |rest| {
      assert rest[..n] == rest && rest[n..] == [];
      LastPart(k, chunk, h, body, app);
      NothingContinues(c, k.inChunk);
      FeedNothing(AfterMessage(k, c, h, body), app);
    } else {
      SomePart(k, chunk, h, app);
      Unfinished(h.msg, rest, n, body);
      PartIsDropped(k, c, h, h.msg + rest[..n], body);
      RestCompletes(k.(heads := k.heads[c := h.(msg := h.msg + rest[..n])]), c, body, rest[n..], app);
    }
  }

  lemma NothingContinues(c: nat, chunkSize: nat)
    requires 2 <= c < 64 && 0 < chunkSize
    ensures Continuations(c, [], chunkSize) == []
  {
  }

  /** The chunks of one message, read in the sender's chunk size, deliver exactly that message. */
  lemma {:induction false} MessageArrives(k: Core, fmt: nat, m: Outgoing, app: App)
    requires fmt < 4 && Sendable(m, k.inChunk) && Fits24(m) && Welcome(m.typeId)
    requires var h := HeadOf(k.heads, m.csId);
             h.msg == [] && (fmt >= 2 ==> h.length == |Body(m)| && h.typeId == m.typeId)
    requires forall d: seq<Message> :: app(d)
    ensures var cs := ChunksOf(fmt, m, k.inChunk);
            Smooth(k, cs, app)
            && Feed(k, cs, app) == AfterMessage(k, m.csId, Opened(HeadOf(k.heads, m.csId), fmt, m), Body(m))
  {
    var body := Body(m);
    var n := Least(|body|, k.inChunk);
    var o := Opened(HeadOf(k.heads, m.csId), fmt, m);
    OpenedFields(HeadOf(k.heads, m.csId), fmt, m);
    FirstChunk(k, Chunk(fmt, m.csId, MessageHeader(fmt, m), body[..n]), o, body, n, app);
    assert ChunksOf(fmt, m, k.inChunk)[1..] == Continuations(m.csId, body[n..], k.inChunk);
  }

  lemma {:induction false} FirstChunk(k: Core, chunk: Chunk, o: Head, body: seq<byte>, n: nat, app: App)
    requires 2 <= chunk.csId < 64 && 0 < k.inChunk && |body| < U32 && n == Least(|body|, k.inChunk)
    requires o == Announced(k.heads, chunk) && o.msg == [] && o.length == |body| && chunk.payload == body[..n]
    requires Welcome(o.typeId) && forall d: seq<Message> :: app(d)
    ensures var next := Step(k, chunk, app).0;
            var cs := Continuations(chunk.csId, body[n..], k.inChunk);
            && |chunk.payload| == ReadLength(o, k.inChunk) && Step(k, chunk, app).1 == Success
            && Smooth(next, cs, app) && Feed(next, cs, app) == AfterMessage(k, chunk.csId, o, body)
  {
    hide Step, Announced, ReadLength, AfterMessage, Feed, Smooth, Continuations, Welcome;
    var c := chunk.csId;
    AsksForLeast(o, body, k.inChunk);
    Unfinished([], body, n, body);
    assert [] + body[..n] == body[..n] && [] + body == body;
    if n == |body| {
      assert body[..n] == body && body[n..] == [];
      LastPart(k, chunk, o, body, app);
      NothingContinues(c, k.inChunk);
      FeedNothing(AfterMessage(k, c, o, body), app);
    } else {
      SomePart(k, chunk, o, app);
      PartIsDropped(k, c, o, body[..n], body);
      RestCompletes(k.(heads := k.heads[c := o.(msg := body[..n])]), c, body, body[n..], app);
    }
  }

  // ---------------------------------------------------------------------------------------------
  // One operation of the sender
  // ---------------------------------------------------------------------------------------------

  datatype Op = Post(m: Outgoing, forceFmt0: bool) | Resize(chunkSize: nat)

  function MessageOf(op: Op): Outgoing {
    match op
    case Post(m, _) => m
    case Resize(n) => ChunkSizeMessage(n)
  }

  function Forced(op: Op): bool {
    op.Resize? || op.forceFmt0
  }

  predicate Legal(op: Op) {
    match op
    case Post(m, _) =>
      2 <= m.csId < 64 && Fits24(m) && m.timestamp < U32 && m.delta < U32 && Welcome(m.typeId) && m.typeId != SET_CHUNK_SIZE
    case Resize(n) => 5 <= n < U32
  }

  type LegalOp = op: Op | Legal(op) witness Resize(128)

  function FormatOf(s: Sender, op: LegalOp): (fmt: nat)
    ensures fmt < 4
  {
    Format(SentOn(s.pre, MessageOf(op).csId), MessageOf(op), Forced(op))
  }

  function NewChunkSize(s: Sender, op: LegalOp): nat {
    if op.Resize? then op.chunkSize else s.outChunk
  }

  function OpChunks(s: Sender, op: LegalOp): seq<Chunk>
    requires s.outChunk >= 5
  {
    ChunksOf(FormatOf(s, op), MessageOf(op), NewChunkSize(s, op))
  }

  function Perform(s: Sender, op: LegalOp): (s': Sender)
    requires s.outChunk >= 5
    ensures s'.outChunk >= 5
  {
    match op
    case Post(m, force) => Send(s, m, force)
    case Resize(n) => RtmpSender.Resize(s, n)
  }

  function PerformAll(s: Sender, ops: seq<LegalOp>): Sender
    requires s.outChunk >= 5
    decreases |ops|
  {
    if ops == [] then s else PerformAll(Perform(s, ops[0]), ops[1..])
  }

  function BytesOf(s: Sender, ops: seq<LegalOp>): seq<byte>
    requires s.outChunk >= 5
    decreases |ops|
  {
    if ops == [] then [] else WireAll(OpChunks(s, ops[0])) + BytesOf(Perform(s, ops[0]), ops[1..])
  }

  lemma {:induction false} SenderEmits(s: Sender, ops: seq<LegalOp>)
    requires s.outChunk >= 5
    ensures PerformAll(s, ops).wire == s.wire + BytesOf(s, ops)
    decreases |ops|
  {
    if ops != [] {
      SenderEmits(Perform(s, ops[0]), ops[1..]);
      assert s.wire + WireAll(OpChunks(s, ops[0])) + BytesOf(Perform(s, ops[0]), ops[1..])
             == s.wire + (WireAll(OpChunks(s, ops[0])) + BytesOf(Perform(s, ops[0]), ops[1..]));
    }
  }

  /** The two memories of a csid agree on what formats 2 and 3 leave out. */
  predicate Paired(p: Sent, h: Head) {
    h.msg == [] && (p.length > 0 ==> h.length == p.length && h.typeId == p.typeId)
  }

  predicate InSync(s: Sender, r: Receiver) {
    && r.open && r.buf == [] && r.core.inChunk == s.outChunk >= 5
    && forall c :: 2 <= c < 64 ==> Paired(SentOn(s.pre, c), HeadOf(r.core.heads, c))
  }

  lemma SameChunksWhenOneSuffices(fmt: nat, m: Outgoing, a: nat, b: nat)
    requires fmt < 4 && 2 <= m.csId < 64 && |Body(m)| <= a && |Body(m)| <= b && 0 < a && 0 < b
    ensures ChunksOf(fmt, m, a) == ChunksOf(fmt, m, b)
  {
    assert Body(m)[|Body(m)|..] == [];
  }

  lemma AnnouncementBody(n: nat)
    requires n < U32
    ensures var b := Body(ChunkSizeMessage(n));
            |b| == 4 && AnnouncedChunkSize(b) == n
  {
    Ranges();
    FieldRoundTrip(4, n);
    var data := BigEndian(4, n);
    assert [] + data == data && data[..4] == data;
  }

  /** What the receiver's head of the op's csid has become. */
  predicate ClockMoved(h: Head, h': Head, fmt: nat, delta: nat) {
    && h'.delta == (if fmt == 1 || fmt == 2 then delta else h.delta)
    && h'.clock == ((if fmt == 0 then delta else h.clock) + h'.delta) % U32
  }

  /** The receiver's memory after the chunks of one operation. */
  function CoreAfter(s: Sender, r: Receiver, op: LegalOp): Core {
    var m := MessageOf(op);
    AfterMessage(r.core, m.csId, Opened(HeadOf(r.core.heads, m.csId), FormatOf(s, op), m), Body(m))
  }

  lemma {:induction false} OpReceived(s: Sender, r: Receiver, op: LegalOp, app: App)
    requires InSync(s, r) && forall d: seq<Message> :: app(d)
    ensures Receive(r, WireAll(OpChunks(s, op)), app) == r.(core := CoreAfter(s, r, op))
  {
    hide AfterMessage, Opened, WireAll, Feed, Smooth;
    var m := MessageOf(op);
    var fmt := FormatOf(s, op);
    assert Paired(SentOn(s.pre, m.csId), HeadOf(r.core.heads, m.csId));
    if op.Resize? {
      AnnouncementBody(op.chunkSize);
      SameChunksWhenOneSuffices(fmt, m, op.chunkSize, r.core.inChunk);
    }
    assert OpChunks(s, op) == ChunksOf(fmt, m, r.core.inChunk);
    MessageArrives(r.core, fmt, m, app);
    var all := r.(buf := WireAll(OpChunks(s, op)));
    assert r.buf + all.buf == all.buf;
    RunOfChunks(all, OpChunks(s, op), app);
  }

  /** The effect of one operation on the receiver: its message delivered, its csid's clock moved, nothing else. */
  predicate Delivers(s: Sender, k: Core, op: LegalOp, k': Core) {
    var m := MessageOf(op);
    var h, h' := HeadOf(k.heads, m.csId), HeadOf(k'.heads, m.csId);
    && k'.delivered == k.delivered + [Message(m.csId, h'.clock, m.typeId, Body(m))]
    && k'.heads == k.heads[m.csId := h'] && k'.inChunk == NewChunkSize(s, op)
    && h'.msg == [] && h'.length == |Body(m)| && h'.typeId == m.typeId
    && ClockMoved(h, h', FormatOf(s, op), OnWire(m.delta))
  }

  lemma CoreAfterDelivers(s: Sender, r: Receiver, op: LegalOp)
    requires InSync(s, r)
    ensures Delivers(s, r.core, op, CoreAfter(s, r, op))
  {
    var m := MessageOf(op);
    assert Paired(SentOn(s.pre, m.csId), HeadOf(r.core.heads, m.csId));
    OpenedFields(HeadOf(r.core.heads, m.csId), FormatOf(s, op), m);
    if op.Resize? {
      AnnouncementBody(op.chunkSize);
    }
  }

  /** One operation keeps the memories in step and delivers exactly its message. */
  lemma {:induction false} OpArrives(s: Sender, r: Receiver, op: LegalOp, app: App)
    requires InSync(s, r) && forall d: seq<Message> :: app(d)
    ensures var r' := Receive(r, WireAll(OpChunks(s, op)), app);
            InSync(Perform(s, op), r') && Delivers(s, r.core, op, r'.core)
  {
    OpReceived(s, r, op, app);
    CoreAfterDelivers(s, r, op);
    StaysInSync(s, r, op, CoreAfter(s, r, op));
  }

  /** The first operation of a run, and what is left to be read after it. */
  lemma {:induction false} OpThenRest(s: Sender, r: Receiver, op: LegalOp, rest: seq<byte>, app: App)
    requires InSync(s, r) && forall d: seq<Message> :: app(d)
    ensures var mid := r.(core := CoreAfter(s, r, op));
            && InSync(Perform(s, op), mid) && Delivers(s, r.core, op, mid.core)
            && Receive(r, WireAll(OpChunks(s, op)) + rest, app) == Receive(mid, rest, app)
  {
    OpReceived(s, r, op, app);
    OpArrives(s, r, op, app);
    TwoReads(r, WireAll(OpChunks(s, op)), rest, app);
  }

  /** What an operation leaves in the sender's memory. */
  lemma PerformShape(s: Sender, op: LegalOp)
    requires s.outChunk >= 5
    ensures var m := MessageOf(op);
            Perform(s, op).pre == s.pre[m.csId := InfoOf(m)] && Perform(s, op).outChunk == NewChunkSize(s, op)
  {
    hide Body, WireAll, ChunksOf, InfoOf, Format;
  }

  /** The csid of the operation is paired again, and the others are untouched. */
  lemma StillPaired(pre: map<nat, Sent>, heads: map<nat, Head>, m: Outgoing, h: Head, c: nat)
    requires Paired(SentOn(pre, c), HeadOf(heads, c))
    requires h.msg == [] && h.length == |Body(m)| && h.typeId == m.typeId
    ensures Paired(SentOn(pre[m.csId := InfoOf(m)], c), HeadOf(heads[m.csId := h], c))
  {
    hide Body;
  }

  lemma StaysInSync(s: Sender, r: Receiver, op: LegalOp, k: Core)
    requires InSync(s, r) && Delivers(s, r.core, op, k)
    ensures InSync(Perform(s, op), r.(core := k))
  {
    hide Body, FormatOf, Perform, NewChunkSize, MessageOf, Paired, InfoOf, SentOn, HeadOf, ClockMoved;
    var m := MessageOf(op);
    PerformShape(s, op);
    forall c | 2 <= c < 64 ensures Paired(SentOn(s.pre[m.csId := InfoOf(m)], c), HeadOf(k.heads, c)) {
      StillPaired(s.pre, r.core.heads, m, HeadOf(k.heads, m.csId), c);
    }
  }

  // ---------------------------------------------------------------------------------------------
  // Whole runs: content
  // ---------------------------------------------------------------------------------------------

  datatype Content = Content(csId: nat, typeId: byte, body: seq<byte>)

  function ContentOf(m: Outgoing): Content {
    Content(m.csId, m.typeId, Body(m))
  }

  function Posted(ops: seq<LegalOp>): seq<Content> {
    if ops == [] then [] else [ContentOf(MessageOf(ops[0]))] + Posted(ops[1..])
  }

  function Contents(ms: seq<Message>): seq<Content> {
    if ms == [] then [] else [Content(ms[0].csId, ms[0].typeId, ms[0].body)] + Contents(ms[1..])
  }

  /** The messages that the receiver has delivered since it was in state `r`. */
  function Since(r: Receiver, r': Receiver): seq<Message>
    requires |r.core.delivered| <= |r'.core.delivered|
  {
    r'.core.delivered[|r.core.delivered|..]
  }

  lemma SinceStep(r: Receiver, mid: Receiver, end: Receiver, m: Message)
    requires mid.core.delivered == r.core.delivered + [m]
    requires mid.core.delivered <= end.core.delivered
    ensures Since(r, end) == [m] + Since(mid, end) && r.core.delivered <= end.core.delivered
  {
  }

  /**
   Whatever the sender posts, in any order and with any changes of chunk size in between, the receiver delivers
   the same messages in the same order, and both sides stay in step.
   */
  lemma {:induction false} RoundTrip(s: Sender, r: Receiver, ops: seq<LegalOp>, app: App)
    requires InSync(s, r) && forall d: seq<Message> :: app(d)
    ensures var r' := Receive(r, BytesOf(s, ops), app);
            && InSync(PerformAll(s, ops), r')
            && r.core.delivered <= r'.core.delivered && Contents(Since(r, r')) == Posted(ops)
    decreases |ops|
  {
    if ops == [] {
      NothingReceived(r, app);
    } else {
      var mid := r.(core := CoreAfter(s, r, ops[0]));
      var s' := Perform(s, ops[0]);
      OpThenRest(s, r, ops[0], BytesOf(s', ops[1..]), app);
      RoundTrip(s', mid, ops[1..], app);
      SinceStep(r, mid, Receive(mid, BytesOf(s', ops[1..]), app), mid.core.delivered[|r.core.delivered|]);
    }
  }

  lemma {:induction false} NothingReceived(r: Receiver, app: App)
    requires r.open && r.buf == []
    ensures Receive(r, [], app) == r
  {
    assert r.buf + [] == r.buf;
  }

  /** The same, however the network cuts the bytes. */
  lemma {:induction false} RoundTripOverAnyFragmentation(
      s: Sender, r: Receiver, ops: seq<LegalOp>, pieces: seq<seq<byte>>, app: App)
    requires InSync(s, r) && forall d: seq<Message> :: app(d)
    requires pieces != [] && PerformAll(s, ops).wire == s.wire + Concat(pieces)
    ensures var r' := ReceiveAll(r, pieces, app);
            && InSync(PerformAll(s, ops), r')
            && r.core.delivered <= r'.core.delivered && Contents(Since(r, r')) == Posted(ops)
  {
    SenderEmits(s, ops);
    SameTail(s.wire, Concat(pieces), BytesOf(s, ops));
    RoundTrip(s, r, ops, app);
    FragmentationIndependence(r, pieces, app);
  }

  lemma {:induction false} ContentsOfPrefix(ms: seq<Message>, n: nat)
    requires n <= |ms|
    ensures |Contents(ms)| == |ms| && Contents(ms[..n]) == Contents(ms)[..n]
    decreases |ms|
  {
    if ms != [] {
      ContentsOfPrefix(ms[1..], if n == 0 then 0 else n - 1);
      if n > 0 {
        assert ms[..n][1..] == ms[1..][..n - 1];
      }
    }
  }

  lemma SinceOfPrefix(r: Receiver, all: seq<Message>, n: nat)
    requires r.core.delivered <= all && |r.core.delivered| <= n <= |all|
    ensures all[..n][|r.core.delivered|..] == all[|r.core.delivered|..][..n - |r.core.delivered|]
  {
  }

  /**
   The same with handlers that may refuse: what is delivered is what was posted up to and including the first message that
   is refused, and then the connection is closed; if none is refused, nothing changes.
   */
  lemma {:induction false} RoundTripUpToRefusal(s: Sender, r: Receiver, ops: seq<LegalOp>, app: App)
    requires InSync(s, r)
    ensures var all, got := Receive(r, BytesOf(s, ops), YES), Receive(r, BytesOf(s, ops), app);
            && r.core.delivered <= all.core.delivered && r.core.delivered <= got.core.delivered
            && Contents(Since(r, all)) == Posted(ops)
            && match FirstRefused(all.core.delivered, |r.core.delivered|, app)
               case None => InSync(PerformAll(s, ops), got) && Contents(Since(r, got)) == Posted(ops)
               case Some(n) =>
                 && !got.open && Refused(got.core.delivered, app)
                 && n - |r.core.delivered| <= |Posted(ops)| && Contents(Since(r, got)) == Posted(ops)[..n - |r.core.delivered|]
  {
    hide Run, BytesOf, Contents, Posted, InSync, Refused;
    IsOpen(s, r);
    var bytes := BytesOf(s, ops);
    RoundTrip(s, r, ops, YES);
    RefusalCuts(r.(buf := r.buf + bytes), app);
    var all := Receive(r, bytes, YES).core.delivered;
    match FirstRefused(all, |r.core.delivered|, app)
    case None =>
    case Some(n) =>
      SinceOfPrefix(r, all, n);
      ContentsOfPrefix(all[|r.core.delivered|..], n - |r.core.delivered|);
  }

  lemma IsOpen(s: Sender, r: Receiver)
    requires InSync(s, r)
    ensures r.open && s.outChunk >= 5
  {
  }

  lemma SameTail(a: seq<byte>, b: seq<byte>, c: seq<byte>)
    requires a + b == a + c
    ensures b == c
  {
    assert b == (a + b)[|a|..] && c == (a + c)[|a|..];
  }
}
