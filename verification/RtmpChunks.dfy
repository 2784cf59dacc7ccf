/**
 Chunks as the receiver sees them: their bytes, the effect of a list of chunks on the receiver, and the
 independence of the chunk streams that share a connection.
 */
module RtmpChunks {
  import opened Bytes
  import opened RtmpReceiver

  datatype ChunkFields = Chunk(fmt: nat, csId: nat, header: seq<byte>, payload: seq<byte>)

  type Chunk = c: ChunkFields | WellFormed(c) witness Chunk(3, 2, [], [])

  /** The chunk stream ids that a basic header can name, as this parser reads its three forms. */
  const CSID_LIMIT := 64 + 0x1_0000

  predicate WellFormed(c: ChunkFields) {
    c.fmt < 4 && 2 <= c.csId < CSID_LIMIT && |c.header| == HeaderLength(c.fmt)
  }

  function BasicHeader(fmt: nat, csId: nat): seq<byte>
    requires fmt < 4 && 2 <= csId < CSID_LIMIT
  {
    if csId < 64 then [fmt * 64 + csId]
    else if csId < 320 then [fmt * 64, csId - 64]
    else [fmt * 64 + 1] + BigEndian(2, csId - 64)
  }

  function Wire(c: Chunk): seq<byte>
  {
    BasicHeader(c.fmt, c.csId) + c.header + c.payload
  }

  function WireAll(cs: seq<Chunk>): seq<byte>
  {
    if cs == [] then [] else Wire(cs[0]) + WireAll(cs[1..])
  }

  /** The head of the chunk's csid once the chunk's own header has been applied. */
  function Announced(heads: map<nat, Head>, c: Chunk): Head
  {
    ApplyHeader(HeadOf(heads, c.csId), c.fmt, c.header)
  }

  function Step(k: Core, c: Chunk, app: App): (Core, Outcome)
  {
    Absorb(k, c.csId, Announced(k.heads, c), c.payload, app)
  }

  function Feed(k: Core, cs: seq<Chunk>, app: App): Core
    decreases |cs|
  {
    if cs == [] then k else Feed(Step(k, cs[0], app).0, cs[1..], app)
  }

  /** Every chunk carries exactly the bytes the receiver asks for, and no message is refused. */
  predicate Smooth(k: Core, cs: seq<Chunk>, app: App)
    decreases |cs|
  {
    cs == [] ||
    (&& |cs[0].payload| == ReadLength(Announced(k.heads, cs[0]), k.inChunk)
     && Step(k, cs[0], app).1 == Success
     && Smooth(Step(k, cs[0], app).0, cs[1..], app))
  }

  lemma BasicHeaderRoundTrip(fmt: nat, csId: nat, rest: seq<byte>)
    requires fmt < 4 && 2 <= csId < CSID_LIMIT
    ensures var b := BasicHeader(fmt, csId);
            ReadBasic(b + rest) == Basic(fmt, csId, |b|)
  {
    var s := BasicHeader(fmt, csId) + rest;
    if 320 <= csId {
      assert s[1..3] == BigEndian(2, csId - 64);
      Ranges();
      FieldRoundTrip(2, csId - 64);
    }
  }

  /** The bytes of a chunk scan back to that chunk, whatever follows them. */
  lemma ScanOfWire(k: Core, c: Chunk, rest: seq<byte>)
    requires |c.payload| == ReadLength(Announced(k.heads, c), k.inChunk)
    ensures var body := |BasicHeader(c.fmt, c.csId)| + |c.header|;
            && ScanChunk(k, Wire(c) + rest) == Whole(c.csId, Announced(k.heads, c), body, |Wire(c)|)
            && (Wire(c) + rest)[body..|Wire(c)|] == c.payload
            && (Wire(c) + rest)[|Wire(c)|..] == rest
  {
    var b := BasicHeader(c.fmt, c.csId);
    var s := Wire(c) + rest;
    assert s == b + (c.header + c.payload + rest);
    BasicHeaderRoundTrip(c.fmt, c.csId, c.header + c.payload + rest);
    assert s[|b|..|b| + |c.header|] == c.header;
  }

  lemma {:induction false} RunOfChunks(r: Receiver, cs: seq<Chunk>, app: App)
    requires r.buf == WireAll(cs) && Smooth(r.core, cs, app)
    ensures Run(r, app) == Receiver(Feed(r.core, cs, app), [], r.open)
    decreases |cs|
  {
    if cs != [] {
      var rest := WireAll(cs[1..]);
      ScanOfWire(r.core, cs[0], rest);
      var next := Receiver(Step(r.core, cs[0], app).0, rest, r.open);
      assert ParseStep(r, app) == (next, Success);
      RunOfChunks(next, cs[1..], app);
    }
  }

  // ---------------------------------------------------------------------------------------------
  // Interleaving
  // ---------------------------------------------------------------------------------------------

  function Only(cs: seq<Chunk>, csId: nat): (r: seq<Chunk>)
    ensures forall c :: c in r ==> c in cs && c.csId == csId
  {
    if cs == [] then []
    else if cs[0].csId == csId then [cs[0]] + Only(cs[1..], csId)
    else Only(cs[1..], csId)
  }

  function MessagesOn(ms: seq<Message>, csId: nat): seq<Message> {
    if ms == [] then []
    else MessagesOn(ms[..|ms| - 1], csId) + (if ms[|ms| - 1].csId == csId then [ms[|ms| - 1]] else [])
  }

  /** The message, if any, that `bytes` complete. */
  function Emitted(csId: nat, h: Head, bytes: seq<byte>): seq<Message> {
    if Completes(h, bytes) then [CompletedMessage(csId, h, bytes)] else []
  }

  /** One chunk stream on its own: what its head becomes, and the messages it completes. */
  function Thread(h: Head, csId: nat, cs: seq<Chunk>): (Head, seq<Message>)
    decreases |cs|
  {
    if cs == [] then (h, [])
    else
      var a := ApplyHeader(h, cs[0].fmt, cs[0].header);
      var (end, later) := Thread(NextHead(a, cs[0].payload), csId, cs[1..]);
      (end, Emitted(csId, a, cs[0].payload) + later)
  }

  /** Each chunk of one chunk stream brings as many bytes as its message still needs, up to the chunk size. */
  predicate ThreadFits(h: Head, chunkSize: nat, cs: seq<Chunk>)
    decreases |cs|
  {
    cs == [] ||
    (var a := ApplyHeader(h, cs[0].fmt, cs[0].header);
     |cs[0].payload| == ReadLength(a, chunkSize) && ThreadFits(NextHead(a, cs[0].payload), chunkSize, cs[1..]))
  }

  /** Messages that no receiver refuses and that leave the chunk size alone. */
  predicate Ordinary(m: Message) {
    m.typeId in {0, 3, 4, 5, 6, 8, 9, 15, 18, 20}
  }

  predicate ThreadOk(h: Head, i: nat, cs: seq<Chunk>, chunkSize: nat) {
    ThreadFits(h, chunkSize, cs) && forall m :: m in Thread(h, i, cs).1 ==> Ordinary(m)
  }

  ghost predicate Separable(k: Core, cs: seq<Chunk>) {
    forall i :: ThreadOk(HeadOf(k.heads, i), i, Only(cs, i), k.inChunk)
  }

  /** What csid `i` ends with after all of `cs`, compared with its own thread. */
  ghost predicate MatchesThread(k: Core, end: Core, cs: seq<Chunk>, i: nat) {
    var t := Thread(HeadOf(k.heads, i), i, Only(cs, i));
    HeadOf(end.heads, i) == t.0 && MessagesOn(end.delivered, i) == MessagesOn(k.delivered, i) + t.1
  }

  lemma {:induction false} StreamsDoNotInterfere(k: Core, cs: seq<Chunk>, app: App)
    requires Separable(k, cs) && (forall d: seq<Message> :: app(d))
    ensures Smooth(k, cs, app)
    ensures forall i :: MatchesThread(k, Feed(k, cs, app), cs, i)
    decreases |cs|
  {
    if cs != [] {
      var next := Step(k, cs[0], app).0;
      StepSucceeds(k, cs, app);
      forall i ensures Advanced(k, next, cs, i) {
        StepOnThread(k, cs, app, i);
      }
      assert Separable(next, cs[1..]) by {
        forall i ensures ThreadOk(HeadOf(next.heads, i), i, Only(cs[1..], i), next.inChunk) {
          assert Advanced(k, next, cs, i);
        }
      }
      StreamsDoNotInterfere(next, cs[1..], app);
      forall i ensures MatchesThread(k, Feed(k, cs, app), cs, i) {
        assert Advanced(k, next, cs, i);
        assert MatchesThread(next, Feed(next, cs[1..], app), cs[1..], i);
      }
    }
  }

  lemma {:induction false} DeliveredByStep(k: Core, c: Chunk, app: App, i: nat)
    ensures MessagesOn(Step(k, c, app).0.delivered, i)
            == MessagesOn(k.delivered, i)
               + if i == c.csId then Emitted(i, Announced(k.heads, c), c.payload) else []
  {
    var next := Step(k, c, app).0;
    if Completes(Announced(k.heads, c), c.payload) {
      assert next.delivered[..|next.delivered| - 1] == k.delivered;
    }
  }

  /** What one step of the shared receiver leaves to be done for the thread of csid `i`. */
  ghost predicate Advanced(k: Core, next: Core, cs: seq<Chunk>, i: nat)
    requires cs != []
  {
    var t, t' := Thread(HeadOf(k.heads, i), i, Only(cs, i)), Thread(HeadOf(next.heads, i), i, Only(cs[1..], i));
    && ThreadOk(HeadOf(next.heads, i), i, Only(cs[1..], i), k.inChunk)
    && t.0 == t'.0
    && MessagesOn(next.delivered, i) + t'.1 == MessagesOn(k.delivered, i) + t.1
  }

  /** One step of the shared receiver is one step of the thread it belongs to and no step of any other. */
  lemma {:induction false} StepOnThread(k: Core, cs: seq<Chunk>, app: App, i: nat)
    requires cs != [] && Separable(k, cs)
    ensures Advanced(k, Step(k, cs[0], app).0, cs, i)
  {
    assert ThreadOk(HeadOf(k.heads, i), i, Only(cs, i), k.inChunk);
    DeliveredByStep(k, cs[0], app, i);
    HeadAfterStep(k, cs[0], app, i);
    ThreadJoins(k, Step(k, cs[0], app).0, cs, i);
  }

  lemma {:induction false} ThreadJoins(k: Core, next: Core, cs: seq<Chunk>, i: nat)
    requires cs != [] && ThreadOk(HeadOf(k.heads, i), i, Only(cs, i), k.inChunk)
    requires HeadOf(next.heads, i)
             == if i == cs[0].csId then NextHead(Announced(k.heads, cs[0]), cs[0].payload) else HeadOf(k.heads, i)
    requires MessagesOn(next.delivered, i)
             == MessagesOn(k.delivered, i)
                + if i == cs[0].csId then Emitted(i, Announced(k.heads, cs[0]), cs[0].payload) else []
    ensures Advanced(k, next, cs, i)
  {
    ThreadAdvances(HeadOf(k.heads, i), i, cs, k.inChunk);
    var t' := Thread(HeadOf(next.heads, i), i, Only(cs[1..], i)).1;
    var a := ApplyHeader(HeadOf(k.heads, i), cs[0].fmt, cs[0].header);
    Regroup(MessagesOn(k.delivered, i), if i == cs[0].csId then Emitted(i, a, cs[0].payload) else [], t');
  }

  lemma Regroup(a: seq<Message>, b: seq<Message>, c: seq<Message>)
    ensures a + b + c == a + (b + c)
  {
  }

  lemma HeadAfterStep(k: Core, c: Chunk, app: App, i: nat)
    ensures HeadOf(Step(k, c, app).0.heads, i)
            == if i == c.csId then NextHead(Announced(k.heads, c), c.payload) else HeadOf(k.heads, i)
  {
  }

  lemma {:induction false} ThreadAdvances(h: Head, i: nat, cs: seq<Chunk>, chunkSize: nat)
    requires cs != [] && ThreadFits(h, chunkSize, Only(cs, i))
    ensures var c := cs[0];
            var a := ApplyHeader(h, c.fmt, c.header);
            var h' := if i == c.csId then NextHead(a, c.payload) else h;
            var t, t' := Thread(h, i, Only(cs, i)), Thread(h', i, Only(cs[1..], i));
            && ThreadFits(h', chunkSize, Only(cs[1..], i))
            && t.0 == t'.0 && (forall m :: m in t'.1 ==> m in t.1)
            && (if i == c.csId then Emitted(i, a, c.payload) else []) + t'.1 == t.1
  {
    if i == cs[0].csId {
      assert Only(cs, i) == [cs[0]] + Only(cs[1..], i);
      ThreadOfCons(h, i, cs[0], Only(cs[1..], i), chunkSize);
    }
  }

  lemma {:induction false} ThreadOfCons(h: Head, i: nat, c: Chunk, rest: seq<Chunk>, chunkSize: nat)
    ensures var a := ApplyHeader(h, c.fmt, c.header);
            var t, t' := Thread(h, i, [c] + rest), Thread(NextHead(a, c.payload), i, rest);
            && t == (t'.0, Emitted(i, a, c.payload) + t'.1)
            && (forall m :: m in t'.1 ==> m in t.1)
            && (ThreadFits(h, chunkSize, [c] + rest)
                ==> |c.payload| == ReadLength(a, chunkSize) && ThreadFits(NextHead(a, c.payload), chunkSize, rest))
  {
    assert ([c] + rest)[1..] == rest;
  }

  lemma {:induction false} StepSucceeds(k: Core, cs: seq<Chunk>, app: App)
    requires cs != [] && Separable(k, cs) && (forall d: seq<Message> :: app(d))
    ensures |cs[0].payload| == ReadLength(Announced(k.heads, cs[0]), k.inChunk)
    ensures Step(k, cs[0], app).1 == Success && Step(k, cs[0], app).0.inChunk == k.inChunk
  {
    var c := cs[0];
    var a := Announced(k.heads, c);
    assert ThreadOk(HeadOf(k.heads, c.csId), c.csId, Only(cs, c.csId), k.inChunk);
    assert Only(cs, c.csId) == [c] + Only(cs[1..], c.csId);
    ThreadOfCons(HeadOf(k.heads, c.csId), c.csId, c, Only(cs[1..], c.csId), k.inChunk);
    if Completes(a, c.payload) {
      var m := CompletedMessage(c.csId, a, c.payload);
      assert Emitted(c.csId, a, c.payload)[0] == m;
      assert m in Thread(HeadOf(k.heads, c.csId), c.csId, Only(cs, c.csId)).1;
    }
  }

  lemma {:induction false} OnlyTwice(cs: seq<Chunk>, i: nat, j: nat)
    ensures Only(Only(cs, i), j) == if i == j then Only(cs, i) else []
  {
    if cs != [] {
      OnlyTwice(cs[1..], i, j);
    }
  }

  /**
   However the chunks of different chunk streams are interleaved on the wire, each stream delivers what it
   would have delivered alone, because the streams share no memory.
   */
  lemma {:induction false} InterleavingIndependence(r: Receiver, cs: seq<Chunk>, app: App, i: nat)
    requires r.open && r.buf == []
    requires Separable(r.core, cs) && (forall d: seq<Message> :: app(d))
    ensures var shared, alone := Receive(r, WireAll(cs), app), Receive(r, WireAll(Only(cs, i)), app);
            && shared.open && shared.buf == []
            && MessagesOn(shared.core.delivered, i) == MessagesOn(alone.core.delivered, i)
            && HeadOf(shared.core.heads, i) == HeadOf(alone.core.heads, i)
  {
    var mine := Only(cs, i);
    forall j ensures Only(mine, j) == if i == j then mine else [] {
      OnlyTwice(cs, i, j);
    }
    assert Separable(r.core, mine) by {
      forall j ensures ThreadOk(HeadOf(r.core.heads, j), j, Only(mine, j), r.core.inChunk) {
        assert ThreadOk(HeadOf(r.core.heads, j), j, Only(cs, j), r.core.inChunk);
      }
    }
    StreamsDoNotInterfere(r.core, cs, app);
    StreamsDoNotInterfere(r.core, mine, app);
    RunOfChunks(r.(buf := WireAll(cs)), cs, app);
    RunOfChunks(r.(buf := WireAll(mine)), mine, app);
    assert MatchesThread(r.core, Feed(r.core, cs, app), cs, i);
    assert MatchesThread(r.core, Feed(r.core, mine, app), mine, i);
    assert r.buf + WireAll(cs) == WireAll(cs) && r.buf + WireAll(mine) == WireAll(mine);
  }
}
