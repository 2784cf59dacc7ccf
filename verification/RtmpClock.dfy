/**
 The receiver's clock. A format 0 chunk sets the receiver's timestamp but not its remembered delta, which is
 nevertheless added when the message completes, and only 24 bits of a delta go out. So the clock is the running sum
 of the sender's deltas exactly on the runs described by `ClockSafe`, and a player gets every frame at its decoding
 time, and everything else at time 0, exactly in the play sessions described by `AllOnTime`.
 */
module RtmpClock {
  import opened Bytes
  import opened Media
  import opened RtmpReceiver
  import opened RtmpChunks
  import opened RtmpSender
  import opened RtmpRoundTrip

  function At(m: map<nat, nat>, c: nat): nat {
    if c in m then m[c] else 0
  }

  function Stamps(ms: seq<Message>): seq<nat> {
    if ms == [] then [] else [ms[0].timestamp] + Stamps(ms[1..])
  }

  /** The running sum of the posted deltas on each csid, starting from `sums`, message by message. */
  function RunningSums(sums: map<nat, nat>, ops: seq<LegalOp>): seq<nat>
    decreases |ops|
  {
    if ops == [] then []
    else
      [NextSum(sums, ops[0])] + RunningSums(sums[MessageOf(ops[0]).csId := NextSum(sums, ops[0])], ops[1..])
  }

  /** The last delta that was written out on the csid in a format 1 or 2 header, as it went out. */
  function Explicit(s: Sender, explicits: map<nat, nat>, op: LegalOp): map<nat, nat> {
    var m := MessageOf(op);
    if FormatOf(s, op) == 1 || FormatOf(s, op) == 2 then explicits[m.csId := OnWire(m.delta)] else explicits
  }

  /** The part of a delta that does not go out. */
  function Lost(delta: nat): nat {
    delta - OnWire(delta)
  }

  /**
   What the sender must check before a post: a format 0 message needs the last explicit delta of its csid to
   equal the sum so far and what is lost of the message's own delta, formats 1 and 2 must lose nothing, and a
   format 3 message needs the last explicit delta to equal its own.
   */
  predicate SafePost(s: Sender, sums: map<nat, nat>, explicits: map<nat, nat>, op: LegalOp) {
    var m := MessageOf(op);
    match FormatOf(s, op)
    case 0 => At(explicits, m.csId) == (At(sums, m.csId) + Lost(m.delta)) % U32
    case 3 => At(explicits, m.csId) == m.delta
    case _ => Lost(m.delta) == 0
  }

  function NextSum(sums: map<nat, nat>, op: LegalOp): nat {
    (At(sums, MessageOf(op).csId) + MessageOf(op).delta) % U32
  }

  predicate ClockSafe(s: Sender, sums: map<nat, nat>, explicits: map<nat, nat>, ops: seq<LegalOp>)
    requires s.outChunk >= 5
    decreases |ops|
  {
    ops == [] ||
    (&& SafePost(s, sums, explicits, ops[0])
     && ClockSafe(Perform(s, ops[0]), sums[MessageOf(ops[0]).csId := NextSum(sums, ops[0])],
                  Explicit(s, explicits, ops[0]), ops[1..]))
  }

  /** The receiver's heads hold the running sums and the last explicit deltas. */
  ghost predicate Clocked(k: Core, sums: map<nat, nat>, explicits: map<nat, nat>) {
    forall c :: HeadOf(k.heads, c).clock == At(sums, c) < U32 && HeadOf(k.heads, c).delta == At(explicits, c) < U32
  }

  lemma AddIsInjective(a: nat, b: nat, d: nat)
    requires a < U32 && b < U32
    ensures (a + d) % U32 == (b + d) % U32 <==> a == b
  {
    var x, y := (a + d) / U32, (b + d) / U32;
    assert a + d == U32 * x + (a + d) % U32 && b + d == U32 * y + (b + d) % U32;
  }

  lemma AddTwice(a: nat, b: nat, w: nat)
    ensures ((a + b) % U32 + w) % U32 == (a + (b + w)) % U32
  {
    var q := (a + b) / U32;
    assert a + b == U32 * q + (a + b) % U32;
    SameModulo((a + b) % U32 + w, a + (b + w), q);
  }

  lemma SameModulo(x: nat, y: nat, q: nat)
    requires y == x + U32 * q
    ensures x % U32 == y % U32
  {
  }

  /** The three ways in which a delta reaches the clock. */
  lemma StampArithmetic(clock: nat, e: nat, d: nat)
    requires clock < U32 && e < U32 && d < U32
    ensures (OnWire(d) + e) % U32 == (clock + d) % U32 <==> e == (clock + Lost(d)) % U32
    ensures (clock + OnWire(d)) % U32 == (clock + d) % U32 <==> Lost(d) == 0
    ensures (clock + e) % U32 == (clock + d) % U32 <==> e == d
  {
    hide OnWire;
    WireIsSmaller(d);
    AddTwice(clock, Lost(d), OnWire(d));
    AddIsInjective(e, (clock + Lost(d)) % U32, OnWire(d));
    AddIsInjective(OnWire(d), d, clock);
    AddIsInjective(e, d, clock);
  }

  lemma WireIsSmaller(d: nat)
    ensures OnWire(d) <= d && OnWire(d) < 0x100_0000
  {
  }

  /** One post: the receiver's stamp is the running sum exactly when the post was safe, and then all heads agree. */
  lemma StampIsSum(s: Sender, r: Receiver, op: LegalOp, k': Core, sums: map<nat, nat>, explicits: map<nat, nat>)
    requires InSync(s, r) && Delivers(s, r.core, op, k') && Clocked(r.core, sums, explicits)
    ensures var c := MessageOf(op).csId;
            && (HeadOf(k'.heads, c).clock == NextSum(sums, op) <==> SafePost(s, sums, explicits, op))
            && (SafePost(s, sums, explicits, op)
                ==> Clocked(k', sums[c := NextSum(sums, op)], Explicit(s, explicits, op)))
  {
    hide OnWire, Lost, InSync, FormatOf, Body;
    var m := MessageOf(op);
    var h := HeadOf(r.core.heads, m.csId);
    assert h.clock == At(sums, m.csId) && h.delta == At(explicits, m.csId);
    DeltaFits(op);
    StampArithmetic(At(sums, m.csId), At(explicits, m.csId), m.delta);
    WireIsSmaller(m.delta);
    forall c | c != m.csId
      ensures HeadOf(k'.heads, c) == HeadOf(r.core.heads, c)
    {
    }
  }

  lemma DeltaFits(op: LegalOp)
    ensures MessageOf(op).delta < U32 && MessageOf(op).timestamp < U32
  {
  }

  /** On a run that starts in agreement, every delivered stamp is the running sum if and only if the run is safe. */
  lemma {:induction false} ClockIsRunningSumIff(
      s: Sender, r: Receiver, sums: map<nat, nat>, explicits: map<nat, nat>, ops: seq<LegalOp>, app: App)
    requires InSync(s, r) && Clocked(r.core, sums, explicits) && forall d: seq<Message> :: app(d)
    ensures var r' := Receive(r, BytesOf(s, ops), app);
            && r.core.delivered <= r'.core.delivered
            && (Stamps(Since(r, r')) == RunningSums(sums, ops) <==> ClockSafe(s, sums, explicits, ops))
    decreases |ops|
  {
    if ops == [] {
      NothingReceived(r, app);
    } else {
      var op := ops[0];
      var mid := r.(core := CoreAfter(s, r, op));
      var s' := Perform(s, op);
      var end := Receive(mid, BytesOf(s', ops[1..]), app);
      OpThenRest(s, r, op, BytesOf(s', ops[1..]), app);
      StampIsSum(s, r, op, mid.core, sums, explicits);
      RoundTrip(s', mid, ops[1..], app);
      var msg := mid.core.delivered[|r.core.delivered|];
      SinceStep(r, mid, end, msg);
      var sums' := sums[MessageOf(op).csId := NextSum(sums, op)];
      StampsOfCons(msg, Since(mid, end), NextSum(sums, op), RunningSums(sums', ops[1..]));
      if SafePost(s, sums, explicits, op) {
        ClockIsRunningSumIff(s', mid, sums', Explicit(s, explicits, op), ops[1..], app);
      }
    }
  }

  lemma StampsOfCons(m: Message, ms: seq<Message>, sum: nat, sums: seq<nat>)
    ensures Stamps([m] + ms) == [sum] + sums <==> m.timestamp == sum && Stamps(ms) == sums
  {
    assert ([m] + ms)[1..] == ms;
    assert ([sum] + sums)[1..] == sums && ([m.timestamp] + Stamps(ms))[1..] == Stamps(ms);
  }

  const FRESH_SENDER := Sender(map[], 128, [])
  const FRESH_RECEIVER := Receiver(Core(map[], 128, []), [], true)

  // ---------------------------------------------------------------------------------------------
  // Play sessions
  // ---------------------------------------------------------------------------------------------

  /** What a subscriber is sent: untimed messages (metadata, codec headers, command replies), and frames. */
  datatype Item = Untimed(csId: nat, streamId: nat, typeId: byte, data: seq<byte>) | Frame(p: Payload)

  function OpOf(pre: map<nat, Sent>, i: Item): Op {
    match i
    case Untimed(c, sid, t, data) => Post(PlainMessage(c, sid, t, data), ForcesFmt0(t))
    case Frame(p) => Post(MediaMessage(pre, p), false)
  }

  predicate Session(s: Sender, items: seq<Item>)
    requires s.outChunk >= 5
    decreases |items|
  {
    items == [] || (Legal(OpOf(s.pre, items[0])) && Session(Perform(s, OpOf(s.pre, items[0])), items[1..]))
  }

  /** The posts of a session. */
  function OpsOf(s: Sender, items: seq<Item>): seq<LegalOp>
    requires s.outChunk >= 5 && Session(s, items)
    decreases |items|
  {
    if items == [] then []
    else
      var op: LegalOp := OpOf(s.pre, items[0]);
      [op] + OpsOf(Perform(s, op), items[1..])
  }

  function FrameCsId(p: Payload): nat {
    if p.kind == Audio then MEDIA_AUDIO_CSID else MEDIA_VIDEO_CSID
  }

  /** The five bytes that FLV puts before an AVC unit, then the payload. */
  function FrameBody(p: Payload): seq<byte> {
    if p.kind == Audio then p.data
    else [if p.iFrame then 0x17 else 0x27, 0x01] + BigEndian(3, Minus32(p.pts, p.dts)) + p.data
  }

  /** What the player should get: untimed messages at time 0, every frame at its own decoding time. */
  function Shown(i: Item): Message {
    match i
    case Untimed(c, _, t, data) => Message(c, 0, t, data)
    case Frame(p) => Message(FrameCsId(p), p.dts % U32, if p.kind == Audio then AUDIO else VIDEO, FrameBody(p))
  }

  function ShownAll(items: seq<Item>): seq<Message> {
    if items == [] then [] else [Shown(items[0])] + ShownAll(items[1..])
  }

  /**
   What the sender could check before an item. In format 0 the last explicit delta of the csid comes on top of the
   item's own; otherwise an untimed message must follow another one at time 0, and a frame must come less than 2^24
   milliseconds after the one before, or in format 3 at the distance that was last written out.
   */
  predicate OnTime(s: Sender, explicits: map<nat, nat>, i: Item)
    requires Legal(OpOf(s.pre, i))
  {
    var op: LegalOp := OpOf(s.pre, i);
    var m := MessageOf(op);
    var fmt, e, before := FormatOf(s, op), At(explicits, m.csId), SentOn(s.pre, m.csId).timestamp;
    match i
    case Untimed(_, _, _, _) =>
      if fmt == 0 then e == 0 else if fmt == 3 then (before + e) % U32 == 0 else before == 0
    case Frame(p) =>
      if fmt == 0 then (OnWire(m.delta) + e) % U32 == p.dts % U32 else if fmt == 3 then e == m.delta else Lost(m.delta) == 0
  }

  predicate AllOnTime(s: Sender, explicits: map<nat, nat>, items: seq<Item>)
    requires s.outChunk >= 5 && Session(s, items)
    decreases |items|
  {
    items == [] ||
    var op: LegalOp := OpOf(s.pre, items[0]);
    OnTime(s, explicits, items[0]) && AllOnTime(Perform(s, op), Explicit(s, explicits, op), items[1..])
  }

  /** The receiver's clock stands at the sender's last timestamp, and its delta is the last explicit one. */
  predicate Locked(p: Sent, h: Head, e: nat) {
    h.clock == p.timestamp < U32 && h.delta == e < U32
  }

  ghost predicate AllLocked(s: Sender, r: Receiver, explicits: map<nat, nat>) {
    forall c :: 2 <= c < 64 ==> Locked(SentOn(s.pre, c), HeadOf(r.core.heads, c), At(explicits, c))
  }

  lemma ModularCatchUp(now: nat, before: nat)
    requires now < U32 && before < U32
    ensures (before + Minus32(now, before)) % U32 == now && Minus32(now, before) < U32
  {
    if now >= before {
      assert (now - before) % U32 == now - before;
    } else {
      assert (now - before) % U32 == now - before + U32;
      assert (now + U32) % U32 == now;
    }
  }

  /** A frame that is not sent in format 0 measures its distance from the last message on its csid. */
  lemma FrameCatchesUp(s: Sender, p: Payload)
    requires Legal(OpOf(s.pre, Frame(p))) && FormatOf(s, OpOf(s.pre, Frame(p))) != 0
    requires SentOn(s.pre, FrameCsId(p)).timestamp < U32
    ensures (SentOn(s.pre, FrameCsId(p)).timestamp + MediaMessage(s.pre, p).delta) % U32 == p.dts % U32
  {
    hide Body;
    ModularCatchUp(p.dts % U32, SentOn(s.pre, FrameCsId(p)).timestamp);
  }

  /** What a format makes of the receiver's clock, for a message whose own timestamp is `now`. */
  predicate HitsTime(fmt: nat, before: nat, e: nat, delta: nat, now: nat) {
    ((if fmt == 0 then OnWire(delta) else before) + if fmt == 1 || fmt == 2 then OnWire(delta) else e) % U32 == now
  }

  lemma UntimedHits(fmt: nat, before: nat, e: nat)
    requires fmt < 4 && before < U32 && e < U32
    ensures HitsTime(fmt, before, e, 0, 0)
            <==> if fmt == 0 then e == 0 else if fmt == 3 then (before + e) % U32 == 0 else before == 0
  {
    assert OnWire(0) == 0;
  }

  lemma FrameHits(fmt: nat, before: nat, e: nat, delta: nat, now: nat)
    requires fmt < 4 && before < U32 && e < U32 && delta < U32 && (fmt != 0 ==> (before + delta) % U32 == now)
    ensures HitsTime(fmt, before, e, delta, now)
            <==> if fmt == 0 then (OnWire(delta) + e) % U32 == now else if fmt == 3 then e == delta else Lost(delta) == 0
  {
    hide OnWire, Lost;
    StampArithmetic(before, e, delta);
  }

  /** The stamp that the receiver gives to an item. */
  lemma ItemStamp(s: Sender, i: Item, h: Head, h': Head, e: nat, explicits: map<nat, nat>)
    requires Legal(OpOf(s.pre, i))
    requires var m := MessageOf(OpOf(s.pre, i));
             && Locked(SentOn(s.pre, m.csId), h, e) && e == At(explicits, m.csId)
             && ClockMoved(h, h', FormatOf(s, OpOf(s.pre, i)), OnWire(m.delta))
    ensures h'.clock == MessageOf(OpOf(s.pre, i)).timestamp <==> OnTime(s, explicits, i)
  {
    hide OnWire, Lost, Body, FormatOf;
    var op: LegalOp := OpOf(s.pre, i);
    var m := MessageOf(op);
    DeltaFits(op);
    assert h'.clock == m.timestamp <==> HitsTime(FormatOf(s, op), h.clock, e, m.delta, m.timestamp);
    if i.Untimed? {
      UntimedHits(FormatOf(s, op), h.clock, e);
    } else {
      if FormatOf(s, op) != 0 {
        FrameCatchesUp(s, i.p);
      }
      FrameHits(FormatOf(s, op), h.clock, e, m.delta, m.timestamp);
    }
  }

  /** The message of an item, apart from its stamp. */
  lemma ItemContent(s: Sender, i: Item)
    requires Legal(OpOf(s.pre, i))
    ensures var m := MessageOf(OpOf(s.pre, i));
            Shown(i) == Message(m.csId, m.timestamp, m.typeId, Body(m)) && m.timestamp < U32
  {
    var m := MessageOf(OpOf(s.pre, i));
    if i.Untimed? {
      assert [] + i.data == i.data;
    } else if i.p.kind == Audio {
      assert [] + i.p.data == i.p.data;
    }
  }

  lemma StillLocked(s: Sender, r: Receiver, op: LegalOp, k': Core, explicits: map<nat, nat>)
    requires InSync(s, r) && AllLocked(s, r, explicits) && Delivers(s, r.core, op, k')
    requires HeadOf(k'.heads, MessageOf(op).csId).clock == MessageOf(op).timestamp
    ensures AllLocked(Perform(s, op), r.(core := k'), Explicit(s, explicits, op))
  {
    hide OnWire, Body, FormatOf, Perform, MessageOf;
    var m := MessageOf(op);
    DeltaFits(op);
    WireIsSmaller(m.delta);
    PerformShape(s, op);
    SentMoves(s, op);
    var h, h' := HeadOf(r.core.heads, m.csId), HeadOf(k'.heads, m.csId);
    assert InRange(op);
    assert Locked(SentOn(s.pre, m.csId), h, At(explicits, m.csId));
    forall c | 2 <= c < 64
      ensures Locked(SentOn(Perform(s, op).pre, c), HeadOf(k'.heads, c), At(Explicit(s, explicits, op), c))
    {
      assert Locked(SentOn(s.pre, c), HeadOf(r.core.heads, c), At(explicits, c));
    }
  }

  predicate InRange(op: LegalOp) {
    2 <= MessageOf(op).csId < 64
  }

  lemma SentMoves(s: Sender, op: LegalOp)
    requires s.outChunk >= 5
    ensures InRange(op) && 2 <= MessageOf(op).csId < 64
    ensures SentOn(Perform(s, op).pre, MessageOf(op).csId).timestamp == MessageOf(op).timestamp
  {
    PerformShape(s, op);
  }

  lemma ShownCons(msg: Message, rest: seq<Message>, i: Item, items: seq<Item>)
    ensures [msg] + rest == ShownAll([i] + items) <==> msg == Shown(i) && rest == ShownAll(items)
  {
    hide Shown;
    assert ([i] + items)[1..] == items;
    assert ([msg] + rest)[1..] == rest && ([Shown(i)] + ShownAll(items))[1..] == ShownAll(items);
  }

  /**
   A player gets every message of a session whole and in order; every frame is stamped with its decoding time, and
   everything else with 0, if and only if every item of the session is on time.
   */
  lemma {:induction false} PlayerSeesDecodingTimesIff(
      s: Sender, r: Receiver, explicits: map<nat, nat>, items: seq<Item>, app: App)
    requires InSync(s, r) && AllLocked(s, r, explicits) && Session(s, items) && forall d: seq<Message> :: app(d)
    ensures var r' := Receive(r, BytesOf(s, OpsOf(s, items)), app);
            && r.core.delivered <= r'.core.delivered
            && (Since(r, r') == ShownAll(items) <==> AllOnTime(s, explicits, items))
    decreases |items|
  {
    hide InSync, AllLocked, Receive, CoreAfter, ShownAll, Shown, Body, OnTime, FormatOf, OnWire, WireAll, ClockMoved;
    if items == [] {
      IdleInSync(s, r);
      NothingReceived(r, app);
      NothingShown(r);
    } else {
      var op: LegalOp := OpOf(s.pre, items[0]);
      var m := MessageOf(op);
      var s', rest := Perform(s, op), items[1..];
      var ops := OpsOf(s', rest);
      var mid := r.(core := CoreAfter(s, r, op));
      var h' := HeadOf(mid.core.heads, m.csId);
      var end := Receive(mid, BytesOf(s', ops), app);
      SessionStep(s, items);
      OpThenRest(s, r, op, BytesOf(s', ops), app);
      RoundTrip(s', mid, ops, app);
      ItemContent(s, items[0]);
      LockedAt(s, r, explicits, m.csId);
      SentMoves(s, op);
      ItemStamp(s, items[0], HeadOf(r.core.heads, m.csId), h', At(explicits, m.csId), explicits);
      var msg := Message(m.csId, h'.clock, m.typeId, Body(m));
      SinceStep(r, mid, end, msg);
      assert items == [items[0]] + rest;
      ShownCons(msg, Since(mid, end), items[0], rest);
      if OnTime(s, explicits, items[0]) {
        StillLocked(s, r, op, mid.core, explicits);
        PlayerSeesDecodingTimesIff(s', mid, Explicit(s, explicits, op), rest, app);
      }
    }
  }

  lemma LockedAt(s: Sender, r: Receiver, explicits: map<nat, nat>, c: nat)
    requires AllLocked(s, r, explicits)
    ensures 2 <= c < 64 ==> Locked(SentOn(s.pre, c), HeadOf(r.core.heads, c), At(explicits, c))
  {
  }

  lemma IdleInSync(s: Sender, r: Receiver)
    requires InSync(s, r)
    ensures r.open && r.buf == []
  {
  }

  lemma NothingShown(r: Receiver)
    ensures Since(r, r) == ShownAll([])
  {
  }

  lemma SessionStep(s: Sender, items: seq<Item>)
    requires s.outChunk >= 5 && Session(s, items) && items != []
    ensures var op: LegalOp := OpOf(s.pre, items[0]);
            BytesOf(s, OpsOf(s, items)) == WireAll(OpChunks(s, op)) + BytesOf(Perform(s, op), OpsOf(Perform(s, op), items[1..]))
  {
    hide Perform, OpChunks, WireAll;
    var op: LegalOp := OpOf(s.pre, items[0]);
    assert OpsOf(s, items)[1..] == OpsOf(Perform(s, op), items[1..]);
  }

  /** In particular on a new connection. */
  lemma {:induction false} NewPlayerSeesDecodingTimesIff(items: seq<Item>, app: App)
    requires Session(FRESH_SENDER, items) && forall d: seq<Message> :: app(d)
    ensures Receive(FRESH_RECEIVER, BytesOf(FRESH_SENDER, OpsOf(FRESH_SENDER, items)), app).core.delivered == ShownAll(items)
            <==> AllOnTime(FRESH_SENDER, map[], items)
  {
    hide Receive, BytesOf, ShownAll, AllOnTime;
    PlayerSeesDecodingTimesIff(FRESH_SENDER, FRESH_RECEIVER, map[], items, app);
  }

  /**
   The ordinary case, in terms of what was sent last: untimed messages come before the frames of their csid, and a
   frame follows less than 2^24 milliseconds after them or the frame before.
   */
  predicate Ordinary(pre: map<nat, Sent>, i: Item) {
    match i
    case Untimed(c, _, _, _) => SentOn(pre, c).timestamp == 0 && SentOn(pre, c).delta == 0
    case Frame(p) => SentOn(pre, FrameCsId(p)).length > 0 && MediaMessage(pre, p).delta < 0x100_0000
  }

  predicate AllOrdinary(s: Sender, items: seq<Item>)
    requires s.outChunk >= 5 && Session(s, items)
    decreases |items|
  {
    items == [] || (Ordinary(s.pre, items[0]) && AllOrdinary(Perform(s, OpOf(s.pre, items[0])), items[1..]))
  }

  /** The last explicit delta of every csid is the last delta. */
  ghost predicate Remembered(s: Sender, explicits: map<nat, nat>) {
    forall c :: At(explicits, c) == SentOn(s.pre, c).delta
  }

  lemma {:induction false} OrdinaryIsOnTime(s: Sender, explicits: map<nat, nat>, items: seq<Item>)
    requires s.outChunk >= 5 && Session(s, items) && AllOrdinary(s, items) && Remembered(s, explicits)
    ensures AllOnTime(s, explicits, items)
    decreases |items|
  {
    hide Perform;
    if items != [] {
      var op: LegalOp := OpOf(s.pre, items[0]);
      OrdinaryStep(s, explicits, items[0]);
      OrdinaryIsOnTime(Perform(s, op), Explicit(s, explicits, op), items[1..]);
    }
  }

  lemma OrdinaryStep(s: Sender, explicits: map<nat, nat>, i: Item)
    requires s.outChunk >= 5 && Legal(OpOf(s.pre, i)) && Ordinary(s.pre, i) && Remembered(s, explicits)
    ensures OnTime(s, explicits, i) && Remembered(Perform(s, OpOf(s.pre, i)), Explicit(s, explicits, OpOf(s.pre, i)))
  {
    hide Perform, Body;
    var op: LegalOp := OpOf(s.pre, i);
    PerformShape(s, op);
    var m := MessageOf(op);
    assert At(explicits, m.csId) == SentOn(s.pre, m.csId).delta;
    var s', explicits' := Perform(s, op), Explicit(s, explicits, op);
    forall c ensures At(explicits', c) == SentOn(s'.pre, c).delta {
      assert At(explicits, c) == SentOn(s.pre, c).delta;
    }
  }

  // ---------------------------------------------------------------------------------------------
  // Sessions in which the clock goes wrong
  // ---------------------------------------------------------------------------------------------

  const HEADER: Item := Untimed(4, 1, AUDIO, [0xAF, 0x00, 0x12, 0x10])
  const REPLY: Item := Untimed(4, 1, 20, [0x05])

  function AudioAt(dts: nat): Item {
    Frame(Payload(Audio, false, dts, dts, [0xAF, 0x01, 0x21]))
  }

  /** What an item of these sessions makes the sender remember, and in which format it goes out. */
  lemma OneMore(s: Sender, i: Item, fmt: nat)
    requires s.outChunk >= 5 && i in {HEADER, REPLY, AudioAt(40), AudioAt(80), AudioAt(0x100_0000)}
    requires fmt == (if i == REPLY || 4 !in s.pre then 0
                     else
                       var last, m := s.pre[4], MessageOf(OpOf(s.pre, i));
                       if last.length == 0 then 0
                       else if last.length != |m.data| || last.typeId != m.typeId then 1
                       else if last.delta != m.delta then 2 else 3)
    ensures Legal(OpOf(s.pre, i)) && FormatOf(s, OpOf(s.pre, i)) == fmt
    ensures var m := MessageOf(OpOf(s.pre, i));
            Perform(s, OpOf(s.pre, i)).pre == s.pre[4 := Sent(m.timestamp, m.delta, |m.data|, m.typeId)]
    ensures Perform(s, OpOf(s.pre, i)).outChunk == s.outChunk
  {
    var op := OpOf(s.pre, i);
    var m := MessageOf(op);
    assert [] + m.data == m.data && m.tag == None && m.csId == 4 && |m.data| < 10;
    if i.Frame? && 4 in s.pre {
      assert m.delta < U32;
    }
    PerformShape(s, op);
  }

  /** What the sender remembers of csid 4, with the running sum and the last explicit delta there. */
  predicate Reached(s: Sender, sums: map<nat, nat>, explicits: map<nat, nat>, last: Sent, sum: nat, e: nat) {
    s.outChunk == 128 && s.pre == map[4 := last] && At(sums, 4) == sum && At(explicits, 4) == e
  }

  function SumsAfter(sums: map<nat, nat>, op: LegalOp): map<nat, nat> {
    sums[MessageOf(op).csId := NextSum(sums, op)]
  }

  lemma AfterHeader()
    ensures Legal(OpOf(map[], HEADER))
    ensures var op: LegalOp := OpOf(map[], HEADER);
            Reached(Perform(FRESH_SENDER, op), SumsAfter(map[], op), Explicit(FRESH_SENDER, map[], op), Sent(0, 0, 4, AUDIO), 0, 0)
  {
    OneMore(FRESH_SENDER, HEADER, 0);
  }

  lemma AfterFirst(s: Sender, sums: map<nat, nat>, explicits: map<nat, nat>)
    requires Reached(s, sums, explicits, Sent(0, 0, 4, AUDIO), 0, 0)
    ensures Legal(OpOf(s.pre, AudioAt(40)))
    ensures var op: LegalOp := OpOf(s.pre, AudioAt(40));
            Reached(Perform(s, op), SumsAfter(sums, op), Explicit(s, explicits, op), Sent(40, 40, 3, AUDIO), 40, 40)
  {
    OneMore(s, AudioAt(40), 1);
  }

  lemma AfterSecond(s: Sender, sums: map<nat, nat>, explicits: map<nat, nat>)
    requires Reached(s, sums, explicits, Sent(40, 40, 3, AUDIO), 40, 40)
    ensures Legal(OpOf(s.pre, AudioAt(80)))
    ensures var op: LegalOp := OpOf(s.pre, AudioAt(80));
            Reached(Perform(s, op), SumsAfter(sums, op), Explicit(s, explicits, op), Sent(80, 40, 3, AUDIO), 80, 40)
  {
    OneMore(s, AudioAt(80), 3);
  }

  lemma ReplyIsUnsafe(s: Sender, sums: map<nat, nat>, explicits: map<nat, nat>)
    requires Reached(s, sums, explicits, Sent(80, 40, 3, AUDIO), 80, 40)
    ensures Legal(OpOf(s.pre, REPLY)) && !SafePost(s, sums, explicits, OpOf(s.pre, REPLY))
  {
    hide FormatOf, Body, Lost, Perform;
    OneMore(s, REPLY, 0);
    NothingLost();
    var m := MessageOf(OpOf(s.pre, REPLY));
    assert m.csId == 4 && m.delta == 0;
    assert (At(sums, 4) + Lost(m.delta)) % U32 == 80;
  }

  lemma NothingLost()
    ensures Lost(0) == 0
  {
  }

  lemma SessionCons(s: Sender, i: Item, rest: seq<Item>)
    requires s.outChunk >= 5 && Legal(OpOf(s.pre, i)) && Session(Perform(s, OpOf(s.pre, i)), rest)
    ensures Session(s, [i] + rest)
    ensures var op: LegalOp := OpOf(s.pre, i);
            OpsOf(s, [i] + rest) == [op] + OpsOf(Perform(s, op), rest)
  {
    hide Perform, Legal, OpOf;
    assert ([i] + rest)[1..] == rest;
  }

  lemma SafeCons(s: Sender, sums: map<nat, nat>, explicits: map<nat, nat>, op: LegalOp, ops: seq<LegalOp>)
    requires s.outChunk >= 5
    ensures ClockSafe(s, sums, explicits, [op] + ops)
            <==> SafePost(s, sums, explicits, op) && ClockSafe(Perform(s, op), SumsAfter(sums, op), Explicit(s, explicits, op), ops)
  {
    hide Perform, SafePost, Explicit;
    assert ([op] + ops)[1..] == ops;
  }

  /** A player that joins at 2^24 milliseconds gets its first frame at time 0. */
  lemma {:induction false} LateJoinIsEarly(app: App)
    requires forall d: seq<Message> :: app(d)
    ensures var items := [HEADER] + [AudioAt(0x100_0000)];
            && Session(FRESH_SENDER, items)
            && Receive(FRESH_RECEIVER, BytesOf(FRESH_SENDER, OpsOf(FRESH_SENDER, items)), app).core.delivered != ShownAll(items)
  {
    hide Perform, Receive, BytesOf, ShownAll, OpOf, Legal, OnTime, OpsOf;
    var items := [HEADER] + [AudioAt(0x100_0000)];
    AfterHeader();
    var op: LegalOp := OpOf(map[], HEADER);
    var s1, e1 := Perform(FRESH_SENDER, op), Explicit(FRESH_SENDER, map[], op);
    JoinsLate(s1, e1);
    assert items[1..] == [AudioAt(0x100_0000)] && items[1..][1..] == [];
    SessionCons(s1, AudioAt(0x100_0000), []);
    SessionCons(FRESH_SENDER, HEADER, [AudioAt(0x100_0000)]);
    NewPlayerSeesDecodingTimesIff(items, app);
  }

  lemma JoinsLate(s: Sender, explicits: map<nat, nat>)
    requires s.outChunk == 128 && s.pre == map[4 := Sent(0, 0, 4, AUDIO)] && At(explicits, 4) == 0
    ensures var i := AudioAt(0x100_0000);
            Legal(OpOf(s.pre, i)) && !OnTime(s, explicits, i)
  {
    OneMore(s, AudioAt(0x100_0000), 1);
  }

  /** Two frames, and then a reply to a command on the same csid: it comes 40 milliseconds behind the running sum. */
  lemma {:induction false} ReplyTurnsClockBack(app: App)
    requires forall d: seq<Message> :: app(d)
    ensures var items := [HEADER] + ([AudioAt(40)] + ([AudioAt(80)] + [REPLY]));
            && Session(FRESH_SENDER, items)
            && var ops := OpsOf(FRESH_SENDER, items);
               Stamps(Since(FRESH_RECEIVER, Receive(FRESH_RECEIVER, BytesOf(FRESH_SENDER, ops), app))) != RunningSums(map[], ops)
  {
    hide Perform, Receive, BytesOf, RunningSums, OpOf, Legal, SafePost, OpsOf, ClockSafe, Explicit, SumsAfter, Session;
    var s0, sums0, e0 := FRESH_SENDER, map[], map[];
    AfterHeader();
    var op0: LegalOp := OpOf(s0.pre, HEADER);
    var s1, sums1, e1 := Perform(s0, op0), SumsAfter(sums0, op0), Explicit(s0, e0, op0);
    AfterFirst(s1, sums1, e1);
    var op1: LegalOp := OpOf(s1.pre, AudioAt(40));
    var s2, sums2, e2 := Perform(s1, op1), SumsAfter(sums1, op1), Explicit(s1, e1, op1);
    AfterSecond(s2, sums2, e2);
    var op2: LegalOp := OpOf(s2.pre, AudioAt(80));
    var s3, sums3, e3 := Perform(s2, op2), SumsAfter(sums2, op2), Explicit(s2, e2, op2);
    ReplyIsUnsafe(s3, sums3, e3);
    var op3: LegalOp := OpOf(s3.pre, REPLY);
    EmptySession(Perform(s3, op3));
    SessionCons(s3, REPLY, []);
    assert [REPLY] + [] == [REPLY];
    SafeCons(s3, sums3, e3, op3, []);
    SessionCons(s2, AudioAt(80), [REPLY]);
    SafeCons(s2, sums2, e2, op2, OpsOf(s3, [REPLY]));
    SessionCons(s1, AudioAt(40), [AudioAt(80)] + [REPLY]);
    SafeCons(s1, sums1, e1, op1, OpsOf(s2, [AudioAt(80)] + [REPLY]));
    SessionCons(s0, HEADER, [AudioAt(40)] + ([AudioAt(80)] + [REPLY]));
    SafeCons(s0, sums0, e0, op0, OpsOf(s1, [AudioAt(40)] + ([AudioAt(80)] + [REPLY])));
    var items := [HEADER] + ([AudioAt(40)] + ([AudioAt(80)] + [REPLY]));
    ClockIsRunningSumIff(FRESH_SENDER, FRESH_RECEIVER, map[], map[], OpsOf(FRESH_SENDER, items), app);
  }

  lemma EmptySession(s: Sender)
    requires s.outChunk >= 5
    ensures Session(s, []) && OpsOf(s, []) == []
  {
  }
}
