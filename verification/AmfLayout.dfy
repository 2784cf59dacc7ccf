/**
 Values in the layout of the AMF0 specification (sections 2.2 to 2.10), and what the decoder makes of them; nothing here
 comes from the encoder, which writes no booleans and no array with a count.
 */
module AmfLayout {
  import opened Bytes
  import opened Media
  import opened Amf0

  /** An array has a count and, perhaps, an end marker of its own. */
  datatype Laid =
    Num(n: Bits64) | Bool(b: byte) | Chars(s: seq<byte>) | Obj(ps: Pairs) | Void | Array(count: nat, ps: Pairs, ended: bool)

  datatype Pairs = NoPair | Pairing(key: seq<byte>, value: Laid, rest: Pairs)

  function Size(ps: Pairs): nat {
    if ps.NoPair? then 0 else 1 + Size(ps.rest)
  }

  const END: seq<byte> := [0, 0, 9]

  function Short(s: seq<byte>): seq<byte> {
    BigEndian(2, |s|) + s
  }

  function EndOf(ended: bool): seq<byte> {
    if ended then END else []
  }

  function MarkerOf(v: Laid): byte {
    match v
    case Num(_) => 0
    case Bool(_) => 1
    case Chars(_) => 2
    case Obj(_) => 3
    case Void => 5
    case Array(_, _, _) => 8
  }

  function BodyOf(v: Laid): seq<byte>
    decreases v
  {
    match v
    case Num(n) => BigEndian(8, n)
    case Bool(b) => [b]
    case Chars(s) => Short(s)
    case Obj(ps) => PairBytes(ps) + END
    case Void => []
    case Array(count, ps, ended) => BigEndian(4, count) + PairBytes(ps) + EndOf(ended)
  }

  function PairBytes(ps: Pairs): seq<byte>
    decreases ps
  {
    match ps
    case NoPair => []
    case Pairing(key, value, rest) => Short(key) + ([MarkerOf(value)] + BodyOf(value)) + PairBytes(rest)
  }

  /** Lengths fit, and every array inside ends where its count or its end marker says, whichever is there. */
  predicate Sound(v: Laid)
    decreases v
  {
    match v
    case Chars(s) => |s| < 0x1_0000
    case Obj(ps) => SoundPairs(ps)
    case Array(count, ps, ended) => count < U32 && SoundPairs(ps) && if ended then Size(ps) < count else Size(ps) == count
    case _ => true
  }

  predicate SoundPairs(ps: Pairs)
    decreases ps
  {
    match ps
    case NoPair => true
    case Pairing(key, value, rest) => |key| < 0x1_0000 && Sound(value) && SoundPairs(rest)
  }

  function Meant(v: Laid): Decoded
    decreases v
  {
    match v
    case Num(n) => Number(n)
    case Bool(b) => Flag(b)
    case Chars(s) => Str(s)
    case Obj(ps) => Object(MeantPairs(ps))
    case Void => Nothing
    case Array(_, ps, _) => Object(MeantPairs(ps))
  }

  function MeantPairs(ps: Pairs): Entries
    decreases ps
  {
    match ps
    case NoPair => NoEntry
    case Pairing(key, value, rest) => Entry(key, Meant(value), MeantPairs(rest))
  }

  /** These pairs in front of what else is read. */
  function InFrontOf(ps: Pairs, p: Parsed<Entries>): Parsed<Entries>
    decreases ps
  {
    match ps
    case NoPair => p
    case Pairing(key, value, rest) => WithEntry(key, Meant(value), InFrontOf(rest, p))
  }

  /** The count left behind so many pairs. */
  function Left(count: Option<nat>, n: nat): Option<nat>
    requires count.Some? ==> n <= count.value
  {
    if count.Some? then Some(count.value - n) else None
  }

  // ---------------------------------------------------------------------------------------------
  // Reading
  // ---------------------------------------------------------------------------------------------

  lemma ShortReads(s: seq<byte>, rest: seq<byte>)
    requires |s| < 0x1_0000
    ensures var t := Short(s) + rest;
            |t| >= 2 + |s| && Value(t[..2]) == |s| && t[2..2 + |s|] == s && t[2 + |s|..] == rest
  {
    hide Value, BigEndian;
    var t := Short(s) + rest;
    Ranges();
    FieldRoundTrip(2, |s|);
    assert t[..2] == BigEndian(2, |s|);
  }

  /** One pair, as long as the count allows. */
  lemma PairReads(key: seq<byte>, marker: byte, s: seq<byte>, count: Option<nat>)
    requires |key| < 0x1_0000 && count != Some(0)
    ensures DecodeEntries(Short(key) + ([marker] + s), count)
            == if marker == 9 then Parsed(Some(NoEntry), s)
               else
                 var first := Decode(marker, s);
                 match first.result
                 case None => Parsed(None, first.left)
                 case Some(item) => WithEntry(key, item, DecodeEntries(first.left, Fewer(count)))
  {
    hide Value, Short, Decode, WithEntry;
    var t, k := Short(key) + ([marker] + s), |key|;
    ShortReads(key, [marker] + s);
    assert t[2 + k] == t[2 + k..][0] && t[3 + k..] == t[2 + k..][1..];
  }

  lemma EndIsRead(rest: seq<byte>, count: Option<nat>)
    requires count != Some(0)
    ensures DecodeEntries(END + rest, count) == Parsed(Some(NoEntry), rest)
  {
    hide DecodeEntries;
    PairReads([], 9, rest, count);
    NoLength();
    assert END + rest == Short([]) + ([9] + rest);
  }

  lemma NoLength()
    ensures Short([]) == [0, 0]
  {
    assert BigEndian(1, 0) == BigEndian(0, 0) + [0] && BigEndian(2, 0) == BigEndian(1, 0) + [0];
  }

  lemma NoMoreCounted(s: seq<byte>)
    ensures DecodeEntries(s, Some(0)) == Parsed(Some(NoEntry), s)
  {
  }

  lemma NumIsRead(n: Bits64, rest: seq<byte>)
    ensures Decode(0, BigEndian(8, n) + rest) == Parsed(Some(Number(n)), rest)
  {
    hide Value, BigEndian;
    NumberBack(n, rest);
  }

  lemma CharsAreRead(s: seq<byte>, rest: seq<byte>)
    requires |s| < 0x1_0000
    ensures Decode(2, Short(s) + rest) == Parsed(Some(Str(s)), rest)
  {
    hide Value, Short;
    ShortReads(s, rest);
  }

  lemma {:induction false} InFrontOfNothingElse(ps: Pairs, left: seq<byte>)
    ensures InFrontOf(ps, Parsed(Some(NoEntry), left)) == Parsed(Some(MeantPairs(ps)), left)
    decreases ps
  {
    if ps.Pairing? {
      InFrontOfNothingElse(ps.rest, left);
    }
  }

  lemma ObjFromPairs(ps: Pairs, rest: seq<byte>)
    requires DecodeEntries(PairBytes(ps) + (END + rest), None) == InFrontOf(ps, DecodeEntries(END + rest, None))
    ensures Decode(3, PairBytes(ps) + END + rest) == Parsed(Some(Object(MeantPairs(ps))), rest)
  {
    hide DecodeEntries, PairBytes, InFrontOf;
    EndIsRead(rest, None);
    InFrontOfNothingElse(ps, rest);
    assert PairBytes(ps) + END + rest == PairBytes(ps) + (END + rest);
  }

  lemma ArrayFromPairs(count: nat, ps: Pairs, ended: bool, rest: seq<byte>)
    requires count < U32 && if ended then Size(ps) < count else Size(ps) == count
    requires var tail := EndOf(ended) + rest;
             DecodeEntries(PairBytes(ps) + tail, Some(count)) == InFrontOf(ps, DecodeEntries(tail, Some(count - Size(ps))))
    ensures Decode(8, BodyOf(Array(count, ps, ended)) + rest) == Parsed(Some(Object(MeantPairs(ps))), rest)
  {
    hide DecodeEntries, PairBytes, InFrontOf, Decode, BigEndian;
    if ended {
      EndIsRead(rest, Some(count - Size(ps)));
    } else {
      NoMoreCounted(rest);
      assert [] + rest == rest;
    }
    InFrontOfNothingElse(ps, rest);
    ArrayReads(count, PairBytes(ps) + EndOf(ended), rest);
    assert PairBytes(ps) + EndOf(ended) + rest == PairBytes(ps) + (EndOf(ended) + rest);
    Associate(BigEndian(4, count), PairBytes(ps), EndOf(ended));
  }

  /** Every value that is laid out soundly is read as it is meant, and what is behind it stays. */
  lemma {:induction false} LaidIsRead(v: Laid, rest: seq<byte>)
    requires Sound(v)
    ensures Decode(MarkerOf(v), BodyOf(v) + rest) == Parsed(Some(Meant(v)), rest)
    decreases v
  {
    hide DecodeEntries, PairBytes, Short, BigEndian, Value, MeantPairs, InFrontOf, DecodeNumber, DecodeString;
    match v
    case Num(n) => NumIsRead(n, rest);
    case Bool(b) => BoolIsRead(b, rest);
    case Chars(s) => CharsAreRead(s, rest);
    case Void => assert [] + rest == rest;
    case Obj(ps) =>
      PairsAreRead(ps, None, END + rest);
      ObjFromPairs(ps, rest);
    case Array(count, ps, ended) =>
      PairsAreRead(ps, Some(count), EndOf(ended) + rest);
      ArrayFromPairs(count, ps, ended, rest);
  }

  lemma BoolIsRead(b: byte, rest: seq<byte>)
    ensures Decode(1, [b] + rest) == Parsed(Some(Flag(b)), rest)
  {
    assert ([b] + rest)[1..] == rest;
  }

  lemma ArrayReads(count: nat, body: seq<byte>, rest: seq<byte>)
    requires count < U32
    ensures Decode(8, BigEndian(4, count) + body + rest) == AsObject(DecodeEntries(body + rest, Some(count)))
  {
    hide Value, BigEndian, DecodeEntries;
    var t := BigEndian(4, count) + body + rest;
    Ranges();
    FieldRoundTrip(4, count);
    assert t[..4] == BigEndian(4, count) && t[4..] == body + rest;
  }

  /** Pairs are read one by one, as long as the count allows. */
  lemma {:induction false} PairsAreRead(ps: Pairs, count: Option<nat>, tail: seq<byte>)
    requires SoundPairs(ps) && (count.Some? ==> Size(ps) <= count.value)
    ensures DecodeEntries(PairBytes(ps) + tail, count) == InFrontOf(ps, DecodeEntries(tail, Left(count, Size(ps))))
    decreases ps
  {
    hide DecodeEntries, Decode, Short, BodyOf, Sound, Meant, WithEntry;
    match ps
    case NoPair => assert [] + tail == tail;
    case Pairing(key, value, rest) =>
      var more := PairBytes(rest) + tail;
      assert PairBytes(ps) + tail == Short(key) + ([MarkerOf(value)] + (BodyOf(value) + more));
      PairReads(key, MarkerOf(value), BodyOf(value) + more, count);
      LaidIsRead(value, more);
      PairsAreRead(rest, Fewer(count), tail);
  }

  // ---------------------------------------------------------------------------------------------
  // Arrays whose count and end do not agree
  // ---------------------------------------------------------------------------------------------

  function First(ps: Pairs, n: nat): Pairs
    requires n <= Size(ps)
  {
    if n == 0 then NoPair else Pairing(ps.key, ps.value, First(ps.rest, n - 1))
  }

  function Behind(ps: Pairs, n: nat): Pairs
    requires n <= Size(ps)
  {
    if n == 0 then ps else Behind(ps.rest, n - 1)
  }

  lemma {:induction false} PairsSplit(ps: Pairs, n: nat)
    requires n <= Size(ps)
    ensures Size(First(ps, n)) == n && PairBytes(ps) == PairBytes(First(ps, n)) + PairBytes(Behind(ps, n))
    ensures SoundPairs(ps) ==> SoundPairs(First(ps, n))
    decreases n
  {
    hide BodyOf, Short, Sound;
    if n == 0 {
      assert PairBytes(ps) == [] + PairBytes(ps);
    } else {
      PairsSplit(ps.rest, n - 1);
      var h := Short(ps.key) + ([MarkerOf(ps.value)] + BodyOf(ps.value));
      Associate(h, PairBytes(First(ps.rest, n - 1)), PairBytes(Behind(ps.rest, n - 1)));
    }
  }

  /**
   The count decides: of an array with at least as many pairs as it counts, so many are read, and the other pairs and the
   end marker, if there is one, are left; the end marker counts only when the count is larger.
   */
  lemma {:induction false} ArrayIsRead(count: nat, ps: Pairs, ended: bool, rest: seq<byte>)
    requires count < U32 && SoundPairs(ps)
    ensures var p := Decode(8, BodyOf(Array(count, ps, ended)) + rest);
            && (count <= Size(ps) ==>
                  p == Parsed(Some(Object(MeantPairs(First(ps, count)))), PairBytes(Behind(ps, count)) + (EndOf(ended) + rest)))
            && (count > Size(ps) && ended ==> p == Parsed(Some(Object(MeantPairs(ps))), rest))
  {
    hide Decode, PairBytes, BodyOf, SoundPairs, MeantPairs, First, Behind;
    if count <= Size(ps) {
      PairsSplit(ps, count);
      var more := PairBytes(Behind(ps, count)) + (EndOf(ended) + rest);
      LaidIsRead(Array(count, First(ps, count), false), more);
      ArrayBytes(count, ps, ended, rest);
    } else if ended {
      LaidIsRead(Array(count, ps, true), rest);
    }
  }

  lemma ArrayBytes(count: nat, ps: Pairs, ended: bool, rest: seq<byte>)
    requires count <= Size(ps) && PairBytes(ps) == PairBytes(First(ps, count)) + PairBytes(Behind(ps, count))
    ensures BodyOf(Array(count, ps, ended)) + rest
            == BodyOf(Array(count, First(ps, count), false)) + (PairBytes(Behind(ps, count)) + (EndOf(ended) + rest))
  {
    hide PairBytes, BigEndian, First, Behind;
    var n, a, b, e := BigEndian(4, count), PairBytes(First(ps, count)), PairBytes(Behind(ps, count)), EndOf(ended);
    assert n + (a + b) + e + rest == n + a + [] + (b + (e + rest));
  }

  // ---------------------------------------------------------------------------------------------
  // Commands
  // ---------------------------------------------------------------------------------------------

  function CommandBytes(vs: seq<Laid>): seq<byte> {
    if vs == [] then [] else [MarkerOf(vs[0])] + BodyOf(vs[0]) + CommandBytes(vs[1..])
  }

  function MeantAll(vs: seq<Laid>): (ds: seq<Decoded>)
    ensures |ds| == |vs| && forall i :: 0 <= i < |vs| ==> ds[i] == Meant(vs[i])
  {
    seq(|vs|, i requires 0 <= i < |vs| => Meant(vs[i]))
  }

  /** A command of sound values is read value by value, without a failure. */
  lemma {:induction false} CommandIsRead(vs: seq<Laid>, rest: seq<byte>)
    requires forall i :: 0 <= i < |vs| ==> Sound(vs[i])
    ensures var c := DecodeAll(rest);
            DecodeAll(CommandBytes(vs) + rest) == Command(MeantAll(vs) + c.values, c.ok)
    decreases |vs|
  {
    hide DecodeAll, Decode, BodyOf, Meant, Sound, MeantAll;
    if vs == [] {
      NothingMeant();
      assert [] + rest == rest && MeantAll(vs) + DecodeAll(rest).values == DecodeAll(rest).values;
    } else {
      var v, more := vs[0], CommandBytes(vs[1..]) + rest;
      LaidIsRead(v, more);
      CommandIsRead(vs[1..], rest);
      FirstOfCommand([MarkerOf(v)], BodyOf(v), CommandBytes(vs[1..]), rest);
      DecodeAllStep(CommandBytes(vs) + rest);
      MeantFirst(vs, DecodeAll(rest).values);
    }
  }

  lemma NothingMeant()
    ensures MeantAll([]) == []
  {
  }

  lemma MeantFirst(vs: seq<Laid>, more: seq<Decoded>)
    requires vs != []
    ensures MeantAll(vs) + more == [Meant(vs[0])] + (MeantAll(vs[1..]) + more)
  {
    hide Meant;
  }

  lemma FirstOfCommand(marker: seq<byte>, body: seq<byte>, more: seq<byte>, rest: seq<byte>)
    requires |marker| == 1
    ensures var t := marker + body + more + rest;
            t != [] && t[0] == marker[0] && t[1..] == body + (more + rest)
  {
  }

  /**
   An array with the right count and an end marker, as the AMF0 specification has it, comes out right but leaves its end
   marker, on which the decoder of the command then fails.
   */
  lemma {:induction false} CompleteArrayFails(vs: seq<Laid>, ps: Pairs)
    requires (forall i :: 0 <= i < |vs| ==> Sound(vs[i])) && SoundPairs(ps) && Size(ps) < U32
    ensures DecodeAll(CommandBytes(vs) + CommandBytes([Array(Size(ps), ps, true)]))
            == Command(MeantAll(vs) + [Object(MeantPairs(ps))], false)
  {
    hide DecodeAll, Decode, BodyOf, Meant, Sound, PairBytes;
    var a, n := Array(Size(ps), ps, true), Size(ps);
    CommandIsRead(vs, CommandBytes([a]));
    ArrayIsRead(n, ps, true, []);
    AllFirst(ps);
    var t := CommandBytes([a]);
    assert [a][1..] == [] && t == [8] + BodyOf(a) + CommandBytes([]);
    assert t[1..] == BodyOf(a) + [];
    DecodeAllStep(t);
    assert PairBytes(NoPair) + (END + []) == END by {
      NoBytes();
    }
    EndFails();
    assert DecodeAll(t) == Command([Object(MeantPairs(ps))] + [], false);
  }

  lemma {:induction false} AllFirst(ps: Pairs)
    ensures First(ps, Size(ps)) == ps && Behind(ps, Size(ps)) == NoPair
    decreases ps
  {
    if ps.Pairing? {
      AllFirst(ps.rest);
    }
  }

  lemma NoBytes()
    ensures PairBytes(NoPair) == []
  {
  }

  /** Three times a marker is read that nothing fits. */
  lemma EndFails()
    ensures DecodeAll(END) == Command([], false)
  {
    hide DecodeAll;
    DecodeAllStep(END);
    assert END[1..] == [0, 9];
    DecodeAllStep([0, 9]);
    assert [0, 9][1..] == [9];
    DecodeAllStep([9]);
    assert [9][1..] == [];
    NothingToDecode();
  }
}
