/**
 AMF0, the encoding of command arguments: nested values written behind type markers, and the reader that takes them
 apart again.
 */
module Amf0 {
  import opened Bytes
  import opened Media
  import opened BitIO
  import opened ByteReader
  import I = IoBuffer

  /** The 64 bits of a double. */
  type Bits64 = n: nat | n < 0x1_0000_0000_0000_0000 witness 0

  /** What can be encoded; entries keep their order, and a vector is rejected by the encoder. */
  datatype Any =
    Int(i: int) | Double(bits: Bits64) | Text(s: seq<byte>) | Vector | Map(items: Items) | Ecma(items: Items) | Null

  datatype Items = NoItem | Item(key: seq<byte>, value: Any, rest: Items)

  /** What decoding yields: a null marker gives no object at all, and an ECMA array a map. */
  datatype Decoded = Nothing | Flag(b: byte) | Number(n: Bits64) | Str(t: seq<byte>) | Object(entries: Entries)

  datatype Entries = NoEntry | Entry(name: seq<byte>, item: Decoded, others: Entries)

  const NUMBER: byte := 0
  const BOOLEAN: byte := 1
  const STRING: byte := 2
  const OBJECT: byte := 3
  const NULL: byte := 5
  const ECMA_ARRAY: byte := 8
  const OBJECT_END: byte := 9

  // ---------------------------------------------------------------------------------------------
  // Encoding
  // ---------------------------------------------------------------------------------------------

  /** Bytes written, and whether the encoder reports success. */
  datatype Written = Written(ok: bool, bytes: seq<byte>)

  function Counted(s: seq<byte>): seq<byte> {
    BigEndian(2, |s|) + s
  }

  /**
   A map reports success even if one of its entries failed: only the marker behind it counts. An ECMA array is written
   with a count of zero and without an end marker.
   */
  function Encode(dbl: int -> Bits64, v: Any): Written
    decreases v
  {
    match v
    case Int(i) => Written(true, [NUMBER] + BigEndian(8, dbl(i)))
    case Double(bits) => Written(true, [NUMBER] + BigEndian(8, bits))
    case Text(s) => Written(true, [STRING] + Counted(s))
    case Map(items) => Written(true, [OBJECT] + EncodeObject(dbl, items).bytes + [OBJECT_END])
    case Ecma(items) =>
      var w := EncodeObject(dbl, items);
      Written(w.ok, [ECMA_ARRAY] + [0, 0, 0, 0] + w.bytes)
    case Null => Written(true, [NULL])
    case Vector => Written(false, [])
  }

  /** The entries of a map up to the first one that fails; behind all of them an empty key. */
  function EncodeObject(dbl: int -> Bits64, items: Items): Written
    decreases items
  {
    match items
    case NoItem => Written(true, [0, 0])
    case Item(key, value, rest) =>
      var first := Encode(dbl, value);
      if !first.ok then Written(false, Counted(key) + first.bytes)
      else
        var more := EncodeObject(dbl, rest);
        Written(more.ok, Counted(key) + first.bytes + more.bytes)
  }

  function EncodeAll(dbl: int -> Bits64, vs: seq<Any>): Written {
    if vs == [] then Written(true, [])
    else
      var first := Encode(dbl, vs[0]);
      if !first.ok then first
      else
        var more := EncodeAll(dbl, vs[1..]);
        Written(more.ok, first.bytes + more.bytes)
  }

  // ---------------------------------------------------------------------------------------------
  // Decoding
  // ---------------------------------------------------------------------------------------------

  /** A result, if there is one, and what has not been consumed. */
  datatype Parsed<T> = Parsed(result: Option<T>, left: seq<byte>)

  function DecodeNumber(s: seq<byte>): Parsed<Decoded> {
    if |s| < 8 then Parsed(None, s)
    else
      NumberFits(s[..8]);
      Parsed(Some(Number(Value(s[..8]))), s[8..])
  }

  function DecodeString(s: seq<byte>): Parsed<Decoded> {
    if |s| < 2 then Parsed(None, s)
    else
      var len := Value(s[..2]);
      if |s| - 2 < len then Parsed(None, s[2..]) else Parsed(Some(Str(s[2..2 + len])), s[2 + len..])
  }

  function Decode(marker: byte, s: seq<byte>): (p: Parsed<Decoded>)
    ensures |p.left| <= |s|
    decreases |s|, 1
  {
    if marker == NUMBER then DecodeNumber(s)
    else if marker == BOOLEAN then
      if s == [] then Parsed(None, s) else Parsed(Some(Flag(s[0])), s[1..])
    else if marker == STRING then DecodeString(s)
    else if marker == OBJECT then AsObject(DecodeEntries(s, None))
    else if marker == ECMA_ARRAY then
      if |s| < 4 then Parsed(None, s) else AsObject(DecodeEntries(s[4..], Some(Value(s[..4]))))
    else if marker == NULL then Parsed(Some(Nothing), s)
    else Parsed(None, s)
  }

  function AsObject(p: Parsed<Entries>): Parsed<Decoded> {
    match p.result
    case None => Parsed(None, p.left)
    case Some(entries) => Parsed(Some(Object(entries)), p.left)
  }

  function WithEntry(name: seq<byte>, item: Decoded, p: Parsed<Entries>): Parsed<Entries> {
    match p.result
    case None => p
    case Some(entries) => Parsed(Some(Entry(name, item, entries)), p.left)
  }

  /**
   Entries up to an end marker, up to a given number of them, or up to the point where fewer than two bytes are left.
   */
  function DecodeEntries(s: seq<byte>, count: Option<nat>): (p: Parsed<Entries>)
    ensures |p.left| <= |s|
    decreases |s|, 0
  {
    if count == Some(0) || |s| < 2 then Parsed(Some(NoEntry), s)
    else
      var len := Value(s[..2]);
      if |s| - 2 < len then Parsed(None, s[2..])
      else if |s| - 2 == len then Parsed(None, [])
      else
        var key, marker, behind := s[2..2 + len], s[2 + len], s[3 + len..];
        if marker == OBJECT_END then Parsed(Some(NoEntry), behind)
        else
          var first := Decode(marker, behind);
          match first.result
          case None => Parsed(None, first.left)
          case Some(item) => WithEntry(key, item, DecodeEntries(first.left, Fewer(count)))
  }

  function Fewer(count: Option<nat>): Option<nat> {
    if count.Some? && count.value > 0 then Some(count.value - 1) else count
  }

  /** All values that could be decoded, and whether none failed; a failure does not stop the reader. */
  datatype Command = Command(values: seq<Decoded>, ok: bool)

  function Prepend(item: Option<Decoded>, c: Command): Command {
    match item
    case None => Command(c.values, false)
    case Some(d) => Command([d] + c.values, c.ok)
  }

  function DecodeAll(s: seq<byte>): Command
    decreases |s|
  {
    if s == [] then Command([], true)
    else
      var p := Decode(s[0], s[1..]);
      Prepend(p.result, DecodeAll(p.left))
  }

  lemma NumberFits(s: seq<byte>)
    requires |s| == 8
    ensures Value(s) < 0x1_0000_0000_0000_0000
  {
    ValueBound(s);
    RangeOfEight();
  }

  lemma RangeOfEight()
    ensures Range(8) == 0x1_0000_0000_0000_0000
  {
    Ranges();
    assert Range(5) == 256 * Range(4);
    assert Range(6) == 256 * Range(5);
    assert Range(7) == 256 * Range(6);
  }

  // ---------------------------------------------------------------------------------------------
  // Round trip
  // ---------------------------------------------------------------------------------------------

  /** The decoded value is the encoded one: integers have become doubles, and null has become nothing. */
  predicate Same(dbl: int -> Bits64, v: Any, d: Decoded)
    decreases v
  {
    match v
    case Int(i) => d == Number(dbl(i))
    case Double(bits) => d == Number(bits)
    case Text(s) => d == Str(s)
    case Map(items) => d.Object? && SameItems(dbl, items, d.entries)
    case Ecma(items) => d.Object? && SameItems(dbl, items, d.entries)
    case Null => d == Nothing
    case Vector => false
  }

  predicate SameItems(dbl: int -> Bits64, items: Items, entries: Entries)
    decreases items
  {
    match items
    case NoItem => entries == NoEntry
    case Item(key, value, rest) =>
      && entries.Entry? && entries.name == key && Same(dbl, value, entries.item) && SameItems(dbl, rest, entries.others)
  }

  predicate SameAll(dbl: int -> Bits64, vs: seq<Any>, ds: seq<Decoded>) {
    |vs| == |ds| && forall i :: 0 <= i < |vs| ==> Same(dbl, vs[i], ds[i])
  }

  /** No string or key is longer than its two-byte length can say, and there are no vectors and no ECMA arrays. */
  predicate Fits(v: Any)
    decreases v
  {
    match v
    case Text(s) => |s| < 0x1_0000
    case Map(items) => FitItems(items)
    case Vector => false
    case Ecma(_) => false
    case _ => true
  }

  predicate FitItems(items: Items)
    decreases items
  {
    match items
    case NoItem => true
    case Item(key, value, rest) => |key| < 0x1_0000 && Fits(value) && FitItems(rest)
  }

  lemma TakeDrop(a: seq<byte>, b: seq<byte>)
    ensures (a + b)[..|a|] == a && (a + b)[|a|..] == b
  {
  }

  lemma NumberBack(bits: Bits64, rest: seq<byte>)
    ensures DecodeNumber(BigEndian(8, bits) + rest) == Parsed(Some(Number(bits)), rest)
  {
    hide Value, BigEndian;
    RangeOfEight();
    FieldRoundTrip(8, bits);
    TakeDrop(BigEndian(8, bits), rest);
  }

  /** The length that the reader sees in front of a string. */
  lemma CountedReads(s: seq<byte>, rest: seq<byte>)
    ensures var t := Counted(s) + rest;
            && |t| >= 2 && Value(t[..2]) == |s| % 0x1_0000 && t[2..] == s + rest
            && (|s| < 0x1_0000 ==> t[2..2 + |s|] == s && t[2 + |s|..] == rest)
  {
    hide Value, BigEndian;
    var n := BigEndian(2, |s|);
    var t := Counted(s) + rest;
    Ranges();
    ValueOfBigEndian(2, |s|);
    Associate(n, s, rest);
    TakeDrop(n, s + rest);
    assert t[2..2 + |s|] == s;
    assert t[2 + |s|..] == rest;
  }

  lemma StringBack(s: seq<byte>, rest: seq<byte>)
    ensures var p := DecodeString(Counted(s) + rest);
            if |s| < 0x1_0000 then p == Parsed(Some(Str(s)), rest) else p.result != Some(Str(s))
  {
    hide Value, Counted;
    CountedReads(s, rest);
  }

  lemma MarkerOff(m: byte, s: seq<byte>, rest: seq<byte>)
    ensures ([m] + s + rest)[0] == m && ([m] + s + rest)[1..] == s + rest
  {
  }

  lemma NoMarker(m: byte, rest: seq<byte>)
    ensures ([m] + rest)[0] == m && ([m] + rest)[1..] == rest
  {
  }

  /** The encoding of a value starts with a marker that is not an end marker. */
  lemma StartsWithMarker(dbl: int -> Bits64, v: Any)
    ensures Fits(v) ==> Encode(dbl, v).ok && !v.Vector?
    ensures Encode(dbl, v).ok ==> !v.Vector?
    ensures !v.Vector? ==> Encode(dbl, v).bytes != [] && Encode(dbl, v).bytes[0] != OBJECT_END
  {
  }

  /** Reading behind the marker of an encoded value. */
  function Reread(dbl: int -> Bits64, v: Any, rest: seq<byte>): Parsed<Decoded>
    requires !v.Vector?
  {
    StartsWithMarker(dbl, v);
    var s := Encode(dbl, v).bytes + rest;
    Decode(s[0], s[1..])
  }

  lemma RereadSplits(dbl: int -> Bits64, v: Any, m: byte, body: seq<byte>, rest: seq<byte>)
    requires Encode(dbl, v).bytes == [m] + body && !v.Vector?
    ensures Reread(dbl, v, rest) == Decode(m, body + rest)
  {
    hide Encode, Decode;
    MarkerOff(m, body, rest);
  }

  /** An ECMA array without entries comes back, but leaves its empty key unread. */
  predicate Back(dbl: int -> Bits64, v: Any, p: Parsed<Decoded>, rest: seq<byte>) {
    if Fits(v) then p.left == rest && p.result.Some? && Same(dbl, v, p.result.value)
    else if v == Ecma(NoItem) then p.left == [0, 0] + rest
    else p.result.Some? ==> !Same(dbl, v, p.result.value)
  }

  predicate ItemsBack(dbl: int -> Bits64, items: Items, p: Parsed<Entries>, rest: seq<byte>) {
    if FitItems(items) then p.left == rest && p.result.Some? && SameItems(dbl, items, p.result.value)
    else p.result.Some? ==> !SameItems(dbl, items, p.result.value)
  }

  /** What is behind an encoded value does not matter: the value comes back exactly when it fits. */
  lemma {:induction false} ValueBack(dbl: int -> Bits64, v: Any, rest: seq<byte>)
    requires !v.Vector?
    ensures Back(dbl, v, Reread(dbl, v, rest), rest)
    decreases v
  {
    hide Counted, DecodeNumber, DecodeString, DecodeEntries, EncodeObject, BigEndian, Reread;
    match v
    case Int(i) =>
      RereadSplits(dbl, v, NUMBER, BigEndian(8, dbl(i)), rest);
      NumberBack(dbl(i), rest);
    case Double(bits) =>
      RereadSplits(dbl, v, NUMBER, BigEndian(8, bits), rest);
      NumberBack(bits, rest);
    case Text(s) =>
      RereadSplits(dbl, v, STRING, Counted(s), rest);
      StringBack(s, rest);
    case Map(items) =>
      var bytes := EncodeObject(dbl, items).bytes;
      Associate([OBJECT], bytes, [OBJECT_END]);
      RereadSplits(dbl, v, OBJECT, bytes + [OBJECT_END], rest);
      ObjectBack(dbl, items, rest);
    case Ecma(items) =>
      ArrayBack(dbl, items, rest);
    case Null =>
      NullBack(dbl, rest);
  }

  lemma ArrayBack(dbl: int -> Bits64, items: Items, rest: seq<byte>)
    ensures Reread(dbl, Ecma(items), rest) == Parsed(Some(Object(NoEntry)), EncodeObject(dbl, items).bytes + rest)
    ensures Back(dbl, Ecma(items), Reread(dbl, Ecma(items), rest), rest)
  {
    hide Decode, EncodeObject, Reread;
    var bytes := EncodeObject(dbl, items).bytes;
    Associate([ECMA_ARRAY], [0, 0, 0, 0], bytes);
    RereadSplits(dbl, Ecma(items), ECMA_ARRAY, [0, 0, 0, 0] + bytes, rest);
    Associate([0, 0, 0, 0], bytes, rest);
    NoEntriesRead(bytes + rest);
    NoItems(dbl);
    assert SameItems(dbl, items, NoEntry) ==> items == NoItem;
    assert Same(dbl, Ecma(items), Object(NoEntry)) ==> items == NoItem;
  }

  /** The reader believes the count. */
  lemma NoEntriesRead(s: seq<byte>)
    ensures Decode(ECMA_ARRAY, [0, 0, 0, 0] + s) == Parsed(Some(Object(NoEntry)), s)
  {
    TakeDrop([0, 0, 0, 0], s);
    Zeros();
  }

  lemma Zeros()
    ensures Value([0, 0, 0, 0]) == 0 && Value([0, 0]) == 0
  {
    ValueOfSnoc([], 0);
    ValueOfSnoc([0], 0);
    ValueOfSnoc([0, 0], 0);
    ValueOfSnoc([0, 0, 0], 0);
    assert [] + [0] == [0] && [0] + [0] == [0, 0] && [0, 0] + [0] == [0, 0, 0] && [0, 0, 0] + [0] == [0, 0, 0, 0];
  }

  lemma NoItems(dbl: int -> Bits64)
    ensures EncodeObject(dbl, NoItem) == Written(true, [0, 0])
  {
  }

  lemma NullBack(dbl: int -> Bits64, rest: seq<byte>)
    ensures Reread(dbl, Null, rest) == Parsed(Some(Nothing), rest)
  {
    hide Decode;
    RereadSplits(dbl, Null, NULL, [], rest);
    assert [] + rest == rest;
    NullDecodes(rest);
  }

  lemma NullDecodes(s: seq<byte>)
    ensures Decode(NULL, s) == Parsed(Some(Nothing), s)
  {
  }

  /** The entries of a map, an end marker, and anything behind it. */
  function ObjectBytes(dbl: int -> Bits64, items: Items, rest: seq<byte>): seq<byte> {
    EncodeObject(dbl, items).bytes + [OBJECT_END] + rest
  }

  lemma AssociateFive(a: seq<byte>, b: seq<byte>, c: seq<byte>, d: seq<byte>, e: seq<byte>)
    ensures a + b + c + d + e == a + (b + (c + d + e))
  {
  }

  lemma ObjectBytesOfItem(dbl: int -> Bits64, key: seq<byte>, value: Any, more: Items, rest: seq<byte>)
    ensures ObjectBytes(dbl, Item(key, value, more), rest)
            == Counted(key) + (Encode(dbl, value).bytes
                               + if Encode(dbl, value).ok then ObjectBytes(dbl, more, rest) else [OBJECT_END] + rest)
  {
    hide Counted, Encode;
    var a, b := Counted(key), Encode(dbl, value).bytes;
    if Encode(dbl, value).ok {
      AssociateFive(a, b, EncodeObject(dbl, more).bytes, [OBJECT_END], rest);
    } else {
      AssociateFive(a, b, [], [OBJECT_END], rest);
      assert a + b + [] == a + b && [] + [OBJECT_END] + rest == [OBJECT_END] + rest;
    }
  }

  lemma VectorIsEmpty(dbl: int -> Bits64)
    ensures Encode(dbl, Vector) == Written(false, [])
  {
  }

  /** Reading one entry whose key fits. */
  lemma EntryReads(key: seq<byte>, s: seq<byte>)
    requires |key| < 0x1_0000 && s != []
    ensures DecodeEntries(Counted(key) + s, None)
            == if s[0] == OBJECT_END then Parsed(Some(NoEntry), s[1..])
               else
                 var first := Decode(s[0], s[1..]);
                 match first.result
                 case None => Parsed(None, first.left)
                 case Some(item) => WithEntry(key, item, DecodeEntries(first.left, None))
  {
    hide Value, Counted, Decode, WithEntry;
    CountedReads(key, s);
    var t := Counted(key) + s;
    assert t[2 + |key|..] == s && t[2 + |key|] == s[0] && t[3 + |key|..] == s[1..];
    assert Fewer(None) == None;
  }

  /** A key that is too long comes back shorter, if the reader gets that far. */
  lemma LongKeyIsCut(key: seq<byte>, s: seq<byte>)
    requires |key| >= 0x1_0000
    ensures var p := DecodeEntries(Counted(key) + s, None);
            p.result.Some? && p.result.value.Entry? ==> |p.result.value.name| < |key|
  {
    hide Value, Counted, Decode;
    CountedReads(key, s);
  }

  lemma {:induction false} ObjectBack(dbl: int -> Bits64, items: Items, rest: seq<byte>)
    ensures ItemsBack(dbl, items, DecodeEntries(EncodeObject(dbl, items).bytes + [OBJECT_END] + rest, None), rest)
    decreases items
  {
    hide Counted, Decode, DecodeEntries, EncodeObject, Encode;
    match items
    case NoItem => EmptyBack(dbl, rest);
    case Item(key, value, more) =>
      ObjectBytesOfItem(dbl, key, value, more, rest);
      var tail := if Encode(dbl, value).ok then ObjectBytes(dbl, more, rest) else [OBJECT_END] + rest;
      var s := Encode(dbl, value).bytes + tail;
      if |key| >= 0x1_0000 {
        LongKeyIsCut(key, s);
      } else {
        StartsWithMarker(dbl, value);
        EntryReads(key, s);
        if value.Vector? {
          VectorIsEmpty(dbl);
          assert s == [OBJECT_END] + rest;
          NoMarker(OBJECT_END, rest);
          VectorDoesNotFit();
        } else {
          ValueBack(dbl, value, tail);
          if Fits(value) {
            ObjectBack(dbl, more, rest);
          } else if value == Ecma(NoItem) {
            EmptyArrayEncodes(dbl);
            EntriesShifted(dbl, more, rest);
          }
        }
      }
  }

  lemma EmptyArrayEncodes(dbl: int -> Bits64)
    ensures Encode(dbl, Ecma(NoItem)).ok
  {
  }

  // ---------------------------------------------------------------------------------------------
  // What an unread empty key does to the rest
  // ---------------------------------------------------------------------------------------------

  /** Only the number zero is read as itself two bytes too early, and then the next value is, too. */
  lemma ShiftedNumber(dbl: int -> Bits64, v: Any, tail: seq<byte>)
    ensures var p := DecodeNumber([0] + Encode(dbl, v).bytes + tail);
            p.result.Some? && Same(dbl, v, p.result.value) ==> p.left == [0, 0] + tail && Encode(dbl, v).ok
  {
    if v.Int? || v.Double? {
      ShiftedBits(if v.Int? then dbl(v.i) else v.bits, tail);
    }
  }

  lemma ShiftedBits(n: Bits64, tail: seq<byte>)
    ensures var p := DecodeNumber([0] + ([NUMBER] + BigEndian(8, n)) + tail);
            p.result == Some(Number(n)) ==> p.left == [0, 0] + tail
  {
    hide Value, BigEndian;
    var a, b := BigEndian(6, n / 0x1_0000), [n / 256 % 256, n % 256];
    LastTwo(n);
    var s := [0] + ([NUMBER] + BigEndian(8, n)) + tail;
    assert s == ([0, 0] + a) + (b + tail);
    TakeDrop([0, 0] + a, b + tail);
    NumberFits([0, 0] + a);
    ZerosInFront(a);
    RangeOfSix();
    FieldRoundTrip(6, n / 0x1_0000);
  }

  lemma RangeOfSix()
    ensures Range(6) == 0x1_0000_0000_0000
  {
    Ranges();
    assert Range(5) == 256 * Range(4);
    assert Range(6) == 256 * Range(5);
  }

  lemma LastTwo(n: nat)
    ensures BigEndian(8, n) == BigEndian(6, n / 0x1_0000) + [n / 256 % 256, n % 256]
  {
    assert n / 256 / 256 == n / 0x1_0000;
    assert BigEndian(7, n / 256) == BigEndian(6, n / 256 / 256) + [n / 256 % 256];
    assert BigEndian(8, n) == BigEndian(7, n / 256) + [n % 256];
  }

  lemma {:induction false} ZerosInFront(s: seq<byte>)
    ensures Value([0, 0] + s) == Value(s)
    decreases |s|
  {
    if s == [] {
      assert [0, 0] + s == [0, 0];
      Zeros();
    } else {
      ZerosInFront(s[..|s| - 1]);
      assert ([0, 0] + s)[..|s| + 1] == [0, 0] + s[..|s| - 1];
    }
  }

  lemma {:induction false} EntriesShifted(dbl: int -> Bits64, items: Items, rest: seq<byte>)
    ensures var p := DecodeEntries([0, 0] + ObjectBytes(dbl, items, rest), None);
            p.result.Some? ==> !SameItems(dbl, items, p.result.value)
    decreases items
  {
    hide DecodeEntries, DecodeNumber, ObjectBytes, Encode, Counted, Same;
    var s := ObjectBytes(dbl, items, rest);
    EmptyKey();
    match items
    case NoItem =>
      NoItems(dbl);
      NoItemBytes(dbl, rest);
      EntryReads([], s);
    case Item(key, value, more) =>
      ObjectBytesOfItem(dbl, key, value, more, rest);
      CountIsThere(key);
      EntryReads([], s);
      if key == [] {
        var bytes := Encode(dbl, value).bytes;
        var tail := if Encode(dbl, value).ok then ObjectBytes(dbl, more, rest) else [OBJECT_END] + rest;
        ZeroOff(bytes, tail);
        ShiftedNumber(dbl, value, tail);
        EntriesShifted(dbl, more, rest);
      }
  }

  lemma NoItemBytes(dbl: int -> Bits64, rest: seq<byte>)
    ensures var s := ObjectBytes(dbl, NoItem, rest);
            s != [] && s[0] == 0
  {
    NoItems(dbl);
  }

  lemma CountIsThere(key: seq<byte>)
    ensures |Counted(key)| >= 2
  {
  }

  lemma ZeroOff(bytes: seq<byte>, tail: seq<byte>)
    ensures var s := [0, 0] + (bytes + tail);
            s[0] == 0 && s[1..] == [0] + bytes + tail
  {
  }

  lemma {:induction false} ValuesShifted(dbl: int -> Bits64, vs: seq<Any>)
    requires EncodeAll(dbl, vs).ok
    ensures var c := DecodeAll([0, 0] + EncodeAll(dbl, vs).bytes);
            !(c.ok && SameAll(dbl, vs, c.values))
    decreases |vs|
  {
    hide DecodeNumber, DecodeAll, Encode, Same, SameAll;
    var b := EncodeAll(dbl, vs).bytes;
    var p := DecodeNumber([0] + b);
    ShiftedFirst(b);
    if vs == [] {
      NotSameAsNone(dbl, DecodeAll([0, 0] + b).values);
    } else if p.result.Some? {
      var v, rest := vs[0], vs[1..];
      var more := EncodeAll(dbl, rest).bytes;
      assert [0] + Encode(dbl, v).bytes + more == [0] + b;
      ShiftedNumber(dbl, v, more);
      ValuesShifted(dbl, rest);
      assert vs == [v] + rest;
      FirstSame(dbl, v, rest, p.result.value, DecodeAll(p.left).values);
    }
  }

  lemma ShiftedFirst(b: seq<byte>)
    ensures var p := DecodeNumber([0] + b);
            DecodeAll([0, 0] + b) == Prepend(p.result, DecodeAll(p.left))
    ensures |b| < 7 ==> DecodeNumber([0] + b).result == None
  {
    hide DecodeAll, Value;
    assert ([0, 0] + b)[1..] == [0] + b;
    DecodeAllStep([0, 0] + b);
  }

  lemma DecodeAllStep(s: seq<byte>)
    requires s != []
    ensures var p := Decode(s[0], s[1..]);
            DecodeAll(s) == Prepend(p.result, DecodeAll(p.left))
  {
    hide Decode;
  }

  lemma NotSameAsNone(dbl: int -> Bits64, ds: seq<Decoded>)
    ensures SameAll(dbl, [], ds) ==> ds == []
  {
  }

  lemma EmptyBack(dbl: int -> Bits64, rest: seq<byte>)
    ensures DecodeEntries(EncodeObject(dbl, NoItem).bytes + [OBJECT_END] + rest, None) == Parsed(Some(NoEntry), rest)
  {
    hide DecodeEntries, Counted;
    EmptyKey();
    Associate(Counted([]), [OBJECT_END], rest);
    NoMarker(OBJECT_END, rest);
    EntryReads([], [OBJECT_END] + rest);
  }

  lemma EmptyKey()
    ensures Counted([]) == [0, 0]
  {
    assert BigEndian(2, 0) == BigEndian(1, 0) + [0] && BigEndian(1, 0) == BigEndian(0, 0) + [0];
    assert BigEndian(2, 0) + [] == BigEndian(2, 0);
  }

  predicate FitAll(vs: seq<Any>) {
    forall i :: 0 <= i < |vs| ==> Fits(vs[i])
  }

  /** Encoding succeeds, and decoding gives the same values without a failure. */
  predicate RoundTrips(dbl: int -> Bits64, vs: seq<Any>) {
    var w := EncodeAll(dbl, vs);
    w.ok && DecodeAll(w.bytes).ok && SameAll(dbl, vs, DecodeAll(w.bytes).values)
  }

  lemma FirstSame(dbl: int -> Bits64, v: Any, vs: seq<Any>, d: Decoded, ds: seq<Decoded>)
    ensures SameAll(dbl, [v] + vs, [d] + ds) <==> Same(dbl, v, d) && SameAll(dbl, vs, ds)
  {
    hide Same;
    var vs', ds' := [v] + vs, [d] + ds;
    if SameAll(dbl, vs', ds') {
      forall i | 0 <= i < |vs| ensures Same(dbl, vs[i], ds[i]) {
        assert vs'[i + 1] == vs[i] && ds'[i + 1] == ds[i];
      }
      assert vs'[0] == v && ds'[0] == d;
    }
    if Same(dbl, v, d) && SameAll(dbl, vs, ds) {
      forall i | 0 <= i < |vs'| ensures Same(dbl, vs'[i], ds'[i]) {
        assert i > 0 ==> vs'[i] == vs[i - 1] && ds'[i] == ds[i - 1];
      }
    }
  }

  lemma FirstFits(v: Any, vs: seq<Any>)
    ensures FitAll([v] + vs) <==> Fits(v) && FitAll(vs)
  {
    hide Fits;
    var vs' := [v] + vs;
    if FitAll(vs') {
      forall i | 0 <= i < |vs| ensures Fits(vs[i]) {
        assert vs'[i + 1] == vs[i];
      }
      assert vs'[0] == v;
    }
    if Fits(v) && FitAll(vs) {
      forall i | 0 <= i < |vs'| ensures Fits(vs'[i]) {
        assert i > 0 ==> vs'[i] == vs[i - 1];
      }
    }
  }

  lemma DecodeFirst(dbl: int -> Bits64, v: Any, rest: seq<byte>)
    requires !v.Vector?
    ensures var p := Reread(dbl, v, rest);
            DecodeAll(Encode(dbl, v).bytes + rest) == Prepend(p.result, DecodeAll(p.left))
  {
    hide Encode, Decode;
    StartsWithMarker(dbl, v);
  }

  /**
   The round trip: a list of values survives encoding and decoding exactly when no string or key in it is longer than
   65535 bytes and there is no vector and no ECMA array in it.
   */
  lemma {:induction false} RoundTripsIff(dbl: int -> Bits64, vs: seq<Any>)
    ensures RoundTrips(dbl, vs) <==> FitAll(vs)
    decreases |vs|
  {
    hide Encode, Decode, DecodeAll, Reread, Same, Fits;
    if vs == [] {
      NothingToDecode();
    } else {
      var v, rest := vs[0], vs[1..];
      assert vs == [v] + rest;
      StartsWithMarker(dbl, v);
      FirstFits(v, rest);
      RoundTripsIff(dbl, rest);
      if !Encode(dbl, v).ok {
        VectorDoesNotFit();
      } else {
        var more := EncodeAll(dbl, rest);
        var p := Reread(dbl, v, more.bytes);
        DecodeFirst(dbl, v, more.bytes);
        ValueBack(dbl, v, more.bytes);
        var d := if p.result.Some? then p.result.value else Nothing;
        FirstSame(dbl, v, rest, d, DecodeAll(p.left).values);
        if v == Ecma(NoItem) && more.ok {
          VectorDoesNotFit();
          ValuesShifted(dbl, rest);
        }
      }
    }
  }

  lemma VectorDoesNotFit()
    ensures !Fits(Vector) && !Fits(Ecma(NoItem))
  {
  }

  lemma NothingToDecode()
    ensures DecodeAll([]) == Command([], true)
  {
  }

  /** A vector inside a map is lost although the encoder reports success. */
  lemma VectorInMapIsLost(dbl: int -> Bits64, key: seq<byte>)
    ensures EncodeAll(dbl, [Map(Item(key, Vector, NoItem))]).ok && !RoundTrips(dbl, [Map(Item(key, Vector, NoItem))])
  {
    var vs := [Map(Item(key, Vector, NoItem))];
    RoundTripsIff(dbl, vs);
    VectorDoesNotFit();
    assert !FitItems(Item(key, Vector, NoItem));
    assert !Fits(vs[0]);
    assert vs[1..] == [];
  }

  /** Not even an ECMA array without entries comes back although the encoder reports success. */
  lemma EcmaArrayIsLost(dbl: int -> Bits64)
    ensures EncodeAll(dbl, [Ecma(NoItem)]).ok && !RoundTrips(dbl, [Ecma(NoItem)])
  {
    var vs := [Ecma(NoItem)];
    RoundTripsIff(dbl, vs);
    VectorDoesNotFit();
    assert !Fits(vs[0]);
    assert vs[1..] == [];
  }

  // ---------------------------------------------------------------------------------------------
  // The encoder
  // ---------------------------------------------------------------------------------------------

  method EncodeString(s: seq<byte>, output: I.IoBuffer)
    requires output.Valid()
    modifies output, output.buf
    ensures output.Valid() && output.Contents() == old(output.Contents()) + Counted(s)
    ensures output.buf == old(output.buf) || fresh(output.buf)
  {
    hide BigEndian;
    ghost var before := output.Contents();
    output.WriteU16(|s|);
    output.Write(s);
    Associate(before, BigEndian(2, |s|), s);
  }

  method EncodeNumber(bits: Bits64, output: I.IoBuffer)
    requires output.Valid()
    modifies output, output.buf
    ensures output.Valid() && output.Contents() == old(output.Contents()) + ([NUMBER] + BigEndian(8, bits))
    ensures output.buf == old(output.buf) || fresh(output.buf)
  {
    hide BigEndian;
    ghost var before := output.Contents();
    output.WriteU8(NUMBER);
    output.WriteU64(bits);
    Associate(before, [NUMBER], BigEndian(8, bits));
  }

  method EncodeValue(dbl: int -> Bits64, v: Any, output: I.IoBuffer) returns (ok: bool)
    requires output.Valid()
    modifies output, output.buf
    ensures output.Valid() && output.Contents() == old(output.Contents()) + Encode(dbl, v).bytes
    ensures ok == Encode(dbl, v).ok
    ensures output.buf == old(output.buf) || fresh(output.buf)
    decreases v, 1
  {
    hide Counted, BigEndian, EncodeObject;
    ghost var before := output.Contents();
    match v
    case Int(i) =>
      EncodeNumber(dbl(i), output);
      ok := true;
    case Double(bits) =>
      EncodeNumber(bits, output);
      ok := true;
    case Text(s) =>
      output.WriteU8(STRING);
      EncodeString(s, output);
      Associate(before, [STRING], Counted(s));
      ok := true;
    case Map(items) =>
      output.WriteU8(OBJECT);
      var _ := EncodeEntries(dbl, items, output);
      output.WriteU8(OBJECT_END);
      AssociateFour(before, [OBJECT], EncodeObject(dbl, items).bytes, [OBJECT_END]);
      ok := true;
    case Ecma(items) =>
      output.WriteU8(ECMA_ARRAY);
      output.WriteU32(0);
      ok := EncodeEntries(dbl, items, output);
      NoCount();
      AssociateFour(before, [ECMA_ARRAY], [0, 0, 0, 0], EncodeObject(dbl, items).bytes);
    case Null =>
      output.WriteU8(NULL);
      ok := true;
    case Vector =>
      assert before + [] == before;
      ok := false;
  }

  lemma NoCount()
    ensures BigEndian(4, 0) == [0, 0, 0, 0]
  {
    assert BigEndian(1, 0) == BigEndian(0, 0) + [0] && BigEndian(2, 0) == BigEndian(1, 0) + [0];
    assert BigEndian(3, 0) == BigEndian(2, 0) + [0] && BigEndian(4, 0) == BigEndian(3, 0) + [0];
  }

  lemma AssociateFour(a: seq<byte>, b: seq<byte>, c: seq<byte>, d: seq<byte>)
    ensures a + b + c + d == a + (b + c + d)
  {
  }

  lemma EncodeItem(dbl: int -> Bits64, before: seq<byte>, it: Items)
    requires it.Item?
    ensures var first := Encode(dbl, it.value);
            before + EncodeObject(dbl, it).bytes
            == before + Counted(it.key) + first.bytes + if first.ok then EncodeObject(dbl, it.rest).bytes else []
    ensures EncodeObject(dbl, it).ok == (Encode(dbl, it.value).ok && EncodeObject(dbl, it.rest).ok)
  {
    hide Counted, Encode;
    var first := Encode(dbl, it.value);
    if first.ok {
      AssociateFour(before, Counted(it.key), first.bytes, EncodeObject(dbl, it.rest).bytes);
    } else {
      AssociateFour(before, Counted(it.key), first.bytes, []);
      assert Counted(it.key) + first.bytes + [] == Counted(it.key) + first.bytes;
    }
  }

  lemma EncodeNoItem(dbl: int -> Bits64)
    ensures EncodeObject(dbl, NoItem) == Written(true, BigEndian(2, 0))
  {
    EmptyKey();
    assert BigEndian(2, 0) + [] == BigEndian(2, 0);
  }

  method EncodeEntries(dbl: int -> Bits64, items: Items, output: I.IoBuffer) returns (ok: bool)
    requires output.Valid()
    modifies output, output.buf
    ensures output.Valid() && output.Contents() == old(output.Contents()) + EncodeObject(dbl, items).bytes
    ensures ok == EncodeObject(dbl, items).ok
    ensures output.buf == old(output.buf) || fresh(output.buf)
    decreases items, 0
  {
    hide Counted, BigEndian, Encode, EncodeObject;
    ghost var all := output.Contents() + EncodeObject(dbl, items).bytes;
    var it := items;
    while it.Item?
      invariant it == items || it < items
      invariant output.Valid() && output.Contents() + EncodeObject(dbl, it).bytes == all
      invariant EncodeObject(dbl, it).ok == EncodeObject(dbl, items).ok
      invariant output.buf == old(output.buf) || fresh(output.buf)
      decreases it
    {
      EncodeItem(dbl, output.Contents(), it);
      EncodeString(it.key, output);
      var one := EncodeValue(dbl, it.value, output);
      if !one {
        assert output.Contents() + [] == output.Contents();
        return false;
      }
      it := it.rest;
    }
    EncodeNoItem(dbl);
    output.WriteU16(0);
    ok := true;
  }

  /** Encodes values one by one, stopping at the first one that fails. */
  method EncodeCommand(dbl: int -> Bits64, input: seq<Any>, output: I.IoBuffer) returns (ok: bool)
    requires output.Valid()
    modifies output, output.buf
    ensures output.Valid() && output.Contents() == old(output.Contents()) + EncodeAll(dbl, input).bytes
    ensures ok == EncodeAll(dbl, input).ok
  {
    hide Encode;
    ghost var all := output.Contents() + EncodeAll(dbl, input).bytes;
    assert input[0..] == input;
    var i := 0;
    while i < |input|
      invariant 0 <= i <= |input| && output.Valid()
      invariant output.Contents() + EncodeAll(dbl, input[i..]).bytes == all
      invariant EncodeAll(dbl, input[i..]).ok == EncodeAll(dbl, input).ok
      invariant output.buf == old(output.buf) || fresh(output.buf)
    {
      assert input[i..][1..] == input[i + 1..];
      Associate(output.Contents(), Encode(dbl, input[i]).bytes, EncodeAll(dbl, input[i + 1..]).bytes);
      var one := EncodeValue(dbl, input[i], output);
      if !one {
        return false;
      }
      i := i + 1;
    }
    assert output.Contents() + [] == output.Contents();
    ok := true;
  }

  // ---------------------------------------------------------------------------------------------
  // The decoder
  // ---------------------------------------------------------------------------------------------

  lemma MarkerBehind(s: seq<byte>, len: nat)
    requires 2 + len < |s|
    ensures Value(s[2 + len..][..1]) == s[2 + len] && s[2 + len..][1..] == s[3 + len..]
  {
    OneByte(s[2 + len]);
    assert s[2 + len..][..1] == [s[2 + len]];
  }

  method ReadNumber(bb: BitBuffer) returns (r: Option<Decoded>)
    requires Aligned(bb)
    modifies bb
    ensures Aligned(bb) && Parsed(r, Left(bb)) == DecodeNumber(old(Left(bb)))
  {
    hide Value;
    var ok, n := GetBytes(bb, 8);
    if !ok {
      return None;
    }
    NumberFits(old(Left(bb))[..8]);
    r := Some(Number(n));
  }

  method ReadString(bb: BitBuffer) returns (r: Option<Decoded>)
    requires Aligned(bb)
    modifies bb
    ensures Aligned(bb) && Parsed(r, Left(bb)) == DecodeString(old(Left(bb)))
  {
    hide Value;
    ghost var s := Left(bb);
    var ok, len := GetBytes(bb, 2);
    if !ok || |bb.data| - bb.curPos / 8 < len {
      return None;
    }
    TwoThen(s, len);
    var t := GetString(bb, len);
    r := Some(Str(t));
  }

  /** The value behind a marker. */
  method ReadValue(marker: byte, bb: BitBuffer) returns (r: Option<Decoded>)
    requires Aligned(bb)
    modifies bb
    ensures Aligned(bb) && Parsed(r, Left(bb)) == Decode(marker, old(Left(bb))) && bb.curPos >= old(bb.curPos)
    decreases |bb.data| - bb.curPos / 8, 1
  {
    hide Value, DecodeEntries, DecodeNumber, DecodeString;
    if marker == NUMBER {
      r := ReadNumber(bb);
    } else if marker == BOOLEAN {
      ghost var s := Left(bb);
      var ok, b := GetBytes(bb, 1);
      if !ok {
        return None;
      }
      FirstByte(s);
      r := Some(Flag(b));
    } else if marker == STRING {
      r := ReadString(bb);
    } else if marker == OBJECT {
      var entries := ReadEntries(bb, None);
      r := if entries.Some? then Some(Object(entries.value)) else None;
    } else if marker == ECMA_ARRAY {
      var ok, count := GetBytes(bb, 4);
      if !ok {
        return None;
      }
      var entries := ReadEntries(bb, Some(count));
      r := if entries.Some? then Some(Object(entries.value)) else None;
    } else if marker == NULL {
      r := Some(Nothing);
    } else {
      r := None;
    }
  }

  datatype Pair = Pair(name: seq<byte>, item: Decoded)

  /** Entries read so far, in front of what the rest turns out to be. */
  function InFront(pairs: seq<Pair>, p: Parsed<Entries>): Parsed<Entries> {
    if pairs == [] then p
    else InFront(pairs[..|pairs| - 1], WithEntry(Last(pairs).name, Last(pairs).item, p))
  }

  function EntriesOf(pairs: seq<Pair>): Entries {
    if pairs == [] then NoEntry else Entry(pairs[0].name, pairs[0].item, EntriesOf(pairs[1..]))
  }

  function Joined(pairs: seq<Pair>, entries: Entries): Entries {
    if pairs == [] then entries else Entry(pairs[0].name, pairs[0].item, Joined(pairs[1..], entries))
  }

  lemma {:induction false} JoinedSnoc(pairs: seq<Pair>, x: Pair, entries: Entries)
    ensures Joined(pairs + [x], entries) == Joined(pairs, Entry(x.name, x.item, entries))
    decreases |pairs|
  {
    if pairs == [] {
      assert ([] + [x])[1..] == [];
    } else {
      assert (pairs + [x])[1..] == pairs[1..] + [x];
      JoinedSnoc(pairs[1..], x, entries);
    }
  }

  lemma {:induction false} JoinedNothing(pairs: seq<Pair>)
    ensures Joined(pairs, NoEntry) == EntriesOf(pairs)
    decreases |pairs|
  {
    if pairs != [] {
      JoinedNothing(pairs[1..]);
    }
  }

  lemma {:induction false} InFrontIs(pairs: seq<Pair>, p: Parsed<Entries>)
    ensures InFront(pairs, p)
            == match p.result case None => p case Some(entries) => Parsed(Some(Joined(pairs, entries)), p.left)
    decreases |pairs|
  {
    if pairs != [] {
      var init, x := pairs[..|pairs| - 1], Last(pairs);
      InFrontIs(init, WithEntry(x.name, x.item, p));
      assert pairs == init + [x];
      if p.result.Some? {
        JoinedSnoc(init, x, p.result.value);
      }
    }
  }

  lemma InFrontOfOne(pairs: seq<Pair>, x: Pair, p: Parsed<Entries>)
    ensures InFront(pairs + [x], p) == InFront(pairs, WithEntry(x.name, x.item, p))
  {
    assert (pairs + [x])[..|pairs|] == pairs;
  }

  lemma InFrontOfNothing(pairs: seq<Pair>, left: seq<byte>)
    ensures InFront(pairs, Parsed(Some(NoEntry), left)) == Parsed(Some(EntriesOf(pairs)), left)
    ensures InFront(pairs, Parsed(None, left)) == Parsed(None, left)
  {
    InFrontIs(pairs, Parsed(Some(NoEntry), left));
    InFrontIs(pairs, Parsed(None, left));
    JoinedNothing(pairs);
  }

  /** What stands in front of the value of an entry: nothing more, a key that is cut off, or a key and a marker. */
  datatype Head = NoHead | CutOff | Head(key: seq<byte>, marker: byte)

  function HeadAt(s: seq<byte>): Head {
    if |s| < 2 then NoHead
    else
      var len := Value(s[..2]);
      if |s| - 2 <= len then CutOff else Head(s[2..2 + len], s[2 + len])
  }

  function BehindHead(s: seq<byte>): seq<byte> {
    if |s| < 2 then s
    else
      var len := Value(s[..2]);
      if |s| - 2 < len then s[2..] else if |s| - 2 == len then [] else s[3 + len..]
  }

  /** One round of the entry loop. */
  lemma EntriesStep(s: seq<byte>, count: Option<nat>)
    ensures count == Some(0) ==> DecodeEntries(s, count) == Parsed(Some(NoEntry), s)
    ensures count != Some(0) ==>
              var behind := BehindHead(s);
              DecodeEntries(s, count)
              == match HeadAt(s)
                 case NoHead => Parsed(Some(NoEntry), behind)
                 case CutOff => Parsed(None, behind)
                 case Head(key, marker) =>
                   if marker == OBJECT_END then Parsed(Some(NoEntry), behind)
                   else
                     var first := Decode(marker, behind);
                     match first.result
                     case None => Parsed(None, first.left)
                     case Some(item) => WithEntry(key, item, DecodeEntries(first.left, Fewer(count)))
  {
    hide Value, Decode, WithEntry;
  }

  method ReadHead(bb: BitBuffer) returns (h: Head)
    requires Aligned(bb)
    modifies bb
    ensures Aligned(bb) && h == HeadAt(old(Left(bb))) && Left(bb) == BehindHead(old(Left(bb)))
    ensures h.Head? ==> bb.curPos > old(bb.curPos)
  {
    hide Value;
    ghost var s := Left(bb);
    var ok, len := GetBytes(bb, 2);
    if !ok {
      return NoHead;
    }
    if |bb.data| - bb.curPos / 8 < len {
      return CutOff;
    }
    TwoThen(s, len);
    var key := GetString(bb, len);
    var typed, marker := GetBytes(bb, 1);
    if !typed {
      return CutOff;
    }
    MarkerBehind(s, len);
    h := Head(key, marker);
  }

  method ReadEntries(bb: BitBuffer, count: Option<nat>) returns (r: Option<Entries>)
    requires Aligned(bb)
    modifies bb
    ensures Aligned(bb) && Parsed(r, Left(bb)) == DecodeEntries(old(Left(bb)), count)
    decreases |bb.data| - bb.curPos / 8, 0
  {
    hide Value, DecodeEntries, Decode, WithEntry, InFront, EntriesOf, HeadAt, BehindHead, Left;
    ghost var all := DecodeEntries(Left(bb), count);
    var pairs: seq<Pair> := [];
    var c := count;
    NoneInFront(all);
    while c != Some(0)
      invariant Aligned(bb) && bb.curPos >= old(bb.curPos) && InFront(pairs, DecodeEntries(Left(bb), c)) == all
      decreases |bb.data| - bb.curPos / 8
    {
      EntriesStep(Left(bb), c);
      var h := ReadHead(bb);
      InFrontOfNothing(pairs, Left(bb));
      if h == CutOff {
        return None;
      }
      if h == NoHead || h.marker == OBJECT_END {
        return Some(EntriesOf(pairs));
      }
      var item := ReadValue(h.marker, bb);
      InFrontOfNothing(pairs, Left(bb));
      if item == None {
        return None;
      }
      c := Fewer(c);
      InFrontOfOne(pairs, Pair(h.key, item.value), DecodeEntries(Left(bb), c));
      pairs := pairs + [Pair(h.key, item.value)];
    }
    EntriesStep(Left(bb), c);
    InFrontOfNothing(pairs, Left(bb));
    r := Some(EntriesOf(pairs));
  }

  lemma NoneInFront(p: Parsed<Entries>)
    ensures InFront([], p) == p
  {
  }

  lemma NoMore(values: seq<Decoded>, s: seq<byte>)
    requires s != []
    ensures var p := Decode(s[0], s[1..]);
            var c := DecodeAll(p.left);
            && DecodeAll(s).values == (if p.result.Some? then [p.result.value] else []) + c.values
            && DecodeAll(s).ok == (p.result.Some? && c.ok)
  {
    hide Decode;
    var p := Decode(s[0], s[1..]);
    assert [] + DecodeAll(p.left).values == DecodeAll(p.left).values;
  }

  lemma MoreValues(a: seq<Decoded>, b: seq<Decoded>, c: seq<Decoded>)
    ensures a + (b + c) == a + b + c && a + [] == a
  {
  }

  /** All values of a command; one that cannot be decoded is left out and makes the whole call fail. */
  method DecodeCommand(data: seq<byte>) returns (values: seq<Decoded>, ok: bool)
    ensures Command(values, ok) == DecodeAll(data)
  {
    hide Value, Decode, DecodeAll;
    var bb := new BitBuffer(data);
    values, ok := [], true;
    assert Left(bb) == data;
    while true
      invariant Aligned(bb)
      invariant values + DecodeAll(Left(bb)).values == DecodeAll(data).values
      invariant (ok && DecodeAll(Left(bb)).ok) == DecodeAll(data).ok
      decreases |bb.data| - bb.curPos / 8
    {
      ghost var s := Left(bb);
      var more, marker := GetBytes(bb, 1);
      if !more {
        break;
      }
      FirstByte(s);
      NoMore(values, s);
      var r := ReadValue(marker, bb);
      ghost var found := if r.Some? then [r.value] else [];
      MoreValues(values, found, DecodeAll(Left(bb)).values);
      if r.Some? {
        values := values + [r.value];
      } else {
        ok := false;
      }
    }
    NothingToDecode();
    MoreValues(values, [], []);
  }
}
