/**
 The table-driven CRCs of the server, against bit-serial division by their generator polynomials. The HLS form
 (ISO/IEC 13818-1, annex A) takes the bits of a byte from the top; the STUN form (RFC 5389, section 15.5) is its
 mirror image.
 */
module Crc {
  import opened Bytes
  import Octets

  datatype Form = Hls | Stun

  // ---------------------------------------------------------------------------------------------
  // Bit-serial division
  // ---------------------------------------------------------------------------------------------

  /** Addition of polynomials over two elements. */
  function Add(a: bv32, b: bv32): bv32 {
    a ^ b
  }

  /** The bit of `w` that is next to enter or leave the register. */
  function HlsHead(w: bv32): bv32 {
    w & 0x8000_0000
  }

  function StunHead(w: bv32): bv32 {
    w & 1
  }

  function Head(form: Form, w: bv32): bv32 {
    if form == Hls then HlsHead(w) else StunHead(w)
  }

  function Left(w: bv32): bv32 {
    w << 1
  }

  function Right(w: bv32): bv32 {
    w >> 1
  }

  function Advance(form: Form, w: bv32): bv32 {
    if form == Hls then Left(w) else Right(w)
  }

  const HLS_POLY: bv32 := 0x04C11DB7
  const STUN_POLY: bv32 := 0xEDB88320

  function HlsDivide(r: bv32): bv32 {
    if HlsHead(r) != 0 then Add(Left(r), HLS_POLY) else Left(r)
  }

  function StunDivide(r: bv32): bv32 {
    if StunHead(r) != 0 then Add(Right(r), STUN_POLY) else Right(r)
  }

  /** One step of the division by the generator polynomial. */
  function Divide(form: Form, r: bv32): bv32 {
    if form == Hls then HlsDivide(r) else StunDivide(r)
  }

  function HlsPlace(x: bv8): bv32 {
    (x as bv32) << 24
  }

  function StunPlace(x: bv8): bv32 {
    x as bv32
  }

  /** A message byte lined up with the place where the register takes it in. */
  function Place(form: Form, x: bv8): bv32 {
    if form == Hls then HlsPlace(x) else StunPlace(x)
  }

  /** Takes in `n` bits of a message, one at a time. */
  function TakeBits(form: Form, r: bv32, w: bv32, n: nat): bv32
    decreases n
  {
    if n == 0 then r else TakeBits(form, Divide(form, Add(r, Head(form, w))), Advance(form, w), n - 1)
  }

  function Octet(b: byte): bv8 {
    b as bv8
  }

  function TakeByte(form: Form, r: bv32, x: bv8): bv32 {
    TakeBits(form, r, Place(form, x), 8)
  }

  function TakeAll(form: Form, r: bv32, s: seq<byte>): bv32
    decreases |s|
  {
    if s == [] then r else TakeAll(form, TakeByte(form, r, Octet(s[0])), s[1..])
  }

  const START: bv32 := 0xFFFF_FFFF

  /** The register after the whole message; the STUN form complements it. */
  function Checksum(form: Form, s: seq<byte>): bv32 {
    var r := TakeAll(form, START, s);
    if form == Hls then r else Add(r, START)
  }

  // ---------------------------------------------------------------------------------------------
  // A division step is linear and loses nothing
  // ---------------------------------------------------------------------------------------------

  function HighMask(a: bv32): bv32 {
    0 - (a >> 31)
  }

  function LowMask(a: bv32): bv32 {
    0 - (a & 1)
  }

  /** The same step without a branch. */
  function HlsPart(m: bv32): bv32 {
    m & HLS_POLY
  }

  function HlsStep(a: bv32): bv32 {
    Add(Left(a), HlsPart(HighMask(a)))
  }

  function StunPart(m: bv32): bv32 {
    m & STUN_POLY
  }

  function StunStep(a: bv32): bv32 {
    Add(Right(a), StunPart(LowMask(a)))
  }

  lemma HighBit(a: bv32)
    ensures HighMask(a) == if HlsHead(a) != 0 then 0xFFFF_FFFF else 0
  {
  }

  lemma LowBit(a: bv32)
    ensures StunHead(a) != 0 ==> LowMask(a) == 0xFFFF_FFFF
    ensures StunHead(a) == 0 ==> LowMask(a) == 0
  {
  }

  lemma MaskedParts()
    ensures HlsPart(0xFFFF_FFFF) == HLS_POLY && HlsPart(0) == 0
    ensures StunPart(0xFFFF_FFFF) == STUN_POLY && StunPart(0) == 0
  {
  }

  lemma AddZero(r: bv32)
    ensures Add(r, 0) == r && Add(0, r) == r
  {
  }

  lemma HlsMask(a: bv32)
    ensures HlsDivide(a) == HlsStep(a)
  {
    hide HighMask, HlsHead, HlsPart, Left, Add;
    HighBit(a);
    MaskedParts();
    AddZero(Left(a));
  }

  lemma StunMask(a: bv32)
    ensures StunDivide(a) == StunStep(a)
  {
    hide LowMask, StunHead, StunPart, Right, Add;
    LowBit(a);
    MaskedParts();
    AddZero(Right(a));
  }

  lemma AddAssociates(a: bv32, b: bv32, c: bv32)
    ensures Add(Add(a, b), c) == Add(a, Add(b, c))
  {
  }

  lemma AddCommutes(a: bv32, b: bv32)
    ensures Add(a, b) == Add(b, a)
  {
  }

  lemma AddSwap(a: bv32, b: bv32, c: bv32, d: bv32)
    ensures Add(Add(a, b), Add(c, d)) == Add(Add(a, c), Add(b, d))
  {
    hide Add;
    AddAssociates(a, b, Add(c, d));
    AddAssociates(b, c, d);
    AddCommutes(b, c);
    AddAssociates(c, b, d);
    AddAssociates(a, c, Add(b, d));
  }

  lemma HighMaskLinear(a: bv32, b: bv32)
    ensures HighMask(Add(a, b)) == Add(HighMask(a), HighMask(b))
  {
  }

  lemma LowMaskLinear(a: bv32, b: bv32)
    ensures LowMask(Add(a, b)) == Add(LowMask(a), LowMask(b))
  {
  }

  predicate IsMask(m: bv32) {
    m == 0 || m == 0xFFFF_FFFF
  }

  lemma AddMasks()
    ensures Add(0xFFFF_FFFF, 0xFFFF_FFFF) == 0
    ensures Add(HLS_POLY, HLS_POLY) == 0 && Add(STUN_POLY, STUN_POLY) == 0
  {
  }

  lemma PartsLinear(a: bv32, b: bv32)
    requires IsMask(a) && IsMask(b)
    ensures HlsPart(Add(a, b)) == Add(HlsPart(a), HlsPart(b))
    ensures StunPart(Add(a, b)) == Add(StunPart(a), StunPart(b))
  {
    hide Add, HlsPart, StunPart;
    MaskedParts();
    AddMasks();
    AddZero(a);
    AddZero(b);
    AddZero(HlsPart(a));
    AddZero(HlsPart(b));
    AddZero(StunPart(a));
    AddZero(StunPart(b));
  }

  lemma LeftLinear(a: bv32, b: bv32)
    ensures Left(Add(a, b)) == Add(Left(a), Left(b))
  {
  }

  lemma RightLinear(a: bv32, b: bv32)
    ensures Right(Add(a, b)) == Add(Right(a), Right(b))
  {
  }

  lemma HlsLinear(a: bv32, b: bv32)
    ensures HlsStep(Add(a, b)) == Add(HlsStep(a), HlsStep(b))
  {
    hide HighMask, HlsHead, HlsPart, Left, Add;
    HighMaskLinear(a, b);
    HighBit(a);
    HighBit(b);
    PartsLinear(HighMask(a), HighMask(b));
    LeftLinear(a, b);
    AddSwap(Left(a), Left(b), HlsPart(HighMask(a)), HlsPart(HighMask(b)));
  }

  lemma StunLinear(a: bv32, b: bv32)
    ensures StunStep(Add(a, b)) == Add(StunStep(a), StunStep(b))
  {
    hide LowMask, StunHead, StunPart, Right, Add;
    LowMaskLinear(a, b);
    LowBit(a);
    LowBit(b);
    PartsLinear(LowMask(a), LowMask(b));
    RightLinear(a, b);
    AddSwap(Right(a), Right(b), StunPart(LowMask(a)), StunPart(LowMask(b)));
  }

  lemma HlsKernel(a: bv32)
    ensures HlsStep(a) == 0 ==> a == 0
  {
  }

  lemma StunKernel(a: bv32)
    ensures StunStep(a) == 0 ==> a == 0
  {
  }

  lemma DivideLinear(form: Form, a: bv32, b: bv32)
    ensures Divide(form, Add(a, b)) == Add(Divide(form, a), Divide(form, b))
  {
    hide HlsDivide, StunDivide, HlsStep, StunStep, Add;
    HlsMask(a);
    HlsMask(b);
    HlsMask(Add(a, b));
    HlsLinear(a, b);
    StunMask(a);
    StunMask(b);
    StunMask(Add(a, b));
    StunLinear(a, b);
  }

  lemma DivideKernel(form: Form, a: bv32)
    ensures Divide(form, a) == 0 ==> a == 0
  {
    hide HlsDivide, StunDivide, HlsStep, StunStep;
    HlsMask(a);
    HlsKernel(a);
    StunMask(a);
    StunKernel(a);
  }

  lemma SumOfEquals(a: bv32, b: bv32)
    ensures Add(a, b) == 0 <==> a == b
  {
  }

  lemma DivideInjective(form: Form, a: bv32, b: bv32)
    requires Divide(form, a) == Divide(form, b)
    ensures a == b
  {
    hide *;
    DivideLinear(form, a, b);
    SumOfEquals(Divide(form, a), Divide(form, b));
    DivideKernel(form, Add(a, b));
    SumOfEquals(a, b);
  }

  function DivideTimes(form: Form, r: bv32, n: nat): bv32
    decreases n
  {
    if n == 0 then r else DivideTimes(form, Divide(form, r), n - 1)
  }

  lemma {:induction false} TimesLinear(form: Form, a: bv32, b: bv32, n: nat)
    ensures DivideTimes(form, Add(a, b), n) == Add(DivideTimes(form, a, n), DivideTimes(form, b, n))
    decreases n
  {
    hide Divide, Add;
    if n > 0 {
      DivideLinear(form, a, b);
      TimesLinear(form, Divide(form, a), Divide(form, b), n - 1);
    }
  }

  lemma {:induction false} TimesInjective(form: Form, a: bv32, b: bv32, n: nat)
    requires DivideTimes(form, a, n) == DivideTimes(form, b, n)
    ensures a == b
    decreases n
  {
    hide Divide;
    if n > 0 {
      TimesInjective(form, Divide(form, a), Divide(form, b), n - 1);
      DivideInjective(form, a, b);
    }
  }

  // ---------------------------------------------------------------------------------------------
  // Bit by bit, or all at once
  // ---------------------------------------------------------------------------------------------

  function AdvanceTimes(form: Form, w: bv32, n: nat): bv32
    decreases n
  {
    if n == 0 then w else AdvanceTimes(form, Advance(form, w), n - 1)
  }

  function HlsTail(w: bv32): bv32 {
    w & 0x7FFF_FFFF
  }

  function StunTail(w: bv32): bv32 {
    w & 0xFFFF_FFFE
  }

  function Tail(form: Form, w: bv32): bv32 {
    if form == Hls then HlsTail(w) else StunTail(w)
  }

  lemma HlsParts(w: bv32)
    ensures w == Add(HlsHead(w), HlsTail(w))
  {
  }

  lemma HlsSplit(r: bv32, w: bv32)
    ensures Add(r, w) == Add(Add(r, HlsHead(w)), HlsTail(w))
  {
    hide Add, HlsHead, HlsTail;
    HlsParts(w);
    AddAssociates(r, HlsHead(w), HlsTail(w));
  }

  lemma HlsTailMoves(w: bv32)
    ensures HlsDivide(HlsTail(w)) == Left(w)
  {
  }

  lemma StunParts(w: bv32)
    ensures w == Add(StunHead(w), StunTail(w))
  {
  }

  lemma StunSplit(r: bv32, w: bv32)
    ensures Add(r, w) == Add(Add(r, StunHead(w)), StunTail(w))
  {
    hide Add, StunHead, StunTail;
    StunParts(w);
    AddAssociates(r, StunHead(w), StunTail(w));
  }

  lemma StunTailMoves(w: bv32)
    ensures StunDivide(StunTail(w)) == Right(w)
  {
  }

  /** Behind the front, a division step only moves the register on. */
  lemma SplitFront(form: Form, r: bv32, w: bv32)
    ensures Add(r, w) == Add(Add(r, Head(form, w)), Tail(form, w))
    ensures Divide(form, Tail(form, w)) == Advance(form, w)
  {
    hide HlsHead, HlsTail, StunHead, StunTail, Add, HlsDivide, StunDivide, Left, Right;
    HlsSplit(r, w);
    HlsTailMoves(w);
    StunSplit(r, w);
    StunTailMoves(w);
  }

  /** Taking bits in one by one is the same as adding them all at once and then dividing. */
  lemma {:induction false} TakeBitsAtOnce(form: Form, r: bv32, w: bv32, n: nat)
    requires AdvanceTimes(form, w, n) == 0
    ensures TakeBits(form, r, w, n) == DivideTimes(form, Add(r, w), n)
    decreases n
  {
    hide Divide, Head, Tail, Advance, Add;
    if n == 0 {
      AddZero(r);
    } else {
      SplitFront(form, r, w);
      DivideLinear(form, Add(r, Head(form, w)), Tail(form, w));
      TakeBitsAtOnce(form, Divide(form, Add(r, Head(form, w))), Advance(form, w), n - 1);
    }
  }

  function Left8(w: bv32): bv32 {
    w << 8
  }

  function Right8(w: bv32): bv32 {
    w >> 8
  }

  /** Moves the register on by a byte. */
  function ShiftByte(form: Form, w: bv32): bv32 {
    if form == Hls then Left8(w) else Right8(w)
  }

  lemma EightLeft(w: bv32)
    ensures Left(Left(Left(Left(Left(Left(Left(Left(w)))))))) == Left8(w)
  {
  }

  lemma EightRight(w: bv32)
    ensures Right(Right(Right(Right(Right(Right(Right(Right(w)))))))) == Right8(w)
  {
  }


  lemma FourAdvances(form: Form, w: bv32, n: nat)
    requires n >= 4
    ensures AdvanceTimes(form, w, n) == AdvanceTimes(form, Advance(form, Advance(form, Advance(form, Advance(form, w)))), n - 4)
  {
    hide Advance;
    var w2 := Advance(form, Advance(form, w));
    assert AdvanceTimes(form, w, n) == AdvanceTimes(form, Advance(form, w), n - 1) == AdvanceTimes(form, w2, n - 2);
    assert AdvanceTimes(form, w2, n - 2) == AdvanceTimes(form, Advance(form, w2), n - 3);
  }

  lemma EightAdvances(form: Form, w: bv32)
    ensures AdvanceTimes(form, w, 8) == ShiftByte(form, w)
  {
    hide Left, Right, Left8, Right8;
    FourAdvances(form, w, 8);
    FourAdvances(form, Advance(form, Advance(form, Advance(form, Advance(form, w)))), 4);
    EightLeft(w);
    EightRight(w);
  }

  lemma PlaceShifted(x: bv8)
    ensures Left8(HlsPlace(x)) == 0 && Right8(StunPlace(x)) == 0
  {
  }

  lemma TakeByteAtOnce(form: Form, r: bv32, x: bv8)
    ensures TakeByte(form, r, x) == DivideTimes(form, Add(r, Place(form, x)), 8)
  {
    hide AdvanceTimes, DivideTimes, Add, HlsPlace, StunPlace, Left8, Right8;
    PlaceShifted(x);
    EightAdvances(form, Place(form, x));
    TakeBitsAtOnce(form, r, Place(form, x), 8);
  }

  // ---------------------------------------------------------------------------------------------
  // The fast form
  // ---------------------------------------------------------------------------------------------

  /** What the table holds for a byte. */
  function Entry(form: Form, x: bv8): bv32 {
    TakeByte(form, 0, x)
  }

  function HlsFrontByte(r: bv32): bv8 {
    ((r >> 24) & 0xFF) as bv8
  }

  function StunFrontByte(r: bv32): bv8 {
    (r & 0xFF) as bv8
  }

  /** The byte of the register that the next message byte meets. */
  function FrontByte(form: Form, r: bv32): bv8 {
    if form == Hls then HlsFrontByte(r) else StunFrontByte(r)
  }

  function HlsRest(r: bv32): bv32 {
    r & 0x00FF_FFFF
  }

  function StunRest(r: bv32): bv32 {
    r & 0xFFFF_FF00
  }

  lemma HlsMeets(r: bv32, x: bv8)
    ensures Add(r, HlsPlace(x)) == Add(HlsRest(r), HlsPlace(HlsFrontByte(r) ^ x)) && Left8(HlsRest(r)) == Left8(r)
  {
  }

  lemma StunMeets(r: bv32, x: bv8)
    ensures Add(r, StunPlace(x)) == Add(StunRest(r), StunPlace(StunFrontByte(r) ^ x)) && Right8(StunRest(r)) == Right8(r)
  {
  }

  function Rest(form: Form, r: bv32): bv32 {
    if form == Hls then HlsRest(r) else StunRest(r)
  }

  /** The next `n` bits to enter are all clear. */
  predicate Quiet(form: Form, w: bv32, n: nat)
    decreases n
  {
    n > 0 ==> Head(form, w) == 0 && Quiet(form, Advance(form, w), n - 1)
  }

  lemma HlsQuiet(w: bv32)
    ensures HlsHead(w) == 0 ==> HlsDivide(w) == Left(w)
  {
  }

  lemma StunQuiet(w: bv32)
    ensures StunHead(w) == 0 ==> StunDivide(w) == Right(w)
  {
  }

  lemma {:induction false} QuietMoves(form: Form, w: bv32, n: nat)
    requires Quiet(form, w, n)
    ensures DivideTimes(form, w, n) == AdvanceTimes(form, w, n)
    decreases n
  {
    hide HlsHead, StunHead, HlsDivide, StunDivide, Left, Right;
    if n > 0 {
      HlsQuiet(w);
      StunQuiet(w);
      QuietMoves(form, Advance(form, w), n - 1);
    }
  }

  lemma FourQuiet(form: Form, w: bv32, n: nat)
    requires n >= 4
    requires var w1 := Advance(form, w);
             var w2 := Advance(form, w1);
             var w3 := Advance(form, w2);
             && Head(form, w) == Head(form, w1) == Head(form, w2) == Head(form, w3) == 0
             && Quiet(form, Advance(form, w3), n - 4)
    ensures Quiet(form, w, n)
  {
    hide Head, Advance;
    var w2 := Advance(form, Advance(form, w));
    assert Quiet(form, Advance(form, w2), n - 3);
    assert Quiet(form, w2, n - 2);
    assert Quiet(form, Advance(form, w), n - 1);
  }

  lemma HlsRestQuiet(r: bv32)
    ensures var w := HlsRest(r);
            var w4 := Left(Left(Left(Left(w))));
            && HlsHead(w) == HlsHead(Left(w)) == HlsHead(Left(Left(w))) == HlsHead(Left(Left(Left(w)))) == 0
            && HlsHead(w4) == HlsHead(Left(w4)) == HlsHead(Left(Left(w4))) == HlsHead(Left(Left(Left(w4)))) == 0
  {
  }

  lemma StunRestQuiet(r: bv32)
    ensures var w := StunRest(r);
            var w4 := Right(Right(Right(Right(w))));
            && StunHead(w) == StunHead(Right(w)) == StunHead(Right(Right(w))) == StunHead(Right(Right(Right(w)))) == 0
            && StunHead(w4) == StunHead(Right(w4)) == StunHead(Right(Right(w4))) == StunHead(Right(Right(Right(w4)))) == 0
  {
  }

  lemma RestQuiet(form: Form, r: bv32)
    ensures Quiet(form, Rest(form, r), 8)
  {
    hide HlsHead, StunHead, Left, Right, HlsRest, StunRest;
    HlsRestQuiet(r);
    StunRestQuiet(r);
    var w := Rest(form, r);
    FourQuiet(form, Advance(form, Advance(form, Advance(form, Advance(form, w)))), 4);
    FourQuiet(form, w, 8);
  }

  lemma Meets(form: Form, r: bv32, x: bv8)
    ensures Add(r, Place(form, x)) == Add(Rest(form, r), Place(form, FrontByte(form, r) ^ x))
    ensures ShiftByte(form, Rest(form, r)) == ShiftByte(form, r)
  {
    hide Add, HlsPlace, StunPlace, HlsRest, StunRest, HlsFrontByte, StunFrontByte, Left8, Right8;
    HlsMeets(r, x);
    StunMeets(r, x);
  }

  /** One table lookup does the work of eight steps of the division. */
  lemma TableStep(form: Form, r: bv32, x: bv8)
    ensures TakeByte(form, r, x) == Add(ShiftByte(form, r), Entry(form, FrontByte(form, r) ^ x))
  {
    hide TakeByte, Add, Rest, Place, ShiftByte, FrontByte, DivideTimes, AdvanceTimes, Quiet;
    var y := FrontByte(form, r) ^ x;
    Meets(form, r, x);
    TakeByteAtOnce(form, r, x);
    TakeByteAtOnce(form, 0, y);
    AddZero(Place(form, y));
    TimesLinear(form, Rest(form, r), Place(form, y), 8);
    RestQuiet(form, r);
    QuietMoves(form, Rest(form, r), 8);
    EightAdvances(form, Rest(form, r));
  }

  // ---------------------------------------------------------------------------------------------
  // What the checksum detects
  // ---------------------------------------------------------------------------------------------

  lemma {:induction false} TakeAllAppend(form: Form, r: bv32, a: seq<byte>, b: seq<byte>)
    ensures TakeAll(form, r, a + b) == TakeAll(form, TakeAll(form, r, a), b)
    decreases |a|
  {
    hide TakeByte;
    if a == [] {
      assert a + b == b;
    } else {
      assert (a + b)[1..] == a[1..] + b;
      TakeAllAppend(form, TakeByte(form, r, Octet(a[0])), a[1..], b);
    }
  }

  lemma TakeByteInjective(form: Form, r: bv32, q: bv32, x: bv8)
    requires TakeByte(form, r, x) == TakeByte(form, q, x)
    ensures r == q
  {
    hide *;
    TakeByteAtOnce(form, r, x);
    TakeByteAtOnce(form, q, x);
    TimesInjective(form, Add(r, Place(form, x)), Add(q, Place(form, x)), 8);
    Cancel(r, q, Place(form, x));
  }

  lemma Cancel(a: bv32, b: bv32, c: bv32)
    ensures Add(a, c) == Add(b, c) ==> a == b
  {
  }

  /** Different registers stay different however the message goes on. */
  lemma {:induction false} TakeAllInjective(form: Form, r: bv32, q: bv32, s: seq<byte>)
    requires TakeAll(form, r, s) == TakeAll(form, q, s)
    ensures r == q
    decreases |s|
  {
    hide TakeByte;
    if s != [] {
      var x := Octet(s[0]);
      TakeAllInjective(form, TakeByte(form, r, x), TakeByte(form, q, x), s[1..]);
      TakeByteInjective(form, r, q, x);
    }
  }

  /** Up to four message bytes, lined up one behind the other. */
  function PlaceAll(form: Form, m: seq<byte>): bv32
    decreases |m|
  {
    if m == [] then 0 else Add(Place(form, Octet(m[0])), ShiftBack(form, PlaceAll(form, m[1..])))
  }

  function ShiftBack(form: Form, w: bv32): bv32 {
    if form == Hls then Right8(w) else Left8(w)
  }

  lemma HlsBackBytes(x: bv8, y: bv8, z: bv8)
    ensures Left8(Right8(0)) == 0
    ensures var w := Add(HlsPlace(x), Right8(0)); Left8(Right8(w)) == w
    ensures var w := Add(HlsPlace(x), Right8(Add(HlsPlace(y), Right8(0)))); Left8(Right8(w)) == w
    ensures var w := Add(HlsPlace(x), Right8(Add(HlsPlace(y), Right8(Add(HlsPlace(z), Right8(0)))))); Left8(Right8(w)) == w
  {
  }

  lemma StunBackBytes(x: bv8, y: bv8, z: bv8)
    ensures Right8(Left8(0)) == 0
    ensures var w := Add(StunPlace(x), Left8(0)); Right8(Left8(w)) == w
    ensures var w := Add(StunPlace(x), Left8(Add(StunPlace(y), Left8(0)))); Right8(Left8(w)) == w
    ensures var w := Add(StunPlace(x), Left8(Add(StunPlace(y), Left8(Add(StunPlace(z), Left8(0)))))); Right8(Left8(w)) == w
  {
  }

  lemma BackBytes(form: Form, x: bv8, y: bv8, z: bv8)
    ensures ShiftByte(form, ShiftBack(form, 0)) == 0
    ensures var w := Add(Place(form, x), ShiftBack(form, 0)); ShiftByte(form, ShiftBack(form, w)) == w
    ensures var w := Add(Place(form, x), ShiftBack(form, Add(Place(form, y), ShiftBack(form, 0))));
            ShiftByte(form, ShiftBack(form, w)) == w
    ensures var w := Add(Place(form, x), ShiftBack(form, Add(Place(form, y), ShiftBack(form, Add(Place(form, z), ShiftBack(form, 0))))));
            ShiftByte(form, ShiftBack(form, w)) == w
  {
    hide Left8, Right8, Add, HlsPlace, StunPlace;
    HlsBackBytes(x, y, z);
    StunBackBytes(x, y, z);
  }

  lemma PlaceCons(form: Form, m: seq<byte>, rest: seq<byte>)
    requires m != [] && m[1..] == rest
    ensures PlaceAll(form, m) == Add(Place(form, Octet(m[0])), ShiftBack(form, PlaceAll(form, rest)))
  {
  }

  /** Three bytes leave room for a fourth. */
  lemma BackAndForth(form: Form, m: seq<byte>)
    requires |m| <= 3
    ensures var w := PlaceAll(form, m); ShiftByte(form, ShiftBack(form, w)) == w
  {
    hide ShiftByte, ShiftBack, Place, Add, PlaceAll;
    NothingPlaced(form);
    if m == [] {
      BackBytes(form, 0, 0, 0);
    } else {
      BackAndForthSome(form, m);
    }
  }

  lemma NothingPlaced(form: Form)
    ensures PlaceAll(form, []) == 0
  {
  }

  lemma BackAndForthSome(form: Form, m: seq<byte>)
    requires 1 <= |m| <= 3
    ensures var w := PlaceAll(form, m); ShiftByte(form, ShiftBack(form, w)) == w
  {
    hide ShiftByte, ShiftBack, Place, Add, PlaceAll, Octet;
    NothingPlaced(form);
    var x := Octet(m[0]);
    PlaceCons(form, m, m[1..]);
    if |m| == 1 {
      BackBytes(form, x, 0, 0);
    } else {
      var y := Octet(m[1]);
      PlaceCons(form, m[1..], m[2..]);
      if |m| == 2 {
        BackBytes(form, x, y, 0);
      } else {
        var z := Octet(m[2]);
        PlaceCons(form, m[2..], []);
        BackBytes(form, x, y, z);
      }
    }
  }

  lemma BackIsRest(w: bv32)
    ensures HlsRest(Right8(w)) == Right8(w) && StunRest(Left8(w)) == Left8(w)
  {
  }

  /** Bytes that wait behind the front ride through eight division steps unharmed. */
  lemma RidesAlong(form: Form, r: bv32, w: bv32)
    requires ShiftByte(form, ShiftBack(form, w)) == w
    ensures DivideTimes(form, Add(r, ShiftBack(form, w)), 8) == Add(DivideTimes(form, r, 8), w)
  {
    hide Left8, Right8, Add, HlsRest, StunRest, Quiet, DivideTimes, AdvanceTimes;
    var b := ShiftBack(form, w);
    BackIsRest(w);
    assert Rest(form, b) == b;
    RestQuiet(form, b);
    QuietMoves(form, b, 8);
    EightAdvances(form, b);
    TimesLinear(form, r, b, 8);
  }

  /** Four bytes taken in one after the other are the same as one addition and then only divisions. */
  lemma {:induction false} TakeAllAtOnce(form: Form, r: bv32, m: seq<byte>)
    requires |m| <= 4
    ensures TakeAll(form, r, m) == DivideTimes(form, Add(r, PlaceAll(form, m)), 8 * |m|)
    decreases |m|
  {
    hide Add, Place, ShiftBack, ShiftByte, TakeByte;
    if m == [] {
      AddZero(r);
    } else {
      var x, w := Octet(m[0]), PlaceAll(form, m[1..]);
      BackAndForth(form, m[1..]);
      TakeByteAtOnce(form, r, x);
      TakeAllAtOnce(form, TakeByte(form, r, x), m[1..]);
      RidesAlong(form, Add(r, Place(form, x)), w);
      AddAssociates(r, Place(form, x), ShiftBack(form, w));
      TimesAdd(form, Add(r, PlaceAll(form, m)), 8, 8 * |m[1..]|);
    }
  }

  lemma {:induction false} TimesAdd(form: Form, r: bv32, a: nat, b: nat)
    ensures DivideTimes(form, r, a + b) == DivideTimes(form, DivideTimes(form, r, a), b)
    decreases a
  {
    hide Divide;
    if a > 0 {
      TimesAdd(form, Divide(form, r), a - 1, b);
    }
  }

  lemma HlsFrontOf(x: bv8, w: bv32)
    ensures HlsFrontByte(Add(HlsPlace(x), Right8(w))) == x
  {
  }

  lemma StunFrontOf(x: bv8, w: bv32)
    ensures StunFrontByte(Add(StunPlace(x), Left8(w))) == x
  {
  }

  lemma SameByte(a: byte, b: byte)
    requires Octet(a) == Octet(b)
    ensures a == b
  {
    Octets.RoundTrip(a);
    Octets.RoundTrip(b);
  }

  lemma CancelLeft(a: bv32, b: bv32, c: bv32)
    ensures Add(c, a) == Add(c, b) ==> a == b
  {
  }

  lemma {:induction false} PlaceAllInjective(form: Form, m: seq<byte>, m': seq<byte>)
    requires |m| == |m'| <= 4 && PlaceAll(form, m) == PlaceAll(form, m')
    ensures m == m'
    decreases |m|
  {
    hide Add, HlsPlace, StunPlace, Left8, Right8, HlsFrontByte, StunFrontByte;
    if m != [] {
      var w, w' := PlaceAll(form, m[1..]), PlaceAll(form, m'[1..]);
      HlsFrontOf(Octet(m[0]), w);
      HlsFrontOf(Octet(m'[0]), w');
      StunFrontOf(Octet(m[0]), w);
      StunFrontOf(Octet(m'[0]), w');
      SameByte(m[0], m'[0]);
      CancelLeft(ShiftBack(form, w), ShiftBack(form, w'), Place(form, Octet(m[0])));
      BackAndForth(form, m[1..]);
      BackAndForth(form, m'[1..]);
      PlaceAllInjective(form, m[1..], m'[1..]);
      assert m == [m[0]] + m[1..] && m' == [m'[0]] + m'[1..];
    }
  }

  /** Messages of equal length that differ only within four consecutive bytes have different checksums. */
  lemma {:induction false} BurstDetected(form: Form, before: seq<byte>, m: seq<byte>, m': seq<byte>, after: seq<byte>)
    requires |m| == |m'| <= 4 && m != m'
    ensures Checksum(form, before + m + after) != Checksum(form, before + m' + after)
  {
    hide TakeAll, Add, PlaceAll, DivideTimes;
    var r := TakeAll(form, START, before);
    TakeAllAppend(form, START, before + m, after);
    TakeAllAppend(form, START, before, m);
    TakeAllAppend(form, START, before + m', after);
    TakeAllAppend(form, START, before, m');
    var q, q' := TakeAll(form, r, m), TakeAll(form, r, m');
    if q == q' {
      TakeAllAtOnce(form, r, m);
      TakeAllAtOnce(form, r, m');
      TimesInjective(form, Add(r, PlaceAll(form, m)), Add(r, PlaceAll(form, m')), 8 * |m|);
      CancelLeft(PlaceAll(form, m), PlaceAll(form, m'), r);
      PlaceAllInjective(form, m, m');
    } else {
      if TakeAll(form, q, after) == TakeAll(form, q', after) {
        TakeAllInjective(form, q, q', after);
      }
      Cancel(TakeAll(form, q, after), TakeAll(form, q', after), START);
    }
  }

  /** Messages of equal length that differ in exactly one byte have different checksums. */
  lemma SingleByteDetected(form: Form, s: seq<byte>, i: nat, b: byte)
    requires i < |s| && s[i] != b
    ensures Checksum(form, s) != Checksum(form, s[i := b])
  {
    hide Checksum;
    assert s == s[..i] + [s[i]] + s[i + 1..];
    assert s[i := b] == s[..i] + [b] + s[i + 1..];
    BurstDetected(form, s[..i], [s[i]], [b], s[i + 1..]);
  }

  lemma OwnByte(r: bv32)
    ensures HlsFrontByte(r) ^ HlsFrontByte(r) == 0
  {
  }

  /** The bytes of a number from the top down. */
  function Bytes4(c: bv32): seq<bv8> {
    [HlsFrontByte(c), HlsFrontByte(Left8(c)), HlsFrontByte(Left8(Left8(c))), HlsFrontByte(Left8(Left8(Left8(c))))]
  }

  /** The checksum as it is appended to a section, most significant byte first. */
  function Appended(c: bv32): (s: seq<byte>)
    ensures |s| == 4
  {
    [Bytes4(c)[0] as byte, Bytes4(c)[1] as byte, Bytes4(c)[2] as byte, Bytes4(c)[3] as byte]
  }

  lemma {:induction false} NothingEnters(n: nat)
    ensures DivideTimes(Hls, 0, n) == 0
    decreases n
  {
    if n > 0 {
      NothingEnters(n - 1);
    }
  }

  /** Feeding the register its own front byte only shifts it. */
  lemma OwnByteShifts(r: bv32)
    ensures TakeByte(Hls, r, HlsFrontByte(r)) == Left8(r)
  {
    hide TakeByte, Add, HlsFrontByte, Left8, DivideTimes;
    TableStep(Hls, r, HlsFrontByte(r));
    OwnByte(r);
    TakeByteAtOnce(Hls, 0, 0);
    AddZero(0);
    NothingEnters(8);
    AddZero(Left8(r));
  }

  lemma FourShifts(r: bv32)
    ensures Left8(Left8(Left8(Left8(r)))) == 0
  {
  }

  lemma ByteBack(x: bv8)
    ensures (x as byte) as bv8 == x
  {
  }

  /** A section followed by its own checksum leaves the register empty. */
  lemma SectionChecksItself(s: seq<byte>)
    ensures TakeAll(Hls, START, s + Appended(Checksum(Hls, s))) == 0
  {
    hide TakeByte, HlsFrontByte, Left8;
    var c := Checksum(Hls, s);
    var t := Appended(c);
    TakeAllAppend(Hls, START, s, t);
    var c1, c2, c3 := Left8(c), Left8(Left8(c)), Left8(Left8(Left8(c)));
    ByteBack(HlsFrontByte(c));
    ByteBack(HlsFrontByte(c1));
    ByteBack(HlsFrontByte(c2));
    ByteBack(HlsFrontByte(c3));
    OwnByteShifts(c);
    OwnByteShifts(c1);
    OwnByteShifts(c2);
    OwnByteShifts(c3);
    FourShifts(c);
    assert t[1..][1..] == t[2..] && t[2..][1..] == t[3..] && t[3..][1..] == [];
    assert TakeAll(Hls, c3, t[3..]) == Left8(c3);
    assert TakeAll(Hls, c2, t[2..]) == TakeAll(Hls, c3, t[3..]);
    assert TakeAll(Hls, c1, t[1..]) == TakeAll(Hls, c2, t[2..]);
  }

  // ---------------------------------------------------------------------------------------------
  // The tables and the loop over the data
  // ---------------------------------------------------------------------------------------------

  /** The marker that travels behind the bits of a byte and stops the loop once they are used up. */
  function Marker(t: nat): bv32
    requires t <= 8
  {
    [0x0080_0000, 0x0100_0000, 0x0200_0000, 0x0400_0000, 0x0800_0000, 0x1000_0000, 0x2000_0000, 0x4000_0000, 0x8000_0000][t]
  }

  /** `w` has nothing at or below the marker. */
  predicate Above(w: bv32, s: bv32) {
    w & (s | (s - 1)) == 0
  }

  lemma MarkerMoves(w: bv32, t: nat)
    requires t < 8 && Above(w, Marker(t))
    ensures Left(w | Marker(t)) == Left(w) | Marker(t + 1) && Above(Left(w), Marker(t + 1))
    ensures HlsHead(w | Marker(t)) == HlsHead(w) && w | Marker(t) != 0x8000_0000
  {
    if t == 0 {} else if t == 1 {} else if t == 2 {} else if t == 3 {} else if t == 4 {} else if t == 5 {} else if t == 6 {} else {}
  }

  lemma MarkerStarts(x: bv8)
    ensures Above(HlsPlace(x), Marker(0))
  {
  }

  lemma MarkerEnds(w: bv32)
    requires Above(w, Marker(8))
    ensures w | Marker(8) == 0x8000_0000
  {
  }

  /** The step as the table builder takes it. */
  function BuilderStep(k: bv32, j: bv32): bv32 {
    Add(Left(k), if HlsHead(Add(k, j)) != 0 then HLS_POLY else 0)
  }

  lemma BuilderBits(k: bv32, j: bv32)
    ensures HlsHead(Add(k, HlsHead(j))) == HlsHead(Add(k, j)) && Left(Add(k, HlsHead(j))) == Left(k)
  {
  }

  lemma BuilderStepDivides(k: bv32, j: bv32)
    ensures BuilderStep(k, j) == HlsDivide(Add(k, HlsHead(j)))
  {
    hide Add, HlsHead, Left;
    BuilderBits(k, j);
    AddZero(Left(k));
  }

  /** One entry of the HLS table: the loop runs exactly eight times. */
  method HlsEntry(x: bv8) returns (k: bv32, ghost steps: nat)
    ensures k == Entry(Hls, x) && steps == 8
  {
    hide HlsPlace, Left, HlsHead, HlsDivide, Add, BuilderStep, Marker, Above;
    k := 0;
    var j := HlsPlace(x) | 0x0080_0000;
    ghost var w := HlsPlace(x);
    ghost var t := 0;
    MarkerStarts(x);
    FirstMarker();
    while j != 0x8000_0000
      invariant t <= 8 && j == w | Marker(t) && Above(w, Marker(t))
      invariant TakeBits(Hls, k, w, 8 - t) == Entry(Hls, x)
      decreases 8 - t
    {
      if t == 8 {
        MarkerEnds(w);
      }
      MarkerMoves(w, t);
      BuilderStepDivides(k, j);
      k := BuilderStep(k, j);
      j := Left(j);
      w, t := Left(w), t + 1;
    }
    if t < 8 {
      MarkerMoves(w, t);
    }
    steps := t;
  }

  lemma FirstMarker()
    ensures Marker(0) == 0x0080_0000
  {
  }

  method MakeHlsTable(table: array<bv32>)
    requires table.Length == 256
    modifies table
    ensures forall x: bv8 :: table[x as nat] == Entry(Hls, x)
  {
    hide Entry;
    var i := 0;
    while i < 256
      invariant 0 <= i <= 256
      invariant forall x: bv8 :: x as nat < i ==> table[x as nat] == Entry(Hls, x)
    {
      var k, _ := HlsEntry(i as bv8);
      table[i] := k;
      i := i + 1;
    }
  }

  /** One entry of the STUN table: the byte is put into the register and divided out. */
  method StunEntry(x: bv8) returns (c: bv32)
    ensures c == Entry(Stun, x)
  {
    hide StunPlace, StunDivide, Add, TakeByte;
    c := StunPlace(x);
    TakeByteAtOnce(Stun, 0, x);
    AddZero(c);
    var j := 0;
    while j < 8
      invariant 0 <= j <= 8 && DivideTimes(Stun, c, 8 - j) == Entry(Stun, x)
    {
      c := StunDivide(c);
      j := j + 1;
    }
  }

  method MakeStunTable(table: array<bv32>)
    requires table.Length == 256
    modifies table
    ensures forall x: bv8 :: table[x as nat] == Entry(Stun, x)
  {
    hide Entry;
    var i := 0;
    while i < 256
      invariant 0 <= i <= 256
      invariant forall x: bv8 :: x as nat < i ==> table[x as nat] == Entry(Stun, x)
    {
      var c := StunEntry(i as bv8);
      table[i] := c;
      i := i + 1;
    }
  }

  class Crc32 {
    const form: Form
    const table: array<bv32>

    ghost predicate Valid()
      reads table
    {
      table.Length == 256 && forall x: bv8 :: table[x as nat] == Entry(form, x)
    }

    constructor (form: Form)
      ensures Valid() && this.form == form && fresh(table)
    {
      this.form := form;
      table := new bv32[256](_ => 0);
      new;
      if form == Hls {
        MakeHlsTable(table);
      } else {
        MakeStunTable(table);
      }
    }

    method TakeNext(c: bv32, x: bv8) returns (next: bv32)
      requires Valid()
      ensures next == TakeByte(form, c, x)
    {
      hide Entry, TakeByte, FrontByte, ShiftByte, Add;
      TableStep(form, c, x);
      var index := FrontByte(form, c) ^ x;
      next := Add(ShiftByte(form, c), table[index as nat]);
    }

    /** The checksum of `data` in one table lookup per byte. */
    method GetCrc32(data: seq<byte>) returns (c: bv32)
      requires Valid()
      ensures c == Checksum(form, data)
    {
      hide TakeByte, Add;
      c := START;
      var i := 0;
      while i < |data|
        invariant 0 <= i <= |data| && TakeAll(form, c, data[i..]) == TakeAll(form, START, data)
      {
        assert data[i..][1..] == data[i + 1..];
        c := TakeNext(c, Octet(data[i]));
        i := i + 1;
      }
      assert data[i..] == [];
      if form == Stun {
        c := Add(c, START);
      }
    }
  }
}
