/** The check values that are published for the two checksums: the generator polynomials are those of the standards. */
module CrcCheck {
  import opened Bytes
  import opened Media
  import opened Crc

  /** The digits 1 to 9 in ASCII. */
  const DIGITS: seq<byte> := [0x31, 0x32, 0x33, 0x34, 0x35, 0x36, 0x37, 0x38, 0x39]

  /** The register from the start on, digit by digit. */
  const HLS_STATES: seq<bv32> :=
    [0xFFFF_FFFF, 0x9EFB_CF93, 0x3FEC_5E6A, 0xD952_F164, 0xA695_C4AA,
     0xBD9A_B747, 0xD8F0_6C8F, 0x0D8A_14C4, 0x49E3_C2FB, 0x0376_E6E7]

  const STUN_STATES: seq<bv32> :=
    [0xFFFF_FFFF, 0x7C23_1048, 0xB0AC_BB32, 0x77B7_9C2D, 0x641C_1F5C,
     0x340A_C5E3, 0xF68D_2C9E, 0xAFFC_9660, 0x651F_2550, 0x340B_C6D9]

  lemma HlsOne()
    ensures TakeByte(Hls, 0xFFFF_FFFF, 0x31) == 0x9EFB_CF93
  {
  }

  lemma HlsTwo()
    ensures TakeByte(Hls, 0x9EFB_CF93, 0x32) == 0x3FEC_5E6A
  {
  }

  lemma HlsThree()
    ensures TakeByte(Hls, 0x3FEC_5E6A, 0x33) == 0xD952_F164
  {
  }

  lemma HlsFour()
    ensures TakeByte(Hls, 0xD952_F164, 0x34) == 0xA695_C4AA
  {
  }

  lemma HlsFive()
    ensures TakeByte(Hls, 0xA695_C4AA, 0x35) == 0xBD9A_B747
  {
  }

  lemma HlsSix()
    ensures TakeByte(Hls, 0xBD9A_B747, 0x36) == 0xD8F0_6C8F
  {
  }

  lemma HlsSeven()
    ensures TakeByte(Hls, 0xD8F0_6C8F, 0x37) == 0x0D8A_14C4
  {
  }

  lemma HlsEight()
    ensures TakeByte(Hls, 0x0D8A_14C4, 0x38) == 0x49E3_C2FB
  {
  }

  lemma HlsNine()
    ensures TakeByte(Hls, 0x49E3_C2FB, 0x39) == 0x0376_E6E7
  {
  }

  lemma StunOne()
    ensures TakeByte(Stun, 0xFFFF_FFFF, 0x31) == 0x7C23_1048
  {
  }

  lemma StunTwo()
    ensures TakeByte(Stun, 0x7C23_1048, 0x32) == 0xB0AC_BB32
  {
  }

  lemma StunThree()
    ensures TakeByte(Stun, 0xB0AC_BB32, 0x33) == 0x77B7_9C2D
  {
  }

  lemma StunFour()
    ensures TakeByte(Stun, 0x77B7_9C2D, 0x34) == 0x641C_1F5C
  {
  }

  lemma StunFive()
    ensures TakeByte(Stun, 0x641C_1F5C, 0x35) == 0x340A_C5E3
  {
  }

  lemma StunSix()
    ensures TakeByte(Stun, 0x340A_C5E3, 0x36) == 0xF68D_2C9E
  {
  }

  lemma StunSeven()
    ensures TakeByte(Stun, 0xF68D_2C9E, 0x37) == 0xAFFC_9660
  {
  }

  lemma StunEight()
    ensures TakeByte(Stun, 0xAFFC_9660, 0x38) == 0x651F_2550
  {
  }

  lemma StunNine()
    ensures TakeByte(Stun, 0x651F_2550, 0x39) == 0x340B_C6D9
  {
  }

  /** Each register comes from the one before by one digit. */
  predicate Chain(form: Form, s: seq<byte>, rs: seq<bv32>) {
    |rs| == |s| + 1 && forall i :: 0 <= i < |s| ==> TakeByte(form, rs[i], Octet(s[i])) == rs[i + 1]
  }

  lemma {:induction false} ChainTakes(form: Form, s: seq<byte>, rs: seq<bv32>)
    requires Chain(form, s, rs)
    ensures TakeAll(form, rs[0], s) == Last(rs)
    decreases |s|
  {
    hide TakeByte, Octet;
    if s != [] {
      ChainTakes(form, s[1..], rs[1..]);
    }
  }

  lemma DigitOctets()
    ensures Octet(0x31) == 0x31 && Octet(0x32) == 0x32 && Octet(0x33) == 0x33 && Octet(0x34) == 0x34 && Octet(0x35) == 0x35
    ensures Octet(0x36) == 0x36 && Octet(0x37) == 0x37 && Octet(0x38) == 0x38 && Octet(0x39) == 0x39
  {
  }

  lemma HlsChain()
    ensures Chain(Hls, DIGITS, HLS_STATES)
  {
    hide TakeByte, Octet;
    DigitOctets();
    HlsOne();
    HlsTwo();
    HlsThree();
    HlsFour();
    HlsFive();
    HlsSix();
    HlsSeven();
    HlsEight();
    HlsNine();
  }

  lemma StunChain()
    ensures Chain(Stun, DIGITS, STUN_STATES)
  {
    hide TakeByte, Octet;
    DigitOctets();
    StunOne();
    StunTwo();
    StunThree();
    StunFour();
    StunFive();
    StunSix();
    StunSeven();
    StunEight();
    StunNine();
  }

  /** CRC-32/MPEG-2 for the transport stream, and CRC-32/ISO-HDLC for STUN. */
  lemma CheckValues()
    ensures Checksum(Hls, DIGITS) == 0x0376_E6E7 && Checksum(Stun, DIGITS) == 0xCBF4_3926
  {
    hide TakeAll;
    HlsChain();
    StunChain();
    ChainTakes(Hls, DIGITS, HLS_STATES);
    ChainTakes(Stun, DIGITS, STUN_STATES);
  }
}
