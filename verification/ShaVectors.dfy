// The digests of "abc" that the examples to FIPS 180-4 give: one block through padding, schedule and rounds.
module ShaVectors {
  import opened ShaBits
  import opened ShaSpec
  import Sha1
  import Sha256

  // The message, padded.
  function Abc(): seq<byte> {
    [97, 98, 99, 0x80] + seq(59, _ => 0) + [24]
  }

  lemma SmallBytes()
    ensures Byte(0) == 0 && Byte(24) == 24
  {
  }

  lemma LengthOfAbc()
    ensures LengthBytes(24) == [0, 0, 0, 0, 0, 0, 0, 24] && Zeros(3) == 52
  {
    SmallBytes();
    hide Byte;
  }

  lemma AbcPadded()
    ensures Padded([97, 98, 99]) == Abc() && |Abc()| == BLOCK
  {
    LengthOfAbc();
    hide LengthBytes, Zeros;
    var zeros: seq<byte> := seq(52, _ => 0);
    assert [97, 98, 99] + ([0x80] + zeros) + [0, 0, 0, 0, 0, 0, 0, 24] == Abc();
  }

  lemma OneBlock<S>(compress: (S, seq<byte>) -> S, s: S)
    ensures Digest(compress, s, [97, 98, 99]) == compress(s, Abc())
  {
    AbcPadded();
    assert Abc()[..BLOCK] == Abc() && Abc()[BLOCK..] == [];
    assert Absorb(compress, compress(s, Abc()), []) == compress(s, Abc());
  }

  lemma AbcWords(t: nat)
    requires t < 16
    ensures Word(Abc(), 4 * t) == if t == 0 then 0x61626380 else if t == 15 then 24 else 0
  {
  }

  lemma NoRounds(b: seq<byte>)
    ensures Rounds1(b, Initial1, 0) == Initial1 && Rounds256(b, Initial256, 0) == Initial256
  {
  }

  // ---- SHA-1 ------------------------------------------------------------------------------------

  lemma FirstWords1(t: nat)
    requires t < 16
    ensures W1(Abc(), t) == if t == 0 then 0x61626380 else if t == 15 then 24 else 0
  {
    hide Word, Abc;
    AbcWords(t);
  }

  lemma Words1From0()
    ensures W1(Abc(), 0) == 0x61626380 && W1(Abc(), 1) == 0x00000000
    ensures W1(Abc(), 2) == 0x00000000 && W1(Abc(), 3) == 0x00000000
    ensures W1(Abc(), 4) == 0x00000000 && W1(Abc(), 5) == 0x00000000
    ensures W1(Abc(), 6) == 0x00000000 && W1(Abc(), 7) == 0x00000000
    ensures W1(Abc(), 8) == 0x00000000 && W1(Abc(), 9) == 0x00000000
    ensures W1(Abc(), 10) == 0x00000000 && W1(Abc(), 11) == 0x00000000
    ensures W1(Abc(), 12) == 0x00000000 && W1(Abc(), 13) == 0x00000000
    ensures W1(Abc(), 14) == 0x00000000 && W1(Abc(), 15) == 0x00000018
  {
    hide W1, Abc;
    FirstWords1(0);
    FirstWords1(1);
    FirstWords1(2);
    FirstWords1(3);
    FirstWords1(4);
    FirstWords1(5);
    FirstWords1(6);
    FirstWords1(7);
    FirstWords1(8);
    FirstWords1(9);
    FirstWords1(10);
    FirstWords1(11);
    FirstWords1(12);
    FirstWords1(13);
    FirstWords1(14);
    FirstWords1(15);
  }

  lemma {:induction false} FourWords1(b: seq<byte>, t: nat)
    requires t >= 16
    ensures W1(b, t) == Rotl1(Xor4(W1(b, t - 3), W1(b, t - 8), W1(b, t - 14), W1(b, t - 16)))
    ensures W1(b, t + 1) == Rotl1(Xor4(W1(b, t - 2), W1(b, t - 7), W1(b, t - 13), W1(b, t - 15)))
    ensures W1(b, t + 2) == Rotl1(Xor4(W1(b, t - 1), W1(b, t - 6), W1(b, t - 12), W1(b, t - 14)))
    ensures W1(b, t + 3) == Rotl1(Xor4(W1(b, t), W1(b, t - 5), W1(b, t - 11), W1(b, t - 13)))
  {
    hide Rotl1, Xor4;
  }

  lemma Words1From16()
    ensures W1(Abc(), 16) == 0xC2C4C700 && W1(Abc(), 17) == 0x00000000
    ensures W1(Abc(), 18) == 0x00000030 && W1(Abc(), 19) == 0x85898E01
    ensures W1(Abc(), 20) == 0x00000000 && W1(Abc(), 21) == 0x00000060
    ensures W1(Abc(), 22) == 0x0B131C03 && W1(Abc(), 23) == 0x00000030
    ensures W1(Abc(), 24) == 0x85898EC1 && W1(Abc(), 25) == 0x16263806
    ensures W1(Abc(), 26) == 0x00000000 && W1(Abc(), 27) == 0x00000180
    ensures W1(Abc(), 28) == 0x2C4C700C && W1(Abc(), 29) == 0x000000F0
    ensures W1(Abc(), 30) == 0x93AFB507 && W1(Abc(), 31) == 0x5898E048
  {
    hide W1, Abc;
    Words1From0();
    FourWords1(Abc(), 16);
    FourWords1(Abc(), 20);
    FourWords1(Abc(), 24);
    FourWords1(Abc(), 28);
  }

  lemma Words1From32()
    ensures W1(Abc(), 32) == 0x8E9A9202 && W1(Abc(), 33) == 0x00000600
    ensures W1(Abc(), 34) == 0xB131C0F0 && W1(Abc(), 35) == 0x16263BC6
    ensures W1(Abc(), 36) == 0x4EBED41E && W1(Abc(), 37) == 0x626380A1
    ensures W1(Abc(), 38) == 0x16263806 && W1(Abc(), 39) == 0x000018C0
    ensures W1(Abc(), 40) == 0xD2E138C4 && W1(Abc(), 41) == 0x00000F00
    ensures W1(Abc(), 42) == 0x3AFB5079 && W1(Abc(), 43) == 0x898E04E5
    ensures W1(Abc(), 44) == 0xE2BA3C2B && W1(Abc(), 45) == 0x000060C0
    ensures W1(Abc(), 46) == 0x053A37CD && W1(Abc(), 47) == 0x74458547
  {
    hide W1, Abc;
    Words1From16();
    FourWords1(Abc(), 32);
    FourWords1(Abc(), 36);
    FourWords1(Abc(), 40);
    FourWords1(Abc(), 44);
  }

  lemma Words1From48()
    ensures W1(Abc(), 48) == 0xDA9415ED && W1(Abc(), 49) == 0x26380A16
    ensures W1(Abc(), 50) == 0x626383A1 && W1(Abc(), 51) == 0x4EBF54DE
    ensures W1(Abc(), 52) == 0x3835B44B && W1(Abc(), 53) == 0x0000F600
    ensures W1(Abc(), 54) == 0x1E84C7A3 && W1(Abc(), 55) == 0x98E04D98
    ensures W1(Abc(), 56) == 0x651D16A0 && W1(Abc(), 57) == 0x62658CA1
    ensures W1(Abc(), 58) == 0x458544D6 && W1(Abc(), 59) == 0x44584CB7
    ensures W1(Abc(), 60) == 0x7BA06619 && W1(Abc(), 61) == 0x6380AEA2
    ensures W1(Abc(), 62) == 0x0AE55269 && W1(Abc(), 63) == 0x627B49A1
  {
    hide W1, Abc;
    Words1From32();
    FourWords1(Abc(), 48);
    FourWords1(Abc(), 52);
    FourWords1(Abc(), 56);
    FourWords1(Abc(), 60);
  }

  lemma Words1From64()
    ensures W1(Abc(), 64) == 0x7CD45C9D && W1(Abc(), 65) == 0x000F0000
    ensures W1(Abc(), 66) == 0xFB50753A && W1(Abc(), 67) == 0xEC6765E8
    ensures W1(Abc(), 68) == 0xBA3C2BE2 && W1(Abc(), 69) == 0x0060C000
    ensures W1(Abc(), 70) == 0x3A37CD05 && W1(Abc(), 71) == 0x458546F4
    ensures W1(Abc(), 72) == 0xB8599DD6 && W1(Abc(), 73) == 0x380A1A26
    ensures W1(Abc(), 74) == 0x01E02203 && W1(Abc(), 75) == 0xE7CC3456
    ensures W1(Abc(), 76) == 0xE6E60B69 && W1(Abc(), 77) == 0x00F60A00
    ensures W1(Abc(), 78) == 0x5795EF4F && W1(Abc(), 79) == 0x822E0879
  {
    hide W1, Abc;
    Words1From48();
    FourWords1(Abc(), 64);
    FourWords1(Abc(), 68);
    FourWords1(Abc(), 72);
    FourWords1(Abc(), 76);
  }

  lemma {:induction false} FourRounds1(b: seq<byte>, v: Five, t: nat)
    ensures var two := Round1(t + 1, Round1(t, Rounds1(b, v, t), W1(b, t)), W1(b, t + 1));
      Rounds1(b, v, t + 4) == Round1(t + 3, Round1(t + 2, two, W1(b, t + 2)), W1(b, t + 3))
  {
    hide Round1, W1;
    assert Rounds1(b, v, t + 2) == Round1(t + 1, Rounds1(b, v, t + 1), W1(b, t + 1));
    assert Rounds1(b, v, t + 3) == Round1(t + 2, Rounds1(b, v, t + 2), W1(b, t + 2));
  }

  lemma Rounds1To16()
    ensures Rounds1(Abc(), Initial1, 16) == Five(0x20BDD62F, 0x196BEE77, 0x644A3DA5, 0x1181ED99, 0x18C623F9)
  {
    hide W1, Abc, Rounds1;
    NoRounds(Abc());
    Words1From0();
    FourRounds1(Abc(), Initial1, 0);
    assert Rounds1(Abc(), Initial1, 4) == Five(0xCDD8E11B, 0xA1390F08, 0x626414DB, 0xC045BF0C, 0x59D148C0);
    FourRounds1(Abc(), Initial1, 4);
    assert Rounds1(Abc(), Initial1, 8) == Five(0x9E8C07D4, 0x993E30C1, 0x0FF1F290, 0xB3F52677, 0xF3763846);
    FourRounds1(Abc(), Initial1, 8);
    assert Rounds1(Abc(), Initial1, 12) == Five(0x63188FE4, 0xFBDA9E89, 0x60D47E4A, 0x12DAB8CA, 0x27A301F5);
    FourRounds1(Abc(), Initial1, 12);
  }

  lemma Rounds1To32()
    ensures Rounds1(Abc(), Initial1, 32) == Five(0x3B845D33, 0x1267B407, 0x717EEBD7, 0xA0DC2D4B, 0xD2AA1365)
  {
    hide W1, Abc, Rounds1;
    Rounds1To16();
    Words1From16();
    FourRounds1(Abc(), Initial1, 16);
    assert Rounds1(Abc(), Initial1, 20) == Five(0xFD9E1D7D, 0xDC64901D, 0x20AA99CA, 0xD3A49608, 0xC82F758B);
    FourRounds1(Abc(), Initial1, 20);
    assert Rounds1(Abc(), Initial1, 24) == Five(0xD541F12D, 0x21283486, 0x0CE88EFF, 0x868DEC32, 0x7F67875F);
    FourRounds1(Abc(), Initial1, 24);
    assert Rounds1(Abc(), Initial1, 28) == Five(0x4AA84D97, 0xBE35FBD5, 0x12104EE9, 0xB1D59F71, 0x75507C4B);
    FourRounds1(Abc(), Initial1, 28);
  }

  lemma Rounds1To48()
    ensures Rounds1(Abc(), Initial1, 48) == Five(0xBEAD02CA, 0xA01B846C, 0x8714787C, 0x503CA382, 0xFB86C6AB)
  {
    hide W1, Abc, Rounds1;
    Rounds1To32();
    Words1From32();
    FourRounds1(Abc(), Initial1, 32);
    assert Rounds1(Abc(), Initial1, 36) == Five(0xDCBBB0CB, 0x21796AD4, 0x4B03AF04, 0x811BEA82, 0xCEE1174C);
    FourRounds1(Abc(), Initial1, 36);
    assert Rounds1(Abc(), Initial1, 40) == Five(0x32DE1CBA, 0x4C986405, 0xF718E5CF, 0x03D447F6, 0xF72EEC32);
    FourRounds1(Abc(), Initial1, 40);
    assert Rounds1(Abc(), Initial1, 44) == Five(0xEE1B1AAF, 0x7F193DC5, 0x25C28357, 0xFF21F7B7, 0x8CB7872E);
    FourRounds1(Abc(), Initial1, 44);
  }

  lemma Rounds1To64()
    ensures Rounds1(Abc(), Initial1, 64) == Five(0x6B61C9E1, 0xB66C020B, 0x9523272C, 0xF5D5B051, 0x8FD4B796)
  {
    hide W1, Abc, Rounds1;
    Rounds1To48();
    Words1From48();
    FourRounds1(Abc(), Initial1, 48);
    assert Rounds1(Abc(), Initial1, 52) == Five(0x3847AD66, 0x641DB2CE, 0x4481CC71, 0xEEBCE4CD, 0xAFAB40B2);
    FourRounds1(Abc(), Initial1, 52);
    assert Rounds1(Abc(), Initial1, 56) == Five(0x5E6456AF, 0x7B71F76D, 0x09FA7C76, 0x792410DB, 0x8E11EB59);
    FourRounds1(Abc(), Initial1, 56);
    assert Rounds1(Abc(), Initial1, 60) == Five(0x3F52DE5A, 0x09D785FD, 0x3498BFD4, 0xF211824F, 0xD79915AB);
    FourRounds1(Abc(), Initial1, 60);
  }

  lemma Rounds1To80()
    ensures Rounds1(Abc(), Initial1, 80) == Five(0x42541B35, 0x5738D5E1, 0x21834873, 0x681E6DF6, 0xD8FDF6AD)
  {
    hide W1, Abc, Rounds1;
    Rounds1To64();
    Words1From64();
    FourRounds1(Abc(), Initial1, 64);
    assert Rounds1(Abc(), Initial1, 68) == Five(0x78DD4D2B, 0x0C3DF2B4, 0x4405957E, 0x0677E9EB, 0x5AD87278);
    FourRounds1(Abc(), Initial1, 68);
    assert Rounds1(Abc(), Initial1, 72) == Five(0x39859DE7, 0xC199F8C7, 0x8FC96230, 0x125C24F0, 0xDE37534A);
    FourRounds1(Abc(), Initial1, 72);
    assert Rounds1(Abc(), Initial1, 76) == Five(0x63F7DAB7, 0x5EE76897, 0xC45E4FDB, 0x3B6D0B79, 0xCE616779);
    FourRounds1(Abc(), Initial1, 76);
  }

  // The SHA-1 example: a9993e36 4706816a ba3e2571 7850c26c 9cd0d89d.
  lemma Sha1OfAbc()
    ensures Digest(Compress1, Initial1, [97, 98, 99]) ==
      Five(0xA9993E36, 0x4706816A, 0xBA3E2571, 0x7850C26C, 0x9CD0D89D)
    ensures Sha1.HashOf([97, 98, 99]) ==
      [0xA9, 0x99, 0x3E, 0x36, 0x47, 0x06, 0x81, 0x6A, 0xBA, 0x3E, 0x25, 0x71, 0x78, 0x50, 0xC2, 0x6C, 0x9C, 0xD0, 0xD8, 0x9D]
  {
    hide Rounds1, Digest, Abc;
    OneBlock(Compress1, Initial1);
    Rounds1To80();
  }

  // ---- SHA-256 ------------------------------------------------------------------------------------

  lemma FirstWords256(t: nat)
    requires t < 16
    ensures W256(Abc(), t) == if t == 0 then 0x61626380 else if t == 15 then 24 else 0
  {
    hide Word, Abc;
    AbcWords(t);
  }

  lemma Words256From0()
    ensures W256(Abc(), 0) == 0x61626380 && W256(Abc(), 1) == 0x00000000
    ensures W256(Abc(), 2) == 0x00000000 && W256(Abc(), 3) == 0x00000000
    ensures W256(Abc(), 4) == 0x00000000 && W256(Abc(), 5) == 0x00000000
    ensures W256(Abc(), 6) == 0x00000000 && W256(Abc(), 7) == 0x00000000
    ensures W256(Abc(), 8) == 0x00000000 && W256(Abc(), 9) == 0x00000000
    ensures W256(Abc(), 10) == 0x00000000 && W256(Abc(), 11) == 0x00000000
    ensures W256(Abc(), 12) == 0x00000000 && W256(Abc(), 13) == 0x00000000
    ensures W256(Abc(), 14) == 0x00000000 && W256(Abc(), 15) == 0x00000018
  {
    hide W256, Abc;
    FirstWords256(0);
    FirstWords256(1);
    FirstWords256(2);
    FirstWords256(3);
    FirstWords256(4);
    FirstWords256(5);
    FirstWords256(6);
    FirstWords256(7);
    FirstWords256(8);
    FirstWords256(9);
    FirstWords256(10);
    FirstWords256(11);
    FirstWords256(12);
    FirstWords256(13);
    FirstWords256(14);
    FirstWords256(15);
  }

  lemma {:induction false} FourWords256(b: seq<byte>, t: nat)
    requires t >= 16
    ensures W256(b, t) ==
      Plus(Plus(Plus(Sigma1(W256(b, t - 2)), W256(b, t - 7)), Sigma0(W256(b, t - 15))), W256(b, t - 16))
    ensures W256(b, t + 1) ==
      Plus(Plus(Plus(Sigma1(W256(b, t - 1)), W256(b, t - 6)), Sigma0(W256(b, t - 14))), W256(b, t - 15))
    ensures W256(b, t + 2) ==
      Plus(Plus(Plus(Sigma1(W256(b, t)), W256(b, t - 5)), Sigma0(W256(b, t - 13))), W256(b, t - 14))
    ensures W256(b, t + 3) ==
      Plus(Plus(Plus(Sigma1(W256(b, t + 1)), W256(b, t - 4)), Sigma0(W256(b, t - 12))), W256(b, t - 13))
  {
    hide Plus, Sigma0, Sigma1;
  }

  lemma Words256From16()
    ensures W256(Abc(), 16) == 0x61626380 && W256(Abc(), 17) == 0x000F0000
    ensures W256(Abc(), 18) == 0x7DA86405 && W256(Abc(), 19) == 0x600003C6
    ensures W256(Abc(), 20) == 0x3E9D7B78 && W256(Abc(), 21) == 0x0183FC00
    ensures W256(Abc(), 22) == 0x12DCBFDB && W256(Abc(), 23) == 0xE2E2C38E
    ensures W256(Abc(), 24) == 0xC8215C1A && W256(Abc(), 25) == 0xB73679A2
    ensures W256(Abc(), 26) == 0xE5BC3909 && W256(Abc(), 27) == 0x32663C5B
    ensures W256(Abc(), 28) == 0x9D209D67 && W256(Abc(), 29) == 0xEC8726CB
    ensures W256(Abc(), 30) == 0x702138A4 && W256(Abc(), 31) == 0xD3B7973B
  {
    hide W256, Abc;
    Words256From0();
    FourWords256(Abc(), 16);
    FourWords256(Abc(), 20);
    FourWords256(Abc(), 24);
    FourWords256(Abc(), 28);
  }

  lemma Words256From32()
    ensures W256(Abc(), 32) == 0x93F5997F && W256(Abc(), 33) == 0x3B68BA73
    ensures W256(Abc(), 34) == 0xAFF4FFC1 && W256(Abc(), 35) == 0xF10A5C62
    ensures W256(Abc(), 36) == 0x0A8B3996 && W256(Abc(), 37) == 0x72AF830A
    ensures W256(Abc(), 38) == 0x9409E33E && W256(Abc(), 39) == 0x24641522
    ensures W256(Abc(), 40) == 0x9F47BF94 && W256(Abc(), 41) == 0xF0A64F5A
    ensures W256(Abc(), 42) == 0x3E246A79 && W256(Abc(), 43) == 0x27333BA3
    ensures W256(Abc(), 44) == 0x0C4763F2 && W256(Abc(), 45) == 0x840ABF27
    ensures W256(Abc(), 46) == 0x7A290D5D && W256(Abc(), 47) == 0x065C43DA
  {
    hide W256, Abc;
    Words256From16();
    FourWords256(Abc(), 32);
    FourWords256(Abc(), 36);
    FourWords256(Abc(), 40);
    FourWords256(Abc(), 44);
  }

  lemma Words256From48()
    ensures W256(Abc(), 48) == 0xFB3E89CB && W256(Abc(), 49) == 0xCC7617DB
    ensures W256(Abc(), 50) == 0xB9E66C34 && W256(Abc(), 51) == 0xA9993667
    ensures W256(Abc(), 52) == 0x84BADEDD && W256(Abc(), 53) == 0xC21462BC
    ensures W256(Abc(), 54) == 0x1487472C && W256(Abc(), 55) == 0xB20F7A99
    ensures W256(Abc(), 56) == 0xEF57B9CD && W256(Abc(), 57) == 0xEBE6B238
    ensures W256(Abc(), 58) == 0x9FE3095E && W256(Abc(), 59) == 0x78BC8D4B
    ensures W256(Abc(), 60) == 0xA43FCF15 && W256(Abc(), 61) == 0x668B2FF8
    ensures W256(Abc(), 62) == 0xEEABA2CC && W256(Abc(), 63) == 0x12B1EDEB
  {
    hide W256, Abc;
    Words256From32();
    FourWords256(Abc(), 48);
    FourWords256(Abc(), 52);
    FourWords256(Abc(), 56);
    FourWords256(Abc(), 60);
  }

  lemma {:induction false} TwoRounds256(b: seq<byte>, v: Eight, t: nat)
    requires t + 2 <= 64
    ensures Rounds256(b, v, t + 2) ==
      Round256(Round256(Rounds256(b, v, t), K2(t), W256(b, t)), K2(t + 1), W256(b, t + 1))
  {
    hide Round256, W256, K2;
    assert Rounds256(b, v, t + 1) == Round256(Rounds256(b, v, t), K2(t), W256(b, t));
  }

  lemma Constants0()
    ensures K2(0) == 0x428A2F98 && K2(1) == 0x71374491 && K2(2) == 0xB5C0FBCF && K2(3) == 0xE9B5DBA5
    ensures K2(4) == 0x3956C25B && K2(5) == 0x59F111F1 && K2(6) == 0x923F82A4 && K2(7) == 0xAB1C5ED5
  {
  }

  lemma Constants8()
    ensures K2(8) == 0xD807AA98 && K2(9) == 0x12835B01 && K2(10) == 0x243185BE && K2(11) == 0x550C7DC3
    ensures K2(12) == 0x72BE5D74 && K2(13) == 0x80DEB1FE && K2(14) == 0x9BDC06A7 && K2(15) == 0xC19BF174
  {
  }

  lemma Constants16()
    ensures K2(16) == 0xE49B69C1 && K2(17) == 0xEFBE4786 && K2(18) == 0x0FC19DC6 && K2(19) == 0x240CA1CC
    ensures K2(20) == 0x2DE92C6F && K2(21) == 0x4A7484AA && K2(22) == 0x5CB0A9DC && K2(23) == 0x76F988DA
  {
  }

  lemma Constants24()
    ensures K2(24) == 0x983E5152 && K2(25) == 0xA831C66D && K2(26) == 0xB00327C8 && K2(27) == 0xBF597FC7
    ensures K2(28) == 0xC6E00BF3 && K2(29) == 0xD5A79147 && K2(30) == 0x06CA6351 && K2(31) == 0x14292967
  {
  }

  lemma Constants32()
    ensures K2(32) == 0x27B70A85 && K2(33) == 0x2E1B2138 && K2(34) == 0x4D2C6DFC && K2(35) == 0x53380D13
    ensures K2(36) == 0x650A7354 && K2(37) == 0x766A0ABB && K2(38) == 0x81C2C92E && K2(39) == 0x92722C85
  {
  }

  lemma Constants40()
    ensures K2(40) == 0xA2BFE8A1 && K2(41) == 0xA81A664B && K2(42) == 0xC24B8B70 && K2(43) == 0xC76C51A3
    ensures K2(44) == 0xD192E819 && K2(45) == 0xD6990624 && K2(46) == 0xF40E3585 && K2(47) == 0x106AA070
  {
  }

  lemma Constants48()
    ensures K2(48) == 0x19A4C116 && K2(49) == 0x1E376C08 && K2(50) == 0x2748774C && K2(51) == 0x34B0BCB5
    ensures K2(52) == 0x391C0CB3 && K2(53) == 0x4ED8AA4A && K2(54) == 0x5B9CCA4F && K2(55) == 0x682E6FF3
  {
  }

  lemma Constants56()
    ensures K2(56) == 0x748F82EE && K2(57) == 0x78A5636F && K2(58) == 0x84C87814 && K2(59) == 0x8CC70208
    ensures K2(60) == 0x90BEFFFA && K2(61) == 0xA4506CEB && K2(62) == 0xBEF9A3F7 && K2(63) == 0xC67178F2
  {
  }

  lemma Rounds256To16()
    ensures Rounds256(Abc(), Initial256, 16) ==
      Eight(0xB0FA238E, 0xC0645FDE, 0xD932EB16, 0x87912990, 0x07590DCD, 0x0B92F20C, 0x745A48DE, 0x1E578218)
  {
    hide W256, Abc, Rounds256, K2;
    NoRounds(Abc());
    Words256From0();
    Constants0();
    Constants8();
    TwoRounds256(Abc(), Initial256, 0);
    assert Rounds256(Abc(), Initial256, 2) ==
      Eight(0x5A6AD9AD, 0x5D6AEBCD, 0x6A09E667, 0xBB67AE85, 0x78CE7989, 0xFA2A4622, 0x510E527F, 0x9B05688C);
    TwoRounds256(Abc(), Initial256, 2);
    assert Rounds256(Abc(), Initial256, 4) ==
      Eight(0xD550F666, 0xC8C347A7, 0x5A6AD9AD, 0x5D6AEBCD, 0x24E00850, 0xF92939EB, 0x78CE7989, 0xFA2A4622);
    TwoRounds256(Abc(), Initial256, 4);
    assert Rounds256(Abc(), Initial256, 6) ==
      Eight(0x2B4209F5, 0x04409A6A, 0xD550F666, 0xC8C347A7, 0x714260AD, 0x43ADA245, 0x24E00850, 0xF92939EB);
    TwoRounds256(Abc(), Initial256, 6);
    assert Rounds256(Abc(), Initial256, 8) ==
      Eight(0x85A07B5F, 0xE5030380, 0x2B4209F5, 0x04409A6A, 0x0C657A79, 0x9B27A401, 0x714260AD, 0x43ADA245);
    TwoRounds256(Abc(), Initial256, 8);
    assert Rounds256(Abc(), Initial256, 10) ==
      Eight(0x8C87346B, 0x8E04ECB9, 0x85A07B5F, 0xE5030380, 0x1CC92596, 0x32CA2D8C, 0x0C657A79, 0x9B27A401);
    TwoRounds256(Abc(), Initial256, 10);
    assert Rounds256(Abc(), Initial256, 12) ==
      Eight(0xF71FC5A9, 0x4798A3F4, 0x8C87346B, 0x8E04ECB9, 0x816FD6E9, 0x436B23E8, 0x1CC92596, 0x32CA2D8C);
    TwoRounds256(Abc(), Initial256, 12);
    assert Rounds256(Abc(), Initial256, 14) ==
      Eight(0xD932EB16, 0x87912990, 0xF71FC5A9, 0x4798A3F4, 0x745A48DE, 0x1E578218, 0x816FD6E9, 0x436B23E8);
    TwoRounds256(Abc(), Initial256, 14);
  }

  lemma Rounds256To32()
    ensures Rounds256(Abc(), Initial256, 32) ==
      Eight(0x73B33BF5, 0xEA992A22, 0xA0060B30, 0x363482C9, 0xBA591112, 0x0109AB3A, 0xADE79437, 0x6112A3B7)
  {
    hide W256, Abc, Rounds256, K2;
    Rounds256To16();
    Words256From16();
    Constants16();
    Constants24();
    TwoRounds256(Abc(), Initial256, 16);
    assert Rounds256(Abc(), Initial256, 18) ==
      Eight(0xC2FBD9D1, 0x21DA9A9B, 0xB0FA238E, 0xC0645FDE, 0x846EE454, 0x8034229C, 0x07590DCD, 0x0B92F20C);
    TwoRounds256(Abc(), Initial256, 18);
    assert Rounds256(Abc(), Initial256, 20) ==
      Eight(0xE1F20C33, 0xFE777BBF, 0xC2FBD9D1, 0x21DA9A9B, 0xB0638179, 0xCC899961, 0x846EE454, 0x8034229C);
    TwoRounds256(Abc(), Initial256, 20);
    assert Rounds256(Abc(), Initial256, 22) ==
      Eight(0xC2606D6D, 0x9DC68B63, 0xE1F20C33, 0xFE777BBF, 0xE1257970, 0x8ADA8930, 0xB0638179, 0xCC899961);
    TwoRounds256(Abc(), Initial256, 22);
    assert Rounds256(Abc(), Initial256, 24) ==
      Eight(0xC5D53D8D, 0xA7A3623F, 0xC2606D6D, 0x9DC68B63, 0xAA47C347, 0x49F5114A, 0xE1257970, 0x8ADA8930);
    TwoRounds256(Abc(), Initial256, 24);
    assert Rounds256(Abc(), Initial256, 26) ==
      Eight(0xCDE8037D, 0x1C2C2838, 0xC5D53D8D, 0xA7A3623F, 0x14383D8E, 0x2823EF91, 0xAA47C347, 0x49F5114A);
    TwoRounds256(Abc(), Initial256, 26);
    assert Rounds256(Abc(), Initial256, 28) ==
      Eight(0x77D37528, 0xB62EC4BC, 0xCDE8037D, 0x1C2C2838, 0xEDFFBFF8, 0xC74C6516, 0x14383D8E, 0x2823EF91);
    TwoRounds256(Abc(), Initial256, 28);
    assert Rounds256(Abc(), Initial256, 30) ==
      Eight(0xA0060B30, 0x363482C9, 0x77D37528, 0xB62EC4BC, 0xADE79437, 0x6112A3B7, 0xEDFFBFF8, 0xC74C6516);
    TwoRounds256(Abc(), Initial256, 30);
  }

  lemma Rounds256To48()
    ensures Rounds256(Abc(), Initial256, 48) ==
      Eight(0x4172328D, 0xA14C14B0, 0x72AB4B91, 0x26628815, 0xFECF0BC6, 0xD57B94A9, 0xB7755DA1, 0xA80F11F0)
  {
    hide W256, Abc, Rounds256, K2;
    Rounds256To32();
    Words256From32();
    Constants32();
    Constants40();
    TwoRounds256(Abc(), Initial256, 32);
    assert Rounds256(Abc(), Initial256, 34) ==
      Eight(0xFE604DF5, 0x98E12507, 0x73B33BF5, 0xEA992A22, 0x59249DD3, 0x9CD9F5F6, 0xBA591112, 0x0109AB3A);
    TwoRounds256(Abc(), Initial256, 34);
    assert Rounds256(Abc(), Initial256, 36) ==
      Eight(0x65A0CFE4, 0xA9A7738C, 0xFE604DF5, 0x98E12507, 0xF4B002D6, 0x085F3833, 0x59249DD3, 0x9CD9F5F6);
    TwoRounds256(Abc(), Initial256, 36);
    assert Rounds256(Abc(), Initial256, 38) ==
      Eight(0x34DF1604, 0x41A65CB1, 0x65A0CFE4, 0xA9A7738C, 0xA507A53D, 0x0772A26B, 0xF4B002D6, 0x085F3833);
    TwoRounds256(Abc(), Initial256, 38);
    assert Rounds256(Abc(), Initial256, 40) ==
      Eight(0x79EA687A, 0x6DC57A8A, 0x34DF1604, 0x41A65CB1, 0x1EFBC0A0, 0xF0781BC8, 0xA507A53D, 0x0772A26B);
    TwoRounds256(Abc(), Initial256, 40);
    assert Rounds256(Abc(), Initial256, 42) ==
      Eight(0xDF46652F, 0xD6670766, 0x79EA687A, 0x6DC57A8A, 0x838B2711, 0x26352D63, 0x1EFBC0A0, 0xF0781BC8);
    TwoRounds256(Abc(), Initial256, 42);
    assert Rounds256(Abc(), Initial256, 44) ==
      Eight(0x9D4BAF93, 0x17AA0DFE, 0xDF46652F, 0xD6670766, 0xFDA24C2E, 0xDECD4715, 0x838B2711, 0x26352D63);
    TwoRounds256(Abc(), Initial256, 44);
    assert Rounds256(Abc(), Initial256, 46) ==
      Eight(0x72AB4B91, 0x26628815, 0x9D4BAF93, 0x17AA0DFE, 0xB7755DA1, 0xA80F11F0, 0xFDA24C2E, 0xDECD4715);
    TwoRounds256(Abc(), Initial256, 46);
  }

  lemma Rounds256To64()
    ensures Rounds256(Abc(), Initial256, 64) ==
      Eight(0x506E3058, 0xD39A2165, 0x04D24D6C, 0xB85E2CE9, 0x5EF50F24, 0xFB121210, 0x948D25B6, 0x961F4894)
  {
    hide W256, Abc, Rounds256, K2;
    Rounds256To48();
    Words256From48();
    Constants48();
    Constants56();
    TwoRounds256(Abc(), Initial256, 48);
    assert Rounds256(Abc(), Initial256, 50) ==
      Eight(0xF11BFAA8, 0x05757CEB, 0x4172328D, 0xA14C14B0, 0x6E5C390C, 0xBD714038, 0xFECF0BC6, 0xD57B94A9);
    TwoRounds256(Abc(), Initial256, 50);
    assert Rounds256(Abc(), Initial256, 52) ==
      Eight(0x886E7A22, 0x7A0508A1, 0xF11BFAA8, 0x05757CEB, 0x49231C1E, 0x52F1CCF7, 0x6E5C390C, 0xBD714038);
    TwoRounds256(Abc(), Initial256, 52);
    assert Rounds256(Abc(), Initial256, 54) ==
      Eight(0xF5702FDB, 0x101FD28F, 0x886E7A22, 0x7A0508A1, 0x9F4787C3, 0x529E7D00, 0x49231C1E, 0x52F1CCF7);
    TwoRounds256(Abc(), Initial256, 54);
    assert Rounds256(Abc(), Initial256, 56) ==
      Eight(0x38CC9913, 0x3EC45CDB, 0xF5702FDB, 0x101FD28F, 0x54CB266B, 0xE50E1B4F, 0x9F4787C3, 0x529E7D00);
    TwoRounds256(Abc(), Initial256, 56);
    assert Rounds256(Abc(), Initial256, 58) ==
      Eight(0xC062D46F, 0xFCD1887B, 0x38CC9913, 0x3EC45CDB, 0x7E44008E, 0x9B5E906C, 0x54CB266B, 0xE50E1B4F);
    TwoRounds256(Abc(), Initial256, 58);
    assert Rounds256(Abc(), Initial256, 60) ==
      Eight(0xB6AE8FFF, 0xFFB70472, 0xC062D46F, 0xFCD1887B, 0xB21BAD3D, 0x6D83BFC6, 0x7E44008E, 0x9B5E906C);
    TwoRounds256(Abc(), Initial256, 60);
    assert Rounds256(Abc(), Initial256, 62) ==
      Eight(0x04D24D6C, 0xB85E2CE9, 0xB6AE8FFF, 0xFFB70472, 0x948D25B6, 0x961F4894, 0xB21BAD3D, 0x6D83BFC6);
    TwoRounds256(Abc(), Initial256, 62);
  }

  // The SHA-256 example: ba7816bf 8f01cfea 414140de 5dae2223 b00361a3 96177a9c b410ff61 f20015ad.
  lemma Sha256OfAbc()
    ensures Digest(Compress256, Initial256, [97, 98, 99]) ==
      Eight(0xBA7816BF, 0x8F01CFEA, 0x414140DE, 0x5DAE2223, 0xB00361A3, 0x96177A9C, 0xB410FF61, 0xF20015AD)
    ensures Sha256.HashOf([97, 98, 99]) ==
      [0xBA, 0x78, 0x16, 0xBF, 0x8F, 0x01, 0xCF, 0xEA, 0x41, 0x41, 0x40, 0xDE, 0x5D, 0xAE, 0x22, 0x23,
       0xB0, 0x03, 0x61, 0xA3, 0x96, 0x17, 0x7A, 0x9C, 0xB4, 0x10, 0xFF, 0x61, 0xF2, 0x00, 0x15, 0xAD]
  {
    hide Rounds256, Digest, Abc;
    OneBlock(Compress256, Initial256);
    Rounds256To64();
  }
}
