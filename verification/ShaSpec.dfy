// SHA-1 and SHA-256 as FIPS 180-4 defines them, on whole messages.
module ShaSpec {
  import opened ShaBits

  // ---- padding and blocks (sections 5.1.1 and 5.2.1) -----------------------------------------

  const BLOCK := 64

  // A 64-bit big-endian number.
  function LengthBytes(bits: nat): seq<byte> {
    [Byte(bits / 0x100_0000_0000_0000), Byte(bits / 0x1_0000_0000_0000), Byte(bits / 0x100_0000_0000),
     Byte(bits / 0x1_0000_0000), Byte(bits / 0x100_0000), Byte(bits / 0x1_0000), Byte(bits / 0x100), Byte(bits)]
  }

  // The number of zero bytes that make the padded message a whole number of blocks.
  function Zeros(len: nat): (k: nat)
    ensures (len + 1 + k + 8) % BLOCK == 0 && k < BLOCK
  {
    (119 - len % BLOCK) % BLOCK
  }

  function Padding(len: nat): seq<byte> {
    [0x80] + seq(Zeros(len), _ => 0)
  }

  function Padded(msg: seq<byte>): seq<byte> {
    msg + Padding(|msg|) + LengthBytes(8 * |msg|)
  }

  // The state after all whole blocks of a message.
  function Absorb<S>(compress: (S, seq<byte>) -> S, s: S, msg: seq<byte>): S
    decreases |msg|
  {
    if |msg| < BLOCK then s else Absorb(compress, compress(s, msg[..BLOCK]), msg[BLOCK..])
  }

  function Digest<S>(compress: (S, seq<byte>) -> S, s: S, msg: seq<byte>): S {
    Absorb(compress, s, Padded(msg))
  }

  // ---- SHA-1 (section 6.1.2) --------------------------------------------------------------------

  datatype Five = Five(a: bv32, b: bv32, c: bv32, d: bv32, e: bv32)

  const Initial1 := Five(0x67452301, 0xEFCDAB89, 0x98BADCFE, 0x10325476, 0xC3D2E1F0)

  function F1(t: nat, x: bv32, y: bv32, z: bv32): bv32 {
    if t < 20 then Ch(x, y, z) else if 40 <= t < 60 then Maj(x, y, z) else Parity(x, y, z)
  }

  function K1(t: nat): bv32 {
    if t < 20 then 0x5A827999 else if t < 40 then 0x6ED9EBA1 else if t < 60 then 0x8F1BBCDC else 0xCA62C1D6
  }

  // The 80-word message schedule.
  function W1(block: seq<byte>, t: nat): bv32 {
    if t < 16 then Word(block, 4 * t)
    else Rotl1(Xor4(W1(block, t - 3), W1(block, t - 8), W1(block, t - 14), W1(block, t - 16)))
  }

  function Round1(t: nat, v: Five, w: bv32): Five {
    Five(Plus(v.e, Plus(Plus(Plus(Rotl5(v.a), F1(t, v.b, v.c, v.d)), K1(t)), w)), v.a, Rotl30(v.b), v.c, v.d)
  }

  function Rounds1(block: seq<byte>, v: Five, t: nat): Five {
    if t == 0 then v else Round1(t - 1, Rounds1(block, v, t - 1), W1(block, t - 1))
  }

  function AddFive(h: Five, v: Five): Five {
    Five(Plus(h.a, v.a), Plus(h.b, v.b), Plus(h.c, v.c), Plus(h.d, v.d), Plus(h.e, v.e))
  }

  function Compress1(h: Five, block: seq<byte>): Five {
    AddFive(h, Rounds1(block, h, 80))
  }

  // ---- SHA-256 (section 6.2.2) --------------------------------------------------------------------

  datatype Eight = Eight(a: bv32, b: bv32, c: bv32, d: bv32, e: bv32, f: bv32, g: bv32, h: bv32)

  const Initial256 :=
    Eight(0x6A09E667, 0xBB67AE85, 0x3C6EF372, 0xA54FF53A, 0x510E527F, 0x9B05688C, 0x1F83D9AB, 0x5BE0CD19)

  // The constants of the rounds, sixteen rounds each.
  const K256From0: seq<bv32> := [
    0x428A2F98, 0x71374491, 0xB5C0FBCF, 0xE9B5DBA5, 0x3956C25B, 0x59F111F1, 0x923F82A4, 0xAB1C5ED5,
    0xD807AA98, 0x12835B01, 0x243185BE, 0x550C7DC3, 0x72BE5D74, 0x80DEB1FE, 0x9BDC06A7, 0xC19BF174]

  const K256From16: seq<bv32> := [
    0xE49B69C1, 0xEFBE4786, 0x0FC19DC6, 0x240CA1CC, 0x2DE92C6F, 0x4A7484AA, 0x5CB0A9DC, 0x76F988DA,
    0x983E5152, 0xA831C66D, 0xB00327C8, 0xBF597FC7, 0xC6E00BF3, 0xD5A79147, 0x06CA6351, 0x14292967]

  const K256From32: seq<bv32> := [
    0x27B70A85, 0x2E1B2138, 0x4D2C6DFC, 0x53380D13, 0x650A7354, 0x766A0ABB, 0x81C2C92E, 0x92722C85,
    0xA2BFE8A1, 0xA81A664B, 0xC24B8B70, 0xC76C51A3, 0xD192E819, 0xD6990624, 0xF40E3585, 0x106AA070]

  const K256From48: seq<bv32> := [
    0x19A4C116, 0x1E376C08, 0x2748774C, 0x34B0BCB5, 0x391C0CB3, 0x4ED8AA4A, 0x5B9CCA4F, 0x682E6FF3,
    0x748F82EE, 0x78A5636F, 0x84C87814, 0x8CC70208, 0x90BEFFFA, 0xA4506CEB, 0xBEF9A3F7, 0xC67178F2]

  function K2(t: nat): bv32
    requires t < 64
  {
    if t < 16 then K256From0[t]
    else if t < 32 then K256From16[t - 16]
    else if t < 48 then K256From32[t - 32]
    else K256From48[t - 48]
  }

  function W256(block: seq<byte>, t: nat): bv32 {
    if t < 16 then Word(block, 4 * t)
    else Plus(Plus(Plus(Sigma1(W256(block, t - 2)), W256(block, t - 7)), Sigma0(W256(block, t - 15))), W256(block, t - 16))
  }

  function Round256(v: Eight, k: bv32, w: bv32): Eight {
    var t1 := Plus(Plus(Plus(Plus(v.h, Sum1(v.e)), Ch(v.e, v.f, v.g)), k), w);
    var t2 := Plus(Sum0(v.a), Maj(v.a, v.b, v.c));
    Eight(Plus(t1, t2), v.a, v.b, v.c, Plus(v.d, t1), v.e, v.f, v.g)
  }

  function Rounds256(block: seq<byte>, v: Eight, t: nat): Eight
    requires t <= 64
  {
    if t == 0 then v else Round256(Rounds256(block, v, t - 1), K2(t - 1), W256(block, t - 1))
  }

  function AddEight(h: Eight, v: Eight): Eight {
    Eight(Plus(h.a, v.a), Plus(h.b, v.b), Plus(h.c, v.c), Plus(h.d, v.d),
          Plus(h.e, v.e), Plus(h.f, v.f), Plus(h.g, v.g), Plus(h.h, v.h))
  }

  function Compress256(h: Eight, block: seq<byte>): Eight {
    AddEight(h, Rounds256(block, h, 64))
  }
}
