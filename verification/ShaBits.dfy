// The word operations of FIPS 180-4, and the macros that compute them in the tool.
module ShaBits {

  type byte = bv8

  // ---- functions (section 4.1) -----------------------------------------------------------------

  // Addition modulo 2^32.
  function Plus(x: bv32, y: bv32): bv32 { x + y }

  function Ch(x: bv32, y: bv32, z: bv32): bv32 { (x & y) ^ (!x & z) }
  function Parity(x: bv32, y: bv32, z: bv32): bv32 { x ^ y ^ z }
  function Maj(x: bv32, y: bv32, z: bv32): bv32 { (x & y) ^ (x & z) ^ (y & z) }

  function Rotl1(x: bv32): bv32 { (x << 1) | (x >> 31) }
  function Rotl5(x: bv32): bv32 { (x << 5) | (x >> 27) }
  function Rotl30(x: bv32): bv32 { (x << 30) | (x >> 2) }

  function Xor4(w: bv32, x: bv32, y: bv32, z: bv32): bv32 { w ^ x ^ y ^ z }

  function Sum0(x: bv32): bv32 { ((x >> 2) | (x << 30)) ^ ((x >> 13) | (x << 19)) ^ ((x >> 22) | (x << 10)) }
  function Sum1(x: bv32): bv32 { ((x >> 6) | (x << 26)) ^ ((x >> 11) | (x << 21)) ^ ((x >> 25) | (x << 7)) }
  function Sigma0(x: bv32): bv32 { ((x >> 7) | (x << 25)) ^ ((x >> 18) | (x << 14)) ^ (x >> 3) }
  function Sigma1(x: bv32): bv32 { ((x >> 17) | (x << 15)) ^ ((x >> 19) | (x << 13)) ^ (x >> 10) }

  function Word(b: seq<byte>, i: nat): bv32 {
    if i + 4 <= |b| then
      ((b[i] as bv32) << 24) | ((b[i + 1] as bv32) << 16) | ((b[i + 2] as bv32) << 8) | (b[i + 3] as bv32)
    else 0
  }

  // The low eight bits of a number.
  function Byte(n: nat): byte {
    (n % 256) as bv8
  }

  lemma ByteOf(a: nat, b: nat)
    requires a % 256 == b % 256
    ensures Byte(a) == Byte(b)
  {
  }

  // ---- lanes -------------------------------------------------------------------------------

  function Low(x: bv64): bv32 {
    (x & 0xFFFFFFFF) as bv32
  }

  function Plus64(x: bv64, y: bv64): bv64 { x + y }

  // The macros of sha1_process() on unsigned long.
  function S1(x: bv64): bv64 { (x << 1) | ((x & 0xFFFFFFFF) >> 31) }
  function S5(x: bv64): bv64 { (x << 5) | ((x & 0xFFFFFFFF) >> 27) }
  function S30(x: bv64): bv64 { (x << 30) | ((x & 0xFFFFFFFF) >> 2) }
  function Choose64(x: bv64, y: bv64, z: bv64): bv64 { z ^ (x & (y ^ z)) }
  function Majority64(x: bv64, y: bv64, z: bv64): bv64 { (x & y) | (z & (x | y)) }
  function Parity64(x: bv64, y: bv64, z: bv64): bv64 { x ^ y ^ z }
  function Mix64(w: bv64, x: bv64, y: bv64, z: bv64): bv64 { w ^ x ^ y ^ z }

  lemma LowRotates(x: bv64)
    ensures Low(S1(x)) == Rotl1(Low(x))
    ensures Low(S5(x)) == Rotl5(Low(x))
    ensures Low(S30(x)) == Rotl30(Low(x))
  {
  }

  // Carries only go up.
  lemma CarriesGoUp(x: bv64, y: bv64)
    ensures ((x + y) & 0xFFFFFFFF) as bv32 == Plus((x & 0xFFFFFFFF) as bv32, (y & 0xFFFFFFFF) as bv32)
  {
  }

  lemma LowIs(x: bv64)
    ensures Low(x) == (x & 0xFFFFFFFF) as bv32
  {
  }

  lemma LowOfSum(x: bv64, y: bv64)
    ensures Low(Plus64(x, y)) == ((x + y) & 0xFFFFFFFF) as bv32
  {
  }

  lemma LowAdds(x: bv64, y: bv64)
    ensures Low(Plus64(x, y)) == Plus(Low(x), Low(y))
  {
    hide Low, Plus64, Plus;
    LowOfSum(x, y);
    CarriesGoUp(x, y);
    LowIs(x);
    LowIs(y);
  }

  lemma LowMixes(w: bv64, x: bv64, y: bv64, z: bv64)
    ensures Low(Mix64(w, x, y, z)) == Xor4(Low(w), Low(x), Low(y), Low(z))
  {
  }

  lemma LowChooses(x: bv64, y: bv64, z: bv64)
    ensures Low(Choose64(x, y, z)) == Ch(Low(x), Low(y), Low(z))
  {
  }

  lemma LowMajority(x: bv64, y: bv64, z: bv64)
    ensures Low(Majority64(x, y, z)) == Maj(Low(x), Low(y), Low(z))
  {
  }

  lemma LowParity(x: bv64, y: bv64, z: bv64)
    ensures Low(Parity64(x, y, z)) == Parity(Low(x), Low(y), Low(z))
  {
  }

  lemma LowWidened(x: bv32)
    ensures Low(x as bv64) == x
  {
  }

  // GET_UINT32_BE on unsigned long.
  function Word64(b: seq<byte>, i: nat): bv64
    requires i + 4 <= |b|
  {
    ((b[i] as bv64) << 24) | ((b[i + 1] as bv64) << 16) | ((b[i + 2] as bv64) << 8) | (b[i + 3] as bv64)
  }

  lemma LowWord(b: seq<byte>, i: nat)
    requires i + 4 <= |b|
    ensures Low(Word64(b, i)) == Word(b, i)
  {
  }

  function Choose32(x: bv32, y: bv32, z: bv32): bv32 { z ^ (x & (y ^ z)) }
  function Majority32(x: bv32, y: bv32, z: bv32): bv32 { (x & y) | (z & (x | y)) }

  lemma XorZero(x: bv32, y: bv32)
    requires x ^ y == 0
    ensures x == y
  {
  }

  lemma ChooseDiffersNowhere(x: bv32, y: bv32, z: bv32)
    ensures Choose32(x, y, z) ^ Ch(x, y, z) == 0
  {
  }

  lemma MajorityDiffersNowhere(x: bv32, y: bv32, z: bv32)
    ensures Majority32(x, y, z) ^ Maj(x, y, z) == 0
  {
  }

  lemma ChooseForm(x: bv32, y: bv32, z: bv32)
    ensures Choose32(x, y, z) == Ch(x, y, z)
  {
    hide Choose32, Ch;
    ChooseDiffersNowhere(x, y, z);
    XorZero(Choose32(x, y, z), Ch(x, y, z));
  }

  lemma MajorityForm(x: bv32, y: bv32, z: bv32)
    ensures Majority32(x, y, z) == Maj(x, y, z)
  {
    hide Majority32, Maj;
    MajorityDiffersNowhere(x, y, z);
    XorZero(Majority32(x, y, z), Maj(x, y, z));
  }

  // PUT_UINT32_BE().
  function Put(x: bv32): seq<byte> {
    [(x >> 24) as bv8, ((x >> 16) & 0xFF) as bv8, ((x >> 8) & 0xFF) as bv8, (x & 0xFF) as bv8]
  }

  function PutLane(x: bv64): seq<byte> {
    [((x >> 24) & 0xFF) as bv8, ((x >> 16) & 0xFF) as bv8, ((x >> 8) & 0xFF) as bv8, (x & 0xFF) as bv8]
  }

  lemma LowPut(x: bv64)
    ensures PutLane(x) == Put(Low(x))
  {
  }
}
