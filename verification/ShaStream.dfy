// Feeding a hash piece by piece: a counter of two words, a block that fills up, and the state after
// the blocks so far. What comes out is the digest of the pieces put together.
module ShaStream {
  import opened Numbers
  import opened ShaBits
  import opened ShaSpec
  import opened ShaBlock

  const W32 := 0x1_0000_0000

  // ---- blocks ------------------------------------------------------------------------------

  // The bytes after the last whole block.
  function Tail(msg: seq<byte>): seq<byte> {
    msg[|msg| - |msg| % BLOCK..]
  }

  lemma ModBlock(n: nat)
    ensures n >= BLOCK ==> (n - BLOCK) % BLOCK == n % BLOCK
    ensures n < BLOCK ==> n % BLOCK == n
  {
  }

  // x makes the tail a whole block.
  lemma {:induction false} AbsorbBlock<S>(compress: (S, seq<byte>) -> S, s: S, msg: seq<byte>, x: seq<byte>)
    requires |msg| % BLOCK + |x| == BLOCK
    ensures Absorb(compress, s, msg + x) == compress(Absorb(compress, s, msg), Tail(msg) + x)
    ensures |msg + x| % BLOCK == 0
    decreases |msg|
  {
    ModBlock(|msg|);
    if |msg| < BLOCK {
      var m := msg + x;
      assert m[..BLOCK] == m && m[BLOCK..] == [] && Tail(msg) == msg;
    } else {
      var rest := msg[BLOCK..];
      AbsorbBlock(compress, compress(s, msg[..BLOCK]), rest, x);
      assert (msg + x)[..BLOCK] == msg[..BLOCK] && (msg + x)[BLOCK..] == rest + x;
      assert Tail(rest) == Tail(msg);
      ModBlock(|msg + x|);
    }
  }

  lemma OneBlockOff(msg: seq<byte>, x: seq<byte>)
    requires |msg| >= BLOCK
    ensures (msg + x)[..BLOCK] == msg[..BLOCK] && (msg + x)[BLOCK..] == msg[BLOCK..] + x
    ensures Tail(msg[BLOCK..]) == Tail(msg) && Tail(msg[BLOCK..] + x) == Tail(msg + x)
  {
    ModBlock(|msg|);
    ModBlock(|msg + x|);
  }

  // x does not make the tail a whole block.
  lemma {:induction false} AbsorbLess<S>(compress: (S, seq<byte>) -> S, s: S, msg: seq<byte>, x: seq<byte>)
    requires |msg| % BLOCK + |x| < BLOCK
    ensures Absorb(compress, s, msg + x) == Absorb(compress, s, msg)
    ensures Tail(msg + x) == Tail(msg) + x && |msg + x| % BLOCK == |msg| % BLOCK + |x|
    decreases |msg|
  {
    ModBlock(|msg|);
    ModBlock(|msg + x|);
    if |msg| >= BLOCK {
      var rest := msg[BLOCK..];
      AbsorbLess(compress, compress(s, msg[..BLOCK]), rest, x);
      OneBlockOff(msg, x);
    }
  }

  // ---- the counter ---------------------------------------------------------------------------

  // total[0] and total[1], of which 29 bits end up in the length field.
  predicate Counts(n: nat, low: nat, high: nat) {
    low == n % W32 && high % 0x2000_0000 == n / W32 % 0x2000_0000
  }

  // The lanes of total[1] may be wider than 32 bits.
  predicate LaneSize(m: nat) {
    m == W32 || m == W32 * W32
  }

  lemma CountAdds(n: nat, low: nat, high: nat, d: nat, m: nat)
    requires Counts(n, low, high) && d < W32 && LaneSize(m)
    ensures var low' := (low + d) % W32;
      Counts(n + d, low', if low' < d then (high + 1) % m else high)
  {
    hide LaneSize;
    var q := n / W32;
    Splits(n, W32);
    if low + d < W32 {
      Remainder(n + d, W32, q, low + d);
      Remainder(low + d, W32, 0, low + d);
    } else {
      Remainder(n + d, W32, q + 1, low + d - W32);
      Remainder(low + d, W32, 1, low + d - W32);
      WrapsAlong(high + 1, m);
      SameBits(high, q);
    }
  }

  lemma WrapsAlong(x: nat, m: nat)
    requires LaneSize(m)
    ensures x % m % 0x2000_0000 == x % 0x2000_0000
  {
    Coarser(x, m, if m == W32 then 8 else 0x8_0000_0000, 0x2000_0000);
  }

  lemma SameBits(x: nat, y: nat)
    requires x % 0x2000_0000 == y % 0x2000_0000
    ensures (x + 1) % 0x2000_0000 == (y + 1) % 0x2000_0000
  {
    NextRemainder(x, 0x2000_0000);
    NextRemainder(y, 0x2000_0000);
  }

  lemma LowBits(n: nat)
    ensures n % W32 % BLOCK == n % BLOCK
  {
    Coarser(n, W32, 0x400_0000, BLOCK);
  }

  // PUT_UINT32_BE() of a counter.
  function Put32(n: nat): seq<byte> {
    [Byte(n / 0x100_0000), Byte(n / 0x1_0000), Byte(n / 0x100), Byte(n)]
  }

  // Four bytes of a number do not depend on what is a multiple of 2^32 more.
  lemma Put32Low(a: nat, b: nat)
    requires a % W32 == b % W32
    ensures Put32(a) == Put32(b)
  {
    Put32Mod(a);
    Put32Mod(b);
  }

  lemma MoreBytes(k: nat, x: nat)
    ensures Byte(k * 256 + x) == Byte(x)
  {
    ByteOf(k * 256 + x, x);
  }

  lemma BytesOfSum(q: nat, r: nat)
    ensures Byte((q * W32 + r) / 0x100_0000) == Byte(r / 0x100_0000)
    ensures Byte((q * W32 + r) / 0x1_0000) == Byte(r / 0x1_0000)
    ensures Byte((q * W32 + r) / 0x100) == Byte(r / 0x100)
    ensures Byte(q * W32 + r) == Byte(r)
  {
    hide Byte;
    assert (q * W32 + r) / 0x100_0000 == q * 256 + r / 0x100_0000;
    assert (q * W32 + r) / 0x1_0000 == (q * 0x100) * 256 + r / 0x1_0000;
    assert (q * W32 + r) / 0x100 == (q * 0x1_0000) * 256 + r / 0x100;
    assert q * W32 + r == (q * 0x100_0000) * 256 + r;
    MoreBytes(q, r / 0x100_0000);
    MoreBytes(q * 0x100, r / 0x1_0000);
    MoreBytes(q * 0x1_0000, r / 0x100);
    MoreBytes(q * 0x100_0000, r);
  }

  lemma Put32Mod(a: nat)
    ensures Put32(a) == Put32(a % W32)
  {
    hide Byte;
    var q, r := a / W32, a % W32;
    BytesOfSum(q, r);
    assert a == q * W32 + r;
  }

  lemma LengthIsTwoWords(bits: nat)
    ensures LengthBytes(bits) == Put32(bits / W32) + Put32(bits)
  {
    hide Byte;
    assert bits / 0x100_0000_0000_0000 == bits / W32 / 0x100_0000;
    assert bits / 0x1_0000_0000_0000 == bits / W32 / 0x1_0000;
    assert bits / 0x100_0000_0000 == bits / W32 / 0x100;
  }

  // The two words that finish() makes of the counter are the length in bits.
  lemma CounterIsLength(n: nat, low: nat, high: nat)
    requires Counts(n, low, high)
    ensures Put32(low / 0x2000_0000 + high * 8) + Put32(low * 8) == LengthBytes(8 * n)
  {
    hide Put32, LengthBytes;
    LengthIsTwoWords(8 * n);
    var q, u, r := n / W32, low / 0x2000_0000, low % 0x2000_0000;
    Words(n, q, low, u, r);
    Put32Low(8 * n, low * 8);
    EightTimes(high, q, u);
    Put32Low(u + high * 8, 8 * q + u);
  }

  lemma Words(n: nat, q: nat, low: nat, u: nat, r: nat)
    requires n == q * W32 + low && low == u * 0x2000_0000 + r && r < 0x2000_0000
    ensures 8 * n / W32 == 8 * q + u && 8 * n % W32 == 8 * r && low * 8 % W32 == 8 * r
  {
    Remainder(8 * n, W32, 8 * q + u, 8 * r);
    Remainder(low * 8, W32, u, 8 * r);
  }

  lemma EightTimes(x: nat, y: nat, u: nat)
    requires x % 0x2000_0000 == y % 0x2000_0000
    ensures (u + x * 8) % W32 == (8 * y + u) % W32
  {
    Splits(x, 0x2000_0000);
    Splits(y, 0x2000_0000);
    var p, q, r := x / 0x2000_0000, y / 0x2000_0000, x % 0x2000_0000;
    if u + x * 8 <= 8 * y + u {
      Exact(q - p, W32);
      SameRemainder(u + x * 8, 8 * y + u, W32);
    } else {
      Exact(p - q, W32);
      SameRemainder(8 * y + u, u + x * 8, W32);
    }
  }

  // padn bytes of the padding array.
  lemma PaddingOf(len: nat)
    ensures |Padding(len)| == if len % BLOCK < 56 then 56 - len % BLOCK else 120 - len % BLOCK
  {
  }

  lemma LengthFits(bits: nat)
    ensures |LengthBytes(bits)| == 8
  {
  }

  lemma EmptyTail(msg: seq<byte>)
    requires |msg| % BLOCK == 0
    ensures Tail(msg) == []
  {
  }

  lemma ThreeParts(m: seq<byte>, input: seq<byte>, i: nat, j: nat)
    requires i <= j <= |input|
    ensures m + input[..i] + input[i..j] + input[j..] == m + input
  {
  }

  lemma NextPart(m: seq<byte>, input: seq<byte>, i: nat, j: nat, k: nat)
    requires i <= j <= k <= |input|
    ensures m + input[i..j] + input[j..k] == m + input[i..k]
  {
  }

  function Joined(pieces: seq<seq<byte>>, n: nat): seq<byte>
    requires n <= |pieces|
  {
    if n == 0 then [] else Joined(pieces, n - 1) + pieces[n - 1]
  }

  // ---- what both digests do to their contexts ------------------------------------------------------

  // memcpy(buffer + left, ...).
  method Fill(buffer: array<byte>, left: nat, x: seq<byte>)
    requires buffer.Length == BLOCK && left + |x| <= BLOCK
    modifies buffer
    ensures buffer[..left + |x|] == old(buffer[..left]) + x
  {
    var i := 0;
    while i < |x|
      invariant 0 <= i <= |x| && buffer[..left] == old(buffer[..left])
      invariant buffer[left..left + i] == x[..i]
    {
      buffer[left + i] := x[i];
      i := i + 1;
    }
    assert buffer[..left + |x|] == buffer[..left] + buffer[left..left + |x|];
  }

  // The first padn bytes of the padding array.
  method PaddingBytes(padn: nat, ghost len: nat) returns (p: seq<byte>)
    requires 1 <= padn <= BLOCK && padn == |Padding(len)|
    ensures p == Padding(len) && |p| < W32
  {
    p := [0x80] + seq(padn - 1, _ => 0);
  }
}
