// SHA-256 as the tool computes it: starts, update, finish.
module Sha256 {
  import opened ShaBits
  import opened ShaSpec
  import opened ShaBlock
  import opened ShaStream

  function Bytes256(s: Eight): seq<byte> {
    Put(s.a) + Put(s.b) + Put(s.c) + Put(s.d) + Put(s.e) + Put(s.f) + Put(s.g) + Put(s.h)
  }

  function HashOf(msg: seq<byte>): seq<byte> {
    Bytes256(Digest(Compress256, Initial256, msg))
  }

  class Context {
    var total0: nat
    var total1: nat
    const state: array<bv32>
    const buffer: array<byte>
    ghost var msg: seq<byte>  // everything so far

    ghost predicate Valid()
      reads this, state, buffer
    {
      && state.Length == 8 && buffer.Length == BLOCK
      && Counts(|msg|, total0, total1)
      && EightOf(state[..]) == Absorb(Compress256, Initial256, msg)
      && buffer[..|msg| % BLOCK] == Tail(msg)
    }

    // starts().
    constructor ()
      ensures Valid() && msg == [] && fresh(state) && fresh(buffer)
    {
      total0, total1 := 0, 0;
      buffer := new byte[BLOCK];
      state := new bv32[] [0x6A09E667, 0xBB67AE85, 0x3C6EF372, 0xA54FF53A, 0x510E527F, 0x9B05688C, 0x1F83D9AB, 0x5BE0CD19];
      msg := [];
      new;
      assert state[..] == [0x6A09E667, 0xBB67AE85, 0x3C6EF372, 0xA54FF53A, 0x510E527F, 0x9B05688C, 0x1F83D9AB, 0x5BE0CD19];
    }

    // One whole block, made of what is in the buffer and x.
    method Process(data: seq<byte>, ghost x: seq<byte>)
      requires state.Length == 8 && |data| == BLOCK && |msg| % BLOCK + |x| == BLOCK && data == Tail(msg) + x
      requires EightOf(state[..]) == Absorb(Compress256, Initial256, msg)
      modifies state, `msg
      ensures msg == old(msg) + x && EightOf(state[..]) == Absorb(Compress256, Initial256, msg) && |msg| % BLOCK == 0
    {
      hide Compress256, EightOf;
      AbsorbBlock(Compress256, Initial256, msg, x);
      Sha256Process(state, data);
      msg := msg + x;
    }

    // The state stands for all of msg but the last left bytes, and the buffer holds those.
    ghost predicate Holds(left: nat)
      reads this, state, buffer
    {
      && state.Length == 8 && buffer.Length == BLOCK && left == |msg| % BLOCK
      && EightOf(state[..]) == Absorb(Compress256, Initial256, msg)
      && (left > 0 ==> buffer[..left] == Tail(msg))
    }

    // update().
    method Update(input: seq<byte>)
      requires Valid() && |input| < W32
      modifies this, state, buffer
      ensures Valid() && msg == old(msg) + input
    {
      hide Compress256, EightOf, Absorb, Counts, Tail;
      if |input| == 0 {
        assert msg + input == msg;
        return;
      }
      var left := LeftOver();
      Count(|input|);
      var pos := 0;
      if left > 0 && |input| >= BLOCK - left {
        pos := FillUp(left, input);
        left := 0;
      } else {
        assert msg + input[..0] == msg;
      }
      assert left > 0 ==> |input| - pos < BLOCK - left;
      ghost var first := pos;
      pos := TakeBlocks(left, input, pos);
      ThreeParts(old(msg), input, first, pos);
      Keep(left, input[pos..]);
    }

    // The first bytes of the input complete the block in the buffer.
    method FillUp(left: nat, input: seq<byte>) returns (pos: nat)
      requires Holds(left) && 0 < left && |input| >= BLOCK - left
      modifies state, buffer, `msg
      ensures pos == BLOCK - left && msg == old(msg) + input[..pos] && Holds(0)
    {
      hide Compress256, EightOf, Absorb, Tail;
      pos := BLOCK - left;
      Fill(buffer, left, input[..pos]);
      assert buffer[..] == buffer[..left + pos];
      Process(buffer[..], input[..pos]);
    }

    // Whole blocks are taken from the input itself.
    method TakeBlocks(left: nat, input: seq<byte>, from: nat) returns (pos: nat)
      requires Holds(left) && from <= |input| && (left > 0 ==> |input| - from < BLOCK - left)
      modifies state, `msg
      ensures from <= pos <= |input| && left + (|input| - pos) < BLOCK && Holds(left)
      ensures msg == old(msg) + input[from..pos]
    {
      hide Compress256, EightOf, Absorb, Tail;
      pos := from;
      while |input| - pos >= BLOCK
        invariant from <= pos <= |input| && Holds(left) && (left > 0 ==> |input| - pos < BLOCK - left)
        invariant msg == old(msg) + input[from..pos]
      {
        EmptyTail(msg);
        var block := input[pos..pos + BLOCK];
        NextPart(old(msg), input, from, pos, pos + BLOCK);
        Process(block, block);
        pos := pos + BLOCK;
      }
    }

    method LeftOver() returns (left: nat)
      requires Valid()
      ensures left < BLOCK && Holds(left)
    {
      hide Compress256, EightOf, Absorb, Tail;
      LowBits(|msg|);
      left := total0 % BLOCK;
    }

    method Count(d: nat)
      requires Counts(|msg|, total0, total1) && d < W32
      modifies `total0, `total1
      ensures Counts(|msg| + d, total0, total1)
    {
      CountAdds(|msg|, total0, total1, d, W32);
      total0 := (total0 + d) % W32;
      if total0 < d {
        total1 := (total1 + 1) % W32;
      }
    }

    // What does not make a whole block is kept.
    method Keep(left: nat, x: seq<byte>)
      requires Holds(left) && left + |x| < BLOCK
      modifies `msg, buffer
      ensures msg == old(msg) + x && EightOf(state[..]) == Absorb(Compress256, Initial256, msg)
      ensures buffer[..|msg| % BLOCK] == Tail(msg)
    {
      hide Compress256, EightOf;
      AbsorbLess(Compress256, Initial256, msg, x);
      if left == 0 {
        EmptyTail(msg);
      }
      Fill(buffer, left, x);
      msg := msg + x;
    }

    // finish().
    method Finish() returns (digest: seq<byte>)
      requires Valid()
      modifies this, state, buffer
      ensures digest == HashOf(old(msg))
    {
      hide Compress256, EightOf, Absorb, Counts, Tail, Padding, LengthBytes, Put32;
      ghost var m := msg;
      CounterIsLength(|m|, total0, total1);
      PaddingOf(|m|);
      var high := total0 / 0x2000_0000 + total1 * 8;
      var low := total0 * 8;
      var msglen := Put32(high) + Put32(low);
      var last := LeftOver();
      var padding := PaddingBytes(if last < 0x38 then 0x38 - last else 0x78 - last, |m|);
      Update(padding);
      LengthFits(8 * |m|);
      Update(msglen);
      assert msg == Padded(m);
      digest := Output();
    }

    method Output() returns (digest: seq<byte>)
      requires state.Length == 8
      ensures digest == Bytes256(EightOf(state[..]))
    {
      hide Put;
      digest := Put(state[0]) + Put(state[1]) + Put(state[2]) + Put(state[3])
              + Put(state[4]) + Put(state[5]) + Put(state[6]) + Put(state[7]);
    }
  }

  // csum(): a context for one message only.
  method Csum(input: seq<byte>) returns (digest: seq<byte>)
    requires |input| < W32
    ensures digest == HashOf(input)
  {
    var ctx := new Context();
    ctx.Update(input);
    assert [] + input == input;
    digest := ctx.Finish();
  }

  // However a message is cut into pieces, its digest is that of the whole.
  method HashPieces(pieces: seq<seq<byte>>) returns (digest: seq<byte>)
    requires forall i | 0 <= i < |pieces| :: |pieces[i]| < W32
    ensures digest == HashOf(Joined(pieces, |pieces|))
  {
    hide HashOf, Absorb, Counts, Tail, Compress256, EightOf;
    var ctx := new Context();
    var i := 0;
    while i < |pieces|
      invariant 0 <= i <= |pieces| && ctx.Valid() && ctx.msg == Joined(pieces, i)
      invariant fresh(ctx) && fresh(ctx.state) && fresh(ctx.buffer)
    {
      ctx.Update(pieces[i]);
      i := i + 1;
    }
    digest := ctx.Finish();
  }
}
