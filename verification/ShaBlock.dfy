// sha1_process() and sha256_process(): registers that change places instead of moving, and for
// SHA-1 a schedule of sixteen words used in a circle, in lanes of 64 bits of which 32 count.
module ShaBlock {
  import opened Numbers
  import opened ShaBits
  import opened ShaSpec

  function F64(t: nat, x: bv64, y: bv64, z: bv64): bv64 {
    if t < 20 then Choose64(x, y, z) else if 40 <= t < 60 then Majority64(x, y, z) else Parity64(x, y, z)
  }

  lemma LowF(t: nat, x: bv64, y: bv64, z: bv64)
    ensures Low(F64(t, x, y, z)) == F1(t, Low(x), Low(y), Low(z))
  {
    hide Low, Ch, Maj, Parity, Choose64, Majority64, Parity64;
    LowChooses(x, y, z);
    LowMajority(x, y, z);
    LowParity(x, y, z);
  }

  // ---- SHA-1 --------------------------------------------------------------------------------

  // The k-th register after the one at a, of n.
  function Reg(a: nat, k: nat, n: nat): (i: nat)
    requires a < n && k < n
    ensures i < n
  {
    if a + k < n then a + k else a + k - n
  }

  // The five lanes, of which the one at a is called A now.
  function Regs(v: seq<bv64>, a: nat): Five
    requires |v| == 5 && a < 5
  {
    Five(Low(v[a]), Low(v[Reg(a, 1, 5)]), Low(v[Reg(a, 2, 5)]), Low(v[Reg(a, 3, 5)]), Low(v[Reg(a, 4, 5)]))
  }

  function NewE(t: nat, a: bv64, b: bv64, c: bv64, d: bv64, e: bv64, x: bv64): bv64 {
    Plus64(e, Plus64(Plus64(Plus64(S5(a), F64(t, b, c, d)), K1(t) as bv64), x))
  }

  // P(A, B, C, D, E, x): two registers change, and E becomes the next A.
  function Turn(v: seq<bv64>, a: nat, t: nat, x: bv64): seq<bv64>
    requires |v| == 5 && a < 5
  {
    var b, e := Reg(a, 1, 5), Reg(a, 4, 5);
    v[e := NewE(t, v[a], v[b], v[Reg(a, 2, 5)], v[Reg(a, 3, 5)], v[e], x)][b := S30(v[b])]
  }

  lemma LowNewE(t: nat, a: bv64, b: bv64, c: bv64, d: bv64, e: bv64, x: bv64)
    ensures Low(NewE(t, a, b, c, d, e, x)) ==
      Plus(Low(e), Plus(Plus(Plus(Rotl5(Low(a)), F1(t, Low(b), Low(c), Low(d))), K1(t)), Low(x)))
  {
    hide Low, Plus64, Plus, S1, S5, S30, F64, F1, K1, Rotl5, Rotl30, Rotl1;
    var f, k := F64(t, b, c, d), K1(t) as bv64;
    LowF(t, b, c, d);
    LowRotates(a);
    LowWidened(K1(t));
    LowAdds(S5(a), f);
    LowAdds(Plus64(S5(a), f), k);
    LowAdds(Plus64(Plus64(S5(a), f), k), x);
    LowAdds(e, Plus64(Plus64(Plus64(S5(a), f), k), x));
  }

  lemma TurnIsRound(v: seq<bv64>, a: nat, t: nat, x: bv64)
    requires |v| == 5 && a < 5
    ensures Regs(Turn(v, a, t, x), Reg(a, 4, 5)) == Round1(t, Regs(v, a), Low(x))
  {
    hide Low, Plus, S1, S5, S30, F1, K1, Rotl5, Rotl30, Rotl1, NewE;
    var b, c, d, e := Reg(a, 1, 5), Reg(a, 2, 5), Reg(a, 3, 5), Reg(a, 4, 5);
    LowNewE(t, v[a], v[b], v[c], v[d], v[e], x);
    LowRotates(v[b]);
  }

  // The sixteen words from t - 16 on are in the circle.
  ghost predicate Circle(w: seq<bv64>, data: seq<byte>, t: nat) {
    |w| == 16 && t >= 16 && forall k: nat | t - 16 <= k < t :: Low(w[k % 16]) == W1(data, k)
  }

  lemma CircleStep(w: seq<bv64>, data: seq<byte>, t: nat)
    requires Circle(w, data, t)
    ensures var x := S1(Mix64(w[(t - 3) % 16], w[(t - 8) % 16], w[(t - 14) % 16], w[t % 16]));
      Low(x) == W1(data, t) && Circle(w[t % 16 := x], data, t + 1)
  {
    hide Low, S1, Mix64, Xor4, Rotl1, Word;
    var m := Mix64(w[(t - 3) % 16], w[(t - 8) % 16], w[(t - 14) % 16], w[t % 16]);
    LowMixes(w[(t - 3) % 16], w[(t - 8) % 16], w[(t - 14) % 16], w[t % 16]);
    LowRotates(m);
    assert (t - 16) % 16 == t % 16;
    assert Low(m) == Xor4(W1(data, t - 3), W1(data, t - 8), W1(data, t - 14), W1(data, t - 16));
    forall k: nat | t + 1 - 16 <= k < t + 1 ensures Low(w[t % 16 := S1(m)][k % 16]) == W1(data, k) {
      if k < t {
        OtherPlace(k, t);
      }
    }
  }

  lemma CircleStarts(w: seq<bv64>, data: seq<byte>, t: nat)
    requires Circle(w, data, 16) && t < 16
    ensures Low(w[t % 16]) == W1(data, t)
  {
  }

  lemma OtherPlace(k: nat, t: nat)
    requires t - 16 < k < t
    ensures k % 16 != t % 16
  {
  }

  function FiveOf(s: seq<bv64>): Five
    requires |s| == 5
  {
    Five(Low(s[0]), Low(s[1]), Low(s[2]), Low(s[3]), Low(s[4]))
  }

  // R(t): the word for step t goes where the one for step t - 16 was.
  method NextWord(w: array<bv64>, ghost data: seq<byte>, t: nat) returns (x: bv64)
    requires w.Length == 16 && Circle(w[..], data, if t < 16 then 16 else t)
    modifies w
    ensures Low(x) == W1(data, t) && Circle(w[..], data, if t < 16 then 16 else t + 1)
  {
    hide Low, S1, Mix64, W1, Circle;
    x := w[t % 16];
    if t >= 16 {
      CircleStep(w[..], data, t);
      ghost var was := w[..];
      x := S1(Mix64(w[(t - 3) % 16], w[(t - 8) % 16], w[(t - 14) % 16], w[t % 16]));
      w[t % 16] := x;
      assert w[..] == was[t % 16 := x];
    } else {
      CircleStarts(w[..], data, t);
    }
  }

  // P(A, B, C, D, E, x).
  method TurnInPlace(v: array<bv64>, a: nat, t: nat, x: bv64)
    requires v.Length == 5 && a < 5
    modifies v
    ensures Regs(v[..], Reg(a, 4, 5)) == Round1(t, old(Regs(v[..], a)), Low(x))
  {
    hide Low, Plus64, Plus, S1, S5, S30, F64, F1, K1, Rotl5, Rotl30, Round1, NewE;
    TurnIsRound(v[..], a, t, x);
    ghost var before := v[..];
    var b, e := Reg(a, 1, 5), Reg(a, 4, 5);
    v[e] := NewE(t, v[a], v[b], v[Reg(a, 2, 5)], v[Reg(a, 3, 5)], v[e], x);
    v[b] := S30(v[b]);
    assert v[..] == Turn(before, a, t, x);
  }

  method Sha1Process(state: array<bv64>, data: seq<byte>)
    requires state.Length == 5 && |data| == BLOCK
    modifies state
    ensures FiveOf(state[..]) == Compress1(old(FiveOf(state[..])), data)
  {
    hide Low, Plus, W1, Round1, Circle, Reg, Regs, FiveOf, AddFive;
    var w := LoadWords(data);
    var v := new bv64[5](i requires 0 <= i < 5 reads state requires state.Length == 5 => state[i]);
    ghost var h := FiveOf(state[..]);
    assert v[..] == state[..];
    AtZero(v[..]);
    var t, a := 0, 0;
    while t < 80
      invariant 0 <= t <= 80 && a == First(t, 5)
      invariant state[..] == old(state[..])
      invariant Regs(v[..], a) == Rounds1(data, h, t)
      invariant Circle(w[..], data, if t < 16 then 16 else t)
    {
      var x := NextWord(w, data, t);
      TurnInPlace(v, a, t, x);
      a := Reg(a, 4, 5);
      t := t + 1;
    }
    AtZero(v[..]);
    AddUp(state, v);
  }

  lemma AtZero(v: seq<bv64>)
    requires |v| == 5
    ensures Regs(v, 0) == FiveOf(v)
  {
  }

  // Which register is called A in step t: one place back each time.
  function First(t: nat, n: nat): (a: nat)
    requires n > 1
    ensures a < n && (a + t) % n == 0
  {
    if t == 0 then 0
    else
      var a := First(t - 1, n);
      FirstStep(a, t, n);
      Reg(a, n - 1, n)
  }

  lemma FirstStep(a: nat, t: nat, n: nat)
    requires n > 1 && t > 0 && a < n && (a + t - 1) % n == 0
    ensures (Reg(a, n - 1, n) + t) % n == 0
  {
    if a == 0 {
      var q := (t - 1) / n;
      Splits(t - 1, n);
      Distributes(q, 1, n);
      Exact(q + 1, n);
    }
  }

  method LoadWords(data: seq<byte>) returns (w: array<bv64>)
    requires |data| == BLOCK
    ensures fresh(w) && w.Length == 16 && Circle(w[..], data, 16)
  {
    hide Low, Word, Word64, W1, Circle;
    w := new bv64[16];
    var i := 0;
    while i < 16
      invariant 0 <= i <= 16
      invariant forall k | 0 <= k < i :: Low(w[k]) == W1(data, k)
    {
      LowWord(data, 4 * i);
      FirstWords(data, i);
      w[i] := Word64(data, 4 * i);
      i := i + 1;
    }
    CircleIsFull(w[..], data);
  }

  lemma FirstWords(data: seq<byte>, t: nat)
    requires t < 16
    ensures W1(data, t) == Word(data, 4 * t)
  {
  }

  lemma CircleIsFull(w: seq<bv64>, data: seq<byte>)
    requires |w| == 16 && forall k | 0 <= k < 16 :: Low(w[k]) == W1(data, k)
    ensures Circle(w, data, 16)
  {
    hide Low, W1;
  }

  method AddUp(state: array<bv64>, v: array<bv64>)
    requires state.Length == 5 && v.Length == 5 && state != v
    modifies state
    ensures FiveOf(state[..]) == AddFive(old(FiveOf(state[..])), FiveOf(v[..]))
  {
    hide Low, Plus, Plus64;
    var i := 0;
    while i < 5
      invariant 0 <= i <= 5
      invariant forall k | i <= k < 5 :: state[k] == old(state[k])
      invariant forall k | 0 <= k < i :: Low(state[k]) == Plus(Low(old(state[k])), Low(v[k]))
    {
      LowAdds(state[i], v[i]);
      state[i] := Plus64(state[i], v[i]);
      i := i + 1;
    }
  }

  // ---- SHA-256 --------------------------------------------------------------------------------

  function Regs256(v: seq<bv32>, a: nat): Eight
    requires |v| == 8 && a < 8
  {
    Eight(v[a], v[Reg(a, 1, 8)], v[Reg(a, 2, 8)], v[Reg(a, 3, 8)],
          v[Reg(a, 4, 8)], v[Reg(a, 5, 8)], v[Reg(a, 6, 8)], v[Reg(a, 7, 8)])
  }

  function EightOf(s: seq<bv32>): Eight
    requires |s| == 8
  {
    Eight(s[0], s[1], s[2], s[3], s[4], s[5], s[6], s[7])
  }

  function Temp1(h: bv32, e: bv32, f: bv32, g: bv32, k: bv32, x: bv32): bv32 {
    Plus(Plus(Plus(Plus(h, Sum1(e)), Choose32(e, f, g)), k), x)
  }

  function Temp2(a: bv32, b: bv32, c: bv32): bv32 {
    Plus(Sum0(a), Majority32(a, b, c))
  }

  // P(A, ..., H, x, K): D and H change, and H becomes the next A.
  function Turn256(v: seq<bv32>, a: nat, k: bv32, x: bv32): seq<bv32>
    requires |v| == 8 && a < 8
  {
    var d, h := Reg(a, 3, 8), Reg(a, 7, 8);
    var t1 := Temp1(v[h], v[Reg(a, 4, 8)], v[Reg(a, 5, 8)], v[Reg(a, 6, 8)], k, x);
    v[d := Plus(v[d], t1)][h := Plus(t1, Temp2(v[a], v[Reg(a, 1, 8)], v[Reg(a, 2, 8)]))]
  }

  lemma Turn256IsRound(v: seq<bv32>, a: nat, k: bv32, x: bv32)
    requires |v| == 8 && a < 8
    ensures Regs256(Turn256(v, a, k, x), Reg(a, 7, 8)) == Round256(Regs256(v, a), k, x)
  {
    hide Plus, Sum0, Sum1, Ch, Maj, Choose32, Majority32;
    ChooseForm(v[Reg(a, 4, 8)], v[Reg(a, 5, 8)], v[Reg(a, 6, 8)]);
    MajorityForm(v[a], v[Reg(a, 1, 8)], v[Reg(a, 2, 8)]);
    hide Temp1, Temp2, Round256;
    TurnRegs(v, a, k, x);
    TempsAreRound(Regs256(v, a), k, x);
  }

  function Moved(r: Eight, t1: bv32, t2: bv32): Eight {
    Eight(Plus(t1, t2), r.a, r.b, r.c, Plus(r.d, t1), r.e, r.f, r.g)
  }

  lemma TempsAreRound(r: Eight, k: bv32, x: bv32)
    ensures Moved(r, Temp1(r.h, r.e, r.f, r.g, k, x), Temp2(r.a, r.b, r.c)) == Round256(r, k, x)
  {
    hide Plus, Sum0, Sum1, Ch, Maj, Choose32, Majority32;
    ChooseForm(r.e, r.f, r.g);
    MajorityForm(r.a, r.b, r.c);
  }

  // Seen from the new A, every register is one further on.
  lemma OneFurther(a: nat)
    requires a < 8
    ensures Reg(Reg(a, 7, 8), 1, 8) == a
    ensures forall k | 1 <= k < 7 :: Reg(Reg(a, 7, 8), k + 1, 8) == Reg(a, k, 8)
    ensures forall k | 1 <= k < 7 :: Reg(a, k, 8) != Reg(a, 7, 8) && Reg(a, k, 8) != a && (k != 3 ==> Reg(a, k, 8) != Reg(a, 3, 8))
    ensures Reg(a, 7, 8) != a
  {
  }

  lemma TurnRegs(v: seq<bv32>, a: nat, k: bv32, x: bv32)
    requires |v| == 8 && a < 8
    ensures var r := Regs256(v, a);
      Regs256(Turn256(v, a, k, x), Reg(a, 7, 8)) == Moved(r, Temp1(r.h, r.e, r.f, r.g, k, x), Temp2(r.a, r.b, r.c))
  {
    hide Plus, Temp1, Temp2, Reg;
    OneFurther(a);
    var d, h, r := Reg(a, 3, 8), Reg(a, 7, 8), Regs256(v, a);
    var t1 := Temp1(r.h, r.e, r.f, r.g, k, x);
    var n := Turn256(v, a, k, x);
    assert n[h] == Plus(t1, Temp2(r.a, r.b, r.c)) && n[d] == Plus(r.d, t1);
    assert n[Reg(h, 1, 8)] == v[a] && n[Reg(h, 2, 8)] == v[Reg(a, 1, 8)] && n[Reg(h, 3, 8)] == v[Reg(a, 2, 8)];
    assert n[Reg(h, 4, 8)] == n[d] && n[Reg(h, 5, 8)] == v[Reg(a, 4, 8)];
    assert n[Reg(h, 6, 8)] == v[Reg(a, 5, 8)] && n[Reg(h, 7, 8)] == v[Reg(a, 6, 8)];
  }

  method Schedule256(data: seq<byte>) returns (w: array<bv32>)
    requires |data| == BLOCK
    ensures fresh(w) && w.Length == 64 && forall k | 0 <= k < 64 :: w[k] == W256(data, k)
  {
    hide Plus, Sigma0, Sigma1, Word;
    w := new bv32[64];
    var t := 0;
    while t < 64
      invariant 0 <= t <= 64
      invariant forall k | 0 <= k < t :: w[k] == W256(data, k)
    {
      if t < 16 {
        w[t] := Word(data, 4 * t);
      } else {
        w[t] := Plus(Plus(Plus(Sigma1(w[t - 2]), w[t - 7]), Sigma0(w[t - 15])), w[t - 16]);
      }
      t := t + 1;
    }
  }

  method Turn256InPlace(v: array<bv32>, a: nat, k: bv32, x: bv32)
    requires v.Length == 8 && a < 8
    modifies v
    ensures Regs256(v[..], Reg(a, 7, 8)) == Round256(old(Regs256(v[..], a)), k, x)
  {
    hide Plus, Temp1, Temp2, Round256, Regs256;
    Turn256IsRound(v[..], a, k, x);
    ghost var before := v[..];
    var d, h := Reg(a, 3, 8), Reg(a, 7, 8);
    var t1 := Temp1(v[h], v[Reg(a, 4, 8)], v[Reg(a, 5, 8)], v[Reg(a, 6, 8)], k, x);
    var t2 := Temp2(v[a], v[Reg(a, 1, 8)], v[Reg(a, 2, 8)]);
    v[d] := Plus(v[d], t1);
    v[h] := Plus(t1, t2);
    assert v[..] == Turn256(before, a, k, x);
  }

  method Sha256Process(state: array<bv32>, data: seq<byte>)
    requires state.Length == 8 && |data| == BLOCK
    modifies state
    ensures EightOf(state[..]) == Compress256(old(EightOf(state[..])), data)
  {
    hide Plus, Round256, W256, Reg, K2, Regs256, EightOf, AddEight;
    var w := Schedule256(data);
    var v := new bv32[8](i requires 0 <= i < 8 reads state requires state.Length == 8 => state[i]);
    ghost var h := EightOf(state[..]);
    assert v[..] == state[..];
    AtZero256(v[..]);
    var t, a := 0, 0;
    while t < 64
      invariant 0 <= t <= 64 && a == First(t, 8)
      invariant state[..] == old(state[..])
      invariant forall k | 0 <= k < 64 :: w[k] == W256(data, k)
      invariant Regs256(v[..], a) == Rounds256(data, h, t)
    {
      Turn256InPlace(v, a, K2(t), w[t]);
      a := Reg(a, 7, 8);
      t := t + 1;
    }
    AtZero256(v[..]);
    AddUp256(state, v);
  }

  lemma AtZero256(v: seq<bv32>)
    requires |v| == 8
    ensures Regs256(v, 0) == EightOf(v)
  {
  }

  method AddUp256(state: array<bv32>, v: array<bv32>)
    requires state.Length == 8 && v.Length == 8 && state != v
    modifies state
    ensures EightOf(state[..]) == AddEight(old(EightOf(state[..])), EightOf(v[..]))
  {
    hide Plus;
    var i := 0;
    while i < 8
      invariant 0 <= i <= 8
      invariant forall k | i <= k < 8 :: state[k] == old(state[k])
      invariant forall k | 0 <= k < i :: state[k] == Plus(old(state[k]), v[k])
    {
      state[i] := Plus(state[i], v[i]);
      i := i + 1;
    }
  }

  lemma LowInitial()
    ensures FiveOf([0x67452301, 0xEFCDAB89, 0x98BADCFE, 0x10325476, 0xC3D2E1F0]) == Initial1
  {
  }
}
