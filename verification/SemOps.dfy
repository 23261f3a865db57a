// The meaning of one semop() request on the values of a semaphore set and on the caller's row of
// undo adjustments: which requests apply, which have to sleep, which fail.
module SemOps {

  const SEMVMX := 32767
  const SEMAEM := 32767
  const EAGAIN := -11
  const ERANGE := -34
  const BITS_PER_LONG := 64

  datatype Sembuf = Sembuf(num: nat, op: int, nowait: bool, undo: bool)

  // Semaphore values, and semadj of the caller's sem_undo (empty when it has none).
  datatype Vars = Vars(vals: seq<int>, row: seq<int>)

  datatype Verdict = Fine | Blocks | OutOfRange

  datatype Outcome =
    | Done(v: Vars)
    | Sleep(blocking: nat)
    | Error(code: int)

  predicate Fits(v: Vars, op: Sembuf) {
    op.num < |v.vals| && (op.undo ==> op.num < |v.row|)
  }

  predicate AllFit(v: Vars, sops: seq<Sembuf>) {
    forall k | 0 <= k < |sops| :: Fits(v, sops[k])
  }

  // What the first k operations add to semaphore n, and take off its adjustment.
  function Sum(sops: seq<Sembuf>, n: nat, k: nat): int
    requires k <= |sops|
  {
    if k == 0 then 0
    else Sum(sops, n, k - 1) + (if sops[k - 1].num == n then sops[k - 1].op else 0)
  }

  function UndoSum(sops: seq<Sembuf>, n: nat, k: nat): int
    requires k <= |sops|
  {
    if k == 0 then 0
    else UndoSum(sops, n, k - 1) + (if sops[k - 1].undo && sops[k - 1].num == n then sops[k - 1].op else 0)
  }

  function After(v: Vars, sops: seq<Sembuf>, k: nat): Vars
    requires k <= |sops|
  {
    Vars(seq(|v.vals|, n requires 0 <= n < |v.vals| => v.vals[n] + Sum(sops, n, k)),
         seq(|v.row|, n requires 0 <= n < |v.row| => v.row[n] - UndoSum(sops, n, k)))
  }

  // One operation on a semaphore whose value is x and whose adjustment is a.
  function Judge(op: Sembuf, x: int, a: int): Verdict {
    if op.op == 0 && x != 0 then Blocks
    else if x + op.op < 0 then Blocks
    else if x + op.op > SEMVMX then OutOfRange
    else if op.undo && !(-SEMAEM - 1 <= a - op.op <= SEMAEM) then OutOfRange
    else Fine
  }

  // Operation k meets the values that the operations before it leave.
  function Check(v: Vars, sops: seq<Sembuf>, k: nat): Verdict
    requires k < |sops| && AllFit(v, sops)
  {
    var op := sops[k];
    assert Fits(v, op);
    Judge(op, v.vals[op.num] + Sum(sops, op.num, k),
          if op.undo then v.row[op.num] - UndoSum(sops, op.num, k) else 0)
  }

  function FirstStop(v: Vars, sops: seq<Sembuf>, k: nat): (r: nat)
    requires k <= |sops| && AllFit(v, sops)
    ensures k <= r <= |sops|
    ensures forall j | k <= j < r :: Check(v, sops, j).Fine?
    ensures r < |sops| ==> !Check(v, sops, r).Fine?
    decreases |sops| - k
  {
    if k == |sops| || !Check(v, sops, k).Fine? then k else FirstStop(v, sops, k + 1)
  }

  // All of the request or nothing of it.
  function Attempt(v: Vars, sops: seq<Sembuf>): Outcome
    requires AllFit(v, sops)
  {
    var k := FirstStop(v, sops, 0);
    if k == |sops| then Done(After(v, sops, k))
    else if Check(v, sops, k).OutOfRange? then Error(ERANGE)
    else if sops[k].nowait then Error(EAGAIN)
    else Sleep(k)
  }

  lemma StopIsUnique(v: Vars, sops: seq<Sembuf>, k: nat)
    requires k <= |sops| && AllFit(v, sops)
    requires forall j | 0 <= j < k :: Check(v, sops, j).Fine?
    requires k < |sops| ==> !Check(v, sops, k).Fine?
    ensures FirstStop(v, sops, 0) == k
  {
  }

  lemma AfterNone(v: Vars, sops: seq<Sembuf>)
    ensures After(v, sops, 0) == v
  {
    assert After(v, sops, 0).vals == v.vals && After(v, sops, 0).row == v.row;
  }

  // The row with d added at n, where an undo is asked for.
  function Shift(row: seq<int>, undo: bool, n: nat, d: int): seq<int>
    requires undo ==> n < |row|
  {
    if undo then row[n := row[n] + d] else row
  }

  lemma AfterStep(v: Vars, sops: seq<Sembuf>, k: nat)
    requires k < |sops| && AllFit(v, sops)
    ensures
      var op, w, w' := sops[k], After(v, sops, k), After(v, sops, k + 1);
      && Fits(v, op)
      && w'.vals == w.vals[op.num := w.vals[op.num] + op.op]
      && w'.row == Shift(w.row, op.undo, op.num, -op.op)
      && w.vals == w'.vals[op.num := w'.vals[op.num] - op.op]
      && w.row == Shift(w'.row, op.undo, op.num, op.op)
  {
    assert Fits(v, sops[k]);
  }

  // ---- duplicate detection -----------------------------------------------------------------

  // No operation follows an altering operation on the same semaphore.
  predicate NoDup(sops: seq<Sembuf>) {
    forall i, j | 0 <= i < j < |sops| && sops[i].op != 0 :: sops[i].num != sops[j].num
  }

  lemma {:induction false} NoDupSum(sops: seq<Sembuf>, k: nat, j: nat)
    requires NoDup(sops) && j <= k < |sops|
    ensures Sum(sops, sops[k].num, j) == 0 && UndoSum(sops, sops[k].num, j) == 0
    decreases j
  {
    if j > 0 {
      NoDupSum(sops, k, j - 1);
    }
  }

  // An altering operation among the first k falls on bit b of the mask.
  ghost predicate Marks(sops: seq<Sembuf>, k: nat, b: nat)
    requires k <= |sops|
  {
    exists i | 0 <= i < k :: sops[i].op != 0 && sops[i].num % BITS_PER_LONG == b
  }

  ghost predicate Collides(sops: seq<Sembuf>, k: nat)
    requires k <= |sops|
  {
    exists j | 0 <= j < k :: Marks(sops, j, sops[j].num % BITS_PER_LONG)
  }

  // The mask may report a duplicate that is none, never the other way round.
  lemma NoCollisionNoDup(sops: seq<Sembuf>)
    requires !Collides(sops, |sops|)
    ensures NoDup(sops)
  {
    forall i, j | 0 <= i < j < |sops| && sops[i].op != 0 ensures sops[i].num != sops[j].num {
      assert !Marks(sops, j, sops[j].num % BITS_PER_LONG);
    }
  }

  predicate Undoes(sops: seq<Sembuf>) {
    exists k | 0 <= k < |sops| :: sops[k].undo
  }

  predicate Alters(sops: seq<Sembuf>) {
    exists k | 0 <= k < |sops| :: sops[k].op != 0
  }

  predicate Below(sops: seq<Sembuf>, n: nat) {
    forall k | 0 <= k < |sops| :: sops[k].num < n
  }

  // The loop over the request in do_semtimedop(): dup is the bit mask, as the set of its bits.
  method ScanRequest(sops: seq<Sembuf>) returns (max: nat, undos: bool, alter: bool, dupsop: bool)
    ensures sops != [] ==> forall n: nat :: Below(sops, n) <==> max < n
    ensures undos == Undoes(sops) && alter == Alters(sops)
    ensures dupsop <==> Collides(sops, |sops|)
    ensures !dupsop ==> NoDup(sops)
  {
    max, undos, alter, dupsop := 0, false, false, false;
    var dup: set<nat> := {};
    var k := 0;
    while k < |sops|
      invariant 0 <= k <= |sops|
      invariant k == 0 ==> max == 0
      invariant k > 0 ==> forall n: nat :: Below(sops[..k], n) <==> max < n
      invariant undos == Undoes(sops[..k]) && alter == Alters(sops[..k])
      invariant forall b: nat :: b in dup <==> Marks(sops, k, b)
      invariant dupsop <==> Collides(sops, k)
    {
      assert sops[..k + 1] == sops[..k] + [sops[k]];
      var mask := sops[k].num % BITS_PER_LONG;
      if sops[k].num >= max {
        max := sops[k].num;
      }
      if sops[k].undo {
        undos := true;
      }
      if mask in dup {
        dupsop := true;
      }
      if sops[k].op != 0 {
        alter := true;
        dup := dup + {mask};
      }
      MarksStep(sops, k);
      GrowthStep(sops[..k], sops[k]);
      k := k + 1;
    }
    assert sops[..k] == sops;
    if !dupsop {
      NoCollisionNoDup(sops);
    }
  }

  lemma MarksStep(sops: seq<Sembuf>, k: nat)
    requires k < |sops|
    ensures forall b: nat ::
              Marks(sops, k + 1, b) <==>
              Marks(sops, k, b) || (sops[k].op != 0 && sops[k].num % BITS_PER_LONG == b)
    ensures Collides(sops, k + 1) <==> Collides(sops, k) || Marks(sops, k, sops[k].num % BITS_PER_LONG)
  {
  }

  lemma GrowthStep(s: seq<Sembuf>, op: Sembuf)
    ensures Undoes(s + [op]) <==> Undoes(s) || op.undo
    ensures Alters(s + [op]) <==> Alters(s) || op.op != 0
    ensures forall n: nat :: Below(s + [op], n) <==> Below(s, n) && op.num < n
  {
    var t := s + [op];
    assert t[|s|] == op;
    assert forall k | 0 <= k < |s| :: t[k] == s[k];
    if Undoes(s) { var k :| 0 <= k < |s| && s[k].undo; assert t[k].undo; }
    if Alters(s) { var k :| 0 <= k < |s| && s[k].op != 0; assert t[k].op != 0; }
    forall n: nat ensures Below(t, n) <==> Below(s, n) && op.num < n {
      if Below(t, n) {
        forall k | 0 <= k < |s| ensures s[k].num < n { assert t[k].num < n; }
      }
    }
  }

  // ---- what follows from an outcome --------------------------------------------------------

  predicate InRange(vals: seq<int>) {
    forall n | 0 <= n < |vals| :: 0 <= vals[n] <= SEMVMX
  }

  predicate RowInRange(row: seq<int>) {
    forall n | 0 <= n < |row| :: -SEMAEM - 1 <= row[n] <= SEMAEM
  }

  lemma {:induction false} AfterInRange(v: Vars, sops: seq<Sembuf>, k: nat)
    requires k <= |sops| && AllFit(v, sops) && InRange(v.vals) && RowInRange(v.row)
    requires forall j | 0 <= j < k :: Check(v, sops, j).Fine?
    ensures InRange(After(v, sops, k).vals) && RowInRange(After(v, sops, k).row)
  {
    AfterNone(v, sops);
    if k > 0 {
      AfterInRange(v, sops, k - 1);
      AfterStep(v, sops, k - 1);
      assert Check(v, sops, k - 1).Fine? && Fits(v, sops[k - 1]);
    }
  }

  lemma {:induction false} SumOfNothing(sops: seq<Sembuf>, n: nat, k: nat)
    requires k <= |sops|
    requires forall j | 0 <= j < k :: sops[j].num == n ==> sops[j].op == 0
    ensures Sum(sops, n, k) == 0 && UndoSum(sops, n, k) == 0
  {
    if k > 0 {
      SumOfNothing(sops, n, k - 1);
    }
  }

  lemma {:induction false} SumOfDecrements(sops: seq<Sembuf>, n: nat, k: nat)
    requires k <= |sops|
    requires forall j | 0 <= j < k :: sops[j].num == n ==> sops[j].op <= 0
    ensures Sum(sops, n, k) <= 0
  {
    if k > 0 {
      SumOfDecrements(sops, n, k - 1);
    }
  }

  // Nothing that came before has changed the value that operation k looks at.
  lemma ZeroCheck(v: Vars, sops: seq<Sembuf>, k: nat)
    requires AllFit(v, sops) && !Alters(sops) && InRange(v.vals) && RowInRange(v.row) && k < |sops|
    ensures Fits(v, sops[k]) && (Check(v, sops, k).Fine? <==> v.vals[sops[k].num] == 0)
  {
    assert Fits(v, sops[k]);
    SumOfNothing(sops, sops[k].num, k);
  }

  lemma NothingAltered(v: Vars, sops: seq<Sembuf>)
    requires !Alters(sops)
    ensures After(v, sops, |sops|) == v
  {
    forall n: nat ensures Sum(sops, n, |sops|) == 0 && UndoSum(sops, n, |sops|) == 0 {
      SumOfNothing(sops, n, |sops|);
    }
    assert After(v, sops, |sops|).vals == v.vals && After(v, sops, |sops|).row == v.row;
  }

  // A request that alters nothing succeeds exactly when every semaphore it names is zero, and
  // then leaves everything as it is.
  lemma WaitForZero(v: Vars, sops: seq<Sembuf>)
    requires AllFit(v, sops) && !Alters(sops) && InRange(v.vals) && RowInRange(v.row)
    ensures Attempt(v, sops).Done? <==> forall k | 0 <= k < |sops| :: v.vals[sops[k].num] == 0
    ensures Attempt(v, sops).Done? ==> Attempt(v, sops).v == v
  {
    hide Check, After, InRange, RowInRange, Alters;
    var stop := FirstStop(v, sops, 0);
    forall k | 0 <= k < |sops| ensures Fits(v, sops[k]) && (Check(v, sops, k).Fine? <==> v.vals[sops[k].num] == 0) {
      ZeroCheck(v, sops, k);
    }
    NothingAltered(v, sops);
  }

  // A single decrement without IPC_NOWAIT sleeps exactly while the value is too small.
  lemma SingleDecrement(v: Vars, sops: seq<Sembuf>)
    requires |sops| == 1 && AllFit(v, sops) && sops[0].op < 0
    ensures v.vals[sops[0].num] + sops[0].op < 0 ==>
              Attempt(v, sops) == if sops[0].nowait then Error(EAGAIN) else Sleep(0)
    ensures v.vals[sops[0].num] + sops[0].op >= 0 ==> !Attempt(v, sops).Sleep?
    ensures Attempt(v, sops).Done? ==>
              Attempt(v, sops).v.vals == v.vals[sops[0].num := v.vals[sops[0].num] + sops[0].op]
  {
    assert Fits(v, sops[0]);
    AfterNone(v, sops);
    AfterStep(v, sops, 0);
  }

  // Increments never sleep: a request of one operation that sleeps waits for zero or decrements.
  lemma SingleSleeper(v: Vars, sops: seq<Sembuf>)
    requires |sops| == 1 && AllFit(v, sops) && InRange(v.vals) && Attempt(v, sops).Sleep?
    ensures sops[0].op <= 0 && !sops[0].nowait
  {
    assert Fits(v, sops[0]) && Check(v, sops, 0).Blocks?;
  }

  // Semaphores that no altering operation names keep their value.
  lemma DoneChangesOnlyNamed(v: Vars, sops: seq<Sembuf>, n: nat)
    requires AllFit(v, sops) && Attempt(v, sops).Done? && n < |v.vals|
    ensures var w := Attempt(v, sops).v; |w.vals| == |v.vals| && |w.row| == |v.row|
    ensures
      var w := Attempt(v, sops).v;
      (forall k | 0 <= k < |sops| :: sops[k].num == n ==> sops[k].op == 0) ==>
        w.vals[n] == v.vals[n] && (n < |v.row| ==> w.row[n] == v.row[n])
    ensures
      var w := Attempt(v, sops).v;
      (forall k | 0 <= k < |sops| :: sops[k].num == n ==> sops[k].op <= 0) ==> w.vals[n] <= v.vals[n]
  {
    if forall k | 0 <= k < |sops| :: sops[k].num == n ==> sops[k].op == 0 {
      SumOfNothing(sops, n, |sops|);
    }
    if forall k | 0 <= k < |sops| :: sops[k].num == n ==> sops[k].op <= 0 {
      SumOfDecrements(sops, n, |sops|);
    }
  }

  // Undo conservation for one request: value plus adjustment moves by exactly the operations
  // that did not ask for an undo.
  function PlainSum(sops: seq<Sembuf>, n: nat, k: nat): int
    requires k <= |sops|
  {
    if k == 0 then 0
    else PlainSum(sops, n, k - 1) + (if !sops[k - 1].undo && sops[k - 1].num == n then sops[k - 1].op else 0)
  }

  lemma {:induction false} SumSplits(sops: seq<Sembuf>, n: nat, k: nat)
    requires k <= |sops|
    ensures Sum(sops, n, k) == UndoSum(sops, n, k) + PlainSum(sops, n, k)
  {
    if k > 0 {
      SumSplits(sops, n, k - 1);
    }
  }
}
