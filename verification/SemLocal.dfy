// Why a simple operation may run under its semaphore's lock alone: it reads and writes nothing
// that belongs to another semaphore or to the set as a whole.
module SemLocal {
  import opened SemOps
  import opened SemSpec
  import opened SemRuns
  import opened SemHistory

  // Semaphore n, and everything that needs the global lock, is in t what it is in s.
  ghost predicate Untouched(s: SemSet, t: SemSet, n: nat) {
    && n < |s.vals| == |t.vals| && |s.vals| == |s.alterOf| == |s.constOf|
    && |t.vals| == |t.alterOf| == |t.constOf|
    && t.vals[n] == s.vals[n] && t.alterOf[n] == s.alterOf[n] && t.constOf[n] == s.constOf[n]
    && t.alter == s.alter && t.const_ == s.const_
    && t.complexCount == s.complexCount && t.useGlobal == s.useGlobal
    && t.adj.Keys == s.adj.Keys
    && forall u | u in s.adj :: |t.adj[u]| == |s.adj[u]| && (n < |s.adj[u]| ==> t.adj[u][n] == s.adj[u][n])
  }

  lemma AppliedUntouched(s: SemSet, q: Request, n: nat)
    requires QueuesSound(s) && Sound(s, q) && n < |s.vals| && n !in SopNums(q.sops)
    ensures Untouched(s, Applied(s, q), n)
  {
    if Try(s, q).Done? {
      UnnamedUnchanged(s, q, n);
      forall k | 0 <= k < |q.sops| ensures q.sops[k].num != n {
        assert SopNums(q.sops)[k] == q.sops[k].num;
      }
      DoneChangesOnlyNamed(VarsOf(s, q), q.sops, n);
    }
  }

  lemma {:induction false} ZeroScanUntouched(s: SemSet, nums: seq<nat>, i: nat, n: nat)
    requires Structure(s) && s.const_ == [] && i <= |nums| && Nums(s, nums) && n < |s.vals| && n !in nums[i..]
    ensures Untouched(s, ZeroScan(s, nums, i), n)
    decreases |nums| - i
  {
    if i < |nums| {
      assert nums[i..] == [nums[i]] + nums[i + 1..];
      if s.vals[nums[i]] == 0 {
        var k := nums[i];
        WakeConstStructure(s, Of(k));
        NoComplexIn(s.constOf[k]);
        StaySubset(s, s.constOf[k]);
        StayMembers(s, s.constOf[k]);
        NoComplexIn(Stay(s, s.constOf[k]));
        ZeroScanUntouched(WakeConst(s, Of(k)), nums, i + 1, n);
      } else {
        ZeroScanUntouched(s, nums, i + 1, n);
      }
    }
  }

  lemma WakeZeroUntouched(s: SemSet, nums: seq<nat>, n: nat)
    requires Structure(s) && s.const_ == [] && Nums(s, nums) && n < |s.vals| && n !in nums
    ensures Untouched(s, WakeZero(s, nums), n)
  {
    assert nums[0..] == nums;
    ZeroScanUntouched(s, nums, 0, n);
  }

  lemma FinishUntouched(s: SemSet, k: nat, i: nat, n: nat)
    requires Structure(s) && s.const_ == [] && k < |s.vals| && i < |s.alterOf[k]| && n < |s.vals| && n != k
    ensures Untouched(s, Finish(s, Of(k), i), n)
  {
    var q := s.alterOf[k][i];
    assert Sound(s, q) && Decrement(q, k);
    var u := Unlink(s, Of(k), i);
    UnlinkStructure(s, Of(k), i);
    assert Sound(u, q) && SopNums(q.sops) == [k];
    AppliedUntouched(u, q, n);
    AppliedStructure(u, q);
    if Try(u, q).Done? {
      WakeZeroUntouched(Applied(u, q), [k], n);
    }
  }

  lemma {:induction false} ServeUntouched(s: SemSet, k: nat, n: nat)
    requires Structure(s) && s.const_ == [] && k < |s.vals| && n < |s.vals| && n != k
    ensures Untouched(s, Serve(s, Of(k)), n)
    decreases |s.alterOf[k]|
  {
    hide Kinds, Ranges, Try, Sound, Finish;
    var i := FirstReady(s, s.alterOf[k], 0);
    if i < |s.alterOf[k]| {
      FinishStructure(s, Of(k), i);
      FinishUntouched(s, k, i, n);
      ServeUntouched(Finish(s, Of(k), i), k, n);
    }
  }

  lemma UpdateUntouched(s: SemSet, q: Request, n: nat)
    requires Structure(s) && s.alter == [] && s.const_ == []
    requires |q.sops| == 1 && q.sops[0].num < |s.vals| && n < |s.vals| && n != q.sops[0].num
    ensures SopsBelow(s, Some(q.sops)) && Untouched(s, SmartUpdate(s, Some(q.sops)), n)
  {
    var k := q.sops[0].num;
    RescannedInRange(s, Some(q.sops));
    assert SopNums(q.sops) == [k];
    WakeZeroUntouched(s, [k], n);
    WakeZeroStructure(s, [k]);
    ZeroKeepsAlter(s, [k]);
    var t := WakeZero(s, [k]);
    assert q.sops[1..] == [];
    if q.sops[0].op > 0 {
      assert Increased(q.sops) == [k];
      ServeUntouched(t, k, n);
      assert ServeEach(t, [k], 0) == Serve(t, Of(k));
    }
  }

  lemma UpdateAfterApplied(s: SemSet, q: Request, n: nat)
    requires Structure(s) && s.alter == [] && s.const_ == [] && Sound(s, q) && |q.sops| == 1
    requires q.sops[0].num < |s.vals| && n < |s.vals| && n != q.sops[0].num && Structure(Applied(s, q))
    ensures SopsBelow(Applied(s, q), Some(q.sops))
    ensures Untouched(Applied(s, q), SmartUpdate(Applied(s, q), Some(q.sops)), n)
  {
    AppliedKeepsSound(s, q);
    UpdateUntouched(Applied(s, q), q, n);
  }

  // With the counter at zero, a semop() on one semaphore leaves every other semaphore, their
  // queues, their adjustments, the queues of the set and both counters alone, even when it wakes
  // sleepers or goes to sleep itself.
  lemma SimpleOperationIsLocal(s: SemSet, q: Request, n: nat)
    requires Unlocked(s) && s.useGlobal == 0 && Sound(s, q) && |q.sops| == 1
    requires n < |s.vals| && n != q.sops[0].num
    ensures q.sops[0].num < |s.vals| && Untouched(s, Semop(s, q).0, n)
  {
    assert Fits(VarsOf(s, q), q.sops[0]);
    assert SopNums(q.sops) == [q.sops[0].num];
    assert Lock(s, 1) == (s, false);
    hide Kinds, Ranges, SmartUpdate, Applied;
    if Try(s, q).Done? {
      AppliedUntouched(s, q, n);
      AppliedStructure(s, q);
      UpdateAfterApplied(s, q, n);
    }
  }
}
