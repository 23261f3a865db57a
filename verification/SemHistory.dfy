// Whole runs of a semaphore set: the operations in any order, from the freshly created set on.
module SemHistory {
  import opened SemOps
  import opened SemSpec
  import opened SemRuns

  // ---- what do_smart_update() leaves alone --------------------------------------------------------

  lemma {:induction false} StayCountsLess(s: SemSet, l: seq<Request>)
    requires AllSound(s, l)
    ensures ComplexIn(Stay(s, l)) <= ComplexIn(l)
  {
    if l != [] {
      StayCountsLess(s, l[1..]);
      if Try(s, l[0]).Sleep? {
        assert Stay(s, l)[1..] == Stay(s, l[1..]);
      }
    }
  }

  lemma {:induction false} ZeroScanCount(s: SemSet, nums: seq<nat>, k: nat)
    requires k <= |nums| && Nums(s, nums) && QueuesSound(s)
    ensures ZeroScan(s, nums, k).complexCount <= s.complexCount
    decreases |nums| - k
  {
    if k < |nums| {
      if s.vals[nums[k]] == 0 {
        WakeConstKeepsSound(s, Of(nums[k]));
        StayCountsLess(s, s.constOf[nums[k]]);
        ZeroScanCount(WakeConst(s, Of(nums[k])), nums, k + 1);
      } else {
        ZeroScanCount(s, nums, k + 1);
      }
    }
  }

  lemma WakeZeroCount(s: SemSet, nums: seq<nat>)
    requires Nums(s, nums) && QueuesSound(s)
    ensures WakeZero(s, nums).complexCount <= s.complexCount
  {
    ZeroScanCount(s, nums, 0);
    StayCountsLess(ZeroScan(s, nums, 0), ZeroScan(s, nums, 0).const_);
  }

  lemma FinishCount(s: SemSet, p: Place, i: nat)
    requires QueuesSound(s) && HasPlace(s, p) && i < |AlterQ(s, p)|
    ensures Finish(s, p, i).complexCount <= s.complexCount && Finish(s, p, i).useGlobal == s.useGlobal
  {
    var q := AlterQ(s, p)[i];
    assert Sound(s, q);
    var u := Unlink(s, p, i);
    assert Sound(u, q);
    AppliedKeepsSound(u, q);
    ZeroKeepsAlter(Applied(u, q), SopNums(q.sops));
    WakeZeroCount(Applied(u, q), SopNums(q.sops));
  }

  lemma {:induction false} ServeCount(s: SemSet, p: Place)
    requires QueuesSound(s) && HasPlace(s, p)
    ensures Serve(s, p).complexCount <= s.complexCount && Serve(s, p).useGlobal == s.useGlobal
    decreases |AlterQ(s, p)|
  {
    var i := FirstReady(s, AlterQ(s, p), 0);
    if i < |AlterQ(s, p)| {
      FinishCount(s, p, i);
      ServeCount(Finish(s, p, i), p);
    }
  }

  lemma {:induction false} ServeEachCount(s: SemSet, nums: seq<nat>, k: nat)
    requires QueuesSound(s) && k <= |nums| && Nums(s, nums)
    ensures
      var t := ServeEach(s, nums, k);
      t.complexCount <= s.complexCount && t.useGlobal == s.useGlobal && t.alter == s.alter
    decreases |nums| - k
  {
    if k < |nums| {
      ServeCount(s, Of(nums[k]));
      ServeLocalAlter(s, nums[k]);
      ServeEachCount(Serve(s, Of(nums[k])), nums, k + 1);
    }
  }

  lemma SmartUpdateCount(s: SemSet, sops: Option<seq<Sembuf>>)
    requires QueuesSound(s) && SopsBelow(s, sops)
    ensures
      var t := SmartUpdate(s, sops);
      && t.complexCount <= s.complexCount && t.useGlobal == s.useGlobal
      && (s.alter == [] ==> t.alter == [])
  {
    RescannedInRange(s, sops);
    WakeZeroCount(s, Touched(s, sops));
    ZeroKeepsAlter(s, Touched(s, sops));
    var t := WakeZero(s, Touched(s, sops));
    ServeCount(t, Global);
    ServeEachCount(t, Rescanned(s, sops), 0);
  }

  // ---- merging and unmerging the alter queues --------------------------------------------------------

  lemma {:induction false} StackedSimple(ls: seq<seq<Request>>)
    requires forall n, i | 0 <= n < |ls| && 0 <= i < |ls[n]| :: !Complex(ls[n][i])
    ensures ComplexIn(Stacked(ls)) == 0
  {
    if ls != [] {
      StackedSimple(ls[1..]);
      NoComplexIn(ls[0]);
      ComplexInConcat(Stacked(ls[1..]), ls[0]);
    }
  }

  lemma {:induction false} AllComplexIn(l: seq<Request>)
    requires forall i | 0 <= i < |l| :: ConstKind(l[i])
    ensures ComplexIn(l) == |l|
  {
    if l != [] {
      AllComplexIn(l[1..]);
    }
  }

  lemma MergeStructure(s: SemSet)
    requires Structure(s)
    ensures Structure(Merge(s))
  {
    MergeKeepsSound(s);
    var t := Merge(s);
    StackedSimple(s.alterOf);
    ComplexInConcat(Stacked(s.alterOf), s.alter);
    forall i | 0 <= i < |t.alter| ensures AlterKind(t.alter[i]) {
      if i < |Stacked(s.alterOf)| {
        assert t.alter[i] in Stacked(s.alterOf);
        StackedMembers(s.alterOf, t.alter[i]);
      }
    }
  }

  lemma UnmergeStructure(s: SemSet)
    requires Structure(s)
    ensures Structure(Unmerge(s))
    ensures s.complexCount == 0 ==> Unmerge(s).alter == [] && Unmerge(s).const_ == []
  {
    UnmergeKeepsSound(s);
    var t := Unmerge(s);
    NoComplexIn(s.alter);
    AllComplexIn(s.const_);
    if s.complexCount == 0 {
      assert forall i | 0 <= i < |s.alter| :: Sound(s, s.alter[i]);
      forall n, i | 0 <= n < |t.vals| && 0 <= i < |t.alterOf[n]| ensures Decrement(t.alterOf[n][i], n) {
        if i >= |s.alterOf[n]| {
          assert t.alterOf[n][i] in OnSem(s.alter, n);
          OnSemMembers(s.alter, n, t.alterOf[n][i]);
        }
      }
    }
  }

  lemma {:induction false} OnSemConcat(a: seq<Request>, b: seq<Request>, n: nat)
    requires forall i | 0 <= i < |a| :: a[i].sops != []
    requires forall i | 0 <= i < |b| :: b[i].sops != []
    ensures OnSem(a + b, n) == OnSem(a, n) + OnSem(b, n)
  {
    if a == [] {
      assert a + b == b;
    } else {
      assert (a + b)[0] == a[0] && (a + b)[1..] == a[1..] + b;
      OnSemConcat(a[1..], b, n);
      var x := if a[0].sops[0].num == n then [a[0]] else [];
      assert OnSem(a + b, n) == x + (OnSem(a[1..], n) + OnSem(b, n));
      assert OnSem(a, n) == x + OnSem(a[1..], n);
    }
  }

  lemma {:induction false} OnSemUniform(l: seq<Request>, m: nat, n: nat)
    requires forall i | 0 <= i < |l| :: l[i].sops != [] && l[i].sops[0].num == m
    ensures OnSem(l, n) == if m == n then l else []
  {
    if l != [] {
      OnSemUniform(l[1..], m, n);
    }
  }

  lemma {:induction false} OnSemOfStacked(ls: seq<seq<Request>>, base: nat, n: nat)
    requires forall m, i | 0 <= m < |ls| && 0 <= i < |ls[m]| ::
               ls[m][i].sops != [] && ls[m][i].sops[0].num == base + m
    ensures forall i | 0 <= i < |Stacked(ls)| :: Stacked(ls)[i].sops != []
    ensures OnSem(Stacked(ls), n) == if base <= n < base + |ls| then ls[n - base] else []
  {
    if ls != [] {
      assert forall m | 0 <= m < |ls[1..]| :: ls[1..][m] == ls[m + 1];
      assert forall i | 0 <= i < |ls[0]| :: ls[0][i].sops[0].num == base + 0;
      OnSemOfStacked(ls[1..], base + 1, n);
      OnSemUniform(ls[0], base, n);
      OnSemConcat(Stacked(ls[1..]), ls[0], n);
    }
  }

  // Merging and, once no complex request is left, unmerging puts every request back behind the
  // requests on the same semaphore that were there before it.
  lemma MergeThenUnmerge(s: SemSet)
    requires Structure(s) && s.complexCount == 0 && s.alter == []
    ensures QueuesSound(Merge(s)) && Unmerge(Merge(s)) == s
  {
    MergeKeepsSound(s);
    var t := Merge(s);
    assert t.alter == Stacked(s.alterOf);
    assert forall i | 0 <= i < |t.alter| :: Sound(t, t.alter[i]);
    OwnNames(s);
    hide Kinds, Ranges, Stacked;
    forall n | 0 <= n < |s.alterOf| ensures t.alterOf[n] + OnSem(t.alter, n) == s.alterOf[n] {
      OnSemOfStacked(s.alterOf, 0, n);
    }
    assert Unmerge(t).alterOf == s.alterOf;
  }

  lemma OwnNames(s: SemSet)
    requires Kinds(s)
    ensures forall m, i | 0 <= m < |s.alterOf| && 0 <= i < |s.alterOf[m]| ::
              s.alterOf[m][i].sops != [] && s.alterOf[m][i].sops[0].num == 0 + m
  {
    assert forall m, i | 0 <= m < |s.vals| && 0 <= i < |s.alterOf[m]| :: Decrement(s.alterOf[m][i], m);
  }

  // ---- entering and leaving the critical section -------------------------------------------------------

  // What holds inside the section, depending on which lock was taken.
  ghost predicate Inside(s: SemSet, global: bool) {
    && Structure(s)
    && (if global then 1 <= s.useGlobal <= HYSTERESIS
        else s.useGlobal == 0 && s.complexCount == 0 && s.alter == [])
  }

  lemma EnterUnchanged(s: SemSet, nsops: int)
    requires Unlocked(s)
    ensures Inside(Lock(s, nsops).0, Lock(s, nsops).1)
    ensures Lock(s, nsops).0 == s.(useGlobal := Lock(s, nsops).0.useGlobal)
    ensures Quiet(s) ==> Quiet(Lock(s, nsops).0)
  {
    SoundIsStable(s, Lock(s, nsops).0);
    QuietTransfers(s, Lock(s, nsops).0);
    hide Sound, Kinds, Ranges, Quiet;
  }

  // Quiet only looks at values, adjustments and queues.
  lemma QuietTransfers(s: SemSet, t: SemSet)
    requires QueuesSound(s) && QueuesSound(t) && t.vals == s.vals && t.adj == s.adj
    requires t.alter == s.alter && t.alterOf == s.alterOf && t.const_ == s.const_ && t.constOf == s.constOf
    ensures Quiet(s) ==> Quiet(t)
  {
    if Quiet(s) {
      forall p | HasPlace(t, p) ensures AlterQuiet(t, p) {
        assert HasPlace(s, p) && AlterQuiet(s, p) && AlterQ(t, p) == AlterQ(s, p);
        forall i | 0 <= i < |AlterQ(t, p)| ensures Try(t, AlterQ(t, p)[i]).Sleep? {
          assert Try(s, AlterQ(s, p)[i]).Sleep?;
        }
      }
    }
  }

  lemma LeaveUnlocked(s: SemSet, global: bool)
    requires Inside(s, global)
    ensures Unlocked(Unlock(s, global))
  {
    UnmergeStructure(s);
    if global {
      SoundIsStable(Unmerge(s), Unlock(s, global));
    } else {
      AllComplexIn(s.const_);
    }
  }

  lemma LeaveQuiet(s: SemSet, global: bool)
    requires Inside(s, global) && Quiet(s)
    ensures Quiet(Unlock(s, global))
  {
    UnmergeKeepsSound(s);
    assert AlterQuiet(s, Global);
    var t := Unlock(s, global);
    forall p | HasPlace(t, p) ensures AlterQuiet(t, p) {
      assert HasPlace(s, p) && AlterQuiet(s, p);
      if p.Of? && global && s.complexCount == 0 {
        var n := p.n;
        assert p == Of(n) && AlterQuiet(s, Global);
        UnmergedQuiet(s, t, n);
      } else {
        forall i | 0 <= i < |AlterQ(t, p)| ensures Try(t, AlterQ(t, p)[i]).Sleep? {
          assert Try(s, AlterQ(s, p)[i]).Sleep?;
        }
      }
    }
  }

  lemma UnmergedQuiet(s: SemSet, t: SemSet, n: nat)
    requires QueuesSound(s) && QueuesSound(t) && t.vals == s.vals && t.adj == s.adj && n < |s.vals|
    requires s.complexCount == 0 && t.alterOf == Unmerge(s).alterOf
    requires AlterQuiet(s, Global) && AlterQuiet(s, Of(n))
    ensures AlterQuiet(t, Of(n))
  {
    assert forall i | 0 <= i < |s.alter| :: Sound(s, s.alter[i]);
    forall i | 0 <= i < |t.alterOf[n]| ensures Try(t, t.alterOf[n][i]).Sleep? {
      var q := t.alterOf[n][i];
      if i < |s.alterOf[n]| {
        assert Try(s, AlterQ(s, Of(n))[i]).Sleep?;
      } else {
        assert q in OnSem(s.alter, n);
        OnSemMembers(s.alter, n, q);
        var j :| 0 <= j < |s.alter| && s.alter[j] == q;
        assert Try(s, AlterQ(s, Global)[j]).Sleep?;
      }
    }
  }

  // ---- a request that has to sleep ------------------------------------------------------------------

  lemma SleeperKind(s: SemSet, q: Request)
    requires Structure(s) && Sound(s, q) && Try(s, q).Sleep?
    ensures Complex(q) ==> (if Alters(q.sops) then AlterKind(q) else ConstKind(q))
    ensures !Complex(q) ==>
              |q.sops| == 1 && q.sops[0].num < |s.vals| &&
              (if Alters(q.sops) then Decrement(q, q.sops[0].num) else WaitsZero(q, q.sops[0].num))
  {
    assert Fits(VarsOf(s, q), q.sops[0]);
    if !Complex(q) {
      SingleSleeper(VarsOf(s, q), q.sops);
    }
  }

  function Appended(m: SemSet, q: Request, p: Place): SemSet
    requires HasPlace(m, p)
  {
    (if Alters(q.sops) then WithAlterQ(m, p, AlterQ(m, p) + [q]) else WithConstQ(m, p, ConstQ(m, p) + [q])).(
      complexCount := if Complex(q) then m.complexCount + 1 else m.complexCount)
  }

  // The queue a sleeper joins, once complex requests have pulled the alter queues together.
  predicate BelongsTo(m: SemSet, q: Request, p: Place) {
    if Alters(q.sops) then
      if p.Global? then AlterKind(q) && SimpleQueuesEmpty(m)
      else Decrement(q, p.n) && m.complexCount == 0 && m.alter == []
    else
      if p.Global? then ConstKind(q) && SimpleQueuesEmpty(m) else WaitsZero(q, p.n)
  }

  lemma AppendSound(m: SemSet, q: Request, p: Place)
    requires QueuesSound(m) && Sound(m, q) && HasPlace(m, p)
    ensures QueuesSound(Appended(m, q, p))
  {
    SoundIsStable(m, Appended(m, q, p));
  }

  lemma AppendKinds(m: SemSet, q: Request, p: Place)
    requires Kinds(m) && HasPlace(m, p) && BelongsTo(m, q, p)
    ensures Kinds(Appended(m, q, p))
  {
    var t := Appended(m, q, p);
    if p.Of? {
      if Alters(q.sops) {
        assert forall n | 0 <= n < |t.alterOf| && n != p.n :: t.alterOf[n] == m.alterOf[n];
      } else {
        assert forall n | 0 <= n < |t.constOf| && n != p.n :: t.constOf[n] == m.constOf[n];
      }
    }
  }

  lemma AppendStructure(m: SemSet, q: Request, p: Place)
    requires Structure(m) && Sound(m, q) && HasPlace(m, p) && BelongsTo(m, q, p)
    ensures Structure(Appended(m, q, p))
  {
    AppendSound(m, q, p);
    AppendKinds(m, q, p);
    AppendCounts(m, q, p);
    hide QueuesSound, Kinds, Sound, Ranges;
  }

  lemma AppendCounts(m: SemSet, q: Request, p: Place)
    requires HasPlace(m, p) && (p.Of? ==> !Complex(q))
    ensures var t := Appended(m, q, p);
      t.complexCount - m.complexCount == ComplexIn(t.alter) + ComplexIn(t.const_) - ComplexIn(m.alter) - ComplexIn(m.const_)
  {
    assert ComplexIn([q]) == if Complex(q) then 1 else 0;
    ComplexInConcat(m.alter, [q]);
    ComplexInConcat(m.const_, [q]);
  }

  lemma EnqueueStructure(s: SemSet, q: Request, global: bool)
    requires Inside(s, global) && Sound(s, q) && Try(s, q).Sleep?
    requires s.complexCount == 0 ==> s.alter == []
    requires Complex(q) ==> global
    ensures Inside(Enqueue(s, q), global)
  {
    SleeperKind(s, q);
    MergeStructure(s);
    var m := if Complex(q) && s.complexCount == 0 then Merge(s) else s;
    var p := if Complex(q) || (Alters(q.sops) && s.complexCount != 0) then Global else Of(q.sops[0].num);
    SoundIsStable(s, m);
    hide Sound, Try, QueuesSound, Kinds, Ranges;
    EnqueueIsAppend(s, q);
    AppendStructure(m, q, p);
  }

  lemma EnqueueIsAppend(s: SemSet, q: Request)
    requires QueuesSound(s) && Sound(s, q) && q.sops != []
    ensures
      var m := if Complex(q) && s.complexCount == 0 then Merge(s) else s;
      var p := if Complex(q) || (Alters(q.sops) && s.complexCount != 0) then Global else Of(q.sops[0].num);
      HasPlace(m, p) && Enqueue(s, q) == Appended(m, q, p)
  {
    assert Fits(VarsOf(s, q), q.sops[0]);
  }

  lemma MergeQuiet(s: SemSet)
    requires Structure(s) && Quiet(s)
    ensures QueuesSound(Merge(s)) && Quiet(Merge(s))
  {
    MergeKeepsSound(s);
    var t := Merge(s);
    forall i | 0 <= i < |t.alter| ensures Try(t, t.alter[i]).Sleep? {
      var q, k := t.alter[i], |Stacked(s.alterOf)|;
      if i >= k {
        assert AlterQuiet(s, Global) && Try(s, AlterQ(s, Global)[i - k]).Sleep?;
      } else {
        assert q in Stacked(s.alterOf);
        StackedMembers(s.alterOf, q);
        var n :| 0 <= n < |s.alterOf| && q in s.alterOf[n];
        var j :| 0 <= j < |s.alterOf[n]| && s.alterOf[n][j] == q;
        assert HasPlace(s, Of(n)) && AlterQuiet(s, Of(n)) && Try(s, AlterQ(s, Of(n))[j]).Sleep?;
      }
    }
    forall p | HasPlace(t, p) ensures AlterQuiet(t, p) {
      if p.Of? { assert AlterQ(t, p) == []; }
    }
  }

  lemma AppendQuiet(m: SemSet, t: SemSet, q: Request, p: Place)
    requires QueuesSound(m) && Quiet(m) && Sound(m, q) && Try(m, q).Sleep? && HasPlace(m, p)
    requires QueuesSound(t)
    requires t == (if Alters(q.sops) then WithAlterQ(m, p, AlterQ(m, p) + [q])
                   else WithConstQ(m, p, ConstQ(m, p) + [q])).(complexCount := t.complexCount)
    ensures Quiet(t)
  {
    hide Sound, Try;
    TrySame(m, t, q);
    forall r | HasPlace(t, r) ensures AlterQuiet(t, r) {
      assert HasPlace(m, r) && AlterQuiet(m, r);
      forall i | 0 <= i < |AlterQ(t, r)| ensures Try(t, AlterQ(t, r)[i]).Sleep? {
        if i < |AlterQ(m, r)| {
          assert Try(m, AlterQ(m, r)[i]).Sleep? && AlterQ(t, r)[i] == AlterQ(m, r)[i];
          TrySame(m, t, AlterQ(m, r)[i]);
        }
      }
    }
    AppendConstQuiet(m, t, q, p);
  }

  lemma AppendConstQuiet(m: SemSet, t: SemSet, q: Request, p: Place)
    requires QueuesSound(m) && ConstQuiet(m) && Sound(m, q) && Try(m, q).Sleep? && HasPlace(m, p)
    requires QueuesSound(t)
    requires t == (if Alters(q.sops) then WithAlterQ(m, p, AlterQ(m, p) + [q])
                   else WithConstQ(m, p, ConstQ(m, p) + [q])).(complexCount := t.complexCount)
    ensures ConstQuiet(t)
  {
    hide Sound, Try;
    TrySame(m, t, q);
    forall i | 0 <= i < |t.const_| ensures !Try(t, t.const_[i]).Done? {
      if i < |m.const_| {
        assert t.const_[i] == m.const_[i];
        TrySame(m, t, m.const_[i]);
      }
    }
    forall n, i | 0 <= n < |t.vals| && 0 <= i < |t.constOf[n]| ensures Try(t, t.constOf[n][i]).Sleep? {
      if i < |m.constOf[n]| {
        assert t.constOf[n][i] == m.constOf[n][i];
        TrySame(m, t, m.constOf[n][i]);
      }
    }
  }

  lemma EnqueueQuiet(s: SemSet, q: Request)
    requires Structure(s) && Quiet(s) && Sound(s, q) && Try(s, q).Sleep?
    ensures Quiet(Enqueue(s, q))
  {
    MergeQuiet(s);
    assert Fits(VarsOf(s, q), q.sops[0]);
    var m := if Complex(q) && s.complexCount == 0 then Merge(s) else s;
    var p := if Complex(q) || (Alters(q.sops) && s.complexCount != 0) then Global else Of(q.sops[0].num);
    assert Sound(m, q) && Try(m, q) == Try(s, q);
    AppendQuiet(m, Enqueue(s, q), q, p);
  }

  // ---- every operation keeps the invariant ------------------------------------------------------------

  // What holds whenever nobody is inside the critical section.
  ghost predicate Inv(s: SemSet) {
    Unlocked(s) && Quiet(s)
  }

  lemma LeaveKeepsInv(s: SemSet, global: bool)
    requires Inside(s, global) && Quiet(s)
    ensures Inv(Unlock(s, global))
  {
    LeaveUnlocked(s, global);
    LeaveQuiet(s, global);
  }

  lemma UpdateInside(s: SemSet, global: bool, sops: Option<seq<Sembuf>>)
    requires Inside(s, global) && SopsBelow(s, sops)
    ensures Inside(SmartUpdate(s, sops), global)
  {
    SmartUpdateStructure(s, sops);
    SmartUpdateCount(s, sops);
  }

  lemma SemopDone(s: SemSet, q: Request, global: bool)
    requires Inside(s, global) && Quiet(s) && Sound(s, q) && Try(s, q).Done?
    ensures SopsBelow(Applied(s, q), Some(q.sops)) && QueuesSound(Applied(s, q))
    ensures
      var b := if Alters(q.sops) then SmartUpdate(Applied(s, q), Some(q.sops)) else Applied(s, q);
      Inside(b, global) && Quiet(b)
  {
    UpdateAfterRequest(s, q);
    AppliedStructure(s, q);
    if Alters(q.sops) {
      UpdateInside(Applied(s, q), global, Some(q.sops));
    } else {
      ConstSucceeds(s, q);
    }
  }

  lemma SemopKeepsInv(s: SemSet, q: Request)
    requires Inv(s) && Sound(s, q)
    ensures Inv(Semop(s, q).0)
  {
    EnterUnchanged(s, |q.sops|);
    var (l, g) := Lock(s, |q.sops|);
    assert Sound(l, q);
    match Try(l, q)
    case Done(_) =>
      SemopDone(l, q, g);
      LeaveKeepsInv(if Alters(q.sops) then SmartUpdate(Applied(l, q), Some(q.sops)) else Applied(l, q), g);
    case Error(_) =>
      LeaveKeepsInv(l, g);
    case Sleep(_) =>
      EnqueueStructure(l, q, g);
      EnqueueQuiet(l, q);
      LeaveKeepsInv(Enqueue(l, q), g);
  }

  // SETVAL, SETALL and the exit of an undo owner: everything may have changed, so every queue is
  // looked at.
  lemma UpdateAllKeepsInv(a: SemSet)
    requires Structure(a) && a.useGlobal == HYSTERESIS
    ensures Inv(Unlock(SmartUpdate(a, None), true))
  {
    UpdateInside(a, true, None);
    UpdateAfterAnything(a);
    LeaveKeepsInv(SmartUpdate(a, None), true);
  }

  lemma ValueSet(s: SemSet, n: nat, val: int)
    requires Unlocked(s) && n < |s.vals| && 0 <= val <= SEMVMX
    ensures
      var a := Enter(s).(vals := s.vals[n := val], adj := ZeroAdj(s.adj, n));
      Structure(a) && QueuesSound(SmartUpdate(a, None))
  {
    SoundIsStable(s, Enter(s).(vals := s.vals[n := val], adj := ZeroAdj(s.adj, n)));
  }

  lemma SetValKeepsInv(s: SemSet, n: nat, val: int)
    requires Inv(s) && n < |s.vals| && 0 <= val <= SEMVMX
    ensures Inv(SetVal(s, n, val))
  {
    ValueSet(s, n, val);
    hide Inv, Structure, Quiet, QueuesSound, ZeroAdj;
    UpdateAllKeepsInv(Enter(s).(vals := s.vals[n := val], adj := ZeroAdj(s.adj, n)));
  }

  lemma ValuesSet(s: SemSet, vals: seq<int>)
    requires Unlocked(s) && |vals| == |s.vals| && InRange(vals)
    ensures
      var a := Enter(s).(vals := vals, adj := map u | u in s.adj :: Zeros(|s.adj[u]|));
      Structure(a) && QueuesSound(SmartUpdate(a, None))
  {
    SoundIsStable(s, Enter(s).(vals := vals, adj := map u | u in s.adj :: Zeros(|s.adj[u]|)));
  }

  lemma SetAllKeepsInv(s: SemSet, vals: seq<int>)
    requires Inv(s) && |vals| == |s.vals| && InRange(vals)
    ensures Inv(SetAll(s, vals))
  {
    ValuesSet(s, vals);
    hide Inv, Structure, Quiet, QueuesSound, Zeros;
    UpdateAllKeepsInv(Enter(s).(vals := vals, adj := map u | u in s.adj :: Zeros(|s.adj[u]|)));
  }

  lemma UndoDropped(s: SemSet, u: nat)
    requires Unlocked(s) && u in s.adj && UndoIdle(s, u)
    ensures |s.adj[u]| == |s.vals| && Structure(DropUndo(s, u))
  {
  }

  lemma ExitUndoKeepsInv(s: SemSet, u: nat)
    requires Inv(s) && u in s.adj && UndoIdle(s, u)
    ensures Inv(ExitUndo(s, u))
  {
    UndoDropped(s, u);
    hide Inv, Structure, Quiet, QueuesSound, UndoIdle, Adjusted;
    UpdateAllKeepsInv(DropUndo(s, u));
  }

  lemma AddUndoUnlocked(s: SemSet, u: nat)
    requires Unlocked(s) && u !in s.adj
    ensures
      var a := Enter(s).(adj := s.adj[u := Zeros(|s.vals|)]);
      QueuesSound(a) && AddUndo(s, u) == Unlock(a, true) && Unlocked(Unlock(a, true))
  {
    var a := Enter(s).(adj := s.adj[u := Zeros(|s.vals|)]);
    forall q | Sound(s, q) ensures Sound(a, q) {
      AddUndoRow(s, a, u, q);
    }
    LeaveUnlocked(a, true);
  }

  function WithUndo(s: SemSet, u: nat): SemSet {
    if u in s.adj then Enter(s) else Enter(s).(adj := s.adj[u := Zeros(|s.vals|)])
  }

  lemma WithUndoSound(s: SemSet, u: nat)
    requires QueuesSound(s)
    ensures forall q | Sound(s, q) :: Sound(WithUndo(s, u), q) && Row(WithUndo(s, u).adj, q.un) == Row(s.adj, q.un)
    ensures QueuesSound(WithUndo(s, u)) && AddUndo(s, u) == Unlock(WithUndo(s, u), true)
  {
    forall q | Sound(s, q) ensures Sound(WithUndo(s, u), q) && Row(WithUndo(s, u).adj, q.un) == Row(s.adj, q.un) {
      AddUndoRow(s, WithUndo(s, u), u, q);
    }
  }

  lemma WithUndoInside(s: SemSet, u: nat)
    requires Unlocked(s) && QueuesSound(WithUndo(s, u))
    ensures Inside(WithUndo(s, u), true)
  {
    hide QueuesSound;
  }

  lemma AddUndoKeepsInv(s: SemSet, u: nat)
    requires Inv(s)
    ensures Inv(AddUndo(s, u))
  {
    WithUndoSound(s, u);
    WithUndoInside(s, u);
    QuietUnderRows(s, WithUndo(s, u));
    hide QueuesSound, Structure, Quiet, Sound, Row;
    LeaveKeepsInv(WithUndo(s, u), true);
  }

  lemma QuietUnderRows(s: SemSet, t: SemSet)
    requires QueuesSound(s) && QueuesSound(t) && t.vals == s.vals
    requires t.alter == s.alter && t.alterOf == s.alterOf && t.const_ == s.const_ && t.constOf == s.constOf
    requires forall q | Sound(s, q) :: Row(t.adj, q.un) == Row(s.adj, q.un)
    ensures Quiet(s) ==> Quiet(t)
  {
    if Quiet(s) {
      forall p | HasPlace(t, p) ensures AlterQuiet(t, p) {
        assert HasPlace(s, p) && AlterQuiet(s, p) && AlterQ(t, p) == AlterQ(s, p);
        forall i | 0 <= i < |AlterQ(t, p)| ensures Try(t, AlterQ(t, p)[i]).Sleep? {
          assert Try(s, AlterQ(s, p)[i]).Sleep?;
        }
      }
    }
  }

  lemma VisitKeepsInv(s: SemSet)
    requires Inv(s)
    ensures Inv(Visit(s))
  {
    SoundIsStable(s, Enter(s));
    QuietTransfers(s, Enter(s));
    LeaveKeepsInv(Enter(s), true);
  }

  // A global section that does not unmerge, as in the /proc listing.
  function Peek(s: SemSet): SemSet {
    TryLeave(Enter(s))
  }

  lemma PeekKeepsInv(s: SemSet)
    requires Inv(s)
    ensures Inv(Peek(s))
  {
    SoundIsStable(s, Peek(s));
    QuietTransfers(s, Peek(s));
  }

  // What is left of each queue.
  lemma UnlinkAtQueues(s: SemSet, x: Slot, p: Place)
    requires QueuesSound(s) && HasSlot(s, x) && HasPlace(s, p)
    ensures HasPlace(UnlinkAt(s, x), p)
    ensures AlterQ(UnlinkAt(s, x), p) ==
      if x.altering && x.place == p then Without(AlterQ(s, p), x.index) else AlterQ(s, p)
    ensures ConstQ(UnlinkAt(s, x), p) ==
      if !x.altering && x.place == p then Without(ConstQ(s, p), x.index) else ConstQ(s, p)
  {
    hide Sound;
  }

  lemma WithoutMembers(l: seq<Request>, i: nat)
    requires i < |l|
    ensures forall k | 0 <= k < |Without(l, i)| :: Without(l, i)[k] in l
  {
    forall k | 0 <= k < |Without(l, i)| ensures Without(l, i)[k] in l {
      assert Without(l, i)[k] == l[if k < i then k else k + 1];
    }
  }

  lemma UnlinkConstKinds(s: SemSet, x: Slot)
    requires Structure(s) && HasSlot(s, x) && !x.altering
    ensures Kinds(UnlinkAt(s, x))
  {
    var t := UnlinkAt(s, x);
    UnlinkAtQueues(s, x, Global);
    WithoutMembers(ConstQ(s, x.place), x.index);
    hide QueuesSound, UnlinkAt, Ranges, Without;
    forall n, i | 0 <= n < |t.vals| && 0 <= i < |t.constOf[n]| ensures WaitsZero(t.constOf[n][i], n) {
      UnlinkAtQueues(s, x, Of(n));
      assert t.constOf[n][i] in s.constOf[n];
    }
    forall i | 0 <= i < |t.const_| ensures ConstKind(t.const_[i]) {
      assert t.const_[i] in s.const_;
    }
    UnlinkAtSizes(s, x);
  }

  lemma UnlinkAtSizes(s: SemSet, x: Slot)
    requires QueuesSound(s) && HasSlot(s, x) && !x.altering
    ensures var t := UnlinkAt(s, x);
      |t.vals| == |t.alterOf| == |t.constOf| == |s.vals| && t.alter == s.alter && t.alterOf == s.alterOf
  {
  }

  lemma UnlinkAtStructure(s: SemSet, x: Slot)
    requires Structure(s) && HasSlot(s, x)
    ensures Structure(UnlinkAt(s, x))
  {
    if x.altering {
      UnlinkStructure(s, x.place, x.index);
    } else {
      UnlinkConstKinds(s, x);
      ComplexInWithout(ConstQ(s, x.place), x.index);
      if x.place.Of? {
        assert WaitsZero(s.constOf[x.place.n][x.index], x.place.n);
      }
    }
  }

  lemma TrySame(s: SemSet, t: SemSet, q: Request)
    requires t.vals == s.vals && t.adj == s.adj && Sound(s, q)
    ensures Sound(t, q) && Try(t, q) == Try(s, q)
  {
  }

  lemma UnlinkAtAlterQuiet(s: SemSet, x: Slot, p: Place)
    requires Structure(s) && HasSlot(s, x) && HasPlace(s, p) && AlterQuiet(s, p)
    ensures HasPlace(UnlinkAt(s, x), p) && AlterQuiet(UnlinkAt(s, x), p)
  {
    var t := UnlinkAt(s, x);
    UnlinkAtQueues(s, x, p);
    if x.altering && x.place == p {
      WithoutMembers(AlterQ(s, p), x.index);
    }
    hide Try, Sound, UnlinkAt, Without, Kinds, Ranges, HasSlot;
    forall i | 0 <= i < |AlterQ(t, p)| ensures Try(t, AlterQ(t, p)[i]).Sleep? {
      assert AlterQ(t, p)[i] in AlterQ(s, p);
      TrySame(s, t, AlterQ(t, p)[i]);
    }
  }

  // Entry i of a queue of those that wait for zero was entry j before.
  lemma StayingWaiter(s: SemSet, x: Slot, p: Place, i: nat) returns (j: nat)
    requires QueuesSound(s) && HasSlot(s, x) && HasPlace(s, p)
    requires HasPlace(UnlinkAt(s, x), p) && i < |ConstQ(UnlinkAt(s, x), p)|
    ensures j < |ConstQ(s, p)| && ConstQ(UnlinkAt(s, x), p)[i] == ConstQ(s, p)[j]
    ensures Sound(s, ConstQ(s, p)[j]) && Sound(UnlinkAt(s, x), ConstQ(s, p)[j])
    ensures Try(UnlinkAt(s, x), ConstQ(s, p)[j]) == Try(s, ConstQ(s, p)[j])
  {
    UnlinkAtQueues(s, x, p);
    j := if !x.altering && x.place == p && i >= x.index then i + 1 else i;
    hide Sound, Try, UnlinkAt;
    TrySame(s, UnlinkAt(s, x), ConstQ(s, p)[j]);
  }

  lemma UnlinkAtConstQuiet(s: SemSet, x: Slot)
    requires Structure(s) && HasSlot(s, x) && ConstQuiet(s)
    ensures ConstQuiet(UnlinkAt(s, x))
  {
    var t := UnlinkAt(s, x);
    hide Try, Sound, UnlinkAt, Kinds, Ranges, HasSlot, AllSound;
    forall i | 0 <= i < |t.const_| ensures !Try(t, t.const_[i]).Done? {
      var j := StayingWaiter(s, x, Global, i);
    }
    forall n, i | 0 <= n < |t.vals| && 0 <= i < |t.constOf[n]| ensures Try(t, t.constOf[n][i]).Sleep? {
      var j := StayingWaiter(s, x, Of(n), i);
    }
  }

  lemma UnlinkAtKeeps(s: SemSet, x: Slot)
    requires Structure(s) && Quiet(s) && HasSlot(s, x)
    ensures Structure(UnlinkAt(s, x)) && Quiet(UnlinkAt(s, x))
  {
    UnlinkAtStructure(s, x);
    UnlinkAtConstQuiet(s, x);
    forall p | HasPlace(UnlinkAt(s, x), p) ensures AlterQuiet(UnlinkAt(s, x), p) {
      assert HasPlace(s, p) && AlterQuiet(s, p);
      UnlinkAtAlterQuiet(s, x, p);
    }
  }

  lemma CancelKeepsInv(s: SemSet, x: Slot)
    requires Inv(s) && HasSlot(s, x)
    ensures Inv(Cancel(s, x))
  {
    var k := |At(s, x).sops|;
    EnterUnchanged(s, k);
    var (l, g) := Lock(s, k);
    UnlinkAtKeeps(l, x);
    LeaveKeepsInv(UnlinkAt(l, x), g);
  }

  // ---- runs -----------------------------------------------------------------------------------------

  datatype Action =
    | DoSemop(q: Request)
    | DoSetVal(n: nat, val: int)
    | DoSetAll(vals: seq<int>)
    | DoExitUndo(u: nat)
    | DoAddUndo(u: nat)
    | DoCancel(x: Slot)
    | DoVisit
    | DoPeek

  ghost predicate Allowed(s: SemSet, a: Action)
    requires QueuesSound(s)
  {
    match a
    case DoSemop(q) => Sound(s, q)
    case DoSetVal(n, val) => n < |s.vals| && 0 <= val <= SEMVMX
    case DoSetAll(vals) => |vals| == |s.vals| && InRange(vals)
    case DoExitUndo(u) => u in s.adj && |s.adj[u]| == |s.vals| && UndoIdle(s, u)
    case DoCancel(x) => HasSlot(s, x)
    case _ => true
  }

  ghost function Step(s: SemSet, a: Action): SemSet
    requires QueuesSound(s) && Allowed(s, a)
  {
    match a
    case DoSemop(q) => Semop(s, q).0
    case DoSetVal(n, val) => SetVal(s, n, val)
    case DoSetAll(vals) => SetAll(s, vals)
    case DoExitUndo(u) => ExitUndo(s, u)
    case DoAddUndo(u) => AddUndo(s, u)
    case DoCancel(x) => Cancel(s, x)
    case DoVisit => Visit(s)
    case DoPeek => Peek(s)
  }

  // newary(): the new set is unlocked once.
  function Created(nsems: nat): SemSet {
    var s := SemSet(Zeros(nsems), seq(nsems, _ => []), seq(nsems, _ => []), [], [], map[], 0, HYSTERESIS, []);
    TryLeave(Unmerge(s))
  }

  ghost predicate Leads(s: SemSet, run: seq<Action>, t: SemSet)
    decreases |run|
  {
    if run == [] then s == t
    else QueuesSound(s) && Allowed(s, run[0]) && Leads(Step(s, run[0]), run[1..], t)
  }

  lemma LeadsStep(s: SemSet, run: seq<Action>, t: SemSet)
    requires Leads(s, run, t)
    ensures run == [] ==> s == t
    ensures run != [] ==> QueuesSound(s) && Allowed(s, run[0]) && Leads(Step(s, run[0]), run[1..], t)
  {
  }

  lemma LeadsFrom(s: SemSet, a: Action, rest: seq<Action>, t: SemSet)
    requires QueuesSound(s) && Allowed(s, a) && Leads(Step(s, a), rest, t)
    ensures Leads(s, [a] + rest, t)
  {
    assert ([a] + rest)[0] == a && ([a] + rest)[1..] == rest;
  }

  ghost predicate Reachable(s: SemSet) {
    exists nsems, run :: Leads(Created(nsems), run, s)
  }

  lemma StepKeepsInv(s: SemSet, a: Action)
    requires Inv(s) && Allowed(s, a)
    ensures Inv(Step(s, a))
  {
    match a
    case DoSemop(q) => SemopKeepsInv(s, q);
    case DoSetVal(n, val) => SetValKeepsInv(s, n, val);
    case DoSetAll(vals) => SetAllKeepsInv(s, vals);
    case DoExitUndo(u) => ExitUndoKeepsInv(s, u);
    case DoAddUndo(u) => AddUndoKeepsInv(s, u);
    case DoCancel(x) => CancelKeepsInv(s, x);
    case DoVisit => VisitKeepsInv(s);
    case DoPeek => PeekKeepsInv(s);
  }

  lemma CreatedInv(nsems: nat)
    ensures Inv(Created(nsems))
  {
  }

  lemma {:induction false} RunKeepsInv(s: SemSet, run: seq<Action>, t: SemSet)
    requires Inv(s) && Leads(s, run, t)
    ensures Inv(t)
    decreases |run|
  {
    if run != [] {
      StepKeepsInv(s, run[0]);
      RunKeepsInv(Step(s, run[0]), run[1..], t);
    }
  }

  lemma ReachableInv(s: SemSet)
    requires Reachable(s)
    ensures Inv(s)
  {
    var nsems, run :| Leads(Created(nsems), run, s);
    CreatedInv(nsems);
    RunKeepsInv(Created(nsems), run, s);
  }

  // No lost wake-up: whatever was done to the set since it was created, while it is unlocked no
  // request sleeps that could succeed; single requests and requests that alter the set would not
  // even get an error.
  lemma NoLostWakeUp(s: SemSet)
    requires Reachable(s)
    ensures QueuesSound(s) && Quiet(s)
  {
    ReachableInv(s);
  }

  // The two modes of the queues, and the ranges, at every unlocked point of every run.
  lemma QueueModes(s: SemSet)
    requires Reachable(s)
    ensures s.complexCount == ComplexIn(s.alter) + ComplexIn(s.const_)
    ensures 0 <= s.useGlobal <= HYSTERESIS
    ensures |s.vals| == |s.alterOf|
    ensures s.complexCount > 0 ==> s.useGlobal > 0 && SimpleQueuesEmpty(s)
    ensures s.complexCount == 0 ==> s.alter == [] && s.const_ == []
    ensures forall n, i | 0 <= n < |s.vals| && 0 <= i < |s.alterOf[n]| :: Decrement(s.alterOf[n][i], n)
    ensures InRange(s.vals)
    ensures forall u | u in s.adj :: RowInRange(s.adj[u])
  {
    ReachableInv(s);
  }
}
