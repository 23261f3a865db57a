// Nobody is lost: whoever goes to sleep is in a queue until it is woken once or gives up.
module SemSleepers {
  import opened SemOps
  import opened SemSpec
  import opened SemRuns
  import opened SemHistory

  // How often x is in a list, in several lists, and among those woken.
  function One(q: Request, x: Request): nat {
    if q == x then 1 else 0
  }

  function AllOf(ls: seq<seq<Request>>, x: Request): nat {
    if ls == [] then 0 else multiset(ls[0])[x] + AllOf(ls[1..], x)
  }

  function Reqs(w: seq<Wake>, x: Request): nat {
    if w == [] then 0 else One(w[0].req, x) + Reqs(w[1..], x)
  }

  // Everybody in a queue, and everybody who has been woken.
  function Everybody(s: SemSet, x: Request): nat {
    multiset(s.alter)[x] + multiset(s.const_)[x] + AllOf(s.alterOf, x) + AllOf(s.constOf, x) + Reqs(s.woken, x)
  }

  // ---- sums ------------------------------------------------------------------------------------------

  lemma {:induction false} ReqsJoin(a: seq<Wake>, b: seq<Wake>, x: Request)
    ensures Reqs(a + b, x) == Reqs(a, x) + Reqs(b, x)
    decreases |a|
  {
    if a == [] {
      assert a + b == b;
    } else {
      assert (a + b)[0] == a[0] && (a + b)[1..] == a[1..] + b;
      ReqsJoin(a[1..], b, x);
    }
  }

  lemma ReqsOne(q: Request, code: int, x: Request)
    ensures Reqs([Wake(q, code)], x) == One(q, x)
  {
    assert [Wake(q, code)][1..] == [];
  }

  lemma {:induction false} AllOfUpdate(ls: seq<seq<Request>>, n: nat, l: seq<Request>, x: Request)
    requires n < |ls|
    ensures AllOf(ls[n := l], x) + multiset(ls[n])[x] == AllOf(ls, x) + multiset(l)[x]
    decreases n
  {
    if n == 0 {
      assert ls[n := l][1..] == ls[1..];
    } else {
      assert ls[n := l][1..] == ls[1..][n - 1 := l] && ls[1..][n - 1] == ls[n];
      AllOfUpdate(ls[1..], n - 1, l, x);
    }
  }

  lemma Apart(l: seq<Request>, i: nat, x: Request)
    requires i < |l|
    ensures multiset(l)[x] == multiset(Without(l, i))[x] + One(l[i], x)
  {
    assert l == l[..i] + [l[i]] + l[i + 1..];
  }

  lemma HeadAndRest(l: seq<Request>, x: Request)
    requires l != []
    ensures multiset(l)[x] == One(l[0], x) + multiset(l[1..])[x]
  {
    assert l == [l[0]] + l[1..];
  }

  lemma Prepended(q: Request, l: seq<Request>, x: Request)
    ensures multiset([q] + l)[x] == One(q, x) + multiset(l)[x]
  {
  }

  lemma {:induction false} StackedIsAll(ls: seq<seq<Request>>, x: Request)
    ensures multiset(Stacked(ls))[x] == AllOf(ls, x)
    decreases |ls|
  {
    if ls != [] {
      StackedIsAll(ls[1..], x);
    }
  }

  lemma {:induction false} NobodyIn(ls: seq<seq<Request>>, x: Request)
    requires forall n | 0 <= n < |ls| :: ls[n] == []
    ensures AllOf(ls, x) == 0
    decreases |ls|
  {
    if ls != [] {
      assert ls[0] == [] && forall n | 0 <= n < |ls[1..]| :: ls[1..][n] == ls[n + 1];
      NobodyIn(ls[1..], x);
    }
  }

  // ---- the waiters for zero ----------------------------------------------------------------------------

  lemma {:induction false} StayOrLeave(s: SemSet, l: seq<Request>, x: Request)
    requires AllSound(s, l)
    ensures multiset(l)[x] == multiset(Stay(s, l))[x] + Reqs(Leave(s, l), x)
    decreases |l|
  {
    hide Sound, Try, Code, One;
    if l != [] {
      assert Sound(s, l[0]) && forall i | 0 <= i < |l[1..]| :: l[1..][i] == l[i + 1];
      StayOrLeave(s, l[1..], x);
      HeadAndRest(l, x);
      if Try(s, l[0]).Sleep? {
        Prepended(l[0], Stay(s, l[1..]), x);
      } else {
        ReqsJoin([Wake(l[0], Code(Try(s, l[0])))], Leave(s, l[1..]), x);
        ReqsOne(l[0], Code(Try(s, l[0])), x);
      }
    }
  }

  lemma WakeConstAll(s: SemSet, p: Place, x: Request)
    requires HasPlace(s, p) && AllSound(s, ConstQ(s, p))
    ensures Everybody(WakeConst(s, p), x) == Everybody(s, x)
  {
    hide Sound;
    var l := ConstQ(s, p);
    StayOrLeave(s, l, x);
    ReqsJoin(s.woken, Leave(s, l), x);
    if p.Of? {
      AllOfUpdate(s.constOf, p.n, Stay(s, l), x);
    }
  }

  lemma {:induction false} ZeroScanAll(s: SemSet, nums: seq<nat>, k: nat, x: Request)
    requires k <= |nums| && Nums(s, nums) && QueuesSound(s)
    ensures Everybody(ZeroScan(s, nums, k), x) == Everybody(s, x)
    decreases |nums| - k
  {
    hide Everybody, WakeConst;
    if k < |nums| {
      if s.vals[nums[k]] == 0 {
        WakeConstKeepsSound(s, Of(nums[k]));
        WakeConstAll(s, Of(nums[k]), x);
        ZeroScanAll(WakeConst(s, Of(nums[k])), nums, k + 1, x);
      } else {
        ZeroScanAll(s, nums, k + 1, x);
      }
    }
  }

  lemma WakeZeroAll(s: SemSet, nums: seq<nat>, x: Request)
    requires Nums(s, nums) && QueuesSound(s)
    ensures Everybody(WakeZero(s, nums), x) == Everybody(s, x)
  {
    hide Everybody, WakeConst, ZeroScan;
    ZeroScanAll(s, nums, 0, x);
    if GotZero(s, nums) {
      WakeConstAll(ZeroScan(s, nums, 0), Global, x);
    }
  }

  // ---- the others ------------------------------------------------------------------------------------------

  lemma UnlinkAll(s: SemSet, p: Place, i: nat, x: Request)
    requires QueuesSound(s) && HasPlace(s, p) && i < |AlterQ(s, p)|
    ensures Everybody(s, x) == Everybody(Unlink(s, p, i), x) + One(AlterQ(s, p)[i], x)
  {
    hide QueuesSound;
    var l := AlterQ(s, p);
    Apart(l, i, x);
    if p.Of? {
      AllOfUpdate(s.alterOf, p.n, Without(l, i), x);
    }
  }

  lemma WokenAll(s: SemSet, q: Request, code: int, x: Request)
    ensures Everybody(s.(woken := s.woken + [Wake(q, code)]), x) == Everybody(s, x) + One(q, x)
  {
    ReqsJoin(s.woken, [Wake(q, code)], x);
    ReqsOne(q, code, x);
  }

  // Values, adjustments and counters are not anybody.
  lemma SameAll(s: SemSet, t: SemSet, x: Request)
    requires t.alter == s.alter && t.const_ == s.const_ && t.alterOf == s.alterOf
    requires t.constOf == s.constOf && t.woken == s.woken
    ensures Everybody(t, x) == Everybody(s, x)
  {
  }

  lemma AppliedAll(u: SemSet, q: Request, x: Request)
    requires Sound(u, q)
    ensures Everybody(Applied(u, q), x) == Everybody(u, x)
  {
    SameAll(u, Applied(u, q), x);
  }

  lemma FinishAll(s: SemSet, p: Place, i: nat, x: Request)
    requires QueuesSound(s) && HasPlace(s, p) && i < |AlterQ(s, p)|
    ensures Everybody(Finish(s, p, i), x) == Everybody(s, x)
  {
    var q, u := AlterQ(s, p)[i], Unlink(s, p, i);
    UnlinkedSound(s, p, i);
    UnlinkAll(s, p, i, x);
    AppliedAll(u, q, x);
    hide Everybody, Sound, QueuesSound, Unlink, Applied, WakeZero;
    WakeZeroAll(Applied(u, q), SopNums(q.sops), x);
    WokenAll(if Try(u, q).Done? then WakeZero(Applied(u, q), SopNums(q.sops)) else Applied(u, q), q, Code(Try(u, q)), x);
  }

  lemma {:induction false} ServeAll(s: SemSet, p: Place, x: Request)
    requires QueuesSound(s) && HasPlace(s, p)
    ensures Everybody(Serve(s, p), x) == Everybody(s, x)
    decreases |AlterQ(s, p)|
  {
    hide Everybody, Finish;
    var i := FirstReady(s, AlterQ(s, p), 0);
    if i < |AlterQ(s, p)| {
      FinishAll(s, p, i, x);
      ServeAll(Finish(s, p, i), p, x);
    }
  }

  lemma {:induction false} ServeEachAll(s: SemSet, nums: seq<nat>, k: nat, x: Request)
    requires k <= |nums| && Nums(s, nums) && QueuesSound(s)
    ensures Everybody(ServeEach(s, nums, k), x) == Everybody(s, x)
    decreases |nums| - k
  {
    hide Everybody, Serve;
    if k < |nums| {
      ServeAll(s, Of(nums[k]), x);
      ServeEachAll(Serve(s, Of(nums[k])), nums, k + 1, x);
    }
  }

  lemma SmartUpdateAll(s: SemSet, sops: Option<seq<Sembuf>>, x: Request)
    requires QueuesSound(s) && SopsBelow(s, sops)
    ensures Everybody(SmartUpdate(s, sops), x) == Everybody(s, x)
  {
    hide Everybody, WakeZero, Serve, ServeEach;
    RescannedInRange(s, sops);
    WakeZeroAll(s, Touched(s, sops), x);
    var t := WakeZero(s, Touched(s, sops));
    if t.alter != [] {
      ServeAll(t, Global, x);
    } else {
      ServeEachAll(t, Rescanned(s, sops), 0, x);
    }
  }

  // ---- merging and unmerging ---------------------------------------------------------------------------------

  lemma MergeAll(s: SemSet, x: Request)
    ensures Everybody(Merge(s), x) == Everybody(s, x)
  {
    StackedIsAll(s.alterOf, x);
    NobodyIn(seq(|s.alterOf|, _ => []), x);
  }

  predicate AllNamed(l: seq<Request>, n: nat) {
    forall i | 0 <= i < |l| :: l[i].sops != [] && l[i].sops[0].num < n
  }

  // The requests of l sent to their own queues.
  function Homes(ls: seq<seq<Request>>, l: seq<Request>): seq<seq<Request>>
    requires AllNamed(l, |ls|)
  {
    seq(|ls|, n requires 0 <= n < |ls| => ls[n] + OnSem(l, n))
  }

  lemma HomesEmpty(ls: seq<seq<Request>>)
    ensures Homes(ls, []) == ls
  {
    forall n | 0 <= n < |ls| ensures Homes(ls, [])[n] == ls[n] {
      assert OnSem([], n) == [];
    }
  }

  lemma HomesStep(ls: seq<seq<Request>>, l: seq<Request>)
    requires l != [] && AllNamed(l, |ls|)
    ensures var n := l[0].sops[0].num; AllNamed(l[1..], |ls|) && Homes(ls, l) == Homes(ls[n := ls[n] + [l[0]]], l[1..])
  {
    var n, r := l[0].sops[0].num, l[1..];
    assert forall i | 0 <= i < |r| :: r[i] == l[i + 1];
    forall k | 0 <= k < |ls| ensures Homes(ls, l)[k] == Homes(ls[n := ls[n] + [l[0]]], r)[k] {
      if k == n {
        assert OnSem(l, k) == [l[0]] + OnSem(r, k);
        assert ls[n] + ([l[0]] + OnSem(r, k)) == ls[n] + [l[0]] + OnSem(r, k);
      } else {
        assert OnSem(l, k) == [] + OnSem(r, k) == OnSem(r, k);
      }
    }
  }

  lemma Behind(l: seq<Request>, q: Request, x: Request)
    ensures multiset(l + [q])[x] == multiset(l)[x] + One(q, x)
  {
  }

  lemma {:induction false} HomesAll(ls: seq<seq<Request>>, l: seq<Request>, x: Request)
    requires AllNamed(l, |ls|)
    ensures AllOf(Homes(ls, l), x) == AllOf(ls, x) + multiset(l)[x]
    decreases |l|
  {
    hide Homes, AllOf, One;
    if l == [] {
      HomesEmpty(ls);
    } else {
      var n := l[0].sops[0].num;
      HomesStep(ls, l);
      AllOfUpdate(ls, n, ls[n] + [l[0]], x);
      Behind(ls[n], l[0], x);
      HeadAndRest(l, x);
      HomesAll(ls[n := ls[n] + [l[0]]], l[1..], x);
    }
  }

  lemma UnmergeAll(s: SemSet, x: Request)
    requires QueuesSound(s)
    ensures Everybody(Unmerge(s), x) == Everybody(s, x)
  {
    if s.complexCount == 0 {
      forall i | 0 <= i < |s.alter| ensures s.alter[i].sops != [] && s.alter[i].sops[0].num < |s.alterOf| {
        assert Sound(s, s.alter[i]) && Fits(VarsOf(s, s.alter[i]), s.alter[i].sops[0]);
      }
      HomesAll(s.alterOf, s.alter, x);
      assert Unmerge(s).alterOf == Homes(s.alterOf, s.alter);
    }
  }

  lemma UnlockAll(s: SemSet, global: bool, x: Request)
    requires QueuesSound(s)
    ensures Everybody(Unlock(s, global), x) == Everybody(s, x)
  {
    if global {
      UnmergeAll(s, x);
      SameAll(Unmerge(s), Unlock(s, global), x);
    }
  }

  // ---- the operations -------------------------------------------------------------------------------------------

  lemma AppendAll(m: SemSet, r: SemSet, q: Request, p: Place, x: Request)
    requires HasPlace(m, p)
    requires r == (if Alters(q.sops) then WithAlterQ(m, p, AlterQ(m, p) + [q])
                   else WithConstQ(m, p, ConstQ(m, p) + [q])).(complexCount := r.complexCount)
    ensures Everybody(r, x) == Everybody(m, x) + One(q, x)
  {
    if p.Of? {
      AllOfUpdate(m.alterOf, p.n, m.alterOf[p.n] + [q], x);
      AllOfUpdate(m.constOf, p.n, m.constOf[p.n] + [q], x);
    }
  }

  lemma EnqueueAll(s: SemSet, q: Request, x: Request)
    requires QueuesSound(s) && Sound(s, q)
    ensures Everybody(Enqueue(s, q), x) == Everybody(s, x) + One(q, x)
  {
    assert Fits(VarsOf(s, q), q.sops[0]);
    MergeAll(s, x);
    MergeKeepsSound(s);
    var m := if Complex(q) && s.complexCount == 0 then Merge(s) else s;
    var p := if Complex(q) || (Alters(q.sops) && s.complexCount != 0) then Global else Of(q.sops[0].num);
    AppendAll(m, Enqueue(s, q), q, p, x);
  }

  lemma InsideAll(l: SemSet, g: bool, q: Request, x: Request)
    requires QueuesSound(l) && Sound(l, q)
    ensures Everybody(SemopInside(l, g, q).0, x) ==
      Everybody(l, x) + if SemopInside(l, g, q).1 == 1 then One(q, x) else 0
  {
    hide Everybody, QueuesSound, Enqueue, SmartUpdate, Unlock;
    match Try(l, q)
    case Done(_) =>
      AppliedKeepsSound(l, q);
      AppliedAll(l, q, x);
      var a := Applied(l, q);
      if Alters(q.sops) {
        assert SopsBelow(a, Some(q.sops)) by {
          forall k | 0 <= k < |q.sops| ensures q.sops[k].num < |a.vals| { assert Fits(VarsOf(l, q), q.sops[k]); }
        }
        SmartUpdateAll(a, Some(q.sops), x);
        UnlockAll(SmartUpdate(a, Some(q.sops)), g, x);
      } else {
        UnlockAll(a, g, x);
      }
    case Error(_) => UnlockAll(l, g, x);
    case Sleep(_) =>
      EnqueueAll(l, q, x);
      UnlockAll(Enqueue(l, q), g, x);
  }

  lemma SemopAll(s: SemSet, q: Request, x: Request)
    requires QueuesSound(s) && Sound(s, q)
    ensures Everybody(Semop(s, q).0, x) == Everybody(s, x) + if Semop(s, q).1 == 1 then One(q, x) else 0
  {
    var (l, g) := Lock(s, |q.sops|);
    SoundIsStable(s, l);
    SameAll(s, l, x);
    InsideAll(l, g, q, x);
  }

  lemma UpdateAllAll(s: SemSet, a: SemSet, x: Request)
    requires QueuesSound(a)
    requires a.alter == s.alter && a.const_ == s.const_ && a.alterOf == s.alterOf
    requires a.constOf == s.constOf && a.woken == s.woken
    ensures Everybody(Unlock(SmartUpdate(a, None), true), x) == Everybody(s, x)
  {
    SameAll(s, a, x);
    SmartUpdateAll(a, None, x);
    UnlockAll(SmartUpdate(a, None), true, x);
  }

  lemma CancelAll(s: SemSet, slot: Slot, x: Request)
    requires QueuesSound(s) && HasSlot(s, slot)
    ensures Everybody(s, x) == Everybody(Cancel(s, slot), x) + One(At(s, slot), x)
  {
    var (l, g) := Lock(s, |At(s, slot).sops|);
    SoundIsStable(s, l);
    SameAll(s, l, x);
    if slot.altering {
      UnlinkAll(l, slot.place, slot.index, x);
    } else {
      UnlinkConstAll(l, slot, x);
    }
    UnlockAll(UnlinkAt(l, slot), g, x);
  }

  lemma UnlinkConstAll(l: SemSet, slot: Slot, x: Request)
    requires QueuesSound(l) && HasSlot(l, slot) && !slot.altering
    ensures Everybody(l, x) == Everybody(UnlinkAt(l, slot), x) + One(At(l, slot), x)
  {
    hide QueuesSound;
    var c := ConstQ(l, slot.place);
    Apart(c, slot.index, x);
    if slot.place.Of? {
      AllOfUpdate(l.constOf, slot.place.n, Without(c, slot.index), x);
    }
  }

  lemma AddUndoAll(s: SemSet, u: nat, x: Request)
    requires QueuesSound(s)
    ensures Everybody(AddUndo(s, u), x) == Everybody(s, x)
  {
    var a := if u in s.adj then Enter(s) else Enter(s).(adj := s.adj[u := Zeros(|s.vals|)]);
    forall q | Sound(s, q) ensures Sound(a, q) { AddUndoRow(s, a, u, q); }
    SameAll(s, a, x);
    UnlockAll(a, true, x);
  }

  // Who comes to sleep with a step, and who gives up.
  ghost function Comes(s: SemSet, a: Action, x: Request): nat
    requires QueuesSound(s) && Allowed(s, a)
  {
    if a.DoSemop? && Semop(s, a.q).1 == 1 then One(a.q, x) else 0
  }

  ghost function GivesUp(s: SemSet, a: Action, x: Request): nat
    requires QueuesSound(s) && Allowed(s, a)
  {
    if a.DoCancel? then One(At(s, a.x), x) else 0
  }

  lemma SetValAll(s: SemSet, n: nat, val: int, x: Request)
    requires Unlocked(s) && n < |s.vals| && 0 <= val <= SEMVMX
    ensures Everybody(SetVal(s, n, val), x) == Everybody(s, x)
  {
    ValueSet(s, n, val);
    hide Everybody, SmartUpdate, Unlock;
    UpdateAllAll(s, Enter(s).(vals := s.vals[n := val], adj := ZeroAdj(s.adj, n)), x);
  }

  lemma SetAllAll(s: SemSet, vals: seq<int>, x: Request)
    requires Unlocked(s) && |vals| == |s.vals| && InRange(vals)
    ensures Everybody(SetAll(s, vals), x) == Everybody(s, x)
  {
    ValuesSet(s, vals);
    hide Everybody, SmartUpdate, Unlock;
    UpdateAllAll(s, Enter(s).(vals := vals, adj := map u | u in s.adj :: Zeros(|s.adj[u]|)), x);
  }

  lemma ExitUndoAll(s: SemSet, u: nat, x: Request)
    requires QueuesSound(s) && u in s.adj && |s.adj[u]| == |s.vals| && UndoIdle(s, u)
    ensures Everybody(ExitUndo(s, u), x) == Everybody(s, x)
  {
    hide Everybody, SmartUpdate, Unlock, UndoIdle;
    UpdateAllAll(s, DropUndo(s, u), x);
  }

  lemma VisitAll(s: SemSet, x: Request)
    requires QueuesSound(s)
    ensures Everybody(Visit(s), x) == Everybody(s, x) && Everybody(Peek(s), x) == Everybody(s, x)
  {
    SoundIsStable(s, Enter(s));
    SameAll(s, Enter(s), x);
    UnlockAll(Enter(s), true, x);
    SameAll(s, Peek(s), x);
  }

  lemma StepAll(s: SemSet, a: Action, x: Request)
    requires Inv(s) && Allowed(s, a)
    ensures Everybody(Step(s, a), x) + GivesUp(s, a, x) == Everybody(s, x) + Comes(s, a, x)
  {
    assert QueuesSound(s) && Unlocked(s);
    hide Everybody, Inv, Unlocked, Structure, QueuesSound, Semop, SetVal, SetAll, ExitUndo, Cancel, AddUndo, Visit, Peek, UndoIdle;
    match a
    case DoSemop(q) => SemopAll(s, q, x);
    case DoSetVal(n, val) => SetValAll(s, n, val, x);
    case DoSetAll(vals) => SetAllAll(s, vals, x);
    case DoExitUndo(u) => ExitUndoAll(s, u, x);
    case DoAddUndo(u) => AddUndoAll(s, u, x);
    case DoCancel(slot) => CancelAll(s, slot, x);
    case DoVisit => VisitAll(s, x);
    case DoPeek => VisitAll(s, x);
  }

  // ---- whole runs ---------------------------------------------------------------------------------------------------

  ghost function Came(s: SemSet, run: seq<Action>, t: SemSet, x: Request): nat
    requires Leads(s, run, t)
    decreases |run|
  {
    if run == [] then 0 else Comes(s, run[0], x) + Came(Step(s, run[0]), run[1..], t, x)
  }

  ghost function GaveUp(s: SemSet, run: seq<Action>, t: SemSet, x: Request): nat
    requires Leads(s, run, t)
    decreases |run|
  {
    if run == [] then 0 else GivesUp(s, run[0], x) + GaveUp(Step(s, run[0]), run[1..], t, x)
  }

  lemma {:induction false} RunAll(s: SemSet, run: seq<Action>, t: SemSet, x: Request)
    requires Inv(s) && Leads(s, run, t)
    ensures Everybody(t, x) + GaveUp(s, run, t, x) == Everybody(s, x) + Came(s, run, t, x)
    decreases |run|
  {
    hide Everybody, Inv, Step, Allowed, Comes, GivesUp, QueuesSound;
    if run != [] {
      StepAll(s, run[0], x);
      StepKeepsInv(s, run[0]);
      RunAll(Step(s, run[0]), run[1..], t, x);
    }
  }

  // Over every run since the creation of a set: the requests that went to sleep are those in its queues,
  // those woken and those that gave up, each as often as it went to sleep.
  lemma NobodyIsLost(nsems: nat, run: seq<Action>, t: SemSet, x: Request)
    requires Leads(Created(nsems), run, t)
    ensures Came(Created(nsems), run, t, x) ==
      multiset(t.alter)[x] + multiset(t.const_)[x] + AllOf(t.alterOf, x) + AllOf(t.constOf, x) + Reqs(t.woken, x)
      + GaveUp(Created(nsems), run, t, x)
  {
    CreatedInv(nsems);
    RunAll(Created(nsems), run, t, x);
    CreatedNobody(nsems, x);
  }

  lemma CreatedNobody(nsems: nat, x: Request)
    ensures Everybody(Created(nsems), x) == 0
  {
    var b := SemSet(Zeros(nsems), seq(nsems, _ => []), seq(nsems, _ => []), [], [], map[], 0, HYSTERESIS, []);
    NobodyIn(b.alterOf, x);
    UnmergeAll(b, x);
    SameAll(Unmerge(b), Created(nsems), x);
  }
}
