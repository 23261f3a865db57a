// Where no-lost-wake-up stops: a request that waits for several semaphores to be zero may go on
// sleeping although it would fail by now. It never goes on sleeping when it could succeed.
module SemStale {
  import opened SemOps
  import opened SemSpec
  import opened SemRuns
  import opened SemHistory

  // What a request that only waits for zero gets: the first semaphore it names that is not zero
  // decides, by the IPC_NOWAIT of that operation.
  lemma WaiterOutcome(v: Vars, sops: seq<Sembuf>, k: nat)
    requires AllFit(v, sops) && InRange(v.vals) && RowInRange(v.row) && !Alters(sops) && k <= |sops|
    requires forall j | 0 <= j < k :: v.vals[sops[j].num] == 0
    requires k < |sops| ==> v.vals[sops[k].num] != 0
    ensures Attempt(v, sops) ==
      if k == |sops| then Done(After(v, sops, k)) else if sops[k].nowait then Error(EAGAIN) else Sleep(k)
  {
    forall j | 0 <= j <= k && j < |sops| ensures Check(v, sops, j).Fine? == (v.vals[sops[j].num] == 0) && !Check(v, sops, j).OutOfRange? {
      SumOfNothing(sops, sops[j].num, j);
      assert sops[j].op == 0 && Fits(v, sops[j]);
    }
    StopIsUnique(v, sops, k);
  }

  // The exact case: a sleeper in the queue of the whole set that would get an error by now has an
  // IPC_NOWAIT on the first operation whose semaphore is not zero.
  lemma SleeperFailsIff(s: SemSet, i: nat, k: nat)
    requires Reachable(s) && i < |s.const_| && k <= |s.const_[i].sops| && AllFit(VarsOf(s, s.const_[i]), s.const_[i].sops)
    requires forall j | 0 <= j < k :: s.vals[s.const_[i].sops[j].num] == 0
    requires k < |s.const_[i].sops| ==> s.vals[s.const_[i].sops[k].num] != 0
    ensures QueuesSound(s) && k < |s.const_[i].sops|
    ensures Try(s, s.const_[i]) == if s.const_[i].sops[k].nowait then Error(EAGAIN) else Sleep(k)
  {
    ReachableInv(s);
    var q := s.const_[i];
    assert Sound(s, q) && ConstKind(q);
    WaiterOutcome(VarsOf(s, q), q.sops, k);
    assert !Try(s, q).Done?;
  }

  // ---- such a sleeper can be there -----------------------------------------------------------------

  // Nobody to serve: the alter queues are empty, and nobody waits for a semaphore that is zero.
  predicate Idle(s: SemSet) {
    && |s.alterOf| == |s.vals| == |s.constOf| && s.alter == []
    && (forall n | 0 <= n < |s.vals| :: s.alterOf[n] == [] && s.constOf[n] == [])
    && ((exists n | 0 <= n < |s.vals| :: s.vals[n] == 0) ==> s.const_ == [])
  }

  lemma WakeNobody(s: SemSet, p: Place)
    requires HasPlace(s, p) && ConstQ(s, p) == []
    ensures WakeConst(s, p) == s
  {
    if p.Of? {
      assert s.constOf[p.n := []] == s.constOf;
    }
  }

  lemma {:induction false} IdleZeroScan(s: SemSet, nums: seq<nat>, k: nat)
    requires Idle(s) && QueuesSound(s) && Nums(s, nums) && k <= |nums|
    ensures ZeroScan(s, nums, k) == s
    decreases |nums| - k
  {
    if k < |nums| {
      WakeNobody(s, Of(nums[k]));
      IdleZeroScan(s, nums, k + 1);
    }
  }

  lemma ServeNobody(s: SemSet, p: Place)
    requires Idle(s) && QueuesSound(s) && HasPlace(s, p)
    ensures Serve(s, p) == s
  {
    hide QueuesSound, Sound, Finish;
    assert AlterQ(s, p) == [];
  }

  lemma {:induction false} IdleServe(s: SemSet, nums: seq<nat>, k: nat)
    requires Idle(s) && QueuesSound(s) && Nums(s, nums) && k <= |nums|
    ensures ServeEach(s, nums, k) == s
    decreases |nums| - k
  {
    if k < |nums| {
      ServeNobody(s, Of(nums[k]));
      hide QueuesSound, Idle, FirstReady, Serve;
      IdleServe(s, nums, k + 1);
    }
  }

  lemma IdleUpdate(s: SemSet)
    requires Idle(s) && QueuesSound(s)
    ensures SmartUpdate(s, None) == s
  {
    RescannedInRange(s, None);
    var nums := Range(|s.vals|);
    IdleZeroScan(s, nums, 0);
    IdleServe(s, nums, 0);
    if GotZero(s, nums) {
      WakeNobody(s, Global);
    }
  }

  lemma IdleUnmerge(s: SemSet)
    requires Idle(s) && QueuesSound(s)
    ensures Unmerge(s) == s
  {
    if s.complexCount == 0 {
      var t := Unmerge(s);
      forall n | 0 <= n < |s.alterOf| ensures t.alterOf[n] == s.alterOf[n] {
        assert OnSem(s.alter, n) == [];
      }
      assert t.alterOf == s.alterOf;
    }
  }

  lemma IdleSetAll(s: SemSet, vals: seq<int>)
    requires QueuesSound(s) && |vals| == |s.vals| && Idle(s.(vals := vals))
    ensures SetAll(s, vals).vals == vals && SetAll(s, vals).const_ == s.const_ && Idle(SetAll(s, vals))
    ensures SetAll(s, vals).complexCount == s.complexCount && SetAll(s, vals).adj.Keys == s.adj.Keys
  {
    var a := Enter(s).(vals := vals, adj := map u | u in s.adj :: Zeros(|s.adj[u]|));
    SoundIsStable(s, a);
    IdleUpdate(a);
    IdleUnmerge(a);
  }

  // A request that sleeps, put into an idle set as the only one.
  lemma IdleSemop(s: SemSet, q: Request)
    requires QueuesSound(s) && Sound(s, q) && Idle(s) && s.complexCount == 0 && s.const_ == []
    requires Complex(q) && !Alters(q.sops) && Try(s, q).Sleep?
    ensures var t := Semop(s, q).0;
      t.vals == s.vals && t.const_ == [q] && t.complexCount == 1 && t.alter == []
      && |t.alterOf| == |t.constOf| == |t.vals| && t.adj == s.adj
      && forall n | 0 <= n < |t.vals| :: t.alterOf[n] == [] && t.constOf[n] == []
  {
    var l := Enter(s);
    SoundIsStable(s, l);
    assert Try(l, q) == Try(s, q);
    NothingStacked(l.alterOf);
  }

  lemma {:induction false} NothingStacked(ls: seq<seq<Request>>)
    requires forall n | 0 <= n < |ls| :: ls[n] == []
    ensures Stacked(ls) == []
    decreases |ls|
  {
    if ls != [] {
      assert ls[0] == [] && forall n | 0 <= n < |ls[1..]| :: ls[1..][n] == ls[n + 1];
      NothingStacked(ls[1..]);
    }
  }

  // Wait until semaphore 1 is zero, without patience, and semaphore 0 as well.
  function Waiter(): Request {
    Entry(7, [Sembuf(1, 0, true, false), Sembuf(0, 0, false, false)], None, true)
  }

  function Run(): seq<Action> {
    [DoSetAll([1, 0]), DoSemop(Waiter()), DoSetAll([1, 5])]
  }

  lemma CreatedIdle() returns (s: SemSet)
    ensures s == Created(2) && Inv(s) && |s.vals| == 2 && s.const_ == [] && s.complexCount == 0
    ensures Idle(s.(vals := [1, 0]))
  {
    s := Created(2);
    CreatedInv(2);
  }

  lemma FirstStep() returns (s0: SemSet, s1: SemSet)
    ensures s0 == Created(2) && Inv(s0) && Allowed(s0, DoSetAll([1, 0])) && s1 == Step(s0, DoSetAll([1, 0]))
    ensures Inv(s1) && s1.vals == [1, 0] && Idle(s1) && s1.const_ == [] && s1.complexCount == 0
  {
    hide Inv, SetAll;
    s0 := CreatedIdle();
    InvIsSound(s0);
    IdleSetAll(s0, [1, 0]);
    s1 := Step(s0, DoSetAll([1, 0]));
    StepKeepsInv(s0, DoSetAll([1, 0]));
  }

  lemma SecondStep(s1: SemSet) returns (s2: SemSet)
    requires Inv(s1) && s1.vals == [1, 0] && Idle(s1) && s1.const_ == [] && s1.complexCount == 0
    ensures Allowed(s1, DoSemop(Waiter())) && s2 == Step(s1, DoSemop(Waiter()))
    ensures Inv(s2) && |s2.vals| == 2 && s2.const_ == [Waiter()] && Idle(s2.(vals := [1, 5]))
  {
    hide Inv, Structure;
    WaiterAt(s1, 1, 0, 1);
    InvIsSound(s1);
    IdleSemop(s1, Waiter());
    s2 := Step(s1, DoSemop(Waiter()));
    StepKeepsInv(s1, DoSemop(Waiter()));
  }

  lemma InvIsSound(s: SemSet)
    requires Inv(s)
    ensures QueuesSound(s)
  {
  }

  // semop() finds semaphore 1 at zero and sleeps for semaphore 0. Then semaphore 1 is raised, which
  // is no reason to look at sleepers that wait for zero.
  lemma StaleSleeper() returns (s: SemSet)
    ensures Reachable(s) && QueuesSound(s) && s.const_ == [Waiter()]
    ensures Sound(s, Waiter()) && Try(s, Waiter()) == Error(EAGAIN)
  {
    hide Inv, Step, Allowed, Idle;
    var s0, s1 := FirstStep();
    var s2 := SecondStep(s1);
    InvIsSound(s0);
    InvIsSound(s1);
    InvIsSound(s2);
    s := ThirdStep(s2);
    RunLeads(s0, s1, s2, s);
  }

  lemma ThirdStep(s2: SemSet) returns (s3: SemSet)
    requires Inv(s2) && QueuesSound(s2) && |s2.vals| == 2 && s2.const_ == [Waiter()] && Idle(s2.(vals := [1, 5]))
    ensures Allowed(s2, DoSetAll([1, 5])) && s3 == Step(s2, DoSetAll([1, 5]))
    ensures QueuesSound(s3) && s3.const_ == [Waiter()] && Sound(s3, Waiter()) && Try(s3, Waiter()) == Error(EAGAIN)
  {
    IdleSetAll(s2, [1, 5]);
    s3 := Step(s2, DoSetAll([1, 5]));
    WaiterAt(s3, 1, 5, 0);
  }

  // The waiter on the values x and y: its operation k is the first that stops it.
  lemma WaiterAt(s: SemSet, x: int, y: int, k: nat)
    requires s.vals == [x, y] && 0 <= x <= SEMVMX && 0 <= y <= SEMVMX
    requires (k == 0 && y != 0) || (k == 1 && y == 0 && x != 0)
    ensures Sound(s, Waiter()) && !Alters(Waiter().sops) && Complex(Waiter())
    ensures Try(s, Waiter()) == if k == 0 then Error(EAGAIN) else Sleep(1)
  {
    WaiterOutcome(VarsOf(s, Waiter()), Waiter().sops, k);
  }

  lemma RunLeads(s0: SemSet, s1: SemSet, s2: SemSet, s3: SemSet)
    requires s0 == Created(2) && QueuesSound(s0) && QueuesSound(s1) && QueuesSound(s2)
    requires Allowed(s0, DoSetAll([1, 0])) && s1 == Step(s0, DoSetAll([1, 0]))
    requires Allowed(s1, DoSemop(Waiter())) && s2 == Step(s1, DoSemop(Waiter()))
    requires Allowed(s2, DoSetAll([1, 5])) && s3 == Step(s2, DoSetAll([1, 5]))
    ensures Reachable(s3)
  {
    hide Step, Allowed, Created;
    var run := Run();
    assert run[1..] == [DoSemop(Waiter()), DoSetAll([1, 5])];
    assert run[1..][1..] == [DoSetAll([1, 5])];
    assert Leads(s3, [], s3);
    assert Leads(s2, run[1..][1..], s3) by {
      assert run[1..][1..][1..] == [];
    }
    assert Leads(s1, run[1..], s3);
    assert Leads(s0, run, s3);
  }
}
