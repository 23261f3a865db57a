// The locks and the set together: any number of threads with an operation each, one step of the locking
// protocol at a time. Whatever the interleaving, the set is what the operations make of it one after the
// other, in the order in which they put their changes into effect.
module SemSystem {
  import opened SemOps
  import opened SemSpec
  import opened SemRuns
  import opened SemHistory
  import opened SemLocal
  import opened SemOverlap
  import L = SemLock

  // What a thread is about: nothing; the creation of the set; an operation; or the operation q inside the
  // section of its semaphore, with the set as it was when the thread got there.
  datatype Job = Nothing | Creation | Call(a: Action) | Inside(q: Request, before: SemSet)

  // The locks and counters as the threads see them; the set as changed by the operations so far, with the
  // counters that the last of them left; the threads' jobs; and these operations, in order.
  datatype System = System(lock: L.State, set_: SemSet, jobs: seq<Job>, done: seq<Action>)

  datatype Move = Ask(t: nat, a: Action) | Go(t: nat)

  predicate OneSemaphore(a: Action) {
    a.DoSemop? && |a.q.sops| == 1
  }

  // The operations that take the lock of the whole set at once.
  predicate WholeSet(s: SemSet, a: Action) {
    match a
    case DoSemop(q) => |q.sops| != 1
    case DoCancel(x) => HasSlot(s, x) ==> |At(s, x).sops| != 1
    case _ => true
  }

  // A thread in the section of the set that carries out job j there.
  ghost predicate Fit(s: SemSet, j: Job) {
    match j
    case Creation => true
    case Call(a) => QueuesSound(s) && Allowed(s, a) && (OneSemaphore(a) || WholeSet(s, a))
    case _ => false
  }

  ghost function Carried(s: SemSet, j: Job): SemSet
    requires Fit(s, j)
  {
    if j.Creation? then s else Step(s, j.a)
  }

  // Thread t is about to enter the section of a semaphore.
  predicate Enters(lock: L.State, t: nat)
    requires t < |lock.pc|
  {
    (lock.pc[t].LCheck? && lock.useGlobal == 0) || lock.pc[t].LSlowDrop?
  }

  // An operation asks for the lock of its semaphore or of the set; inside it has what it needs: the
  // semaphores it names, its undo structure, its sleeper.
  ghost predicate Can(x: System, e: Move)
    requires |x.jobs| == |x.lock.pc|
  {
    match e
    case Ask(t, a) =>
      if OneSemaphore(a) then L.Can(x.lock, t, L.AskSemaphore(a.q.sops[0].num)) else L.Can(x.lock, t, L.AskGlobal)
    case Go(t) =>
      L.Can(x.lock, t, L.Run)
      && (x.lock.pc[t].GWork? ==> Fit(x.set_, x.jobs[t]))
      && (Enters(x.lock, t) ==> x.jobs[t].Call? && x.jobs[t].a.DoSemop? && Sound(x.set_, x.jobs[t].a.q))
  }

  // The lock protocol's share of a move. Inside the section of the set the number of sleeping complex
  // operations becomes what the operation makes it.
  ghost function LockAfter(x: System, e: Move): L.State
    requires |x.jobs| == |x.lock.pc| && Can(x, e)
  {
    match e
    case Ask(t, a) => L.Do(x.lock, t, if OneSemaphore(a) then L.AskSemaphore(a.q.sops[0].num) else L.AskGlobal)
    case Go(t) =>
      if x.lock.pc[t].GWork? then
        var c := Carried(x.set_, x.jobs[t]).complexCount;
        L.Do(if c >= 0 then L.Do(x.lock, t, L.SetComplex(c)) else x.lock, t, L.Run)
      else L.Do(x.lock, t, L.Run)
  }

  // ---- what holds at every moment --------------------------------------------------------------------

  // How the counters of the lock and of the set differ while a thread at p has the global lock: it raised
  // the first one when it entered complex mode, and the second one has been through its operation when
  // the first one has not.
  predicate CountersMatch(lock: L.State, s: SemSet, p: L.Pc, j: Job) {
    lock.complexCount == s.complexCount &&
    if p.GDrain? || p.GDrained? then lock.useGlobal == HYSTERESIS && s.useGlobal == 0
    else if p.GWork? && j.Creation? then lock.useGlobal == HYSTERESIS && s.complexCount == 0 && s.useGlobal == HYSTERESIS - 1
    else if p.GWork? && j.Call? && OneSemaphore(j.a) then lock.useGlobal == s.useGlobal
    else if p.GWork? then lock.useGlobal == HYSTERESIS
    else if p.GLeave? then s.useGlobal == L.TryLeave(lock.useGlobal, lock.complexCount)
    else lock.useGlobal == s.useGlobal
  }

  predicate Counters(x: System) {
    var h := x.lock.global;
    if h.Some? && h.value < |x.lock.pc| == |x.jobs| then CountersMatch(x.lock, x.set_, x.lock.pc[h.value], x.jobs[h.value])
    else CountersMatch(x.lock, x.set_, L.Idle, Nothing)
  }

  // The job fits the place of the thread.
  ghost predicate JobOk(s: SemSet, p: L.Pc, j: Job) {
    match p
    case GLock => j.Call? && !OneSemaphore(j.a)
    case GEnter => j.Call? && !OneSemaphore(j.a)
    case GDrain(_) => j.Call? && !OneSemaphore(j.a)
    case GDrained(_) => j.Call? && !OneSemaphore(j.a)
    case GWork => j.Call? || j.Creation?
    case LWork(k) => j.Inside? && Current(s, k, Section(j.q, j.before))
    case Idle => true
    case GLeave => true
    case GUnlock => true
    case _ => j.Call? && OneSemaphore(j.a) && j.a.q.sops[0].num == p.k
  }

  ghost predicate Valid(x: System) {
    && L.Reachable(x.lock) && Inv(x.set_) && |x.lock.locks| == |x.set_.vals| && |x.jobs| == |x.lock.pc|
    && Leads(Created(|x.set_.vals|), x.done, x.set_)
    && Counters(x)
    && forall t | 0 <= t < |x.jobs| :: JobOk(x.set_, x.lock.pc[t], x.jobs[t])
  }

  // The creating thread still owns the global lock; nobody else has a job.
  ghost predicate Initial(x: System) {
    && L.Initial(x.lock) && x.set_ == Created(|x.lock.locks|) && |x.jobs| == |x.lock.pc| && x.done == []
    && x.jobs[0] == Creation
  }

  // The set and the jobs after a move of thread t.
  ghost function Next(x: System, e: Move): System
    requires Valid(x) && Can(x, e)
  {
    var lock := LockAfter(x, e);
    match e
    case Ask(t, a) => x.(lock := lock, jobs := x.jobs[t := Call(a)])
    case Go(t) =>
      if x.lock.pc[t].GWork? then
        var j := x.jobs[t];
        x.(lock := lock, set_ := Carried(x.set_, j), done := if j.Call? then x.done + [j.a] else x.done)
      else if Enters(x.lock, t) then x.(lock := lock, jobs := x.jobs[t := Inside(x.jobs[t].a.q, x.set_)])
      else if x.lock.pc[t].LWork? then
        var n, j := x.lock.pc[t].k, x.jobs[t];
        assert Current(x.set_, n, Section(j.q, j.before));
        WokenGrows(j.before, j.q, n);
        var made := Semop(j.before, j.q).0;
        System(lock, Install(x.set_, made, n, made.woken[|j.before.woken|..]), x.jobs[t := Nothing], x.done + [DoSemop(j.q)])
      else x.(lock := lock)
  }

  // ---- the counter that an operation on the whole set leaves ---------------------------------------------

  lemma UnlockCounts(x: SemSet)
    requires QueuesSound(x)
    ensures Unlock(x, true).complexCount == x.complexCount
    ensures Unlock(x, true).useGlobal == L.TryLeave(x.useGlobal, x.complexCount)
  {
  }

  lemma {:induction false} ServeEachGlobal(s: SemSet, nums: seq<nat>, k: nat)
    requires k <= |nums| && Nums(s, nums) && QueuesSound(s)
    ensures ServeEach(s, nums, k).useGlobal == s.useGlobal
    decreases |nums| - k
  {
    hide Serve;
    if k < |nums| {
      ServeKeys(s, Of(nums[k]));
      ServeEachGlobal(Serve(s, Of(nums[k])), nums, k + 1);
    }
  }

  lemma UpdateGlobal(s: SemSet, sops: Option<seq<Sembuf>>)
    requires QueuesSound(s) && SopsBelow(s, sops)
    ensures SmartUpdate(s, sops).useGlobal == s.useGlobal
  {
    hide QueuesSound, WakeZero;
    RescannedInRange(s, sops);
    ZeroKeepsAlter(s, Touched(s, sops));
    var t := WakeZero(s, Touched(s, sops));
    if t.alter != [] {
      ServeKeys(t, Global);
    } else {
      ServeEachGlobal(t, Rescanned(s, sops), 0);
    }
  }

  // The operation was done under the global lock, with the counter at g inside: it is one lower now, unless
  // a complex request sleeps.
  predicate LeftFrom(g: int, t: SemSet) {
    t.useGlobal == if t.complexCount != 0 then g else g - 1
  }

  lemma UpdateAllCounts(a: SemSet)
    requires QueuesSound(a)
    ensures LeftFrom(a.useGlobal, Unlock(SmartUpdate(a, None), true))
  {
    UpdateGlobal(a, None);
    UnlockCounts(SmartUpdate(a, None));
  }

  lemma EnqueueGlobal(s: SemSet, q: Request)
    requires QueuesSound(s) && Sound(s, q)
    ensures Enqueue(s, q).useGlobal == s.useGlobal
  {
  }

  lemma InsideCounts(l: SemSet, q: Request)
    requires QueuesSound(l) && Sound(l, q)
    ensures LeftFrom(l.useGlobal, SemopInside(l, true, q).0)
  {
    hide QueuesSound, Enqueue, SmartUpdate, Unlock;
    match Try(l, q)
    case Done(_) =>
      AppliedKeepsSound(l, q);
      var a := Applied(l, q);
      if Alters(q.sops) {
        assert SopsBelow(a, Some(q.sops)) by {
          forall k | 0 <= k < |q.sops| ensures q.sops[k].num < |a.vals| { assert Fits(VarsOf(l, q), q.sops[k]); }
        }
        UpdateGlobal(a, Some(q.sops));
        UnlockCounts(SmartUpdate(a, Some(q.sops)));
      } else {
        UnlockCounts(a);
      }
    case Error(_) => UnlockCounts(l);
    case Sleep(_) =>
      EnqueueGlobal(l, q);
      UnlockCounts(Enqueue(l, q));
  }

  // The counter inside the section of the set.
  function InsideGlobal(s: SemSet, a: Action): int {
    if OneSemaphore(a) then s.useGlobal else 10
  }

  lemma SemopCounts(s: SemSet, q: Request)
    requires QueuesSound(s) && Sound(s, q) && (|q.sops| == 1 ==> s.useGlobal > 0)
    ensures LeftFrom(InsideGlobal(s, DoSemop(q)), Semop(s, q).0)
  {
    var (l, g) := Lock(s, |q.sops|);
    SoundIsStable(s, l);
    InsideCounts(l, q);
  }

  lemma CancelCounts(s: SemSet, x: Slot)
    requires QueuesSound(s) && HasSlot(s, x) && |At(s, x).sops| != 1
    ensures LeftFrom(HYSTERESIS, Cancel(s, x))
  {
    var l := Enter(s);
    SoundIsStable(s, l);
    UnlockCounts(UnlinkAt(l, x));
  }

  lemma AddUndoCounts(s: SemSet, u: nat)
    requires QueuesSound(s)
    ensures LeftFrom(HYSTERESIS, AddUndo(s, u))
  {
    var a := if u in s.adj then Enter(s) else Enter(s).(adj := s.adj[u := Zeros(|s.vals|)]);
    forall q | Sound(s, q) ensures Sound(a, q) { AddUndoRow(s, a, u, q); }
    UnlockCounts(a);
  }

  lemma StepCounts(s: SemSet, a: Action)
    requires Inv(s) && Allowed(s, a) && (OneSemaphore(a) || WholeSet(s, a)) && (OneSemaphore(a) ==> s.useGlobal > 0)
    ensures LeftFrom(InsideGlobal(s, a), Step(s, a))
  {
    assert QueuesSound(s) && Unlocked(s);
    hide Quiet, Structure, SmartUpdate, Unlock, Semop, Cancel, AddUndo, UndoIdle, QueuesSound;
    match a
    case DoSemop(q) => SemopCounts(s, q);
    case DoSetVal(n, val) =>
      var b := Enter(s).(vals := s.vals[n := val], adj := ZeroAdj(s.adj, n));
      ValueSet(s, n, val);
      UpdateAllCounts(b);
    case DoSetAll(vals) =>
      var b := Enter(s).(vals := vals, adj := map u | u in s.adj :: Zeros(|s.adj[u]|));
      ValuesSet(s, vals);
      UpdateAllCounts(b);
    case DoExitUndo(u) =>
      UpdateAllCounts(DropUndo(s, u));
    case DoAddUndo(u) => AddUndoCounts(s, u);
    case DoCancel(x) => CancelCounts(s, x);
    case DoVisit =>
      SoundIsStable(s, Enter(s));
      UnlockCounts(Enter(s));
    case DoPeek =>
  }

  // ---- what the moves of the protocol come to here ------------------------------------------------------

  lemma AskIs(lock: L.State, t: nat, m: L.Move)
    requires L.Can(lock, t, m) && (m.AskGlobal? || m.AskSemaphore?)
    ensures t < |lock.pc| && lock.pc[t].Idle? && (m.AskSemaphore? ==> m.k < |lock.locks|)
    ensures L.Do(lock, t, m) == lock.(pc := lock.pc[t := if m.AskGlobal? then L.GLock else L.LTest(m.k)])
  {
  }

  lemma EnterIs(lock: L.State, t: nat)
    requires L.Can(lock, t, L.Run) && Enters(lock, t)
    ensures L.Do(lock, t, L.Run) ==
      lock.(pc := lock.pc[t := L.LWork(lock.pc[t].k)], global := if lock.pc[t].LSlowDrop? then L.None else lock.global)
  {
  }

  lemma ReleaseIs(lock: L.State, t: nat)
    requires L.Can(lock, t, L.Run) && lock.pc[t].LWork?
    ensures lock.pc[t].k < |lock.locks|
    ensures L.Do(lock, t, L.Run) == lock.(pc := lock.pc[t := L.Idle], locks := lock.locks[lock.pc[t].k := L.None])
  {
  }

  lemma CarryIs(lock: L.State, t: nat, c: nat)
    requires L.Can(lock, t, L.Run) && lock.pc[t].GWork?
    ensures L.Can(lock, t, L.SetComplex(c)) && L.Can(L.Do(lock, t, L.SetComplex(c)), t, L.Run)
    ensures L.Do(L.Do(lock, t, L.SetComplex(c)), t, L.Run) == lock.(pc := lock.pc[t := L.GLeave], complexCount := c)
  {
  }

  // Who is where, as far as it matters to thread t.
  lemma PlacesOf(x: System, t: nat)
    requires Valid(x) && t < |x.lock.pc|
    ensures L.HoldsGlobal(x.lock.pc[t]) <==> x.lock.global == L.Some(t)
    ensures x.lock.global.Some? ==> x.lock.global.value < |x.lock.pc|
    ensures L.InBounds(x.lock.pc[t], |x.lock.locks|) && L.CounterOk(x.lock, x.lock.pc[t]) && 0 <= x.lock.useGlobal
    ensures JobOk(x.set_, x.lock.pc[t], x.jobs[t])
  {
    L.ReachableInv(x.lock);
    hide Inv, Leads, Current, JobOk, Counters;
    assert L.OwnsGlobal(x.lock, t) && L.OwnerKnown(x.lock, x.lock.global);
  }

  lemma OneInside(x: System, t: nat, u: nat)
    requires Valid(x) && t < |x.lock.pc| && u < |x.lock.pc| && t != u && x.lock.pc[t].LWork? && x.lock.pc[u].LWork?
    ensures x.lock.pc[t].k != x.lock.pc[u].k
  {
    L.ReachableInv(x.lock);
    hide Inv, Leads, Current, JobOk, Counters;
    var m := x.lock.pc[u].k;
    assert L.InBounds(x.lock.pc[u], |x.lock.locks|) && L.OwnsSem(x.lock, u, m) && L.OwnsSem(x.lock, t, m);
  }

  // A thread has moved, and everything is as it should be again.
  lemma AllValid(x: System, y: System, t: nat)
    requires Valid(x) && t < |x.jobs| && |y.jobs| == |x.jobs| && |y.lock.pc| == |x.lock.pc|
    requires y.lock.pc == x.lock.pc[t := y.lock.pc[t]] && y.jobs == x.jobs[t := y.jobs[t]] && |y.lock.locks| == |x.lock.locks|
    requires L.Reachable(y.lock) && Inv(y.set_) && |y.set_.vals| == |x.set_.vals|
    requires Leads(Created(|y.set_.vals|), y.done, y.set_) && Counters(y)
    requires JobOk(y.set_, y.lock.pc[t], y.jobs[t])
    requires forall u | 0 <= u < |x.jobs| && u != t :: JobOk(y.set_, x.lock.pc[u], x.jobs[u])
    ensures Valid(y)
  {
    hide Inv, Leads, Created, Counters, JobOk, L.Reachable;
  }

  lemma SameCounters(lock: L.State, lock': L.State, s: SemSet, s': SemSet, p: L.Pc, j: Job)
    requires CountersMatch(lock, s, p, j) && lock'.useGlobal == lock.useGlobal && lock'.complexCount == lock.complexCount
    requires s'.useGlobal == s.useGlobal && s'.complexCount == s.complexCount
    ensures CountersMatch(lock', s', p, j)
  {
  }

  // A thread that does not own the global lock has moved, and left the counters alone.
  lemma OutsiderMoves(x: System, y: System, t: nat)
    requires Valid(x) && t < |x.lock.pc| && !L.HoldsGlobal(x.lock.pc[t])
    requires |y.jobs| == |x.jobs| && |y.lock.pc| == |x.lock.pc|
    requires y.lock.pc == x.lock.pc[t := y.lock.pc[t]] && y.jobs == x.jobs[t := y.jobs[t]] && y.lock.global == x.lock.global
    requires y.lock.useGlobal == x.lock.useGlobal && y.lock.complexCount == x.lock.complexCount
    requires y.set_.useGlobal == x.set_.useGlobal && y.set_.complexCount == x.set_.complexCount
    ensures Counters(y)
  {
    PlacesOf(x, t);
    hide Inv, Leads, JobOk, L.Reachable, CountersMatch, L.InBounds, L.CounterOk;
    if x.lock.global.Some? {
      var h := x.lock.global.value;
      SameCounters(x.lock, y.lock, x.set_, y.set_, x.lock.pc[h], x.jobs[h]);
    } else {
      SameCounters(x.lock, y.lock, x.set_, y.set_, L.Idle, Nothing);
    }
  }

  // ---- moves that only concern the locks -------------------------------------------------------------

  predicate InSection(lock: L.State, t: nat)
    requires t < |lock.pc|
  {
    lock.pc[t].GWork? || lock.pc[t].LWork? || Enters(lock, t)
  }

  // The owner of the global lock makes a move of its own.
  lemma OwnerCounters(lock: L.State, s: SemSet, t: nat, j: Job)
    requires L.Can(lock, t, L.Run) && L.HoldsGlobal(lock.pc[t]) && !InSection(lock, t)
    requires CountersMatch(lock, s, lock.pc[t], j) && L.CounterOk(lock, lock.pc[t]) && 0 <= lock.useGlobal
    requires lock.pc[t].LSlowTest? ==> j.Call? && OneSemaphore(j.a)
    requires L.KnowsGlobalMode(lock.pc[t]) || lock.pc[t].GEnter? ==> lock.pc[t].GLeave? || (j.Call? && !OneSemaphore(j.a))
    ensures var l := L.Do(lock, t, L.Run);
      t < |l.pc| && l.global == (if lock.pc[t].GUnlock? || lock.pc[t].LSlowDrop? then L.None else lock.global)
      && CountersMatch(l, s, if lock.pc[t].GUnlock? then L.Idle else l.pc[t], if lock.pc[t].GUnlock? then Nothing else j)
  {
  }

  // Anybody else.
  lemma OutsiderCounters(lock: L.State, t: nat)
    requires L.Can(lock, t, L.Run) && !L.HoldsGlobal(lock.pc[t]) && !InSection(lock, t)
    ensures var l := L.Do(lock, t, L.Run);
      && l.useGlobal == lock.useGlobal && l.complexCount == lock.complexCount && |l.pc| == |lock.pc|
      && (if lock.pc[t].GLock? || lock.pc[t].LSlow? then
            lock.global.None? && l.global == L.Some(t) && (l.pc[t].GEnter? || l.pc[t].LSlowTest?)
          else l.global == lock.global)
  {
  }

  lemma LockMoveCounters(x: System, t: nat)
    requires Valid(x) && L.Can(x.lock, t, L.Run) && t < |x.lock.pc| && !InSection(x.lock, t)
    ensures Counters(x.(lock := L.Do(x.lock, t, L.Run)))
  {
    PlacesOf(x, t);
    L.SameThreads(x.lock, t, L.Run);
    hide Inv, Leads, Current, L.Do, L.Can, L.Inv, InSection, L.Reachable, L.InBounds, L.CounterOk;
    if L.HoldsGlobal(x.lock.pc[t]) {
      assert CountersMatch(x.lock, x.set_, x.lock.pc[t], x.jobs[t]);
      OwnerCounters(x.lock, x.set_, t, x.jobs[t]);
      hide CountersMatch;
    } else {
      OutsiderCounters(x.lock, t);
    }
  }

  lemma LockMoveJob(s: SemSet, lock: L.State, t: nat, j: Job)
    requires L.Can(lock, t, L.Run) && t < |lock.pc| && !InSection(lock, t) && JobOk(s, lock.pc[t], j)
    ensures t < |L.Do(lock, t, L.Run).pc| && JobOk(s, L.Do(lock, t, L.Run).pc[t], j)
  {
    hide Current;
  }

  lemma LockMoveJobs(x: System, t: nat)
    requires Valid(x) && L.Can(x.lock, t, L.Run) && t < |x.lock.pc| && !InSection(x.lock, t)
    ensures var lock := L.Do(x.lock, t, L.Run);
      |lock.pc| == |x.lock.pc| && forall u | 0 <= u < |x.jobs| :: JobOk(x.set_, lock.pc[u], x.jobs[u])
  {
    hide Inv, Leads, Counters, L.Do, L.Can, JobOk, L.Reachable;
    L.SameThreads(x.lock, t, L.Run);
    LockMoveJob(x.set_, x.lock, t, x.jobs[t]);
  }

  lemma LockMove(x: System, t: nat)
    requires Valid(x) && Can(x, Go(t)) && !InSection(x.lock, t)
    ensures Valid(Next(x, Go(t))) && Next(x, Go(t)).set_ == x.set_
  {
    CanGo(x, t);
    hide L.Do, L.Can, JobOk, Counters, Leads, Inv, L.Reachable;
    LockMoveCounters(x, t);
    LockMoveJobs(x, t);
    L.SameThreads(x.lock, t, L.Run);
    L.ReachableOn(x.lock, t, L.Run);
  }

  lemma AskMove(x: System, t: nat, a: Action)
    requires Valid(x) && Can(x, Ask(t, a))
    ensures Valid(Next(x, Ask(t, a))) && Next(x, Ask(t, a)).set_ == x.set_
  {
    var m := if OneSemaphore(a) then L.AskSemaphore(a.q.sops[0].num) else L.AskGlobal;
    AskIs(x.lock, t, m);
    L.ReachableOn(x.lock, t, m);
    var y := Next(x, Ask(t, a));
    hide Leads, Inv, Current, Counters, L.Reachable, L.Do, L.Can;
    OutsiderMoves(x, y, t);
    assert JobOk(y.set_, y.lock.pc[t], y.jobs[t]);
    hide JobOk;
    AllValid(x, y, t);
  }

  // ---- a thread enters the section of a semaphore -------------------------------------------------------

  // Then the counter is zero, whichever way it is looked at.
  lemma NoComplexMode(x: System, t: nat)
    requires Valid(x) && t < |x.lock.pc| && Enters(x.lock, t)
    ensures x.lock.useGlobal == 0 && x.set_.useGlobal == 0
  {
    PlacesOf(x, t);
    hide Inv, Leads, Current, JobOk;
    if x.lock.global.Some? {
      PlacesOf(x, x.lock.global.value);
    }
  }

  lemma EntersWith(s: SemSet, q: Request, n: nat)
    requires Inv(s) && s.useGlobal == 0 && Sound(s, q) && On(q, n)
    ensures Current(s, n, Section(q, s))
  {
    assert Fits(VarsOf(s, q), q.sops[0]);
  }

  lemma EnterCounters(x: System, t: nat)
    requires Valid(x) && Can(x, Go(t)) && Enters(x.lock, t)
    ensures Counters(Next(x, Go(t)))
  {
    EnterIs(x.lock, t);
    PlacesOf(x, t);
    var y := Next(x, Go(t));
    hide Leads, Inv, Current, JobOk, L.Reachable, L.Do, L.Can, L.InBounds, L.CounterOk;
    if x.lock.pc[t].LCheck? {
      hide Counters;
      OutsiderMoves(x, y, t);
    }
  }

  lemma Entering(x: System, t: nat)
    requires Valid(x) && Can(x, Go(t)) && Enters(x.lock, t)
    ensures var y, p, j := Next(x, Go(t)), L.LWork(x.lock.pc[t].k), Inside(x.jobs[t].a.q, x.set_);
      && y == x.(lock := L.Do(x.lock, t, L.Run), jobs := x.jobs[t := j]) && JobOk(x.set_, p, j)
      && y.lock == x.lock.(pc := x.lock.pc[t := p], global := y.lock.global)
  {
    hide Leads, Inv, Current, Counters, L.Reachable, L.Do, L.Can, CountersMatch;
    CanGo(x, t);
    NoComplexMode(x, t);
    EnterIs(x.lock, t);
    PlacesOf(x, t);
    EntersWith(x.set_, x.jobs[t].a.q, x.lock.pc[t].k);
  }

  lemma EnterMove(x: System, t: nat)
    requires Valid(x) && Can(x, Go(t)) && Enters(x.lock, t)
    ensures Valid(Next(x, Go(t))) && Next(x, Go(t)).set_ == x.set_
  {
    Entering(x, t);
    L.ReachableOn(x.lock, t, L.Run);
    EnterCounters(x, t);
    hide Next, Leads, Inv, Current, Counters, JobOk, L.Reachable, L.Do, L.Can;
    AllValid(x, Next(x, Go(t)), t);
  }

  // ---- a thread leaves it ----------------------------------------------------------------------------------

  // While anybody is in the section of a semaphore the set is not in complex mode.
  lemma NotComplexInside(x: System, t: nat)
    requires Valid(x) && t < |x.lock.pc| && x.lock.pc[t].LWork?
    ensures x.set_.useGlobal == 0
  {
    L.ReachableInv(x.lock);
    hide Inv, Leads, Current, JobOk;
    assert L.DrainPending(x.lock, t);
    if x.lock.global.Some? {
      PlacesOf(x, x.lock.global.value);
    }
  }

  // Another semaphore's section does not notice.
  lemma OtherStays(s: SemSet, n: nat, c: Section, m: nat, d: Section)
    requires Inv(s) && s.useGlobal == 0 && Current(s, n, c) && Current(s, m, d) && m != n
    ensures Sound(s, c.q) && Current(Semop(s, c.q).0, m, d)
  {
    SoundAgrees(c.before, s, n);
    SimpleOperationIsLocal(s, c.q, m);
  }

  lemma LeadsMore(n: nat, done: seq<Action>, s: SemSet, a: Action)
    requires Leads(Created(n), done, s) && QueuesSound(s) && Allowed(s, a)
    ensures Leads(Created(n), done + [a], Step(s, a))
  {
    hide Step, Allowed, QueuesSound, Created;
    assert Leads(Step(s, a), [], Step(s, a));
    LeadsFrom(s, a, [], Step(s, a));
    RunsJoin(Created(n), done, s, [a] + [], Step(s, a));
    assert [a] + [] == [a];
  }

  // Putting back the part of one semaphore is the whole operation on the set as it is by now, with the
  // result that the thread saw.
  lemma ReleaseMove(x: System, t: nat)
    requires Valid(x) && Can(x, Go(t)) && x.lock.pc[t].LWork?
    ensures Valid(Next(x, Go(t)))
    ensures var j := x.jobs[t];
      && j.Inside? && Inv(j.before) && Sound(j.before, j.q) && Sound(x.set_, j.q)
      && Next(x, Go(t)).set_ == Semop(x.set_, j.q).0 && Semop(x.set_, j.q).1 == Semop(j.before, j.q).1
  {
    PlacesOf(x, t);
    ReleaseIs(x.lock, t);
    L.ReachableOn(x.lock, t, L.Run);
    ReleasedSet(x, t);
    var y := Next(x, Go(t));
    NotComplexInside(x, t);
    var n, c := x.lock.pc[t].k, Section(x.jobs[t].q, x.jobs[t].before);
    hide Leads, Inv, Counters, Current, L.Reachable, Semop, Install, L.Do, L.Can, L.InBounds, L.CounterOk, Next;
    assert JobOk(y.set_, y.lock.pc[t], y.jobs[t]) by { Resting(x, t); }
    assert Current(x.set_, n, c);
    hide JobOk;
    forall u | 0 <= u < |x.jobs| && u != t ensures JobOk(y.set_, x.lock.pc[u], x.jobs[u]) {
      if x.lock.pc[u].LWork? {
        OneInside(x, t, u);
      }
      ReleasedOthers(x.set_, n, c, x.lock.pc[u], x.jobs[u]);
    }
    Resting(x, t);
    OutsiderMoves(x, y, t);
    AllValid(x, y, t);
  }

  lemma Resting(x: System, t: nat)
    requires Valid(x) && Can(x, Go(t)) && x.lock.pc[t].LWork?
    ensures var y := Next(x, Go(t));
      && x.lock.pc[t].k < |x.lock.locks| && x.jobs[t].Inside?
      && y.lock == x.lock.(pc := x.lock.pc[t := L.Idle], locks := x.lock.locks[x.lock.pc[t].k := L.None])
      && y.jobs == x.jobs[t := Nothing] && y.done == x.done + [DoSemop(x.jobs[t].q)]
  {
    PlacesOf(x, t);
    ReleaseIs(x.lock, t);
    hide Leads, Inv, Counters, L.Reachable, Semop, Install, L.Do, L.Can;
  }

  lemma ReleasedSet(x: System, t: nat)
    requires Valid(x) && Can(x, Go(t)) && x.lock.pc[t].LWork?
    ensures var s', j, s := Next(x, Go(t)).set_, x.jobs[t], x.set_;
      && j.Inside? && Inv(j.before) && Sound(j.before, j.q) && Sound(s, j.q)
      && s' == Semop(s, j.q).0 && Semop(s, j.q).1 == Semop(j.before, j.q).1
      && Inv(s') && |s'.vals| == |s.vals| && s'.useGlobal == s.useGlobal && s'.complexCount == s.complexCount
      && Leads(Created(|s'.vals|), x.done + [DoSemop(j.q)], s')
  {
    PlacesOf(x, t);
    var n, c := x.lock.pc[t].k, Section(x.jobs[t].q, x.jobs[t].before);
    NotComplexInside(x, t);
    InstallIsSemop(x.set_, n, c);
    SemopGlobals(x.set_, c.q, n);
    LeadsMore(|x.set_.vals|, x.done, x.set_, DoSemop(c.q));
    hide Leads, L.Reachable, Semop, L.Do, L.Can, Quiet, Structure;
  }

  lemma ReleasedOthers(s: SemSet, n: nat, c: Section, p: L.Pc, j: Job)
    requires Inv(s) && s.useGlobal == 0 && Current(s, n, c) && JobOk(s, p, j) && (p.LWork? ==> p.k != n)
    ensures Sound(s, c.q) && JobOk(Semop(s, c.q).0, p, j)
  {
    SoundAgrees(c.before, s, n);
    hide Inv, Semop, Current;
    if p.LWork? {
      OtherStays(s, n, c, p.k, Section(j.q, j.before));
    }
  }

  // ---- an operation in the section of the set -----------------------------------------------------------

  lemma NobodyElse(x: System, t: nat, u: nat)
    requires Valid(x) && t < |x.lock.pc| && u < |x.lock.pc| && x.lock.pc[t].GWork?
    ensures !x.lock.pc[u].LWork? && x.lock.global == L.Some(t) && (u != t ==> !x.lock.pc[u].GWork?) && x.lock.useGlobal > 0
  {
    L.ReachableInv(x.lock);
    hide Inv, Leads, Current, JobOk, Counters;
    assert L.CounterOk(x.lock, x.lock.pc[t]) && L.DrainPending(x.lock, u) && L.OwnsGlobal(x.lock, t) && L.OwnsGlobal(x.lock, u);
  }

  lemma CarriedKeeps(x: System, t: nat)
    requires Valid(x) && Can(x, Go(t)) && x.lock.pc[t].GWork?
    ensures var s', j := Carried(x.set_, x.jobs[t]), x.jobs[t];
      && Inv(s') && |s'.vals| == |x.set_.vals| && s'.complexCount >= 0
      && s'.useGlobal == L.TryLeave(x.lock.useGlobal, s'.complexCount)
      && Leads(Created(|s'.vals|), if j.Call? then x.done + [j.a] else x.done, s')
  {
    NobodyElse(x, t, t);
    var j := x.jobs[t];
    assert CountersMatch(x.lock, x.set_, x.lock.pc[t], j);
    hide JobOk, Current, L.Reachable, Leads;
    if j.Call? {
      StepKeepsInv(x.set_, j.a);
      StepCounts(x.set_, j.a);
      LeadsMore(|x.set_.vals|, x.done, x.set_, j.a);
      SameLength(x.set_, j.a);
    }
  }

  lemma SameLength(s: SemSet, a: Action)
    requires QueuesSound(s) && Allowed(s, a)
    ensures |Step(s, a).vals| == |s.vals|
  {
  }

  lemma LeavesJob(s: SemSet, j: Job)
    ensures JobOk(s, L.GLeave, j)
  {
  }

  lemma CarryMove(x: System, t: nat)
    requires Valid(x) && Can(x, Go(t)) && x.lock.pc[t].GWork?
    ensures Valid(Next(x, Go(t)))
  {
    var s' := Carried(x.set_, x.jobs[t]);
    CarriedKeeps(x, t);
    NobodyElse(x, t, t);
    CarryIs(x.lock, t, s'.complexCount);
    L.ReachableOn(x.lock, t, L.SetComplex(s'.complexCount));
    L.ReachableOn(L.Do(x.lock, t, L.SetComplex(s'.complexCount)), t, L.Run);
    hide Leads, Inv, L.Reachable, Carried, Current, L.Do, L.Can;
    forall u | 0 <= u < |x.jobs| && u != t ensures JobOk(s', x.lock.pc[u], x.jobs[u]) {
      NobodyElse(x, t, u);
      assert JobOk(x.set_, x.lock.pc[u], x.jobs[u]);
    }
    hide JobOk;
    LeavesJob(s', x.jobs[t]);
  }

  // ---- main results ------------------------------------------------------------------------------------------

  lemma MoveKeeps(x: System, e: Move)
    requires Valid(x) && Can(x, e)
    ensures Valid(Next(x, e))
  {
    assert |x.jobs| == |x.lock.pc|;
    hide Valid, Next, Can;
    match e
    case Ask(t, a) => AskMove(x, t, a);
    case Go(t) =>
      CanGo(x, t);
      if x.lock.pc[t].GWork? {
        CarryMove(x, t);
      } else if Enters(x.lock, t) {
        EnterMove(x, t);
      } else if x.lock.pc[t].LWork? {
        ReleaseMove(x, t);
      } else {
        LockMove(x, t);
      }
  }

  lemma CanGo(x: System, t: nat)
    requires Valid(x) && Can(x, Go(t))
    ensures t < |x.lock.pc| && L.Can(x.lock, t, L.Run)
  {
  }

  lemma InitialValid(x: System)
    requires Initial(x)
    ensures Valid(x)
  {
    CreatedInv(|x.lock.locks|);
    assert L.Leads(x.lock, [], x.lock);
  }

  ghost predicate Runs(x: System, run: seq<Move>, y: System)
    decreases |run|
  {
    if run == [] then x == y else Valid(x) && Can(x, run[0]) && Runs(Next(x, run[0]), run[1..], y)
  }

  lemma {:induction false} RunKeeps(x: System, run: seq<Move>, y: System)
    requires Valid(x) && Runs(x, run, y)
    ensures Valid(y) && |y.lock.locks| == |x.lock.locks|
    decreases |run|
  {
    hide Valid, Next, Can;
    if run != [] {
      MoveKeeps(x, run[0]);
      SameLocks(x, run[0]);
      RunKeeps(Next(x, run[0]), run[1..], y);
    }
  }

  lemma SameLocks(x: System, e: Move)
    requires Valid(x) && Can(x, e)
    ensures |Next(x, e).lock.locks| == |x.lock.locks|
  {
    hide Inv, Leads, JobOk, Counters, Carried, Install, Current;
    match e
    case Ask(t, a) => L.SameThreads(x.lock, t, if OneSemaphore(a) then L.AskSemaphore(a.q.sops[0].num) else L.AskGlobal);
    case Go(t) =>
      L.SameThreads(x.lock, t, L.Run);
      var c := if x.lock.pc[t].GWork? then Carried(x.set_, x.jobs[t]).complexCount else 0;
      if x.lock.pc[t].GWork? && c >= 0 {
        CarryIs(x.lock, t, c);
      }
      hide L.Do, L.Can;
  }

  // Whatever the threads do, with or without the global lock, one step at a time: the locks are in a state
  // of the protocol, and the set is the one that the operations put into effect lead to one by one.
  lemma SystemIsSerial(x: System, run: seq<Move>, y: System)
    requires Initial(x) && Runs(x, run, y)
    ensures L.Reachable(y.lock) && Leads(Created(|x.lock.locks|), y.done, y.set_) && Reachable(y.set_)
  {
    InitialValid(x);
    RunKeeps(x, run, y);
    hide Leads, Created, Inv;
  }

  // So nobody who could go on sleeps, at any moment; and when all threads are idle the counters that they
  // have seen are those of the set.
  lemma SystemIsQuiet(x: System, run: seq<Move>, y: System)
    requires Initial(x) && Runs(x, run, y)
    ensures QueuesSound(y.set_) && Quiet(y.set_)
    ensures (forall t | 0 <= t < |y.lock.pc| :: y.lock.pc[t].Idle?) ==>
      y.lock.useGlobal == y.set_.useGlobal && y.lock.complexCount == y.set_.complexCount
  {
    InitialValid(x);
    RunKeeps(x, run, y);
    NoLostWakeUp(y.set_) by { SystemIsSerial(x, run, y); }
    L.ReachableInv(y.lock);
    hide Leads, Quiet, QueuesSound, JobOk;
    if y.lock.global.Some? {
      assert L.OwnerKnown(y.lock, y.lock.global) && L.OwnsGlobal(y.lock, y.lock.global.value);
    }
  }
}
