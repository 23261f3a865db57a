// The hybrid locking protocol of a semaphore set: one global lock, one lock per semaphore, and
// the counter use_global_lock that decides which of the two a simple operation has to take.
// Any number of threads interleave, one shared-memory access at a time.
module SemLock {

  datatype Option<T> = None | Some(value: T)

  const HYSTERESIS := 10

  // Where a thread is in sem_lock() / sem_unlock(). The G-points belong to requests that need the
  // global lock, the L-points to requests on one semaphore k.
  datatype Pc =
    | Idle
    | GLock              // before ipc_lock_object()
    | GEnter             // owns the global lock, before the test in complexmode_enter()
    | GDrain(i: nat)     // before spin_lock(&sems[i].lock)
    | GDrained(i: nat)   // owns sems[i].lock as well, before spin_unlock()
    | GWork              // inside the global critical section
    | GLeave             // before complexmode_tryleave()
    | GUnlock            // before ipc_unlock_object()
    | LTest(k: nat)      // before the unlocked read of use_global_lock
    | LWait(k: nat)      // read 0, before spin_lock(&sems[k].lock)
    | LCheck(k: nat)     // owns sems[k].lock, before the second read of use_global_lock
    | LBack(k: nat)      // read a non-zero counter, before spin_unlock()
    | LSlow(k: nat)      // before ipc_lock_object()
    | LSlowTest(k: nat)  // owns the global lock, before the third read of use_global_lock
    | LSlowLock(k: nat)  // owns the global lock and read 0, before spin_lock(&sems[k].lock)
    | LSlowDrop(k: nat)  // owns both locks, before ipc_unlock_object()
    | LWork(k: nat)      // inside the critical section of semaphore k

  // locks[k] is the owner of sems[k].lock; pc[t] is the program counter of thread t.
  datatype State = State(useGlobal: int, complexCount: int, global: Option<nat>,
                         locks: seq<Option<nat>>, pc: seq<Pc>)

  // What an idle thread asks for, what a thread inside the global section does to the number of
  // sleeping complex operations, or simply the next instruction.
  datatype Move = AskGlobal | AskSemaphore(k: nat) | SetComplex(count: nat) | Run

  predicate Can(s: State, t: nat, m: Move) {
    t < |s.pc| &&
    match m
    case AskGlobal => s.pc[t].Idle?
    case AskSemaphore(k) => s.pc[t].Idle? && k < |s.locks|
    case SetComplex(_) => s.pc[t].GWork?
    case Run =>
      match s.pc[t]
      case Idle => false
      case GLock => s.global.None?
      case GDrain(i) => i < |s.locks| ==> s.locks[i].None?
      case GDrained(i) => i < |s.locks|
      case LWait(k) => k < |s.locks| && s.locks[k].None?
      case LCheck(k) => k < |s.locks|
      case LBack(k) => k < |s.locks|
      case LSlow(_) => s.global.None?
      case LSlowLock(k) => k < |s.locks| && s.locks[k].None?
      case LWork(k) => k < |s.locks|
      case _ => true
  }

  function Goto(s: State, t: nat, p: Pc): State
    requires t < |s.pc|
  {
    s.(pc := s.pc[t := p])
  }

  function TryLeave(useGlobal: int, complexCount: int): int {
    if complexCount != 0 then useGlobal
    else if useGlobal == 1 then 0
    else useGlobal - 1
  }

  function Do(s: State, t: nat, m: Move): State
    requires Can(s, t, m)
  {
    match m
    case AskGlobal => Goto(s, t, GLock)
    case AskSemaphore(k) => Goto(s, t, LTest(k))
    case SetComplex(c) => s.(complexCount := c)
    case Run =>
      match s.pc[t]
      case GLock => Goto(s, t, GEnter).(global := Some(t))
      case GEnter =>
        Goto(s, t, if s.useGlobal > 0 then GWork else GDrain(0)).(useGlobal := HYSTERESIS)
      case GDrain(i) =>
        if i < |s.locks| then Goto(s, t, GDrained(i)).(locks := s.locks[i := Some(t)])
        else Goto(s, t, GWork)
      case GDrained(i) => Goto(s, t, GDrain(i + 1)).(locks := s.locks[i := None])
      case GWork => Goto(s, t, GLeave)
      case GLeave => Goto(s, t, GUnlock).(useGlobal := TryLeave(s.useGlobal, s.complexCount))
      case GUnlock => Goto(s, t, Idle).(global := None)
      case LTest(k) => Goto(s, t, if s.useGlobal == 0 then LWait(k) else LSlow(k))
      case LWait(k) => Goto(s, t, LCheck(k)).(locks := s.locks[k := Some(t)])
      case LCheck(k) => Goto(s, t, if s.useGlobal == 0 then LWork(k) else LBack(k))
      case LBack(k) => Goto(s, t, LSlow(k)).(locks := s.locks[k := None])
      case LSlow(k) => Goto(s, t, LSlowTest(k)).(global := Some(t))
      case LSlowTest(k) => Goto(s, t, if s.useGlobal == 0 then LSlowLock(k) else GWork)
      case LSlowLock(k) => Goto(s, t, LSlowDrop(k)).(locks := s.locks[k := Some(t)])
      case LSlowDrop(k) => Goto(s, t, LWork(k)).(global := None)
      case LWork(k) => Goto(s, t, Idle).(locks := s.locks[k := None])
  }

  datatype Event = Event(thread: nat, move: Move)

  // newary(): the creating thread still owns the global lock that ipc_addid() took.
  ghost predicate Initial(s: State) {
    && s.useGlobal == HYSTERESIS && s.complexCount == 0
    && (forall k | 0 <= k < |s.locks| :: s.locks[k].None?)
    && 0 < |s.pc| && s.pc[0].GWork? && s.global == Some(0)
    && (forall t | 0 < t < |s.pc| :: s.pc[t].Idle?)
  }

  ghost predicate Leads(s: State, schedule: seq<Event>, s': State)
    decreases |schedule|
  {
    if schedule == [] then s' == s
    else
      Can(s, schedule[0].thread, schedule[0].move) &&
      Leads(Do(s, schedule[0].thread, schedule[0].move), schedule[1..], s')
  }

  ghost predicate Reachable(s: State) {
    exists s0, schedule :: Initial(s0) && Leads(s0, schedule, s)
  }

  // ---- the inductive invariant -------------------------------------------------------------

  predicate HoldsGlobal(p: Pc) {
    p.GEnter? || p.GDrain? || p.GDrained? || p.GWork? || p.GLeave? || p.GUnlock? ||
    p.LSlowTest? || p.LSlowLock? || p.LSlowDrop?
  }

  predicate HoldsSem(p: Pc, k: nat) {
    p == GDrained(k) || p == LCheck(k) || p == LBack(k) || p == LSlowDrop(k) || p == LWork(k)
  }

  // The semaphores this drainer has not waited for yet start at i.
  predicate DrainsFrom(p: Pc, k: nat) {
    (p.GDrain? && p.i <= k) || (p.GDrained? && p.i <= k)
  }

  predicate KnowsGlobalMode(p: Pc) {
    p.GDrain? || p.GDrained? || p.GWork? || p.GLeave?
  }

  predicate OwnsGlobal(s: State, t: nat)
    requires t < |s.pc|
  {
    HoldsGlobal(s.pc[t]) <==> s.global == Some(t)
  }

  predicate OwnsSem(s: State, t: nat, k: nat)
    requires t < |s.pc| && k < |s.locks|
  {
    HoldsSem(s.pc[t], k) <==> s.locks[k] == Some(t)
  }

  predicate OwnerKnown(s: State, owner: Option<nat>) {
    owner.Some? ==> owner.value < |s.pc|
  }

  ghost predicate Owners(s: State) {
    && (forall t | 0 <= t < |s.pc| :: OwnsGlobal(s, t))
    && OwnerKnown(s, s.global)
    && (forall t, k | 0 <= t < |s.pc| && 0 <= k < |s.locks| :: OwnsSem(s, t, k))
    && (forall k | 0 <= k < |s.locks| :: OwnerKnown(s, s.locks[k]))
  }

  predicate OnSemaphore(p: Pc) {
    p.LTest? || p.LWait? || p.LCheck? || p.LBack? || p.LSlow? || p.LSlowTest? || p.LSlowLock? ||
    p.LSlowDrop? || p.LWork?
  }

  predicate InBounds(p: Pc, n: nat) {
    && (p.GDrain? ==> p.i <= n) && (p.GDrained? ==> p.i < n)
    && (OnSemaphore(p) ==> p.k < n)
  }

  predicate CounterOk(s: State, p: Pc) {
    && (KnowsGlobalMode(p) ==> s.useGlobal > 0)
    && (p.LSlowLock? || p.LSlowDrop? ==> s.useGlobal == 0)
    && (p.GDrain? || p.GDrained? || p.LWork? ==> s.complexCount == 0)
  }

  // While the counter is positive, a thread inside a semaphore's section can only be one that a
  // drainer has still to wait for.
  ghost predicate DrainPending(s: State, t: nat)
    requires t < |s.pc|
  {
    s.useGlobal > 0 && s.pc[t].LWork? ==>
      s.global.Some? && s.global.value < |s.pc| && DrainsFrom(s.pc[s.global.value], s.pc[t].k)
  }

  ghost predicate Inv(s: State) {
    && 0 <= s.useGlobal <= HYSTERESIS
    && 0 <= s.complexCount
    && (s.complexCount > 0 ==> s.useGlobal > 0)
    && Owners(s)
    && (forall t | 0 <= t < |s.pc| :: InBounds(s.pc[t], |s.locks|))
    && (forall t | 0 <= t < |s.pc| :: CounterOk(s, s.pc[t]))
    && (forall t | 0 <= t < |s.pc| :: DrainPending(s, t))
  }

  lemma InitialInv(s: State)
    requires Initial(s)
    ensures Inv(s)
  {
  }

  lemma SameThreads(s: State, t: nat, m: Move)
    requires Can(s, t, m)
    ensures |Do(s, t, m).pc| == |s.pc| && |Do(s, t, m).locks| == |s.locks|
    ensures forall u | 0 <= u < |s.pc| && u != t :: Do(s, t, m).pc[u] == s.pc[u]
  {
  }

  lemma StepOwnsGlobal(s: State, t: nat, m: Move, u: nat)
    requires Can(s, t, m) && u < |s.pc| && OwnsGlobal(s, t) && OwnsGlobal(s, u)
    ensures u < |Do(s, t, m).pc| && OwnsGlobal(Do(s, t, m), u)
  {
  }

  lemma StepOwnsSem(s: State, t: nat, m: Move, u: nat, k: nat)
    requires Can(s, t, m) && InBounds(s.pc[t], |s.locks|) && u < |s.pc| && k < |s.locks|
    requires OwnsSem(s, u, k) && OwnsSem(s, t, k)
    ensures u < |Do(s, t, m).pc| && k < |Do(s, t, m).locks| && OwnsSem(Do(s, t, m), u, k)
  {
  }

  lemma StepOwnersKnown(s: State, t: nat, m: Move)
    requires Can(s, t, m) && OwnerKnown(s, s.global) && forall k | 0 <= k < |s.locks| :: OwnerKnown(s, s.locks[k])
    ensures OwnerKnown(Do(s, t, m), Do(s, t, m).global)
    ensures forall k | 0 <= k < |Do(s, t, m).locks| :: OwnerKnown(Do(s, t, m), Do(s, t, m).locks[k])
  {
  }

  lemma StepKeepsOwners(s: State, t: nat, m: Move)
    requires Inv(s) && Can(s, t, m)
    ensures Owners(Do(s, t, m))
  {
    hide Do, Can, OwnsGlobal, OwnsSem, OwnerKnown, InBounds, CounterOk, DrainPending;
    var s' := Do(s, t, m);
    CanBound(s, t, m);
    SameThreads(s, t, m);
    StepOwnersKnown(s, t, m);
    assert OwnsGlobal(s, t) && InBounds(s.pc[t], |s.locks|);
    forall u | 0 <= u < |s'.pc| ensures OwnsGlobal(s', u) {
      assert OwnsGlobal(s, u);
      StepOwnsGlobal(s, t, m, u);
    }
    forall u, k | 0 <= u < |s'.pc| && 0 <= k < |s'.locks| ensures OwnsSem(s', u, k) {
      assert OwnsSem(s, u, k) && OwnsSem(s, t, k);
      StepOwnsSem(s, t, m, u, k);
    }
  }

  lemma CanBound(s: State, t: nat, m: Move)
    requires Can(s, t, m)
    ensures t < |s.pc|
  {
  }

  // The counters after a step of thread t.
  lemma StepCounters(s: State, t: nat, m: Move)
    requires Inv(s) && Can(s, t, m)
    ensures var s' := Do(s, t, m);
      && 0 <= s'.useGlobal <= HYSTERESIS
      && 0 <= s'.complexCount
      && (s'.complexCount > 0 ==> s'.useGlobal > 0)
  {
    assert CounterOk(s, s.pc[t]) && OwnsGlobal(s, t);
  }

  // What the step means for the thread that takes it.
  lemma StepCounterOwn(s: State, t: nat, m: Move)
    requires Can(s, t, m) && 0 <= s.useGlobal && 0 <= s.complexCount && (s.complexCount > 0 ==> s.useGlobal > 0)
    requires CounterOk(s, s.pc[t]) && InBounds(s.pc[t], |s.locks|)
    ensures var s' := Do(s, t, m);
      t < |s'.pc| && InBounds(s'.pc[t], |s'.locks|) && CounterOk(s', s'.pc[t])
  {
  }

  // And for another thread u: the counters only change under the global lock.
  lemma StepCounterOther(s: State, t: nat, m: Move, u: nat)
    requires Can(s, t, m) && u < |s.pc| && u != t
    requires CounterOk(s, s.pc[t]) && OwnsGlobal(s, t)
    requires CounterOk(s, s.pc[u]) && OwnsGlobal(s, u) && DrainPending(s, u)
    ensures var s' := Do(s, t, m); u < |s'.pc| && CounterOk(s', s'.pc[u])
  {
    if HoldsGlobal(s.pc[t]) {
      assert !HoldsGlobal(s.pc[u]) && s.global == Some(t);
    } else {
      assert Do(s, t, m).useGlobal == s.useGlobal && Do(s, t, m).complexCount == s.complexCount;
    }
  }

  lemma StepKeepsCounter(s: State, t: nat, m: Move)
    requires Inv(s) && Can(s, t, m)
    ensures
      var s' := Do(s, t, m);
      && 0 <= s'.useGlobal <= HYSTERESIS
      && 0 <= s'.complexCount
      && (s'.complexCount > 0 ==> s'.useGlobal > 0)
      && (forall u | 0 <= u < |s'.pc| :: InBounds(s'.pc[u], |s'.locks|))
      && (forall u | 0 <= u < |s'.pc| :: CounterOk(s', s'.pc[u]))
  {
    hide Do, Can, OwnsGlobal, OwnsSem, OwnerKnown, InBounds, CounterOk, DrainPending;
    var s' := Do(s, t, m);
    CanBound(s, t, m);
    SameThreads(s, t, m);
    StepCounters(s, t, m);
    assert CounterOk(s, s.pc[t]) && OwnsGlobal(s, t) && InBounds(s.pc[t], |s.locks|);
    forall u | 0 <= u < |s'.pc| ensures InBounds(s'.pc[u], |s'.locks|) && CounterOk(s', s'.pc[u]) {
      assert InBounds(s.pc[u], |s.locks|) && CounterOk(s, s.pc[u]);
      assert OwnsGlobal(s, u) && DrainPending(s, u);
      if u == t {
        StepCounterOwn(s, t, m);
      } else {
        StepCounterOther(s, t, m, u);
      }
    }
  }

  lemma StepKeepsDrain(s: State, t: nat, m: Move)
    requires Inv(s) && Can(s, t, m)
    ensures
      var s' := Do(s, t, m);
      forall u | 0 <= u < |s'.pc| :: DrainPending(s', u)
  {
    var s' := Do(s, t, m);
    forall u | 0 <= u < |s'.pc| ensures DrainPending(s', u) {
      assert DrainPending(s, u) && CounterOk(s, s.pc[u]) && InBounds(s.pc[u], |s.locks|);
      assert CounterOk(s, s.pc[t]) && OwnsGlobal(s, t) && OwnsGlobal(s, u);
      if s.pc[u].LWork? {
        // A semaphore whose section is occupied cannot be the one the drainer holds.
        assert OwnsSem(s, u, s.pc[u].k) && OwnsSem(s, t, s.pc[u].k);
      }
    }
  }

  lemma StepKeepsInv(s: State, t: nat, m: Move)
    requires Inv(s) && Can(s, t, m)
    ensures Inv(Do(s, t, m))
  {
    StepKeepsOwners(s, t, m);
    StepKeepsCounter(s, t, m);
    StepKeepsDrain(s, t, m);
  }

  lemma {:induction false} RunKeepsInv(s: State, schedule: seq<Event>, s': State)
    requires Inv(s) && Leads(s, schedule, s')
    ensures Inv(s')
    decreases |schedule|
  {
    if schedule != [] {
      var e := schedule[0];
      StepKeepsInv(s, e.thread, e.move);
      RunKeepsInv(Do(s, e.thread, e.move), schedule[1..], s');
    }
  }

  lemma ReachableInv(s: State)
    requires Reachable(s)
    ensures Inv(s)
  {
    var s0, schedule :| Initial(s0) && Leads(s0, schedule, s);
    InitialInv(s0);
    RunKeepsInv(s0, schedule, s);
  }

  lemma {:induction false} LeadsOn(s0: State, schedule: seq<Event>, s: State, e: Event)
    requires Leads(s0, schedule, s) && Can(s, e.thread, e.move)
    ensures Leads(s0, schedule + [e], Do(s, e.thread, e.move))
    decreases |schedule|
  {
    hide Can, Do;
    if schedule == [] {
      assert [] + [e] == [e] && [e][1..] == [];
    } else {
      var f := schedule[0];
      assert (schedule + [e])[0] == f && (schedule + [e])[1..] == schedule[1..] + [e];
      LeadsOn(Do(s0, f.thread, f.move), schedule[1..], s, e);
    }
  }

  lemma ReachableOn(s: State, t: nat, m: Move)
    requires Reachable(s) && Can(s, t, m)
    ensures Reachable(Do(s, t, m))
  {
    hide Can, Do, Leads, Initial;
    var s0, schedule :| Initial(s0) && Leads(s0, schedule, s);
    LeadsOn(s0, schedule, s, Event(t, m));
    assert Leads(s0, schedule + [Event(t, m)], Do(s, t, m));
  }

  // ---- main results ------------------------------------------------------------------------

  predicate InGlobalSection(p: Pc) {
    p.GWork? || p.GLeave?
  }

  // For every number of threads and semaphores and every interleaving: the global section
  // excludes every semaphore's section and itself, and a semaphore's section excludes itself.
  // No complex operation sleeps while anybody is inside a semaphore's section, so a simple
  // operation that runs under its semaphore's lock alone may treat the global queues as empty.
  lemma SectionsExclude(s: State, t: nat, u: nat)
    requires Reachable(s) && t < |s.pc| && u < |s.pc| && t != u
    ensures InGlobalSection(s.pc[t]) ==> !s.pc[u].LWork? && !InGlobalSection(s.pc[u])
    ensures s.pc[t].LWork? && s.pc[u].LWork? ==> s.pc[t].k != s.pc[u].k
    ensures s.pc[t].LWork? ==> s.complexCount == 0
    ensures 0 <= s.useGlobal <= HYSTERESIS
    ensures s.complexCount > 0 ==> s.useGlobal > 0
    ensures InGlobalSection(s.pc[t]) ==> s.useGlobal > 0
  {
    ReachableInv(s);
    assert DrainPending(s, u);
    assert OwnsGlobal(s, t) && OwnsGlobal(s, u);
    assert InBounds(s.pc[t], |s.locks|) && InBounds(s.pc[u], |s.locks|);
    assert CounterOk(s, s.pc[t]);
    if s.pc[t].LWork? {
      assert OwnsSem(s, t, s.pc[t].k) && OwnsSem(s, u, s.pc[t].k);
    }
  }

  // complexmode_enter() skips the drain when the counter is already positive; by then nobody is
  // left inside a semaphore's section.
  lemma ShortcutNeedsNoDrain(s: State, t: nat, u: nat)
    requires Reachable(s) && t < |s.pc| && u < |s.pc|
    requires s.pc[t].GEnter? && s.useGlobal > 0
    ensures Can(s, t, Run) && Do(s, t, Run).pc[t].GWork?
    ensures !s.pc[u].LWork?
  {
    ReachableInv(s);
    assert DrainPending(s, u);
    assert OwnsGlobal(s, t);
  }

  // The thread that keeps t from running its next instruction.
  function Blocker(s: State, t: nat): Option<nat>
    requires t < |s.pc| && InBounds(s.pc[t], |s.locks|)
  {
    match s.pc[t]
    case GLock => s.global
    case LSlow(_) => s.global
    case GDrain(i) => if i < |s.locks| then s.locks[i] else None
    case LWait(k) => s.locks[k]
    case LSlowLock(k) => s.locks[k]
    case _ => None
  }

  // Only locks stop a thread, and a semaphore's lock is never held by a thread that waits.
  lemma Obstacle(s: State, t: nat) returns (u: nat)
    requires Inv(s) && t < |s.pc| && !s.pc[t].Idle? && !Can(s, t, Run)
    ensures InBounds(s.pc[t], |s.locks|) && Blocker(s, t) == Some(u)
    ensures u < |s.pc| && !s.pc[u].Idle?
    ensures ((s.pc[t].GLock? || s.pc[t].LSlow?) && HoldsGlobal(s.pc[u])) || Can(s, u, Run)
  {
    assert InBounds(s.pc[t], |s.locks|);
    u := Blocker(s, t).value;
    if s.pc[t].GLock? || s.pc[t].LSlow? {
      assert OwnerKnown(s, s.global) && OwnsGlobal(s, u);
    } else {
      var k := if s.pc[t].GDrain? then s.pc[t].i else s.pc[t].k;
      assert OwnerKnown(s, s.locks[k]) && OwnsSem(s, u, k);
    }
  }

  // Waiting chains are short and never close: a thread that is not idle can run, or the owner of
  // the lock it waits for can, or the owner of the lock that one waits for can.
  lemma NoDeadlock(s: State, t: nat)
    requires Reachable(s) && t < |s.pc| && !s.pc[t].Idle?
    ensures
      || Can(s, t, Run)
      || exists u | 0 <= u < |s.pc| ::
           && (InBounds(s.pc[t], |s.locks|) && Blocker(s, t) == Some(u))
           && (Can(s, u, Run) ||
               exists v | 0 <= v < |s.pc| ::
                 InBounds(s.pc[u], |s.locks|) && Blocker(s, u) == Some(v) && Can(s, v, Run))
  {
    ReachableInv(s);
    if !Can(s, t, Run) {
      var u := Obstacle(s, t);
      if !Can(s, u, Run) {
        var v := Obstacle(s, u);
        assert Blocker(s, u) == Some(v);
      }
      assert Blocker(s, t) == Some(u);
    }
  }
}
