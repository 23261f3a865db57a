// Simple operations that overlap, each under the lock of its own semaphore, have the effect of the
// same operations one after the other, in the order in which the locks are released.
module SemOverlap {
  import opened SemOps
  import opened SemSpec
  import opened SemRuns
  import opened SemHistory
  import opened SemLocal

  predicate On(r: Request, n: nat) {
    |r.sops| == 1 && r.sops[0].num == n
  }

  // ---- a request reads nothing but the part of its semaphore ---------------------------------------

  lemma SoundAgrees(s: SemSet, t: SemSet, n: nat)
    requires Untouched(s, t, n)
    ensures forall q :: Sound(s, q) <==> Sound(t, q)
  {
    SoundIsStable(s, t);
  }

  lemma OneStop(v: Vars, sops: seq<Sembuf>)
    requires |sops| == 1 && AllFit(v, sops)
    ensures Check(v, sops, 0).Fine? ==> Attempt(v, sops) == Done(After(v, sops, 1))
    ensures !Check(v, sops, 0).Fine? ==> FirstStop(v, sops, 0) == 0
  {
    if Check(v, sops, 0).Fine? {
      StopIsUnique(v, sops, 1);
    } else {
      StopIsUnique(v, sops, 0);
    }
  }

  // The adjustment that a request of one operation looks at.
  function Adjustment(s: SemSet, r: Request): int
    requires |r.sops| == 1
  {
    if r.sops[0].undo && r.sops[0].num < |Row(s.adj, r.un)| then Row(s.adj, r.un)[r.sops[0].num] else 0
  }

  lemma JudgedByPart(s: SemSet, r: Request, n: nat)
    requires Sound(s, r) && On(r, n)
    ensures n < |s.vals| && Check(VarsOf(s, r), r.sops, 0) == Judge(r.sops[0], s.vals[n], Adjustment(s, r))
  {
    assert Fits(VarsOf(s, r), r.sops[0]);
    assert Sum(r.sops, n, 0) == 0 && UndoSum(r.sops, n, 0) == 0;
  }

  lemma TryAgrees(s: SemSet, t: SemSet, r: Request, n: nat)
    requires Untouched(s, t, n) && Sound(s, r) && Sound(t, r) && On(r, n)
    ensures Try(s, r).Sleep? <==> Try(t, r).Sleep?
    ensures Try(s, r).Done? <==> Try(t, r).Done?
    ensures Code(Try(s, r)) == Code(Try(t, r))
  {
    JudgedByPart(s, r, n);
    JudgedByPart(t, r, n);
    OneStop(VarsOf(s, r), r.sops);
    OneStop(VarsOf(t, r), r.sops);
    assert Adjustment(s, r) == Adjustment(t, r);
  }

  // What a single operation leaves, in the part of its semaphore.
  lemma DoneInPart(s: SemSet, r: Request, n: nat)
    requires Sound(s, r) && On(r, n) && Try(s, r).Done?
    ensures var a := Applied(s, r);
      && n < |s.vals| == |a.vals| && a.vals[n] == s.vals[n] + r.sops[0].op
      && a == s.(vals := a.vals, adj := a.adj) && a.adj.Keys == s.adj.Keys
      && forall u | u in s.adj :: |a.adj[u]| == |s.adj[u]| && (n < |s.adj[u]| ==>
           a.adj[u][n] == if r.un == Some(u) && r.sops[0].undo then s.adj[u][n] - r.sops[0].op else s.adj[u][n])
  {
    var v := VarsOf(s, r);
    assert Fits(v, r.sops[0]);
    OneStop(v, r.sops);
    AfterStep(v, r.sops, 0);
    AfterNone(v, r.sops);
  }

  lemma AppliedAgrees(s: SemSet, t: SemSet, r: Request, n: nat)
    requires Untouched(s, t, n) && Sound(s, r) && Sound(t, r) && On(r, n)
    ensures Untouched(Applied(s, r), Applied(t, r), n)
  {
    TryAgrees(s, t, r, n);
    if Try(s, r).Done? {
      DoneInPart(s, r, n);
      DoneInPart(t, r, n);
      hide Sound, Try, Applied;
    }
  }

  // ---- nor do the scans of its queues ----------------------------------------------------------------

  // Two states that agree on semaphore n, and have woken the same sleepers since ws and wt.
  ghost predicate Together(s: SemSet, t: SemSet, n: nat, ws: seq<Wake>, wt: seq<Wake>) {
    Untouched(s, t, n) && ws <= s.woken && wt <= t.woken && s.woken[|ws|..] == t.woken[|wt|..]
  }

  predicate AllOn(l: seq<Request>, n: nat) {
    forall i | 0 <= i < |l| :: On(l[i], n)
  }

  lemma {:induction false} StayAgrees(s: SemSet, t: SemSet, l: seq<Request>, n: nat)
    requires Untouched(s, t, n) && AllSound(s, l) && AllSound(t, l) && AllOn(l, n)
    ensures Stay(s, l) == Stay(t, l) && Leave(s, l) == Leave(t, l)
  {
    hide Untouched, Sound, Try, Code;
    if l != [] {
      TryAgrees(s, t, l[0], n);
      StayAgrees(s, t, l[1..], n);
    }
  }

  lemma MoreWoken(a: seq<Wake>, b: seq<Wake>, ws: seq<Wake>, wt: seq<Wake>, w: seq<Wake>)
    requires ws <= a && wt <= b && a[|ws|..] == b[|wt|..]
    ensures ws <= a + w && wt <= b + w && (a + w)[|ws|..] == (b + w)[|wt|..]
  {
    assert (a + w)[|ws|..] == a[|ws|..] + w && (b + w)[|wt|..] == b[|wt|..] + w;
  }

  lemma WakeConstTogether(s: SemSet, t: SemSet, n: nat, ws: seq<Wake>, wt: seq<Wake>)
    requires Together(s, t, n, ws, wt) && Structure(s) && Structure(t)
    ensures Together(WakeConst(s, Of(n)), WakeConst(t, Of(n)), n, ws, wt)
  {
    var l := s.constOf[n];
    assert AllOn(l, n);
    StayAgrees(s, t, l, n);
    MoreWoken(s.woken, t.woken, ws, wt, Leave(s, l));
  }

  // Nobody waits in the queue of the set, so nothing happens there.
  lemma NobodyInSet(s: SemSet)
    requires s.const_ == []
    ensures WakeConst(s, Global) == s
  {
    assert Stay(s, []) == [] && s.woken + [] == s.woken;
  }

  // do_smart_wakeup_zero() after an operation on n.
  function WakeOne(s: SemSet, n: nat): SemSet
    requires QueuesSound(s) && n < |s.vals|
  {
    if s.vals[n] == 0 then WakeConst(s, Of(n)) else s
  }

  lemma WakeZeroIsOne(s: SemSet, n: nat)
    requires QueuesSound(s) && n < |s.vals| && s.const_ == []
    ensures Nums(s, [n]) && WakeZero(s, [n]) == WakeOne(s, n)
  {
    var t := WakeOne(s, n);
    if s.vals[n] == 0 {
      WakeConstKeepsSound(s, Of(n));
      assert ZeroScan(t, [n], 1) == t;
      assert [n][0] == n;
    } else {
      assert ZeroScan(s, [n], 1) == s;
    }
    assert ZeroScan(s, [n], 0) == t;
    NobodyInSet(t);
  }

  lemma WakeZeroTogether(s: SemSet, t: SemSet, n: nat, ws: seq<Wake>, wt: seq<Wake>)
    requires Together(s, t, n, ws, wt) && Structure(s) && Structure(t) && s.const_ == []
    ensures Nums(s, [n]) && Nums(t, [n]) && Together(WakeZero(s, [n]), WakeZero(t, [n]), n, ws, wt)
  {
    WakeZeroIsOne(s, n);
    WakeZeroIsOne(t, n);
    WakeConstTogether(s, t, n, ws, wt);
  }

  lemma {:induction false} FirstReadyAgrees(s: SemSet, t: SemSet, l: seq<Request>, i: nat, n: nat)
    requires Untouched(s, t, n) && AllSound(s, l) && AllSound(t, l) && AllOn(l, n) && i <= |l|
    ensures FirstReady(s, l, i) == FirstReady(t, l, i)
    decreases |l| - i
  {
    hide Untouched, Sound, Try;
    if i < |l| {
      TryAgrees(s, t, l[i], n);
      FirstReadyAgrees(s, t, l, i + 1, n);
    }
  }

  // Finish(), in three steps: the entry leaves, it is done, its sleeper is woken.
  lemma UnlinkTogether(s: SemSet, t: SemSet, n: nat, i: nat, ws: seq<Wake>, wt: seq<Wake>)
    requires Together(s, t, n, ws, wt) && QueuesSound(s) && QueuesSound(t) && i < |s.alterOf[n]|
    ensures Together(Unlink(s, Of(n), i), Unlink(t, Of(n), i), n, ws, wt)
  {
  }

  lemma DoneTogether(u: SemSet, v: SemSet, q: Request, n: nat, ws: seq<Wake>, wt: seq<Wake>)
    requires Together(u, v, n, ws, wt) && Structure(u) && Structure(v) && u.const_ == []
    requires Sound(u, q) && Sound(v, q) && On(q, n)
    ensures SopNums(q.sops) == [n] && Structure(Applied(u, q)) && Structure(Applied(v, q))
    ensures Nums(Applied(u, q), [n]) && Nums(Applied(v, q), [n])
    ensures Together(Applied(u, q), Applied(v, q), n, ws, wt)
    ensures Together(WakeZero(Applied(u, q), [n]), WakeZero(Applied(v, q), [n]), n, ws, wt)
  {
    AppliedAgrees(u, v, q, n);
    AppliedStructure(u, q);
    AppliedStructure(v, q);
    assert SopNums(q.sops) == [n];
    hide Structure, Sound, Untouched;
    WakeZeroTogether(Applied(u, q), Applied(v, q), n, ws, wt);
  }

  lemma WokenTogether(x: SemSet, y: SemSet, n: nat, ws: seq<Wake>, wt: seq<Wake>, w: seq<Wake>)
    requires Together(x, y, n, ws, wt)
    ensures Together(x.(woken := x.woken + w), y.(woken := y.woken + w), n, ws, wt)
  {
    MoreWoken(x.woken, y.woken, ws, wt, w);
  }

  lemma FinishTogether(s: SemSet, t: SemSet, n: nat, i: nat, ws: seq<Wake>, wt: seq<Wake>)
    requires Together(s, t, n, ws, wt) && Structure(s) && Structure(t) && s.const_ == [] && i < |s.alterOf[n]|
    ensures Together(Finish(s, Of(n), i), Finish(t, Of(n), i), n, ws, wt)
  {
    var q := s.alterOf[n][i];
    assert Decrement(q, n);
    var u, v := Unlink(s, Of(n), i), Unlink(t, Of(n), i);
    UnlinkedSound(s, Of(n), i);
    UnlinkedSound(t, Of(n), i);
    UnlinkTogether(s, t, n, i, ws, wt);
    UnlinkStructure(s, Of(n), i);
    UnlinkStructure(t, Of(n), i);
    assert u.const_ == [];
    hide Structure, QueuesSound, Untouched, Sound, Unlink, Try, Code, Applied, WakeZero;
    TryAgrees(u, v, q, n);
    DoneTogether(u, v, q, n, ws, wt);
    var x := if Try(u, q).Done? then WakeZero(Applied(u, q), [n]) else Applied(u, q);
    var y := if Try(v, q).Done? then WakeZero(Applied(v, q), [n]) else Applied(v, q);
    WokenTogether(x, y, n, ws, wt, [Wake(q, Code(Try(u, q)))]);
  }

  lemma {:induction false} ServeTogether(s: SemSet, t: SemSet, n: nat, ws: seq<Wake>, wt: seq<Wake>)
    requires Together(s, t, n, ws, wt) && Structure(s) && Structure(t) && s.const_ == []
    ensures Together(Serve(s, Of(n)), Serve(t, Of(n)), n, ws, wt)
    decreases |s.alterOf[n]|
  {
    var l := s.alterOf[n];
    assert AllOn(l, n);
    FirstReadyAgrees(s, t, l, 0, n);
    hide Kinds, Ranges, Untouched, Sound, Try, Finish;
    var i := FirstReady(s, l, 0);
    if i < |l| {
      FinishStructure(s, Of(n), i);
      FinishStructure(t, Of(n), i);
      FinishTogether(s, t, n, i, ws, wt);
      ZeroedConst(s, n, i);
      ServeTogether(Finish(s, Of(n), i), Finish(t, Of(n), i), n, ws, wt);
    }
  }

  lemma ZeroedConst(s: SemSet, n: nat, i: nat)
    requires Structure(s) && n < |s.vals| && i < |s.alterOf[n]| && s.const_ == []
    ensures Finish(s, Of(n), i).const_ == []
  {
    var q := s.alterOf[n][i];
    assert Sound(s, q) && Decrement(q, n);
    var u := Unlink(s, Of(n), i);
    assert Sound(u, q) && SopNums(q.sops) == [n];
    AppliedKeepsSound(u, q);
    WakeZeroIsOne(Applied(u, q), n);
  }

  // ---- nor does the whole operation ------------------------------------------------------------------

  // do_smart_update() after an operation on n, while the queues of the set are empty.
  function UpdateOne(s: SemSet, n: nat, up: bool): SemSet
    requires QueuesSound(s) && n < |s.vals| && Nums(s, [n])
  {
    if up then Serve(WakeZero(s, [n]), Of(n)) else WakeZero(s, [n])
  }

  lemma UpdateIsOne(s: SemSet, q: Request, n: nat)
    requires QueuesSound(s) && n < |s.vals| && On(q, n) && s.alter == []
    ensures Nums(s, [n]) && SopsBelow(s, Some(q.sops))
    ensures SmartUpdate(s, Some(q.sops)) == UpdateOne(s, n, q.sops[0].op > 0)
  {
    assert SopNums(q.sops) == [n] && q.sops[1..] == [];
    ZeroKeepsAlter(s, [n]);
    var t := WakeZero(s, [n]);
    if q.sops[0].op > 0 {
      assert Increased(q.sops) == [n];
      assert ServeEach(t, [n], 0) == Serve(t, Of(n));
    } else {
      assert Increased(q.sops) == [];
    }
  }

  lemma UpdateTogether(s: SemSet, t: SemSet, n: nat, up: bool, ws: seq<Wake>, wt: seq<Wake>)
    requires Together(s, t, n, ws, wt) && Structure(s) && Structure(t) && s.const_ == []
    ensures Nums(s, [n]) && Nums(t, [n]) && Together(UpdateOne(s, n, up), UpdateOne(t, n, up), n, ws, wt)
  {
    hide Untouched;
    WakeZeroTogether(s, t, n, ws, wt);
    if up {
      WakeZeroStructure(s, [n]);
      WakeZeroStructure(t, [n]);
      WakeZeroIsOne(s, n);
      ServeTogether(WakeZero(s, [n]), WakeZero(t, [n]), n, ws, wt);
    }
  }

  // semop() on one semaphore under its own lock.
  ghost function Simple(s: SemSet, q: Request, n: nat): SemSet
    requires Structure(s) && s.alter == [] && Sound(s, q) && On(q, n) && n < |s.vals|
  {
    if Try(s, q).Done? then
      AppliedKeepsSound(s, q);
      if q.sops[0].op != 0 then UpdateOne(Applied(s, q), n, q.sops[0].op > 0) else Applied(s, q)
    else if Try(s, q).Error? then s
    else if q.sops[0].op != 0 then WithAlterQ(s, Of(n), s.alterOf[n] + [q])
    else WithConstQ(s, Of(n), s.constOf[n] + [q])
  }

  lemma SemopIsSimple(s: SemSet, q: Request, n: nat)
    requires Unlocked(s) && s.useGlobal == 0 && Sound(s, q) && On(q, n)
    ensures n < |s.vals| && s.alter == [] && s.const_ == []
    ensures Semop(s, q) == (Simple(s, q, n), Code(Try(s, q)))
  {
    assert Fits(VarsOf(s, q), q.sops[0]);
    assert Lock(s, 1) == (s, false);
    assert Alters(q.sops) == (q.sops[0].op != 0);
    if Try(s, q).Done? {
      AppliedKeepsSound(s, q);
      UpdateIsOne(Applied(s, q), q, n);
    }
  }

  lemma SimpleTogether(s: SemSet, t: SemSet, q: Request, n: nat)
    requires Untouched(s, t, n) && Structure(s) && Structure(t) && s.alter == [] && s.const_ == []
    requires Sound(s, q) && Sound(t, q) && On(q, n)
    ensures Together(Simple(s, q, n), Simple(t, q, n), n, s.woken, t.woken)
  {
    TryAgrees(s, t, q, n);
    assert Together(s, t, n, s.woken, t.woken);
    if Try(s, q).Done? {
      DoneTogether(s, t, q, n, s.woken, t.woken);
      UpdateTogether(Applied(s, q), Applied(t, q), n, q.sops[0].op > 0, s.woken, t.woken);
    }
  }

  // With the counter at zero, what a semop() on one semaphore does there, returns and wakes depends
  // on nothing but that semaphore, its queues and its adjustments.
  lemma OwnPartDecides(s: SemSet, t: SemSet, q: Request, n: nat)
    requires Unlocked(s) && Unlocked(t) && s.useGlobal == 0 && Untouched(s, t, n)
    requires Sound(s, q) && On(q, n)
    ensures Sound(t, q) && Semop(s, q).1 == Semop(t, q).1
    ensures Together(Semop(s, q).0, Semop(t, q).0, n, s.woken, t.woken)
  {
    SoundAgrees(s, t, n);
    SemopIsSimple(s, q, n);
    SemopIsSimple(t, q, n);
    TryAgrees(s, t, q, n);
    SimpleTogether(s, t, q, n);
  }

  // ---- operations that overlap -------------------------------------------------------------------------

  // A thread inside the section of a semaphore: its request, and the set when it got the lock.
  datatype Section = Section(q: Request, before: SemSet)

  // The set, the sections entered and not yet left, by semaphore, and the requests of those left.
  datatype Shared = Shared(s: SemSet, open: map<nat, Section>, done: seq<Request>)

  // A thread takes the lock of its semaphore; one gives it back.
  datatype Event = Take(q: Request) | Release(n: nat)

  ghost predicate Can(x: Shared, e: Event) {
    match e
    case Take(q) => Sound(x.s, q) && |q.sops| == 1 && q.sops[0].num !in x.open
    case Release(n) => n in x.open && n < |x.s.vals|
  }

  // What was done to semaphore n in t becomes part of s.
  function Install(s: SemSet, t: SemSet, n: nat, w: seq<Wake>): SemSet
    requires n < |s.vals| == |s.alterOf| == |s.constOf| && n < |t.vals| == |t.alterOf| == |t.constOf|
  {
    s.(vals := s.vals[n := t.vals[n]],
       alterOf := s.alterOf[n := t.alterOf[n]],
       constOf := s.constOf[n := t.constOf[n]],
       adj := map u | u in s.adj ::
         if u in t.adj && n < |t.adj[u]| && n < |s.adj[u]| then s.adj[u][n := t.adj[u][n]] else s.adj[u],
       woken := s.woken + w)
  }

  // What holds of a section that is open: the thread saw the set as it still is on its semaphore.
  ghost predicate Current(s: SemSet, n: nat, c: Section) {
    Inv(c.before) && c.before.useGlobal == 0 && Untouched(c.before, s, n) && Sound(c.before, c.q) && On(c.q, n)
  }

  ghost predicate Valid(x: Shared) {
    Inv(x.s) && x.s.useGlobal == 0 && forall n | n in x.open :: Current(x.s, n, x.open[n])
  }

  // The thread in the section works on what it saw, wherever others are meanwhile.
  ghost function Next(x: Shared, e: Event): Shared
    requires Valid(x) && Can(x, e)
  {
    match e
    case Take(q) => x.(open := x.open[q.sops[0].num := Section(q, x.s)])
    case Release(n) =>
      var c := x.open[n];
      WokenGrows(c.before, c.q, n);
      var t := Semop(c.before, c.q).0;
      Shared(Install(x.s, t, n, t.woken[|c.before.woken|..]), x.open - {n}, x.done + [c.q])
  }

  lemma WokenGrows(s: SemSet, q: Request, n: nat)
    requires Unlocked(s) && s.useGlobal == 0 && Sound(s, q) && On(q, n)
    ensures n < |s.vals| && s.woken <= Semop(s, q).0.woken
    ensures var t := Semop(s, q).0; |t.vals| == |t.alterOf| == |t.constOf| == |s.vals|
  {
    SemopIsSimple(s, q, n);
    OwnPartDecides(s, s, q, n);
  }

  // The operations one after the other.
  ghost predicate Serial(s: SemSet, qs: seq<Request>, t: SemSet)
    decreases |qs|
  {
    if qs == [] then s == t else Inv(s) && Sound(s, qs[0]) && Serial(Semop(s, qs[0]).0, qs[1..], t)
  }

  // Where the locks are released decides: installing what the section made is the whole operation.
  lemma InstallIsSemop(s: SemSet, n: nat, c: Section)
    requires Inv(s) && s.useGlobal == 0 && Current(s, n, c)
    ensures Sound(s, c.q) && Semop(s, c.q).1 == Semop(c.before, c.q).1
    ensures n < |s.vals| && c.before.woken <= Semop(c.before, c.q).0.woken
    ensures var t := Semop(c.before, c.q).0;
      && |t.vals| == |t.alterOf| == |t.constOf| == |s.vals|
      && Install(s, t, n, t.woken[|c.before.woken|..]) == Semop(s, c.q).0
  {
    WokenGrows(c.before, c.q, n);
    OwnPartDecides(c.before, s, c.q, n);
    var t, u := Semop(c.before, c.q).0, Semop(s, c.q).0;
    SemopIsSimple(s, c.q, n);
    SemopKeepsInv(s, c.q);
    forall k | 0 <= k < |s.vals| && k != n ensures Untouched(s, u, k) {
      SimpleOperationIsLocal(s, c.q, k);
    }
    SemopGlobals(s, c.q, n);
    PartsMakeTheWhole(s, t, u, n, c.before.woken);
  }

  lemma {:induction false} ServeKeys(s: SemSet, p: Place)
    requires QueuesSound(s) && HasPlace(s, p)
    ensures Serve(s, p).adj.Keys == s.adj.Keys && Serve(s, p).useGlobal == s.useGlobal
    decreases |AlterQ(s, p)|
  {
    var i := FirstReady(s, AlterQ(s, p), 0);
    if i < |AlterQ(s, p)| {
      FinishKeys(s, p, i);
      ServeKeys(Finish(s, p, i), p);
    }
  }

  lemma FinishKeys(s: SemSet, p: Place, i: nat)
    requires QueuesSound(s) && HasPlace(s, p) && i < |AlterQ(s, p)|
    ensures Finish(s, p, i).adj.Keys == s.adj.Keys && Finish(s, p, i).useGlobal == s.useGlobal
  {
    var q, u := AlterQ(s, p)[i], Unlink(s, p, i);
    assert Sound(s, q) && Sound(u, q);
    AppliedKeepsSound(u, q);
    ZeroKeepsAlter(Applied(u, q), SopNums(q.sops));
  }

  // All that is not part of a semaphore stays.
  lemma SemopGlobals(s: SemSet, q: Request, n: nat)
    requires Inv(s) && s.useGlobal == 0 && Sound(s, q) && On(q, n)
    ensures var u := Semop(s, q).0;
      && Inv(u) && u.useGlobal == 0 && SameShape(s, u)
      && u.alter == s.alter && u.const_ == s.const_ && u.complexCount == s.complexCount
  {
    SemopKeepsInv(s, q);
    SemopIsSimple(s, q, n);
    SimpleKeys(s, q, n);
    hide Semop, Quiet, QueuesSound, Kinds;
  }

  lemma SimpleKeys(s: SemSet, q: Request, n: nat)
    requires Structure(s) && s.alter == [] && Sound(s, q) && On(q, n) && n < |s.vals|
    ensures Simple(s, q, n).adj.Keys == s.adj.Keys && Simple(s, q, n).useGlobal == s.useGlobal
  {
    if Try(s, q).Done? {
      AppliedKeepsSound(s, q);
      ZeroKeepsAlter(Applied(s, q), [n]);
      ServeKeys(WakeZero(Applied(s, q), [n]), Of(n));
    }
  }

  lemma PartsMakeTheWhole(s: SemSet, t: SemSet, u: SemSet, n: nat, before: seq<Wake>)
    requires Ranges(s) && Ranges(u) && SameShape(s, u)
    requires forall k | 0 <= k < |s.vals| && k != n :: Untouched(s, u, k)
    requires u.alter == s.alter && u.const_ == s.const_ && u.complexCount == s.complexCount && u.useGlobal == s.useGlobal
    requires |s.alterOf| == |s.constOf| == |s.vals| && |u.alterOf| == |u.constOf| == |u.vals|
    requires Together(t, u, n, before, s.woken)
    ensures n < |s.vals| && before <= t.woken && Install(s, t, n, t.woken[|before|..]) == u
  {
    var x := Install(s, t, n, t.woken[|before|..]);
    forall k | 0 <= k < |s.vals|
      ensures x.vals[k] == u.vals[k] && x.alterOf[k] == u.alterOf[k] && x.constOf[k] == u.constOf[k]
    {
      if k != n { assert Untouched(s, u, k); }
    }
    assert x.vals == u.vals && x.alterOf == u.alterOf && x.constOf == u.constOf;
    forall v | v in s.adj ensures x.adj[v] == u.adj[v] {
      forall k | 0 <= k < |s.adj[v]| ensures x.adj[v][k] == u.adj[v][k] {
        if k != n { assert Untouched(s, u, k); }
      }
    }
    assert x.adj == u.adj;
    assert u.woken == s.woken + u.woken[|s.woken|..];
  }

  lemma StillCurrent(s: SemSet, u: SemSet, n: nat, c: Section)
    requires Current(s, n, c) && Untouched(s, u, n)
    ensures Current(u, n, c)
  {
  }

  // Taking a lock changes nothing; giving it back is the whole operation.
  lemma NextIsSemop(x: Shared, e: Event)
    requires Valid(x) && Can(x, e)
    ensures var y := Next(x, e);
      && Valid(y)
      && (e.Take? ==> y.s == x.s && y.done == x.done)
      && (e.Release? ==> Sound(x.s, x.open[e.n].q) && y.s == Semop(x.s, x.open[e.n].q).0 && y.done == x.done + [x.open[e.n].q])
  {
    match e
    case Take(q) =>
      assert Fits(VarsOf(x.s, q), q.sops[0]);
      assert Current(x.s, q.sops[0].num, Section(q, x.s));
    case Release(n) =>
      var c := x.open[n];
      InstallIsSemop(x.s, n, c);
      SemopGlobals(x.s, c.q, n);
      var u := Semop(x.s, c.q).0;
      hide Semop, Untouched, Inv;
      forall m | m in x.open - {n} ensures Current(u, m, x.open[m]) {
        OthersStay(x, n, m);
        StillCurrent(x.s, u, m, x.open[m]);
      }
  }

  lemma OthersStay(x: Shared, n: nat, m: nat)
    requires Valid(x) && n in x.open && m in x.open && m != n
    ensures Sound(x.s, x.open[n].q) && Untouched(x.s, Semop(x.s, x.open[n].q).0, m)
  {
    assert Current(x.s, n, x.open[n]) && Current(x.s, m, x.open[m]);
    SoundAgrees(x.open[n].before, x.s, n);
    SimpleOperationIsLocal(x.s, x.open[n].q, m);
  }

  ghost predicate Overlap(x: Shared, run: seq<Event>, y: Shared)
    decreases |run|
  {
    if run == [] then x == y
    else Valid(x) && Can(x, run[0]) && Overlap(Next(x, run[0]), run[1..], y)
  }

  // Sections of different semaphores overlap as they like: the set is at every moment what the
  // operations whose locks have been given back make of it, one after the other in that order.
  lemma {:induction false} OverlapIsSerial(x: Shared, run: seq<Event>, y: Shared)
    requires Valid(x) && Overlap(x, run, y)
    ensures Valid(y) && x.done <= y.done && Serial(x.s, y.done[|x.done|..], y.s)
    decreases |run|
  {
    if run == [] {
      assert y.done[|x.done|..] == [];
    } else {
      var z := Next(x, run[0]);
      NextIsSemop(x, run[0]);
      OverlapIsSerial(z, run[1..], y);
      hide Valid, Next, Semop, Inv, Can;
      if run[0].Release? {
        SerialFirst(x, z, y, x.open[run[0].n].q);
      }
    }
  }

  lemma SerialFirst(x: Shared, z: Shared, y: Shared, q: Request)
    requires Inv(x.s) && Sound(x.s, q) && z.s == Semop(x.s, q).0 && z.done == x.done + [q]
    requires z.done <= y.done && Serial(z.s, y.done[|z.done|..], y.s)
    ensures x.done <= y.done && Serial(x.s, y.done[|x.done|..], y.s)
  {
    var qs := y.done[|x.done|..];
    assert qs[0] == q && qs[1..] == y.done[|z.done|..];
  }

  function Calls(qs: seq<Request>): seq<Action> {
    seq(|qs|, i requires 0 <= i < |qs| => DoSemop(qs[i]))
  }

  lemma CallsStep(qs: seq<Request>)
    requires qs != []
    ensures Calls(qs) == [DoSemop(qs[0])] + Calls(qs[1..])
  {
  }

  lemma SerialStep(s: SemSet, qs: seq<Request>, t: SemSet)
    requires Serial(s, qs, t) && qs != []
    ensures QueuesSound(s) && Allowed(s, DoSemop(qs[0])) && Step(s, DoSemop(qs[0])) == Semop(s, qs[0]).0
    ensures Serial(Semop(s, qs[0]).0, qs[1..], t)
  {
    hide Semop;
  }

  lemma {:induction false} SerialIsRun(s: SemSet, qs: seq<Request>, t: SemSet)
    requires Serial(s, qs, t)
    ensures Leads(s, Calls(qs), t)
    decreases |qs|
  {
    if qs == [] {
      assert Calls(qs) == [];
    } else {
      SerialStep(s, qs, t);
      CallsStep(qs);
      hide *;
      SerialIsRun(Semop(s, qs[0]).0, qs[1..], t);
      LeadsFrom(s, DoSemop(qs[0]), Calls(qs[1..]), t);
    }
  }

  lemma {:induction false} RunsJoin(s: SemSet, a: seq<Action>, t: SemSet, b: seq<Action>, u: SemSet)
    requires Leads(s, a, t) && Leads(t, b, u)
    ensures Leads(s, a + b, u)
    decreases |a|
  {
    hide Leads, Step, Allowed, QueuesSound;
    LeadsStep(s, a, t);
    if a == [] {
      assert a + b == b;
    } else {
      RunsJoin(Step(s, a[0]), a[1..], t, b, u);
      LeadsFrom(s, a[0], a[1..] + b, u);
      assert [a[0]] + (a[1..] + b) == a + b;
    }
  }

  lemma SerialIsReachable(s: SemSet, qs: seq<Request>, t: SemSet)
    requires Reachable(s) && Serial(s, qs, t)
    ensures Reachable(t)
  {
    hide Serial, Leads, Created;
    SerialIsRun(s, qs, t);
    var nsems, before :| Leads(Created(nsems), before, s);
    var after := Calls(qs);
    RunsJoin(Created(nsems), before, s, after, t);
    assert Leads(Created(nsems), before + after, t);
  }

  // So overlapping simple operations lead to no state that single calls, one at a time, do not lead to:
  // all that holds after every run of calls holds here as well.
  lemma OverlapStaysReachable(s: SemSet, run: seq<Event>, y: Shared)
    requires Reachable(s) && s.useGlobal == 0 && Overlap(Shared(s, map[], []), run, y)
    ensures Reachable(y.s)
  {
    ReachableInv(s);
    var x := Shared(s, map[], []);
    hide Inv, Overlap, Serial, Reachable;
    OverlapIsSerial(x, run, y);
    SerialIsReachable(s, y.done[0..], y.s);
  }
}
