// The order of arrival: whatever is merged, unmerged, served or given up in between, the sleepers that
// alter one semaphore stay in the order in which they went to sleep.
module SemOrder {
  import opened SemOps
  import opened SemSpec
  import opened SemRuns
  import opened SemHistory

  // a is b with some entries left out.
  predicate Sub(a: seq<Request>, b: seq<Request>)
    decreases |b|
  {
    a == [] || (b != [] && if a[0] == b[0] then Sub(a[1..], b[1..]) else Sub(a, b[1..]))
  }

  lemma {:induction false} SubMore(a: seq<Request>, b: seq<Request>)
    requires b != [] && Sub(a, b[1..])
    ensures Sub(a, b)
    decreases |b|, 0
  {
    if a != [] {
      SubTail(a, b[1..]);
    }
  }

  lemma {:induction false} SubTail(a: seq<Request>, b: seq<Request>)
    requires a != [] && Sub(a, b)
    ensures Sub(a[1..], b)
    decreases |b|, 1
  {
    if a[0] != b[0] {
      SubTail(a, b[1..]);
    }
    SubMore(a[1..], b);
  }

  lemma {:induction false} SubSame(a: seq<Request>)
    ensures Sub(a, a)
  {
    if a != [] {
      SubSame(a[1..]);
    }
  }

  lemma {:induction false} SubOfSub(a: seq<Request>, b: seq<Request>, c: seq<Request>)
    requires Sub(a, b) && Sub(b, c)
    ensures Sub(a, c)
    decreases |c|
  {
    if a != [] {
      if b[0] != c[0] {
        SubOfSub(a, b, c[1..]);
        SubMore(a, c);
      } else if a[0] == b[0] {
        SubOfSub(a[1..], b[1..], c[1..]);
      } else {
        SubOfSub(a, b[1..], c[1..]);
      }
    }
  }

  lemma {:induction false} SubJoin(a: seq<Request>, b: seq<Request>, c: seq<Request>, d: seq<Request>)
    requires Sub(a, b) && Sub(c, d)
    ensures Sub(a + c, b + d)
    decreases |b|
  {
    if b == [] {
      assert a + c == c && b + d == d;
    } else {
      assert (b + d)[1..] == b[1..] + d;
      if a == [] {
        assert a + c == c;
        SubJoin([], b[1..], c, d);
        assert [] + c == c;
        SubMore(a + c, b + d);
      } else if a[0] == b[0] {
        assert (a + c)[1..] == a[1..] + c;
        SubJoin(a[1..], b[1..], c, d);
      } else {
        SubJoin(a, b[1..], c, d);
      }
    }
  }

  lemma SubWithout(l: seq<Request>, i: nat)
    requires i < |l|
    ensures Sub(Without(l, i), l)
  {
    hide Sub;
    var a, b, rest := l[..i], l[i..], l[i + 1..];
    assert b[1..] == rest && l == a + b;
    SubSame(a);
    SubSame(rest);
    SubMore(rest, b);
    SubJoin(a, a, rest, b);
  }

  // The sleepers that alter the set and name semaphore n first, in either mode of the queues.
  function Line(s: SemSet, n: nat): seq<Request>
    requires QueuesSound(s) && n < |s.vals|
  {
    assert forall i | 0 <= i < |s.alter| :: Sound(s, s.alter[i]);
    s.alterOf[n] + OnSem(s.alter, n)
  }

  lemma OnSemWithout(l: seq<Request>, i: nat, n: nat)
    requires i < |l| && forall k | 0 <= k < |l| :: l[k].sops != []
    ensures Sub(OnSem(Without(l, i), n), OnSem(l, n))
  {
    var a, b, rest := l[..i], l[i..], l[i + 1..];
    assert l == a + b && b[1..] == rest;
    OnSemConcat(a, b, n);
    OnSemConcat(a, rest, n);
    SubSame(OnSem(a, n));
    SubSame(OnSem(rest, n));
    if l[i].sops[0].num == n {
      assert OnSem(b, n)[1..] == OnSem(rest, n);
      SubMore(OnSem(rest, n), OnSem(b, n));
    } else {
      assert OnSem(b, n) == OnSem(rest, n);
    }
    SubJoin(OnSem(a, n), OnSem(a, n), OnSem(rest, n), OnSem(b, n));
  }

  lemma SameLine(s: SemSet, t: SemSet, n: nat)
    requires QueuesSound(s) && QueuesSound(t) && n < |s.vals| && n < |t.vals|
    requires t.alter == s.alter && t.alterOf[n] == s.alterOf[n]
    ensures Line(t, n) == Line(s, n)
  {
  }

  lemma UnlinkLine(s: SemSet, p: Place, i: nat, n: nat)
    requires QueuesSound(s) && HasPlace(s, p) && i < |AlterQ(s, p)| && n < |s.vals|
    ensures Sub(Line(Unlink(s, p, i), n), Line(s, n))
  {
    var t := Unlink(s, p, i);
    SubSame(s.alterOf[n]);
    assert forall k | 0 <= k < |s.alter| :: Sound(s, s.alter[k]);
    SubSame(OnSem(s.alter, n));
    if p.Global? {
      OnSemWithout(s.alter, i, n);
    } else if p.n == n {
      SubWithout(s.alterOf[n], i);
    }
    SubJoin(t.alterOf[n], s.alterOf[n], OnSem(t.alter, n), OnSem(s.alter, n));
  }

  lemma FinishLine(s: SemSet, p: Place, i: nat, n: nat)
    requires QueuesSound(s) && HasPlace(s, p) && i < |AlterQ(s, p)| && n < |s.vals|
    ensures Sub(Line(Finish(s, p, i), n), Line(s, n))
  {
    UnlinkLine(s, p, i, n);
    FinishFrame(s, p, i);
    SameLine(Unlink(s, p, i), Finish(s, p, i), n);
  }

  lemma {:induction false} ServeLine(s: SemSet, p: Place, n: nat)
    requires QueuesSound(s) && HasPlace(s, p) && n < |s.vals|
    ensures Sub(Line(Serve(s, p), n), Line(s, n))
    decreases |AlterQ(s, p)|
  {
    var i := FirstReady(s, AlterQ(s, p), 0);
    if i == |AlterQ(s, p)| {
      SubSame(Line(s, n));
    } else {
      FinishLine(s, p, i, n);
      ServeLine(Finish(s, p, i), p, n);
      SubOfSub(Line(Serve(s, p), n), Line(Finish(s, p, i), n), Line(s, n));
    }
  }

  lemma {:induction false} ServeEachLine(s: SemSet, nums: seq<nat>, k: nat, n: nat)
    requires k <= |nums| && Nums(s, nums) && QueuesSound(s) && n < |s.vals|
    ensures Sub(Line(ServeEach(s, nums, k), n), Line(s, n))
    decreases |nums| - k
  {
    if k == |nums| {
      SubSame(Line(s, n));
    } else {
      var t := Serve(s, Of(nums[k]));
      ServeLine(s, Of(nums[k]), n);
      ServeEachLine(t, nums, k + 1, n);
      SubOfSub(Line(ServeEach(t, nums, k + 1), n), Line(t, n), Line(s, n));
    }
  }

  lemma SmartUpdateLine(s: SemSet, sops: Option<seq<Sembuf>>, n: nat)
    requires QueuesSound(s) && SopsBelow(s, sops) && n < |s.vals|
    ensures Sub(Line(SmartUpdate(s, sops), n), Line(s, n))
  {
    RescannedInRange(s, sops);
    var t := WakeZero(s, Touched(s, sops));
    ZeroKeepsAlter(s, Touched(s, sops));
    SameLine(s, t, n);
    if t.alter != [] {
      ServeLine(t, Global, n);
    } else {
      ServeEachLine(t, Rescanned(s, sops), 0, n);
    }
  }

  lemma UnlockLine(s: SemSet, global: bool, n: nat)
    requires QueuesSound(s) && n < |s.vals|
    ensures Line(Unlock(s, global), n) == Line(s, n)
  {
    UnmergeKeepsSound(s);
  }

  lemma MergeLine(s: SemSet, n: nat)
    requires Structure(s) && s.alter == [] && n < |s.vals|
    ensures QueuesSound(Merge(s)) && Line(Merge(s), n) == Line(s, n)
  {
    MergeKeepsSound(s);
    assert forall m, i | 0 <= m < |s.vals| && 0 <= i < |s.alterOf[m]| :: Decrement(s.alterOf[m][i], m);
    OnSemOfStacked(s.alterOf, 0, n);
    assert Merge(s).alter == Stacked(s.alterOf);
  }

  lemma {:induction false} StackedSplit(ls: seq<seq<Request>>, k: nat)
    requires k <= |ls|
    ensures Stacked(ls) == Stacked(ls[k..]) + Stacked(ls[..k])
    decreases k
  {
    if k > 0 {
      assert ls[1..][k - 1..] == ls[k..] && ls[1..][..k - 1] == ls[..k][1..];
      StackedSplit(ls[1..], k - 1);
    }
  }

  // Between semaphores merging does not go by arrival: whoever sleeps on one of the semaphores from k
  // on gets in front of everybody on those below k.
  lemma MergeOrder(s: SemSet, k: nat)
    requires k <= |s.alterOf|
    ensures Merge(s).alter == Stacked(s.alterOf[k..]) + Stacked(s.alterOf[..k]) + s.alter
  {
    StackedSplit(s.alterOf, k);
  }

  // Who goes to sleep at the end of the line of n.
  function Joins(q: Request, n: nat): seq<Request>
    requires q.sops != []
  {
    if Alters(q.sops) && q.sops[0].num == n then [q] else []
  }

  lemma SoundNames(s: SemSet, q: Request)
    requires Sound(s, q)
    ensures q.sops != []
  {
  }

  lemma AppendLineToSet(m: SemSet, t: SemSet, q: Request, n: nat)
    requires QueuesSound(m) && QueuesSound(t) && n < |m.vals| && n < |t.vals| && q.sops != [] && Alters(q.sops)
    requires t.alter == m.alter + [q] && t.alterOf == m.alterOf
    ensures Line(t, n) == Line(m, n) + Joins(q, n)
  {
    Named(m);
    Named(t);
    hide QueuesSound, Alters, OnSem;
    OnSemConcat(m.alter, [q], n);
    OnSemOne(q, n);
  }

  lemma AppendLineToOwn(m: SemSet, t: SemSet, q: Request, n: nat)
    requires QueuesSound(m) && QueuesSound(t) && n < |m.vals| && n < |t.vals| && q.sops != [] && Alters(q.sops)
    requires m.alter == t.alter == [] && q.sops[0].num < |m.alterOf|
    requires t.alterOf == m.alterOf[q.sops[0].num := m.alterOf[q.sops[0].num] + [q]]
    ensures Line(t, n) == Line(m, n) + Joins(q, n)
  {
    NobodyOnSem(m, n);
    NobodyOnSem(t, n);
    hide QueuesSound, Alters, OnSem, Line;
  }

  lemma AppendLine(m: SemSet, q: Request, p: Place, n: nat)
    requires QueuesSound(m) && Sound(m, q) && HasPlace(m, p) && n < |m.vals|
    requires Alters(q.sops) && p.Of? ==> p.n == q.sops[0].num && m.alter == []
    ensures QueuesSound(Appended(m, q, p)) && Line(Appended(m, q, p), n) == Line(m, n) + Joins(q, n)
  {
    AppendSound(m, q, p);
    SoundNames(m, q);
    if Alters(q.sops) && p.Global? {
      AppendLineToSet(m, Appended(m, q, p), q, n);
    } else if Alters(q.sops) {
      AppendLineToOwn(m, Appended(m, q, p), q, n);
    } else {
      SameLine(m, Appended(m, q, p), n);
      assert Line(m, n) + [] == Line(m, n);
    }
  }

  lemma Named(s: SemSet)
    requires QueuesSound(s)
    ensures forall i | 0 <= i < |s.alter| :: s.alter[i].sops != []
  {
    forall i | 0 <= i < |s.alter| ensures s.alter[i].sops != [] { assert Sound(s, s.alter[i]); }
  }

  lemma NobodyOnSem(s: SemSet, n: nat)
    requires QueuesSound(s) && n < |s.vals| && s.alter == []
    ensures Line(s, n) == s.alterOf[n]
  {
    assert s.alterOf[n] + [] == s.alterOf[n];
  }

  lemma OnSemOne(q: Request, n: nat)
    requires q.sops != [] && Alters(q.sops)
    ensures OnSem([q], n) == Joins(q, n)
  {
  }

  lemma EnqueueLine(s: SemSet, q: Request, n: nat)
    requires Structure(s) && Sound(s, q) && n < |s.vals|
    requires s.complexCount == 0 ==> s.alter == []
    ensures Line(Enqueue(s, q), n) == Line(s, n) + Joins(q, n)
  {
    assert Fits(VarsOf(s, q), q.sops[0]);
    var m := if Complex(q) && s.complexCount == 0 then Merge(s) else s;
    var p := if Complex(q) || (Alters(q.sops) && s.complexCount != 0) then Global else Of(q.sops[0].num);
    if Complex(q) && s.complexCount == 0 {
      MergeLine(s, n);
    }
    assert Sound(m, q);
    AppendLine(m, q, p, n);
    assert Enqueue(s, q) == Appended(m, q, p);
  }

  lemma InsideLine(l: SemSet, g: bool, q: Request, n: nat)
    requires Structure(l) && Sound(l, q) && n < |l.vals|
    requires l.complexCount == 0 ==> l.alter == []
    ensures Sub(Line(SemopInside(l, g, q).0, n), Line(l, n) + if SemopInside(l, g, q).1 == 1 then Joins(q, n) else [])
  {
    assert Line(l, n) + [] == Line(l, n);
    SubSame(Line(l, n));
    match Try(l, q)
    case Done(_) =>
      AppliedKeepsSound(l, q);
      SameLine(l, Applied(l, q), n);
      if Alters(q.sops) {
        assert SopsBelow(Applied(l, q), Some(q.sops)) by {
          forall k | 0 <= k < |q.sops| ensures q.sops[k].num < |l.vals| { assert Fits(VarsOf(l, q), q.sops[k]); }
        }
        SmartUpdateLine(Applied(l, q), Some(q.sops), n);
      }
      UnlockLine(if Alters(q.sops) then SmartUpdate(Applied(l, q), Some(q.sops)) else Applied(l, q), g, n);
    case Error(_) =>
      UnlockLine(l, g, n);
    case Sleep(_) =>
      EnqueueLine(l, q, n);
      UnlockLine(Enqueue(l, q), g, n);
      SubSame(Line(l, n) + Joins(q, n));
  }

  // ---- every operation ------------------------------------------------------------------------------

  lemma InvSound(s: SemSet)
    requires Inv(s)
    ensures QueuesSound(s) && Unlocked(s)
  {
  }

  lemma SemopLine(s: SemSet, q: Request, n: nat)
    requires Unlocked(s) && Sound(s, q) && n < |s.vals|
    ensures Sub(Line(Semop(s, q).0, n), Line(s, n) + if Semop(s, q).1 == 1 then Joins(q, n) else [])
  {
    var (l, g) := Lock(s, |q.sops|);
    EnterUnchanged(s, |q.sops|);
    SoundIsStable(s, l);
    SameLine(s, l, n);
    InsideLine(l, g, q, n);
  }

  // SETVAL, SETALL and exit_sem() change values and adjustments and then look at every queue.
  lemma UpdateAllLine(s: SemSet, a: SemSet, n: nat)
    requires QueuesSound(s) && QueuesSound(a) && n < |s.vals| == |a.vals|
    requires a.alter == s.alter && a.alterOf == s.alterOf
    ensures Sub(Line(Unlock(SmartUpdate(a, None), true), n), Line(s, n))
  {
    SameLine(s, a, n);
    SmartUpdateLine(a, None, n);
    UnlockLine(SmartUpdate(a, None), true, n);
  }

  lemma CancelLine(s: SemSet, x: Slot, n: nat)
    requires QueuesSound(s) && HasSlot(s, x) && n < |s.vals|
    ensures Sub(Line(Cancel(s, x), n), Line(s, n))
  {
    var (l, g) := Lock(s, |At(s, x).sops|);
    SoundIsStable(s, l);
    SameLine(s, l, n);
    if x.altering {
      UnlinkLine(l, x.place, x.index, n);
    } else {
      SubSame(Line(l, n));
      SameLine(l, UnlinkAt(l, x), n);
    }
    UnlockLine(UnlinkAt(l, x), g, n);
  }

  // An operation that only locks and unlocks.
  lemma VisitLine(s: SemSet, a: SemSet, n: nat)
    requires QueuesSound(s) && QueuesSound(a) && n < |s.vals| == |a.vals|
    requires a.alter == s.alter && a.alterOf == s.alterOf
    ensures Sub(Line(Unlock(a, true), n), Line(s, n))
  {
    SubSame(Line(s, n));
    SameLine(s, a, n);
    UnlockLine(a, true, n);
  }

  ghost function Arrived(s: SemSet, a: Action, n: nat): seq<Request>
    requires QueuesSound(s) && Allowed(s, a)
  {
    if a.DoSemop? && Semop(s, a.q).1 == 1 then
      assert Fits(VarsOf(s, a.q), a.q.sops[0]);
      Joins(a.q, n)
    else []
  }

  lemma StepShape(s: SemSet, a: Action)
    requires Inv(s) && Allowed(s, a)
    ensures QueuesSound(Step(s, a)) && |Step(s, a).vals| == |s.vals|
  {
    StepKeepsInv(s, a);
  }

  lemma StepLine(s: SemSet, a: Action, n: nat)
    requires Inv(s) && Allowed(s, a) && n < |s.vals|
    ensures QueuesSound(Step(s, a)) && |Step(s, a).vals| == |s.vals|
    ensures Sub(Line(Step(s, a), n), Line(s, n) + Arrived(s, a, n))
  {
    StepShape(s, a);
    if a.DoSemop? {
      assert Fits(VarsOf(s, a.q), a.q.sops[0]);
      SemopLine(s, a.q, n);
    } else {
      OtherLine(s, a, n);
      assert Line(s, n) + [] == Line(s, n);
    }
  }

  lemma OtherLine(s: SemSet, a: Action, n: nat)
    requires Inv(s) && Allowed(s, a) && n < |s.vals| && !a.DoSemop?
    requires QueuesSound(Step(s, a)) && |Step(s, a).vals| == |s.vals|
    ensures Sub(Line(Step(s, a), n), Line(s, n))
  {
    InvSound(s);
    hide Line, Sub, OnSem, Inv, QueuesSound, SmartUpdate, Unlock, ZeroAdj, Zeros, Adjusted, UndoIdle;
    match a
    case DoSetVal(m, val) =>
      ValueSet(s, m, val);
      UpdateAllLine(s, Enter(s).(vals := s.vals[m := val], adj := ZeroAdj(s.adj, m)), n);
    case DoSetAll(vals) =>
      ValuesSet(s, vals);
      UpdateAllLine(s, Enter(s).(vals := vals, adj := map u | u in s.adj :: Zeros(|s.adj[u]|)), n);
    case DoExitUndo(u) => UpdateAllLine(s, DropUndo(s, u), n);
    case DoAddUndo(u) => AddUndoLine(s, u, n);
    case DoCancel(x) => CancelLine(s, x, n);
    case DoVisit =>
      SoundIsStable(s, Enter(s));
      VisitLine(s, Enter(s), n);
    case DoPeek =>
      SubSame(Line(s, n));
      SameLine(s, Peek(s), n);
  }

  lemma AddUndoLine(s: SemSet, u: nat, n: nat)
    requires QueuesSound(s) && n < |s.vals|
    ensures Sub(Line(AddUndo(s, u), n), Line(s, n))
  {
    var b := if u in s.adj then Enter(s) else Enter(s).(adj := s.adj[u := Zeros(|s.vals|)]);
    forall q | Sound(s, q) ensures Sound(b, q) { AddUndoRow(s, b, u, q); }
    VisitLine(s, b, n);
  }

  // ---- whole runs -----------------------------------------------------------------------------------

  // The requests that went to sleep in a run and alter the set, naming semaphore n first.
  ghost function Arrivals(s: SemSet, run: seq<Action>, t: SemSet, n: nat): seq<Request>
    requires Leads(s, run, t)
    decreases |run|
  {
    if run == [] then [] else Arrived(s, run[0], n) + Arrivals(Step(s, run[0]), run[1..], t, n)
  }

  lemma StepLineFrom(s: SemSet, a: Action, n: nat, before: seq<Request>)
    requires Inv(s) && Allowed(s, a) && n < |s.vals| && Sub(Line(s, n), before)
    ensures Inv(Step(s, a)) && |Step(s, a).vals| == |s.vals|
    ensures Sub(Line(Step(s, a), n), before + Arrived(s, a, n))
  {
    var u, x := Step(s, a), Arrived(s, a, n);
    StepLine(s, a, n);
    StepKeepsInv(s, a);
    hide Line, Sub, OnSem, Quiet, Arrived, Step, Allowed;
    SubSame(x);
    SubJoin(Line(s, n), before, x, x);
    SubOfSub(Line(u, n), Line(s, n) + x, before + x);
  }

  lemma ArrivalsStep(s: SemSet, run: seq<Action>, t: SemSet, n: nat)
    requires Leads(s, run, t)
    ensures run == [] ==> Arrivals(s, run, t, n) == []
    ensures run != [] ==>
      (QueuesSound(s) && Allowed(s, run[0]) && Leads(Step(s, run[0]), run[1..], t) &&
       Arrivals(s, run, t, n) == Arrived(s, run[0], n) + Arrivals(Step(s, run[0]), run[1..], t, n))
  {
    hide Step, Arrived, Allowed, QueuesSound;
  }

  lemma NothingAdded(a: seq<Request>)
    ensures a + [] == a
  {
  }

  lemma Regrouped(a: seq<Request>, b: seq<Request>, c: seq<Request>)
    ensures a + b + c == a + (b + c)
  {
  }

  lemma {:induction false} RunLine(s: SemSet, run: seq<Action>, t: SemSet, n: nat, before: seq<Request>)
    requires Inv(s) && Leads(s, run, t) && n < |s.vals| && Sub(Line(s, n), before)
    ensures QueuesSound(t) && |t.vals| == |s.vals| && Sub(Line(t, n), before + Arrivals(s, run, t, n))
    decreases |run|
  {
    InvSound(s);
    LeadsStep(s, run, t);
    ArrivalsStep(s, run, t, n);
    hide *;
    if run == [] {
      NothingAdded(before);
    } else {
      var u, x := Step(s, run[0]), Arrived(s, run[0], n);
      StepLineFrom(s, run[0], n, before);
      RunLine(u, run[1..], t, n, before + x);
      Regrouped(before, x, Arrivals(u, run[1..], t, n));
    }
  }

  // Whatever happens to a set after its creation: the sleepers that alter it and name semaphore n
  // first are in the order in which they went to sleep. Complex requests came and left in between.
  lemma ArrivalOrder(nsems: nat, run: seq<Action>, t: SemSet, n: nat)
    requires Leads(Created(nsems), run, t) && n < nsems
    ensures QueuesSound(t) && |t.vals| == nsems
    ensures Sub(Line(t, n), Arrivals(Created(nsems), run, t, n))
  {
    CreatedInv(nsems);
    RunLine(Created(nsems), run, t, n, []);
    assert [] + Arrivals(Created(nsems), run, t, n) == Arrivals(Created(nsems), run, t, n);
  }

  // ---- between semaphores ---------------------------------------------------------------------------

  // Nobody in l stands behind somebody who came later; at is when each of them came.
  predicate InTime(l: seq<Request>, at: Request -> int) {
    forall i, j | 0 <= i < j < |l| :: at(l[i]) <= at(l[j])
  }

  // Nobody in b came before somebody in a.
  predicate AllBefore(a: seq<Request>, b: seq<Request>, at: Request -> int) {
    forall x, y | x in a && y in b :: at(x) <= at(y)
  }

  // The larger a semaphore's number, the earlier its sleepers came.
  predicate LaterFirst(ls: seq<seq<Request>>, at: Request -> int) {
    forall m, n | 0 <= m < n < |ls| :: AllBefore(ls[n], ls[m], at)
  }

  lemma InTimeSplits(a: seq<Request>, b: seq<Request>, at: Request -> int)
    ensures InTime(a + b, at) <==> InTime(a, at) && InTime(b, at) && AllBefore(a, b, at)
  {
    var l := a + b;
    if InTime(l, at) {
      assert forall i | 0 <= i < |a| :: l[i] == a[i];
      assert forall i | 0 <= i < |b| :: l[|a| + i] == b[i];
    }
  }

  lemma {:induction false} StackBefore(ls: seq<seq<Request>>, b: seq<Request>, at: Request -> int)
    ensures AllBefore(Stacked(ls), b, at) <==> forall n | 0 <= n < |ls| :: AllBefore(ls[n], b, at)
  {
    if AllBefore(Stacked(ls), b, at) {
      forall n, x, y | 0 <= n < |ls| && x in ls[n] && y in b ensures at(x) <= at(y) {
        StackedMembers(ls, x);
      }
    }
    if forall n | 0 <= n < |ls| :: AllBefore(ls[n], b, at) {
      forall x, y | x in Stacked(ls) && y in b ensures at(x) <= at(y) {
        StackedMembers(ls, x);
      }
    }
  }

  lemma LaterFirstStep(ls: seq<seq<Request>>, at: Request -> int)
    requires ls != []
    ensures LaterFirst(ls, at) <==> LaterFirst(ls[1..], at) && forall n | 0 <= n < |ls[1..]| :: AllBefore(ls[1..][n], ls[0], at)
  {
    hide AllBefore;
    if LaterFirst(ls[1..], at) && forall n | 0 <= n < |ls[1..]| :: AllBefore(ls[1..][n], ls[0], at) {
      forall m, n | 0 <= m < n < |ls| ensures AllBefore(ls[n], ls[m], at) {
        assert ls[n] == ls[1..][n - 1];
        if m > 0 {
          assert ls[m] == ls[1..][m - 1];
        }
      }
    }
    if LaterFirst(ls, at) {
      assert forall n | 0 <= n < |ls[1..]| :: ls[1..][n] == ls[n + 1];
    }
  }

  lemma {:induction false} StackInTimeIff(ls: seq<seq<Request>>, at: Request -> int)
    requires forall n | 0 <= n < |ls| :: InTime(ls[n], at)
    ensures InTime(Stacked(ls), at) <==> LaterFirst(ls, at)
    decreases |ls|
  {
    hide AllBefore, InTime, LaterFirst;
    if ls == [] {
      NobodyInTime(at);
    } else {
      assert InTime(ls[0], at);
      assert forall n | 0 <= n < |ls[1..]| :: ls[1..][n] == ls[n + 1];
      StackInTimeIff(ls[1..], at);
      InTimeSplits(Stacked(ls[1..]), ls[0], at);
      StackBefore(ls[1..], ls[0], at);
      LaterFirstStep(ls, at);
    }
  }

  lemma NobodyInTime(at: Request -> int)
    ensures InTime(Stacked([]), at) && LaterFirst([], at)
  {
  }

  // Merging keeps the order of arrival exactly if, of any two semaphores, everybody on the one with
  // the larger number came before everybody on the other.
  lemma MergeInTimeIff(s: SemSet, at: Request -> int)
    requires s.alter == [] && forall n | 0 <= n < |s.alterOf| :: InTime(s.alterOf[n], at)
    ensures InTime(Merge(s).alter, at) <==> LaterFirst(s.alterOf, at)
  {
    StackInTimeIff(s.alterOf, at);
    assert Merge(s).alter == Stacked(s.alterOf);
  }

  // As long as a queue is in order of arrival, the first request that does not have to sleep is the
  // oldest such request.
  lemma FirstReadyIsOldest(s: SemSet, l: seq<Request>, at: Request -> int)
    requires AllSound(s, l) && InTime(l, at) && FirstReady(s, l, 0) < |l|
    ensures forall j | 0 <= j < |l| :: Sound(s, l[j]) && (Try(s, l[j]).Sleep? || at(l[FirstReady(s, l, 0)]) <= at(l[j]))
  {
    forall j | 0 <= j < |l| ensures Sound(s, l[j]) {}
  }

  // Whichever requests of the queue are ready, the first of them is the oldest.
  ghost predicate FirstIsOldest(l: seq<Request>, at: Request -> int) {
    forall ready: set<nat>, i: nat, j: nat | FirstOf(ready, i) && i < |l| && j < |l| && j in ready :: at(l[i]) <= at(l[j])
  }

  predicate FirstOf(ready: set<nat>, i: nat) {
    i in ready && forall k | k in ready :: i <= k
  }

  lemma FirstIsOldestIff(l: seq<Request>, at: Request -> int)
    ensures FirstIsOldest(l, at) <==> InTime(l, at)
  {
    if FirstIsOldest(l, at) {
      forall i: nat, j: nat | i < j < |l| ensures at(l[i]) <= at(l[j]) {
        assert FirstOf({i, j}, i);
      }
    }
  }

  // ---- a run that leaves the order ---------------------------------------------------------------

  function Take(n: nat): Sembuf {
    Sembuf(n, -1, false, false)
  }

  function First(): Request {
    Entry(1, [Take(0)], None, false)
  }

  function Second(): Request {
    Entry(2, [Take(1)], None, false)
  }

  function Third(): Request {
    Entry(3, [Take(0), Take(1)], None, false)
  }

  // Waiting for a semaphore that is zero.
  lemma TakeSleeps(s: SemSet, q: Request)
    requires |s.vals| == 2 && q.un.None? && q.sops != []
    requires forall k | 0 <= k < |q.sops| :: q.sops[k] == Take(0) || q.sops[k] == Take(1)
    ensures Sound(s, q) && Alters(q.sops)
    ensures s.vals[q.sops[0].num] == 0 ==> Try(s, q).Sleep?
    ensures |q.sops| == 1 && s.vals[q.sops[0].num] == 1 ==> !Try(s, q).Sleep?
  {
    assert q.sops[0].op != 0;
    var v := VarsOf(s, q);
    assert Fits(v, q.sops[0]);
    if s.vals[q.sops[0].num] == 0 {
      StopIsUnique(v, q.sops, 0);
    }
  }

  predicate Asleep(s: SemSet, q: Request) {
    QueuesSound(s) && Sound(s, q) && Alters(q.sops) && Try(s, q).Sleep? && s.complexCount == 0 && s.alter == []
  }

  // Somebody goes to sleep on one semaphore.
  lemma SleepOnOne(s: SemSet, q: Request, n: nat)
    requires Asleep(s, q) && |q.sops| == 1 && q.sops[0].num == n && n < |s.vals|
    ensures var t := Semop(s, q).0;
      && t.vals == s.vals && t.alterOf == s.alterOf[n := s.alterOf[n] + [q]] && t.alter == [] && t.complexCount == 0
  {
    var e := Enqueue(s, q);
    assert e.alterOf == s.alterOf[n := s.alterOf[n] + [q]] && e.alter == [] && e.complexCount == 0;
    assert Unmerge(e).alterOf == e.alterOf by {
      assert forall m | 0 <= m < |e.alterOf| :: e.alterOf[m] + [] == e.alterOf[m];
    }
  }

  // Somebody goes to sleep on several: the queues merge.
  lemma SleepOnAll(s: SemSet, q: Request)
    requires Asleep(s, q) && |q.sops| > 1
    ensures Semop(s, q).0.alter == Stacked(s.alterOf) + [q] && Semop(s, q).0.vals == s.vals
  {
    var l := Enter(s);
    SoundIsStable(s, l);
    assert Try(l, q) == Try(s, q);
    assert Stacked(s.alterOf) + [] == Stacked(s.alterOf);
  }

  lemma StackedPair(a: Request, b: Request)
    ensures Stacked([[a], [b]]) == [b, a]
  {
    assert [[a], [b]][1..] == [[b]] && [[b]][1..] == [];
    assert Stacked([[b]]) == Stacked([]) + [b];
    assert Stacked([[a], [b]]) == Stacked([[b]]) + [a];
  }

  lemma UnmergeNothing(s: SemSet)
    requires QueuesSound(s) && s.alter == []
    ensures Unmerge(s) == s
  {
    forall n | 0 <= n < |s.alterOf| ensures Unmerge(s).alterOf[n] == s.alterOf[n] {
      assert s.complexCount == 0 ==> Unmerge(s).alterOf[n] == s.alterOf[n] + OnSem([], n);
    }
    assert Unmerge(s).alterOf == s.alterOf;
  }

  lemma CreatedTwo() returns (s: SemSet)
    ensures s == Created(2) && Inv(s) && s.vals == [0, 0] && s.alterOf == [[], []] && s.alter == [] && s.complexCount == 0
  {
    hide Inv, Unmerge;
    s := Created(2);
    CreatedInv(2);
    var b := SemSet(Zeros(2), seq(2, _ => []), seq(2, _ => []), [], [], map[], 0, HYSTERESIS, []);
    UnmergeNothing(b);
    assert b.alterOf == [[], []] && b.vals == [0, 0];
  }

  predicate Empty(s: SemSet) {
    s.vals == [0, 0] && s.alter == [] && s.complexCount == 0
  }

  lemma OneMore(s: SemSet, q: Request, n: nat) returns (t: SemSet)
    requires Inv(s) && Empty(s) && q.un.None? && n < 2 == |s.alterOf| && q.sops == [Take(n)]
    ensures QueuesSound(s) && Allowed(s, DoSemop(q)) && t == Step(s, DoSemop(q)) && Inv(t)
    ensures Empty(t) && t.alterOf == s.alterOf[n := s.alterOf[n] + [q]]
  {
    hide Inv, QueuesSound, Semop, Sound, Try;
    InvSound(s);
    TakeSleeps(s, q);
    SleepOnOne(s, q, n);
    t := Step(s, DoSemop(q));
    StepKeepsInv(s, DoSemop(q));
  }

  lemma AndBoth(s: SemSet) returns (t: SemSet)
    requires Inv(s) && Empty(s) && s.alterOf == [[First()], [Second()]]
    ensures QueuesSound(s) && Allowed(s, DoSemop(Third())) && t == Step(s, DoSemop(Third()))
    ensures t.alter == [Second(), First(), Third()]
  {
    hide Inv, QueuesSound, Semop, Sound, Try;
    InvSound(s);
    TakeSleeps(s, Third());
    SleepOnAll(s, Third());
    StackedPair(First(), Second());
    t := Step(s, DoSemop(Third()));
  }

  // Three sleepers, the first on semaphore 0, the second on semaphore 1, the third on both: when the
  // third one comes the second gets in front of the first. With both semaphores at one, the policy
  // would finish the second one, although the first could go on as well and is older.
  lemma OutOfOrder() returns (s: SemSet)
    ensures Reachable(s) && s.alter == [Second(), First(), Third()] && !InTime(s.alter, (q: Request) => q.pid)
    ensures var t := s.(vals := [1, 1]);
      AllSound(t, s.alter) && FirstReady(t, s.alter, 0) == 0 && Sound(t, First()) && !Try(t, First()).Sleep?
  {
    hide Inv, QueuesSound, Semop, Step, Allowed, AllSound, Sound, Try, FirstReady, Reachable;
    var s0 := CreatedTwo();
    var s1 := OneMore(s0, First(), 0);
    assert s1.alterOf == [[First()], []] by {
      assert [] + [First()] == [First()] && [[], []][0 := [First()]] == [[First()], []];
    }
    var s2 := OneMore(s1, Second(), 1);
    assert [] + [Second()] == [Second()] && s2.alterOf == [[First()], [Second()]];
    s := AndBoth(s2);
    ThreeCalls(s0, s1, s2, s);
    WithBothAtOne(s);
    assert s.alter[0].pid == 2 && s.alter[1].pid == 1;
  }

  lemma ThreeCalls(s0: SemSet, s1: SemSet, s2: SemSet, s3: SemSet)
    requires s0 == Created(2) && QueuesSound(s0) && QueuesSound(s1) && QueuesSound(s2)
    requires Allowed(s0, DoSemop(First())) && s1 == Step(s0, DoSemop(First()))
    requires Allowed(s1, DoSemop(Second())) && s2 == Step(s1, DoSemop(Second()))
    requires Allowed(s2, DoSemop(Third())) && s3 == Step(s2, DoSemop(Third()))
    ensures Reachable(s3)
  {
    hide Step, Allowed, Created, QueuesSound;
    assert Leads(s3, [], s3);
    LeadsFrom(s2, DoSemop(Third()), [], s3);
    LeadsFrom(s1, DoSemop(Second()), [DoSemop(Third())] + [], s3);
    LeadsFrom(s0, DoSemop(First()), [DoSemop(Second())] + ([DoSemop(Third())] + []), s3);
  }

  lemma WithBothAtOne(s: SemSet)
    requires s.alter == [Second(), First(), Third()]
    ensures var t := s.(vals := [1, 1]);
      AllSound(t, s.alter) && FirstReady(t, s.alter, 0) == 0 && Sound(t, First()) && !Try(t, First()).Sleep?
  {
    var t := s.(vals := [1, 1]);
    TakeSleeps(t, First());
    TakeSleeps(t, Second());
    TakeSleeps(t, Third());
    hide Sound, Try;
    assert s.alter[0] == Second() && s.alter[1] == First() && s.alter[2] == Third();
  }
}
