// Undo conservation: the value of a semaphore, each adjustment registered for it, and the value plus all of these
// move only by operations, the sum only by those that did not ask for an undo, whoever wakes whom.
module SemUndo {
  import opened SemOps
  import opened SemSpec
  import opened SemRuns
  import opened SemHistory

  ghost predicate RowsReach(adj: map<nat, seq<int>>, us: set<nat>, n: nat) {
    us <= adj.Keys && forall u | u in us :: n < |adj[u]|
  }

  ghost function AdjSum(adj: map<nat, seq<int>>, us: set<nat>, n: nat): int
    requires RowsReach(adj, us, n)
  {
    if us == {} then 0
    else
      var u :| u in us;
      adj[u][n] + AdjSum(adj, us - {u}, n)
  }

  lemma {:induction false} AdjSumPick(adj: map<nat, seq<int>>, us: set<nat>, u: nat, n: nat)
    requires RowsReach(adj, us, n) && u in us
    ensures AdjSum(adj, us, n) == adj[u][n] + AdjSum(adj, us - {u}, n)
    decreases us
  {
    var v :| v in us && AdjSum(adj, us, n) == adj[v][n] + AdjSum(adj, us - {v}, n);
    if v != u {
      AdjSumPick(adj, us - {v}, u, n);
      AdjSumPick(adj, us - {u}, v, n);
      assert us - {u} - {v} == us - {v} - {u};
    }
  }

  lemma {:induction false} AdjSumAgree(a: map<nat, seq<int>>, b: map<nat, seq<int>>, us: set<nat>, n: nat)
    requires RowsReach(a, us, n) && RowsReach(b, us, n)
    requires forall u | u in us :: a[u][n] == b[u][n]
    ensures AdjSum(a, us, n) == AdjSum(b, us, n)
    decreases us
  {
    if us != {} {
      var u :| u in us;
      AdjSumPick(a, us, u, n);
      AdjSumPick(b, us, u, n);
      AdjSumAgree(a, b, us - {u}, n);
    }
  }

  lemma {:induction false} AdjSumZero(a: map<nat, seq<int>>, us: set<nat>, n: nat)
    requires RowsReach(a, us, n) && forall u | u in us :: a[u][n] == 0
    ensures AdjSum(a, us, n) == 0
    decreases us
  {
    if us != {} {
      var u :| u in us;
      AdjSumPick(a, us, u, n);
      AdjSumZero(a, us - {u}, n);
    }
  }

  lemma AdjSumChange(a: map<nat, seq<int>>, b: map<nat, seq<int>>, u: nat, n: nat)
    requires RowsReach(a, a.Keys, n) && RowsReach(b, b.Keys, n) && u in b && a.Keys - {u} == b.Keys - {u}
    requires forall v | v in a.Keys - {u} :: a[v][n] == b[v][n]
    ensures AdjSum(b, b.Keys, n) == AdjSum(a, a.Keys - {u}, n) + b[u][n]
  {
    AdjSumPick(b, b.Keys, u, n);
    AdjSumAgree(a, b, a.Keys - {u}, n);
  }

  // ---- the conserved quantity -------------------------------------------------------------------

  ghost predicate Reaches(s: SemSet, n: nat) {
    n < |s.vals| && RowsReach(s.adj, s.adj.Keys, n)
  }

  // What is followed for a semaphore: its value with all adjustments, its value, or one adjustment.
  datatype Part = Whole | Value | Row(u: nat)

  ghost function Total(s: SemSet, n: nat, part: Part): int
    requires Reaches(s, n)
  {
    match part
    case Whole => s.vals[n] + AdjSum(s.adj, s.adj.Keys, n)
    case Value => s.vals[n]
    case Row(u) => if u in s.adj then s.adj[u][n] else 0
  }

  // What the operations of a request add to that: to the whole those without undo only, to an adjustment
  // those of its owner with undo, with the other sign.
  function Plain(q: Request, n: nat, part: Part): int {
    match part
    case Whole => PlainSum(q.sops, n, |q.sops|)
    case Value => Sum(q.sops, n, |q.sops|)
    case Row(u) => if q.un == Some(u) then -UndoSum(q.sops, n, |q.sops|) else 0
  }

  function Credit(w: seq<Wake>, n: nat, part: Part): int {
    if w == [] then 0
    else Credit(w[..|w| - 1], n, part) + (if w[|w| - 1].code == 0 then Plain(w[|w| - 1].req, n, part) else 0)
  }

  // The total, less what the requests that were completed for sleepers contributed.
  ghost function Balance(s: SemSet, n: nat, part: Part): int
    requires Reaches(s, n)
  {
    Total(s, n, part) - Credit(s.woken, n, part)
  }

  lemma CreditStep(w: seq<Wake>, x: Wake, n: nat, part: Part)
    ensures Credit(w + [x], n, part) == Credit(w, n, part) + (if x.code == 0 then Plain(x.req, n, part) else 0)
  {
    assert (w + [x])[..|w|] == w;
  }

  lemma PlainOfNothing(q: Request, n: nat, part: Part)
    requires !Alters(q.sops)
    ensures Plain(q, n, part) == 0
  {
    SumOfNothing(q.sops, n, |q.sops|);
    SumSplits(q.sops, n, |q.sops|);
  }

  lemma {:induction false} LeaveCredit(s: SemSet, l: seq<Request>, w: seq<Wake>, n: nat, part: Part)
    requires AllSound(s, l) && forall i | 0 <= i < |l| :: !Alters(l[i].sops)
    ensures Credit(w + Leave(s, l), n, part) == Credit(w, n, part)
    decreases |l|
  {
    if l == [] {
      assert w + Leave(s, l) == w;
    } else if Try(s, l[0]).Sleep? {
      LeaveCredit(s, l[1..], w, n, part);
    } else {
      var x := Wake(l[0], Code(Try(s, l[0])));
      assert w + Leave(s, l) == (w + [x]) + Leave(s, l[1..]);
      LeaveCredit(s, l[1..], w + [x], n, part);
      CreditStep(w, x, n, part);
      PlainOfNothing(l[0], n, part);
    }
  }

  // ---- one request ------------------------------------------------------------------------------

  lemma {:induction false} NoUndoSum(sops: seq<Sembuf>, n: nat, k: nat)
    requires k <= |sops| && !Undoes(sops)
    ensures UndoSum(sops, n, k) == 0
  {
    if k > 0 {
      NoUndoSum(sops, n, k - 1);
    }
  }

  lemma AppliedRow(s: SemSet, q: Request, n: nat, u: nat)
    requires Reaches(s, n) && Sound(s, q) && Try(s, q).Done? && u in s.adj
    ensures var t := Applied(s, q);
      u in t.adj && |t.adj[u]| == |s.adj[u]|
      && t.adj[u][n] == s.adj[u][n] - (if q.un == Some(u) then UndoSum(q.sops, n, |q.sops|) else 0)
  {
  }

  lemma AppliedValue(s: SemSet, q: Request, n: nat)
    requires Reaches(s, n) && Sound(s, q) && Try(s, q).Done?
    ensures Reaches(Applied(s, q), n) && Applied(s, q).adj.Keys == s.adj.Keys
    ensures Applied(s, q).vals[n] == s.vals[n] + Sum(q.sops, n, |q.sops|)
  {
  }

  lemma AppliedTotal(s: SemSet, q: Request, n: nat, part: Part)
    requires Reaches(s, n) && Sound(s, q) && Try(s, q).Done?
    ensures Reaches(Applied(s, q), n)
    ensures Total(Applied(s, q), n, part) == Total(s, n, part) + Plain(q, n, part)
  {
    var t := Applied(s, q);
    AppliedValue(s, q, n);
    SumSplits(q.sops, n, |q.sops|);
    forall u | u in s.adj ensures u in t.adj && |t.adj[u]| == |s.adj[u]|
      && t.adj[u][n] == s.adj[u][n] - (if q.un == Some(u) then UndoSum(q.sops, n, |q.sops|) else 0)
    {
      AppliedRow(s, q, n, u);
    }
    OwnerThere(s, q);
    if q.un.Some? {
      var u := q.un.value;
      hide Sound, Try, Applied, Sum, UndoSum, PlainSum;
      AdjSumPick(s.adj, s.adj.Keys, u, n);
      AdjSumChange(s.adj, t.adj, u, n);
    } else {
      NoUndoSum(q.sops, n, |q.sops|);
      hide Sound, Try, Applied, Sum, UndoSum, PlainSum;
      AdjSumAgree(s.adj, t.adj, s.adj.Keys, n);
    }
  }

  lemma OwnerThere(s: SemSet, q: Request)
    requires Sound(s, q)
    ensures q.un.Some? ==> q.un.value in s.adj
    ensures q.un.None? ==> !Undoes(q.sops)
  {
    if q.un.None? {
      assert forall k | 0 <= k < |q.sops| :: Fits(VarsOf(s, q), q.sops[k]);
    }
  }

  // ---- do_smart_update() ------------------------------------------------------------------------

  lemma WakeConstBalance(s: SemSet, m: nat, n: nat, part: Part)
    requires Structure(s) && m < |s.vals| && n < |s.vals|
    ensures Reaches(s, n) && Reaches(WakeConst(s, Of(m)), n) && Balance(WakeConst(s, Of(m)), n, part) == Balance(s, n, part)
  {
    LeaveCredit(s, s.constOf[m], s.woken, n, part);
  }

  lemma {:induction false} ZeroScanBalance(s: SemSet, nums: seq<nat>, k: nat, n: nat, part: Part)
    requires Structure(s) && k <= |nums| && Nums(s, nums) && n < |s.vals|
    ensures Balance(ZeroScan(s, nums, k), n, part) == Balance(s, n, part)
    decreases |nums| - k
  {
    if k < |nums| {
      if s.vals[nums[k]] == 0 {
        WakeConstStructure(s, Of(nums[k]));
        WakeConstBalance(s, nums[k], n, part);
        hide Kinds, Ranges, WakeConst, Balance, Sound;
        ZeroScanBalance(WakeConst(s, Of(nums[k])), nums, k + 1, n, part);
      } else {
        hide Kinds, Ranges, WakeConst, Balance, Sound;
        ZeroScanBalance(s, nums, k + 1, n, part);
      }
    }
  }

  lemma WakeZeroBalance(s: SemSet, nums: seq<nat>, n: nat, part: Part)
    requires Structure(s) && Nums(s, nums) && n < |s.vals|
    ensures Balance(WakeZero(s, nums), n, part) == Balance(s, n, part)
  {
    ZeroScanBalance(s, nums, 0, n, part);
    ZeroScanStructure(s, nums, 0);
    var t := ZeroScan(s, nums, 0);
    LeaveCredit(t, t.const_, t.woken, n, part);
  }

  // A request that was done, with the sleepers it let pass through zero.
  lemma DoneBalance(u: SemSet, q: Request, n: nat, part: Part)
    requires Structure(u) && Sound(u, q) && Try(u, q).Done? && n < |u.vals|
    ensures Structure(Applied(u, q)) && Nums(Applied(u, q), SopNums(q.sops))
    ensures var t := WakeZero(Applied(u, q), SopNums(q.sops));
      Structure(t) && |t.vals| == |u.vals| && Balance(t.(woken := t.woken + [Wake(q, 0)]), n, part) == Balance(u, n, part)
  {
    AppliedStructure(u, q);
    AppliedKeepsSound(u, q);
    NamedInRange(u, q);
    var a := Applied(u, q);
    hide Kinds, Ranges, SimpleQueuesEmpty, Try, WakeZero, PlainSum, SopNums;
    AppliedTotal(u, q, n, part);
    WakeZeroStructure(a, SopNums(q.sops));
    WakeZeroBalance(a, SopNums(q.sops), n, part);
    CreditStep(WakeZero(a, SopNums(q.sops)).woken, Wake(q, 0), n, part);
  }

  lemma NamedInRange(s: SemSet, q: Request)
    requires QueuesSound(s) && Sound(s, q)
    ensures Nums(Applied(s, q), SopNums(q.sops))
  {
    var nums := SopNums(q.sops);
    forall k | 0 <= k < |nums| ensures nums[k] < |Applied(s, q).vals| {
      assert Fits(VarsOf(s, q), q.sops[k]);
    }
  }

  lemma UnlinkBalance(s: SemSet, p: Place, i: nat, n: nat, part: Part)
    requires Structure(s) && HasPlace(s, p) && i < |AlterQ(s, p)| && n < |s.vals|
    ensures var u := Unlink(s, p, i);
      Reaches(s, n) && Reaches(u, n) && Balance(u, n, part) == Balance(s, n, part) && u.woken == s.woken
  {
    hide Kinds, QueuesSound;
  }

  lemma FinishBalance(s: SemSet, p: Place, i: nat, n: nat, part: Part)
    requires Structure(s) && HasPlace(s, p) && i < |AlterQ(s, p)| && n < |s.vals|
    ensures Structure(Finish(s, p, i)) && Balance(Finish(s, p, i), n, part) == Balance(s, n, part)
  {
    FinishStructure(s, p, i);
    var q, u := AlterQ(s, p)[i], Unlink(s, p, i);
    UnlinkedSound(s, p, i);
    UnlinkStructure(s, p, i);
    UnlinkBalance(s, p, i, n, part);
    hide Structure, QueuesSound, Sound, Unlink, Try, Code, WakeZero, Total, Reaches;
    if Try(u, q).Done? {
      DoneBalance(u, q, n, part);
    } else {
      CreditStep(u.woken, Wake(q, Code(Try(u, q))), n, part);
      ErrorCode(u, q);
    }
  }

  lemma ErrorCode(u: SemSet, q: Request)
    requires Sound(u, q) && !Try(u, q).Done?
    ensures Code(Try(u, q)) != 0
  {
  }

  lemma {:induction false} ServeBalance(s: SemSet, p: Place, n: nat, part: Part)
    requires Structure(s) && HasPlace(s, p) && n < |s.vals|
    ensures Structure(Serve(s, p)) && Balance(Serve(s, p), n, part) == Balance(s, n, part)
    decreases |AlterQ(s, p)|
  {
    hide Kinds, Ranges, Total, Credit, Reaches, Finish, Sound, Try;
    var i := FirstReady(s, AlterQ(s, p), 0);
    if i < |AlterQ(s, p)| {
      FinishBalance(s, p, i, n, part);
      ServeBalance(Finish(s, p, i), p, n, part);
    }
  }

  lemma {:induction false} ServeEachBalance(s: SemSet, nums: seq<nat>, k: nat, n: nat, part: Part)
    requires Structure(s) && k <= |nums| && Nums(s, nums) && n < |s.vals|
    ensures Structure(ServeEach(s, nums, k)) && Balance(ServeEach(s, nums, k), n, part) == Balance(s, n, part)
    decreases |nums| - k
  {
    hide Kinds, Ranges, Total, Credit, Reaches, Serve, Sound;
    if k < |nums| {
      ServeBalance(s, Of(nums[k]), n, part);
      ServeEachBalance(Serve(s, Of(nums[k])), nums, k + 1, n, part);
    }
  }

  lemma SmartUpdateBalance(s: SemSet, sops: Option<seq<Sembuf>>, n: nat, part: Part)
    requires Structure(s) && SopsBelow(s, sops) && n < |s.vals|
    ensures Structure(SmartUpdate(s, sops)) && Balance(SmartUpdate(s, sops), n, part) == Balance(s, n, part)
  {
    RescannedInRange(s, sops);
    WakeZeroBalance(s, Touched(s, sops), n, part);
    WakeZeroStructure(s, Touched(s, sops));
    var t := WakeZero(s, Touched(s, sops));
    if t.alter != [] {
      ServeBalance(t, Global, n, part);
    } else {
      ServeEachBalance(t, Rescanned(s, sops), 0, n, part);
    }
  }

  // ---- main results: the operations ---------------------------------------------------------------

  // Balance only looks at values, adjustments and the wake-ups.
  lemma SameBalance(s: SemSet, t: SemSet, n: nat, part: Part)
    requires Reaches(s, n) && t.vals == s.vals && t.adj == s.adj && t.woken == s.woken
    ensures Reaches(t, n) && Balance(t, n, part) == Balance(s, n, part)
  {
  }

  lemma SemopDoneBalance(l: SemSet, q: Request, n: nat, part: Part)
    requires Structure(l) && Sound(l, q) && Try(l, q).Done? && n < |l.vals|
    ensures SopsBelow(Applied(l, q), Some(q.sops)) && QueuesSound(Applied(l, q))
    ensures
      var b := if Alters(q.sops) then SmartUpdate(Applied(l, q), Some(q.sops)) else Applied(l, q);
      Reaches(b, n) && Balance(b, n, part) == Balance(l, n, part) + Plain(q, n, part)
  {
    AppliedTotal(l, q, n, part);
    AppliedStructure(l, q);
    forall k | 0 <= k < |q.sops| ensures q.sops[k].num < |l.vals| {
      assert Fits(VarsOf(l, q), q.sops[k]);
    }
    if Alters(q.sops) {
      SmartUpdateBalance(Applied(l, q), Some(q.sops), n, part);
    }
  }

  lemma InsideBalance(l: SemSet, g: bool, q: Request, n: nat, part: Part)
    requires Structure(l) && Sound(l, q) && n < |l.vals|
    ensures Reaches(SemopInside(l, g, q).0, n)
    ensures Balance(SemopInside(l, g, q).0, n, part) ==
            Balance(l, n, part) + (if SemopInside(l, g, q).1 == 0 then Plain(q, n, part) else 0)
  {
    match Try(l, q)
    case Done(_) =>
      SemopDoneBalance(l, q, n, part);
      UnlockBalance(if Alters(q.sops) then SmartUpdate(Applied(l, q), Some(q.sops)) else Applied(l, q), g, n, part);
    case Error(_) =>
      UnlockBalance(l, g, n, part);
    case Sleep(_) =>
      EnqueueBalance(l, q, n, part);
      UnlockBalance(Enqueue(l, q), g, n, part);
  }

  // semop() moves the balance by its own operations without undo, and only if it succeeds at once.
  lemma SemopBalance(s: SemSet, q: Request, n: nat, part: Part)
    requires Unlocked(s) && Sound(s, q) && n < |s.vals|
    ensures Reaches(Semop(s, q).0, n)
    ensures Balance(Semop(s, q).0, n, part) == Balance(s, n, part) + (if Semop(s, q).1 == 0 then Plain(q, n, part) else 0)
  {
    var (l, g) := Lock(s, |q.sops|);
    SoundIsStable(s, l);
    SameBalance(s, l, n, part);
    InsideBalance(l, g, q, n, part);
  }

  lemma UnlockBalance(s: SemSet, global: bool, n: nat, part: Part)
    requires QueuesSound(s) && Reaches(s, n)
    ensures Reaches(Unlock(s, global), n) && Balance(Unlock(s, global), n, part) == Balance(s, n, part)
  {
  }

  lemma EnqueueBalance(s: SemSet, q: Request, n: nat, part: Part)
    requires QueuesSound(s) && Sound(s, q) && Reaches(s, n)
    ensures Reaches(Enqueue(s, q), n) && Balance(Enqueue(s, q), n, part) == Balance(s, n, part)
  {
  }

  // A semaphore that starts afresh at val, without adjustments.
  function Fresh(val: int, part: Part): int {
    if part.Row? then 0 else val
  }

  lemma ValueSetTotal(s: SemSet, m: nat, val: int, n: nat, part: Part)
    requires Ranges(s) && m < |s.vals| && n < |s.vals|
    ensures
      var a := Enter(s).(vals := s.vals[m := val], adj := ZeroAdj(s.adj, m));
      && Reaches(a, n) && Reaches(s, n)
      && Total(a, n, part) == if n == m then Fresh(val, part) else Total(s, n, part)
  {
    var a := Enter(s).(vals := s.vals[m := val], adj := ZeroAdj(s.adj, m));
    assert a.adj.Keys == s.adj.Keys;
    if n == m {
      AdjSumZero(a.adj, a.adj.Keys, n);
    } else {
      AdjSumAgree(s.adj, a.adj, s.adj.Keys, n);
    }
  }

  lemma StructureReaches(s: SemSet, n: nat)
    requires Structure(s) && n < |s.vals|
    ensures QueuesSound(s) && Reaches(s, n)
  {
  }

  // An owner with the adjustment a exits: the value x takes it over, up to the ends of its range, and the
  // adjustment is gone.
  function Settled(x: int, a: int, u: nat, part: Part): int {
    var r := if x + a < 0 then 0 else if x + a > 32767 then 32767 else x + a;
    match part
    case Whole => r - (x + a)
    case Value => r - x
    case Row(v) => if v == u then -a else 0
  }

  // The adjustment goes over into the value.
  lemma ExitUndoTotal(s: SemSet, u: nat, n: nat, part: Part)
    requires Structure(s) && u in s.adj && |s.adj[u]| == |s.vals| && UndoIdle(s, u) && n < |s.vals|
    ensures Reaches(s, n) && Reaches(DropUndo(s, u), n)
    ensures
      Total(DropUndo(s, u), n, part) == Total(s, n, part) + Settled(s.vals[n], s.adj[u][n], u, part)
  {
    hide QueuesSound, Kinds, UndoIdle;
    var a := DropUndo(s, u);
    assert a.adj.Keys == s.adj.Keys - {u};
    AdjSumPick(s.adj, s.adj.Keys, u, n);
    AdjSumAgree(s.adj, a.adj, s.adj.Keys - {u}, n);
  }

  // SETVAL forgets the adjustments of its semaphore; the balance starts anew from the value.
  lemma SetValBalance(s: SemSet, m: nat, val: int, n: nat, part: Part)
    requires Unlocked(s) && m < |s.vals| && 0 <= val <= SEMVMX && n < |s.vals|
    ensures Reaches(SetVal(s, m, val), n)
    ensures Balance(SetVal(s, m, val), n, part) ==
            if n == m then Fresh(val, part) - Credit(s.woken, n, part) else Balance(s, n, part)
  {
    var a := Enter(s).(vals := s.vals[m := val], adj := ZeroAdj(s.adj, m));
    ValueSet(s, m, val);
    ValueSetTotal(s, m, val, n, part);
    hide Structure, QueuesSound, Unlocked, ZeroAdj, Unlock, SmartUpdate, Total, Credit, Reaches;
    SmartUpdateBalance(a, None, n, part);
    StructureReaches(SmartUpdate(a, None), n);
    UnlockBalance(SmartUpdate(a, None), true, n, part);
  }

  // An exiting owner hands its adjustment back to the value; only the clamp to 0..SEMVMX is lost.
  lemma ExitUndoBalance(s: SemSet, u: nat, n: nat, part: Part)
    requires Unlocked(s) && u in s.adj && UndoIdle(s, u) && n < |s.vals|
    ensures Reaches(ExitUndo(s, u), n)
    ensures
      Balance(ExitUndo(s, u), n, part) == Balance(s, n, part) + Settled(s.vals[n], s.adj[u][n], u, part)
  {
    var a := DropUndo(s, u);
    UndoDropped(s, u);
    ExitUndoTotal(s, u, n, part);
    hide Structure, QueuesSound, Unlocked, Unlock, SmartUpdate, Credit, AdjSum, UndoIdle, Adjusted, Total, Reaches, Settled;
    SmartUpdateBalance(a, None, n, part);
    StructureReaches(SmartUpdate(a, None), n);
    UnlockBalance(SmartUpdate(a, None), true, n, part);
  }

  // Creating an undo structure, giving up a sleep and visiting the set move nothing.
  lemma AddUndoBalance(s: SemSet, u: nat, n: nat, part: Part)
    requires Unlocked(s) && n < |s.vals|
    ensures Reaches(AddUndo(s, u), n) && Balance(AddUndo(s, u), n, part) == Balance(s, n, part)
  {
    if u !in s.adj {
      var a := s.(adj := s.adj[u := Zeros(|s.vals|)]);
      AdjSumChange(s.adj, a.adj, u, n);
      assert s.adj.Keys - {u} == s.adj.Keys;
      SameBalance(a, AddUndo(s, u), n, part);
    } else {
      SameBalance(s, AddUndo(s, u), n, part);
    }
  }

  lemma CancelBalance(s: SemSet, x: Slot, n: nat, part: Part)
    requires Unlocked(s) && n < |s.vals| && HasSlot(s, x)
    ensures Reaches(Cancel(s, x), n) && Balance(Cancel(s, x), n, part) == Balance(s, n, part)
  {
    var l := Lock(s, |At(s, x).sops|).0;
    SoundIsStable(s, l);
    SameBalance(s, l, n, part);
    StructureReaches(s, n);
    hide Structure, Unlock, Total, Credit;
    SameBalance(l, UnlinkAt(l, x), n, part);
    UnlockBalance(UnlinkAt(l, x), Lock(s, |At(s, x).sops|).1, n, part);
  }

  lemma VisitBalance(s: SemSet, n: nat, part: Part)
    requires Unlocked(s) && n < |s.vals|
    ensures Reaches(Visit(s), n) && Balance(Visit(s), n, part) == Balance(s, n, part)
  {
    SoundIsStable(s, Enter(s));
    SameBalance(s, Visit(s), n, part);
  }

  // SETALL does for all semaphores what SETVAL does for one.
  lemma SetAllBalance(s: SemSet, vals: seq<int>, n: nat, part: Part)
    requires Unlocked(s) && |vals| == |s.vals| && InRange(vals) && n < |s.vals|
    ensures Reaches(SetAll(s, vals), n)
    ensures Balance(SetAll(s, vals), n, part) == Fresh(vals[n], part) - Credit(s.woken, n, part)
  {
    var a := Enter(s).(vals := vals, adj := map u | u in s.adj :: Zeros(|s.adj[u]|));
    ValuesSet(s, vals);
    AdjSumZero(a.adj, a.adj.Keys, n);
    hide Structure, QueuesSound, Unlocked, Unlock, SmartUpdate, Credit, AdjSum;
    SmartUpdateBalance(a, None, n, part);
    StructureReaches(SmartUpdate(a, None), n);
    UnlockBalance(SmartUpdate(a, None), true, n, part);
  }

  lemma PeekBalance(s: SemSet, n: nat, part: Part)
    requires Unlocked(s) && n < |s.vals|
    ensures Reaches(Peek(s), n) && Balance(Peek(s), n, part) == Balance(s, n, part)
  {
    SameBalance(s, Peek(s), n, part);
  }

  // ---- main result: whole runs --------------------------------------------------------------------

  // What a step is meant to move on semaphore n, requests completed for sleepers apart: the
  // operations without undo of a request that succeeds at once, the fresh start of SETVAL and SETALL,
  // and what the clamp cuts off when an owner exits.
  ghost function Moved(s: SemSet, a: Action, n: nat, part: Part): int
    requires Unlocked(s) && Allowed(s, a) && n < |s.vals|
  {
    match a
    case DoSemop(q) => if Semop(s, q).1 == 0 then Plain(q, n, part) else 0
    case DoSetVal(m, val) => if n == m then Fresh(val, part) - Total(s, n, part) else 0
    case DoSetAll(vals) => Fresh(vals[n], part) - Total(s, n, part)
    case DoExitUndo(u) => Settled(s.vals[n], s.adj[u][n], u, part)
    case _ => 0
  }

  lemma StillBalance(s: SemSet, a: Action, n: nat, part: Part)
    requires Inv(s) && Allowed(s, a) && n < |s.vals| && (a.DoAddUndo? || a.DoCancel? || a.DoVisit? || a.DoPeek?)
    ensures Reaches(s, n) && Reaches(Step(s, a), n) && Balance(Step(s, a), n, part) == Balance(s, n, part)
  {
    StructureReaches(s, n);
    assert Unlocked(s);
    hide Inv, Unlocked, Structure, Balance, Reaches, AddUndo, Cancel, Visit, Peek;
    match a
    case DoAddUndo(u) => AddUndoBalance(s, u, n, part);
    case DoCancel(x) => CancelBalance(s, x, n, part);
    case DoVisit => VisitBalance(s, n, part);
    case DoPeek => PeekBalance(s, n, part);
  }

  lemma StepBalance(s: SemSet, a: Action, n: nat, part: Part)
    requires Inv(s) && Allowed(s, a) && n < |s.vals|
    ensures Inv(Step(s, a)) && |Step(s, a).vals| == |s.vals| && Reaches(s, n) && Reaches(Step(s, a), n)
    ensures Balance(Step(s, a), n, part) == Balance(s, n, part) + Moved(s, a, n, part)
  {
    StepKeepsInv(s, a);
    StructureReaches(s, n);
    assert Unlocked(s);
    hide Inv, Unlocked, Structure, Balance, Reaches, Semop, SetVal, SetAll, ExitUndo, AddUndo, Cancel, Visit, Peek, Plain;
    match a
    case DoSemop(q) => SemopBalance(s, q, n, part);
    case DoSetVal(m, val) => SetValBalance(s, m, val, n, part);
    case DoSetAll(vals) => SetAllBalance(s, vals, n, part);
    case DoExitUndo(u) => ExitUndoBalance(s, u, n, part);
    case _ => StillBalance(s, a, n, part);
  }

  ghost function MovedInRun(s: SemSet, run: seq<Action>, t: SemSet, n: nat, part: Part): int
    requires Inv(s) && Leads(s, run, t) && n < |s.vals|
    decreases |run|
  {
    if run == [] then 0
    else
      StepBalance(s, run[0], n, part);
      Moved(s, run[0], n, part) + MovedInRun(Step(s, run[0]), run[1..], t, n, part)
  }

  lemma {:induction false} RunBalance(s: SemSet, run: seq<Action>, t: SemSet, n: nat, part: Part)
    requires Inv(s) && Leads(s, run, t) && n < |s.vals|
    ensures n < |t.vals| && Reaches(s, n) && Reaches(t, n)
    ensures Balance(t, n, part) == Balance(s, n, part) + MovedInRun(s, run, t, n, part)
    decreases |run|
  {
    if run != [] {
      StepBalance(s, run[0], n, part);
      RunBalance(Step(s, run[0]), run[1..], t, n, part);
    }
  }

  // Undo conservation over every run of a set: value and adjustments together are what the operations
  // without undo added, of the requests that succeeded at once and of those completed for sleepers,
  // apart from fresh starts and clamps.
  lemma TotalIsEarned(nsems: nat, run: seq<Action>, t: SemSet, n: nat, part: Part)
    requires Leads(Created(nsems), run, t) && n < nsems
    ensures Inv(Created(nsems)) && |Created(nsems).vals| == nsems && Reaches(t, n)
    ensures Total(t, n, part) == Credit(t.woken, n, part) + MovedInRun(Created(nsems), run, t, n, part)
  {
    CreatedInv(nsems);
    RunBalance(Created(nsems), run, t, n, part);
    assert Total(Created(nsems), n, part) == 0;
  }
}
