// What the caller of an operation on a semaphore set is answered, and what the operation does to values
// and adjustments, said without the functions that work it out.
module SemAnswers {
  import opened SemOps
  import opened SemSpec
  import opened SemRuns
  import opened SemHistory

  // ---- one request --------------------------------------------------------------------------------

  // Operation k of a request meets the value that the operations before it leave.
  function ValueAt(v: Vars, sops: seq<Sembuf>, k: nat): int
    requires k < |sops| && AllFit(v, sops)
  {
    assert Fits(v, sops[k]);
    After(v, sops, k).vals[sops[k].num]
  }

  // And, if it asks for an undo, this adjustment.
  function AdjustmentAt(v: Vars, sops: seq<Sembuf>, k: nat): int
    requires k < |sops| && AllFit(v, sops) && sops[k].undo
  {
    assert Fits(v, sops[k]);
    After(v, sops, k).row[sops[k].num]
  }

  // A wait for a semaphore that is not zero, or a decrement below zero.
  predicate MustWait(v: Vars, sops: seq<Sembuf>, k: nat)
    requires k < |sops| && AllFit(v, sops)
  {
    var x, d := ValueAt(v, sops, k), sops[k].op;
    (d == 0 && x != 0) || x + d < 0
  }

  // The value or the adjustment would leave its range.
  predicate Overflows(v: Vars, sops: seq<Sembuf>, k: nat)
    requires k < |sops| && AllFit(v, sops)
  {
    ValueAt(v, sops, k) + sops[k].op > 32767
    || (sops[k].undo && !(-32768 <= AdjustmentAt(v, sops, k) - sops[k].op <= 32767))
  }

  predicate Passes(v: Vars, sops: seq<Sembuf>, k: nat)
    requires k < |sops| && AllFit(v, sops)
  {
    !MustWait(v, sops, k) && !Overflows(v, sops, k)
  }

  lemma PassesIsFine(v: Vars, sops: seq<Sembuf>, k: nat)
    requires k < |sops| && AllFit(v, sops)
    ensures Passes(v, sops, k) == Check(v, sops, k).Fine?
    ensures MustWait(v, sops, k) == Check(v, sops, k).Blocks?
  {
    assert Fits(v, sops[k]);
  }

  // Nothing of a request is done, or all of it; all exactly if each operation passes on what the ones
  // before it leave.
  lemma RequestDoneIff(v: Vars, sops: seq<Sembuf>)
    requires AllFit(v, sops)
    ensures Attempt(v, sops).Done? <==> forall k | 0 <= k < |sops| :: Passes(v, sops, k)
    ensures Attempt(v, sops).Done? ==> Attempt(v, sops).v == After(v, sops, |sops|)
  {
    hide Passes, Check, After;
    forall k | 0 <= k < |sops| ensures Passes(v, sops, k) == Check(v, sops, k).Fine? {
      PassesIsFine(v, sops, k);
    }
    if forall k | 0 <= k < |sops| :: Passes(v, sops, k) {
      StopIsUnique(v, sops, |sops|);
    }
  }

  // The first operation that does not pass decides: it sleeps if it has to wait, or gives up at once with
  // IPC_NOWAIT; it fails if it would overflow.
  lemma RequestStopsAt(v: Vars, sops: seq<Sembuf>, k: nat)
    requires AllFit(v, sops) && k < |sops| && !Passes(v, sops, k) && forall j | 0 <= j < k :: Passes(v, sops, j)
    ensures Attempt(v, sops) ==
      if !MustWait(v, sops, k) then Error(-34) else if sops[k].nowait then Error(-11) else Sleep(k)
  {
    hide Passes, MustWait, Check, After;
    forall j | 0 <= j <= k ensures Passes(v, sops, j) == Check(v, sops, j).Fine? {
      PassesIsFine(v, sops, j);
    }
    PassesIsFine(v, sops, k);
    StopIsUnique(v, sops, k);
  }

  // What a request that is done leaves: each value plus the operations on it, and the adjustments of its
  // owner less those with undo.
  lemma AfterAddsUp(v: Vars, sops: seq<Sembuf>, k: nat, n: nat)
    requires k < |sops| && AllFit(v, sops) && n < |v.vals|
    ensures After(v, sops, 0) == v
    ensures var a, b := After(v, sops, k), After(v, sops, k + 1);
      && |a.vals| == |b.vals| == |v.vals| && |a.row| == |b.row| == |v.row|
      && b.vals[n] == a.vals[n] + (if sops[k].num == n then sops[k].op else 0)
      && (n < |v.row| ==> b.row[n] == a.row[n] - (if sops[k].num == n && sops[k].undo then sops[k].op else 0))
  {
    AfterStep(v, sops, k);
  }

  // The answer a request gets: 0 if all of it passes; otherwise the first operation that does not decides.
  ghost predicate Answers(v: Vars, sops: seq<Sembuf>, code: int)
    requires AllFit(v, sops)
  {
    && (code == 0 <==> forall k | 0 <= k < |sops| :: Passes(v, sops, k))
    && forall k | 0 <= k < |sops| && !Passes(v, sops, k) && (forall j | 0 <= j < k :: Passes(v, sops, j)) ::
         code == if !MustWait(v, sops, k) then -34 else if sops[k].nowait then -11 else 1
  }

  lemma CodeAnswers(v: Vars, sops: seq<Sembuf>)
    requires AllFit(v, sops)
    ensures Answers(v, sops, Code(Attempt(v, sops)))
  {
    hide Passes, MustWait, After, Check;
    RequestDoneIff(v, sops);
    forall k | 0 <= k < |sops| && !Passes(v, sops, k) && (forall j | 0 <= j < k :: Passes(v, sops, j))
      ensures Code(Attempt(v, sops)) == if !MustWait(v, sops, k) then -34 else if sops[k].nowait then -11 else 1
    {
      RequestStopsAt(v, sops, k);
    }
    ErrorsAreNegative(v, sops);
  }

  lemma ErrorsAreNegative(v: Vars, sops: seq<Sembuf>)
    requires AllFit(v, sops)
    ensures Code(Attempt(v, sops)) == 0 <==> Attempt(v, sops).Done?
  {
  }

  // ---- semop() and the sleepers ------------------------------------------------------------------------

  // What semop() answers, 1 for "sleeps"; the values are those at the call.
  lemma SemopAnswer(s: SemSet, q: Request)
    requires QueuesSound(s) && Sound(s, q)
    ensures Answers(VarsOf(s, q), q.sops, Semop(s, q).1)
  {
    hide Answers;
    CodeAnswers(VarsOf(s, q), q.sops);
    var (l, g) := Lock(s, |q.sops|);
    SoundIsStable(s, l);
    assert VarsOf(l, q) == VarsOf(s, q);
  }

  // A sleeper of an alter queue that is served wakes up last, with its answer on the values of that moment.
  lemma FinishAnswer(s: SemSet, p: Place, i: nat)
    requires QueuesSound(s) && HasPlace(s, p) && i < |AlterQ(s, p)|
    ensures var q, w := AlterQ(s, p)[i], Finish(s, p, i).woken;
      |w| > 0 && w[|w| - 1].req == q && Sound(s, q) && Answers(VarsOf(s, q), q.sops, w[|w| - 1].code)
  {
    hide Answers;
    var q, u := AlterQ(s, p)[i], Unlink(s, p, i);
    UnlinkedSound(s, p, i);
    CodeAnswers(VarsOf(u, q), q.sops);
  }

  // And so does everybody who waits for zero and is let go.
  lemma {:induction false} LeaveAnswers(s: SemSet, l: seq<Request>)
    requires AllSound(s, l)
    ensures forall i | 0 <= i < |Leave(s, l)| ::
      var w := Leave(s, l)[i]; w.req in l && w.code != 1 && Sound(s, w.req) && Answers(VarsOf(s, w.req), w.req.sops, w.code)
    decreases |l|
  {
    hide Answers, Sound;
    if l != [] {
      assert Sound(s, l[0]) && forall i | 0 <= i < |l[1..]| :: l[1..][i] == l[i + 1];
      LeaveAnswers(s, l[1..]);
      CodeAnswers(VarsOf(s, l[0]), l[0].sops) by { assert Sound(s, l[0]); SoundFits(s, l[0]); }
      assert l == [l[0]] + l[1..];
    }
  }

  lemma SoundFits(s: SemSet, q: Request)
    requires Sound(s, q)
    ensures AllFit(VarsOf(s, q), q.sops)
  {
  }

  // ---- exit_sem() ------------------------------------------------------------------------------------------

  function Distance(x: int, y: int): nat {
    if x < y then y - x else x - y
  }

  // An owner exits: each value becomes the value of its range that is nearest to value plus adjustment.
  lemma ExitIsNearest(s: SemSet, u: nat, n: nat)
    requires Structure(s) && u in s.adj && |s.adj[u]| == |s.vals| && UndoIdle(s, u) && n < |s.vals|
    ensures var r, x := DropUndo(s, u).vals[n], s.vals[n] + s.adj[u][n];
      && |DropUndo(s, u).vals| == |s.vals| && 0 <= r <= 32767
      && (forall y | 0 <= y <= 32767 :: Distance(r, x) <= Distance(y, x))
      && (0 <= x <= 32767 ==> r == x) && (x < 0 ==> r == 0) && (x > 32767 ==> r == 32767)
  {
    hide UndoIdle, QueuesSound, Kinds;
  }
}
