// The semaphore set as the object that semop(), semctl() and exit change in place. Every method is
// tied to the specification of SemSpec by the value State().
module SemArray {
  import opened SemOps
  import opened SemSpec
  import opened SemRuns
  import opened SemHistory

  lemma RowUnchanged(m: map<nat, seq<int>>, un: Option<nat>)
    ensures WithRow(m, un, Row(m, un)) == m
  {
    if un.Some? && un.value in m {
      assert m[un.value := m[un.value]] == m;
    }
  }

  lemma RowReplaced(m: map<nat, seq<int>>, un: Option<nat>, r: seq<int>, r': seq<int>)
    requires |r| == |Row(m, un)|
    ensures Row(WithRow(m, un, r), un) == r
    ensures WithRow(WithRow(m, un, r), un, r') == WithRow(m, un, r')
  {
  }

  // Operation k is judged on what the operations before it leave.
  lemma CheckMeans(v: Vars, sops: seq<Sembuf>, k: nat)
    requires k < |sops| && AllFit(v, sops)
    ensures Fits(v, sops[k]) && Fits(After(v, sops, k), sops[k])
    ensures var op, w := sops[k], After(v, sops, k);
      Check(v, sops, k) == Judge(op, w.vals[op.num], if op.undo then w.row[op.num] else 0)
  {
    assert Fits(v, sops[k]);
  }

  // Without duplicates the values from before the request will do.
  lemma NoDupCheck(v: Vars, sops: seq<Sembuf>, k: nat)
    requires k < |sops| && AllFit(v, sops) && NoDup(sops)
    ensures Fits(v, sops[k])
    ensures Check(v, sops, k) == Judge(sops[k], v.vals[sops[k].num], if sops[k].undo then v.row[sops[k].num] else 0)
  {
    assert Fits(v, sops[k]);
    NoDupSum(sops, k, k);
  }

  lemma SameRowLength(v: Vars, sops: seq<Sembuf>)
    ensures forall k | 0 <= k <= |sops| :: |After(v, sops, k).row| == |v.row| && |After(v, sops, k).vals| == |v.vals|
  {
  }

  lemma ZeroScanStep(s: SemSet, nums: seq<nat>, i: nat)
    requires i < |nums| && Nums(s, nums) && QueuesSound(s)
    ensures AllSound(s, ConstQ(s, Of(nums[i])))
    ensures var t := if s.vals[nums[i]] == 0 then WakeConst(s, Of(nums[i])) else s;
      QueuesSound(t) && Nums(t, nums) && ZeroScan(s, nums, i) == ZeroScan(t, nums, i + 1)
  {
    WakeConstKeepsSound(s, Of(nums[i]));
  }

  lemma ZeroScanEnd(s: SemSet, nums: seq<nat>)
    requires Nums(s, nums) && QueuesSound(s)
    ensures ZeroScan(s, nums, |nums|) == s
  {
  }

  lemma CodeSigns(s: SemSet, q: Request)
    requires Sound(s, q)
    ensures Code(Try(s, q)) > 0 <==> Try(s, q).Sleep?
    ensures Code(Try(s, q)) == 0 <==> Try(s, q).Done?
    ensures !Try(s, q).Done? ==> Applied(s, q) == s
  {
  }

  lemma ConstTwice(s: SemSet, p: Place, c: seq<Request>, d: seq<Request>, x: int, w: seq<Wake>, y: int, z: seq<Wake>)
    requires HasPlace(s, p)
    ensures
      var t := WithConstQ(s, p, c).(complexCount := x, woken := w);
      && HasPlace(t, p) && ConstQ(t, p) == c
      && WithConstQ(t, p, d).(complexCount := y, woken := z) ==
         WithConstQ(s, p, d).(complexCount := y, woken := z)
  {
  }

  // wake_const_ops() has looked at the entries before i of the list c, which was l.
  ghost predicate Scanning(s: SemSet, l: seq<Request>, c: seq<Request>, i: nat, w: seq<Wake>, count: int)
    requires AllSound(s, l)
  {
    && i <= |c| && AllSound(s, c) && AllSound(s, c[i..])
    && (forall j | 0 <= j < |c| :: !Alters(c[j].sops))
    && Stay(s, l) == c[..i] + Stay(s, c[i..])
    && s.woken + Leave(s, l) == w + Leave(s, c[i..])
    && count - ComplexIn(c) == s.complexCount - ComplexIn(l)
  }

  lemma ScanStays(s: SemSet, l: seq<Request>, c: seq<Request>, i: nat, w: seq<Wake>, count: int)
    requires AllSound(s, l) && Scanning(s, l, c, i, w, count) && i < |c| && Try(s, c[i]).Sleep?
    ensures Scanning(s, l, c, i + 1, w, count)
  {
    hide Sound, Try, Alters, ComplexIn;
    assert c[i..] == [c[i]] + c[i + 1..];
    assert c[..i + 1] == c[..i] + [c[i]];
    assert Stay(s, c[i..]) == [c[i]] + Stay(s, c[i + 1..]);
    assert c[..i] + ([c[i]] + Stay(s, c[i + 1..])) == c[..i] + [c[i]] + Stay(s, c[i + 1..]);
  }

  lemma ScanDrops(s: SemSet, l: seq<Request>, c: seq<Request>, i: nat, w: seq<Wake>, count: int)
    requires AllSound(s, l) && Scanning(s, l, c, i, w, count) && i < |c| && !Try(s, c[i]).Sleep?
    ensures Scanning(s, l, Without(c, i), i, w + [Wake(c[i], Code(Try(s, c[i])))], Unlinked(count, c[i]))
  {
    hide Try;
    assert c[i..] == [c[i]] + c[i + 1..];
    ComplexInWithout(c, i);
    var d := Without(c, i);
    assert d[i..] == c[i + 1..] && d[..i] == c[..i];
    assert forall j | 0 <= j < |d| :: d[j] == c[if j < i then j else j + 1];
  }

  lemma ScanEnd(s: SemSet, l: seq<Request>, c: seq<Request>, i: nat, w: seq<Wake>, count: int)
    requires AllSound(s, l) && Scanning(s, l, c, i, w, count) && i == |c|
    ensures c == Stay(s, l) && w == s.woken + Leave(s, l)
    ensures count == s.complexCount - (ComplexIn(l) - ComplexIn(Stay(s, l)))
  {
  }

  // The requests at p wait for zero.
  ghost predicate Waits(s: SemSet, p: Place) {
    && HasPlace(s, p) && Ranges(s) && AllSound(s, ConstQ(s, p))
    && forall j | 0 <= j < |ConstQ(s, p)| :: !Alters(ConstQ(s, p)[j].sops)
  }

  lemma StructureWaits(s: SemSet, p: Place)
    requires Structure(s) && HasPlace(s, p)
    ensures Waits(s, p)
  {
  }

  // Entry i of the const queue at p is done.
  function Dropped(t: SemSet, p: Place, i: nat): SemSet
    requires HasPlace(t, p) && i < |ConstQ(t, p)| && Sound(t, ConstQ(t, p)[i])
  {
    var q := ConstQ(t, p)[i];
    WithConstQ(t, p, Without(ConstQ(t, p), i)).(
      complexCount := Unlinked(t.complexCount, q), woken := t.woken + [Wake(q, Code(Try(t, q)))])
  }

  // wake_const_ops() from entry i on.
  ghost function ScanFrom(t: SemSet, p: Place, i: nat): SemSet
    requires Waits(t, p) && i <= |ConstQ(t, p)|
    decreases |ConstQ(t, p)| - i
  {
    if i == |ConstQ(t, p)| then t
    else
      assert Sound(t, ConstQ(t, p)[i]);
      if Try(t, ConstQ(t, p)[i]).Sleep? then ScanFrom(t, p, i + 1)
      else
        DroppedWaits(t, p, i);
        ScanFrom(Dropped(t, p, i), p, i)
  }

  lemma DroppedWaits(t: SemSet, p: Place, i: nat)
    requires Waits(t, p) && i < |ConstQ(t, p)|
    ensures Waits(Dropped(t, p, i), p) && |ConstQ(Dropped(t, p, i), p)| == |ConstQ(t, p)| - 1
  {
    var c, d := ConstQ(t, p), Without(ConstQ(t, p), i);
    WithoutSound(t, c, i);
    SoundIsStable(t, Dropped(t, p, i));
    hide Sound, Try, Code, Alters, Ranges;
    forall j | 0 <= j < |d| ensures !Alters(d[j].sops) {
      assert d[j] == c[if j < i then j else j + 1];
    }
  }

  lemma WaitsPlace(s: SemSet, p: Place)
    requires Waits(s, p)
    ensures HasPlace(s, p) && AllSound(s, ConstQ(s, p))
  {
  }

  lemma SameQueueTry(s: SemSet, t: SemSet, p: Place, i: nat)
    requires Waits(s, p) && Waits(t, p) && i < |ConstQ(t, p)|
    requires t == WithConstQ(s, p, ConstQ(t, p)).(complexCount := t.complexCount, woken := t.woken)
    ensures HasPlace(s, p) && HasPlace(t, p) && AllSound(s, ConstQ(s, p)) && AllSound(t, ConstQ(t, p))
    ensures Sound(s, ConstQ(t, p)[i]) && Try(s, ConstQ(t, p)[i]) == Try(t, ConstQ(t, p)[i])
  {
    assert Sound(t, ConstQ(t, p)[i]);
  }

  lemma ScanAtEnd(s: SemSet, p: Place, t: SemSet)
    requires Waits(s, p) && Waits(t, p)
    requires t == WithConstQ(s, p, ConstQ(t, p)).(complexCount := t.complexCount, woken := t.woken)
    requires Scanning(s, ConstQ(s, p), ConstQ(t, p), |ConstQ(t, p)|, t.woken, t.complexCount)
    ensures ScanFrom(t, p, |ConstQ(t, p)|) == WakeConst(s, p)
  {
    ScanEnd(s, ConstQ(s, p), ConstQ(t, p), |ConstQ(t, p)|, t.woken, t.complexCount);
  }

  lemma ScanAfterDrop(s: SemSet, p: Place, i: nat, t: SemSet)
    requires Waits(s, p) && Waits(t, p) && i < |ConstQ(t, p)|
    requires t == WithConstQ(s, p, ConstQ(t, p)).(complexCount := t.complexCount, woken := t.woken)
    requires Scanning(s, ConstQ(s, p), ConstQ(t, p), i, t.woken, t.complexCount)
    requires Sound(t, ConstQ(t, p)[i]) && !Try(t, ConstQ(t, p)[i]).Sleep?
    ensures var u := Dropped(t, p, i);
      && Waits(u, p) && |ConstQ(u, p)| == |ConstQ(t, p)| - 1
      && u == WithConstQ(s, p, ConstQ(u, p)).(complexCount := u.complexCount, woken := u.woken)
      && Scanning(s, ConstQ(s, p), ConstQ(u, p), i, u.woken, u.complexCount)
  {
    var c := ConstQ(t, p);
    var q := c[i];
    SameQueueTry(s, t, p, i);
    DroppedWaits(t, p, i);
    hide Try, Sound, Scanning, Waits, QueuesSound;
    ScanDrops(s, ConstQ(s, p), c, i, t.woken, t.complexCount);
    ConstTwice(s, p, c, Without(c, i), t.complexCount, t.woken, Unlinked(t.complexCount, q),
               t.woken + [Wake(q, Code(Try(t, q)))]);
  }

  // The scan does the same as sorting the queue into those that stay and those that leave.
  lemma {:induction false} ScanFromIsWakeConst(s: SemSet, p: Place, i: nat, t: SemSet)
    requires Waits(s, p) && Waits(t, p) && i <= |ConstQ(t, p)|
    requires t == WithConstQ(s, p, ConstQ(t, p)).(complexCount := t.complexCount, woken := t.woken)
    requires Scanning(s, ConstQ(s, p), ConstQ(t, p), i, t.woken, t.complexCount)
    ensures ScanFrom(t, p, i) == WakeConst(s, p)
    decreases |ConstQ(t, p)| - i
  {
    WaitsPlace(s, p);
    WaitsPlace(t, p);
    hide Try, Sound, Scanning, Waits, ScanFrom, WakeConst, Dropped, QueuesSound, HasPlace, WithConstQ;
    var c := ConstQ(t, p);
    if i == |c| {
      ScanAtEnd(s, p, t);
    } else {
      ScanFromStep(t, p, i);
      SameQueueTry(s, t, p, i);
      if Try(t, c[i]).Sleep? {
        ScanStays(s, ConstQ(s, p), c, i, t.woken, t.complexCount);
        ScanFromIsWakeConst(s, p, i + 1, t);
      } else {
        ScanAfterDrop(s, p, i, t);
        ScanFromIsWakeConst(s, p, i, Dropped(t, p, i));
      }
    }
  }

  lemma ScanIsWakeConst(s: SemSet, p: Place)
    requires Waits(s, p)
    ensures ScanFrom(s, p, 0) == WakeConst(s, p)
  {
    assert ConstQ(s, p)[0..] == ConstQ(s, p);
    if p.Of? {
      assert s.constOf[p.n := s.constOf[p.n]] == s.constOf;
    }
    ScanFromIsWakeConst(s, p, 0, s);
  }

  lemma ScanFromStep(t: SemSet, p: Place, i: nat)
    requires Waits(t, p) && i < |ConstQ(t, p)|
    ensures HasPlace(t, p)
    ensures var q := ConstQ(t, p)[i];
      && Sound(t, q) && (!q.dupsop ==> NoDup(q.sops))
      && (Try(t, q).Sleep? ==> ScanFrom(t, p, i) == ScanFrom(t, p, i + 1))
      && (!Try(t, q).Sleep? ==>
            (Waits(Dropped(t, p, i), p) && i <= |ConstQ(Dropped(t, p, i), p)| &&
             ScanFrom(t, p, i) == ScanFrom(Dropped(t, p, i), p, i)))
  {
    DroppedWaits(t, p, i);
  }

  lemma WaiterAt(t: SemSet, p: Place, i: nat)
    requires Waits(t, p) && i < |ConstQ(t, p)|
    ensures Sound(t, ConstQ(t, p)[i]) && Applied(t, ConstQ(t, p)[i]) == t
    ensures Code(Try(t, ConstQ(t, p)[i])) > 0 <==> Try(t, ConstQ(t, p)[i]).Sleep?
  {
    ConstSucceeds(t, ConstQ(t, p)[i]);
  }

  class Array {
    const semval: array<int>
    const alterOf: array<seq<Request>>
    const constOf: array<seq<Request>>
    var alter: seq<Request>
    var const_: seq<Request>
    var adj: map<nat, seq<int>>
    var complexCount: int
    var useGlobal: int
    var woken: seq<Wake>

    ghost predicate Valid()
      reads this
    {
      semval.Length == alterOf.Length == constOf.Length && alterOf != constOf
    }

    ghost function State(): SemSet
      reads this, semval, alterOf, constOf
    {
      SemSet(semval[..], alterOf[..], constOf[..], alter, const_, adj, complexCount, useGlobal, woken)
    }

    constructor (nsems: nat)
      ensures Valid() && fresh(semval) && fresh(alterOf) && fresh(constOf)
      ensures State() == SemSet(Zeros(nsems), seq(nsems, _ => []), seq(nsems, _ => []), [], [], map[], 0,
                                HYSTERESIS, [])
    {
      semval := new int[nsems](_ => 0);
      alterOf := new seq<Request>[nsems](_ => []);
      constOf := new seq<Request>[nsems](_ => []);
      alter, const_, adj, complexCount, useGlobal, woken := [], [], map[], 0, HYSTERESIS, [];
      new;
      assert semval[..] == Zeros(nsems);
      assert alterOf[..] == seq(nsems, _ => []) && constOf[..] == seq(nsems, _ => []);
    }

    // ---- performing one request ----------------------------------------------------------------

    // un->semadj[sop->sem_num] += d, for an operation that asks for an undo.
    method ShiftUndo(un: Option<nat>, sop: Sembuf, d: int)
      requires sop.undo ==> un.Some? && un.value in adj && sop.num < |adj[un.value]|
      modifies this`adj
      ensures sop.undo ==> sop.num < |Row(old(adj), un)|
      ensures adj == WithRow(old(adj), un, Shift(Row(old(adj), un), sop.undo, sop.num, d))
    {
      if sop.undo {
        var u := un.value;
        adj := adj[u := adj[u][sop.num := adj[u][sop.num] + d]];
      } else {
        RowUnchanged(adj, un);
      }
    }

    // Takes back the first k operations, newest first.
    method Rollback(q: Request, k: nat, ghost v: Vars, ghost before: map<nat, seq<int>>)
      requires Valid() && k <= |q.sops| && AllFit(v, q.sops)
      requires v.row == Row(before, q.un)
      requires semval[..] == After(v, q.sops, k).vals
      requires adj == WithRow(before, q.un, After(v, q.sops, k).row)
      modifies this`adj, semval
      ensures semval[..] == v.vals && adj == before
    {
      SameRowLength(v, q.sops);
      hide After, AllFit, WithRow;
      var j := k;
      while j > 0
        invariant 0 <= j <= k
        invariant semval[..] == After(v, q.sops, j).vals
        invariant adj == WithRow(before, q.un, After(v, q.sops, j).row)
      {
        j := j - 1;
        AfterStep(v, q.sops, j);
        RowReplaced(before, q.un, After(v, q.sops, j + 1).row, After(v, q.sops, j).row);
        var sop := q.sops[j];
        semval[sop.num] := semval[sop.num] - sop.op;
        assert semval[..] == After(v, q.sops, j).vals;
        ShiftUndo(q.un, sop, sop.op);
      }
      AfterNone(v, q.sops);
      RowUnchanged(before, q.un);
    }

    // The tests both forms make before an operation is applied, in their order.
    method Judged(un: Option<nat>, sop: Sembuf) returns (verdict: Verdict)
      requires Valid() && Fits(Vars(semval[..], Row(adj, un)), sop)
      ensures verdict == Judge(sop, semval[sop.num], if sop.undo then Row(adj, un)[sop.num] else 0)
    {
      var result := semval[sop.num];
      if sop.op == 0 && result != 0 {
        return Blocks;
      }
      result := result + sop.op;
      if result < 0 {
        return Blocks;
      }
      if result > SEMVMX {
        return OutOfRange;
      }
      if sop.undo {
        var undo := adj[un.value][sop.num] - sop.op;
        if undo < -SEMAEM - 1 || undo > SEMAEM {
          return OutOfRange;
        }
      }
      return Fine;
    }

    // un->semadj and semval after one more operation.
    method ApplyOne(un: Option<nat>, sop: Sembuf, ghost v: Vars, ghost before: map<nat, seq<int>>,
                    ghost sops: seq<Sembuf>, ghost k: nat)
      requires Valid() && k < |sops| && AllFit(v, sops) && sop == sops[k] && v.row == Row(before, un)
      requires semval[..] == After(v, sops, k).vals
      requires adj == WithRow(before, un, After(v, sops, k).row)
      modifies this`adj, semval
      ensures semval[..] == After(v, sops, k + 1).vals
      ensures adj == WithRow(before, un, After(v, sops, k + 1).row)
    {
      AfterStep(v, sops, k);
      RowReplaced(before, un, After(v, sops, k).row, After(v, sops, k + 1).row);
      ShiftUndo(un, sop, -sop.op);
      semval[sop.num] := semval[sop.num] + sop.op;
      assert semval[..] == After(v, sops, k + 1).vals;
    }

    // perform_atomic_semop_slow(): all operations, or none of them.
    method PerformSlow(q: Request) returns (code: int, blocking: nat)
      requires Valid() && Sound(State(), q)
      modifies this`adj, semval
      ensures State() == Applied(old(State()), q)
      ensures code == Code(Try(old(State()), q))
      ensures Try(old(State()), q).Sleep? ==> blocking == Try(old(State()), q).blocking
    {
      ghost var s := State();
      ghost var v := VarsOf(s, q);
      var sops := q.sops;
      var k := 0;
      var verdict := Fine;
      AfterNone(v, sops);
      RowUnchanged(adj, q.un);
      SameRowLength(v, sops);
      hide After, Check, Judge, WithRow, AllFit;
      while k < |sops|
        invariant 0 <= k <= |sops|
        invariant forall j | 0 <= j < k :: Check(v, sops, j).Fine?
        invariant semval[..] == After(v, sops, k).vals
        invariant adj == WithRow(s.adj, q.un, After(v, sops, k).row)
        invariant verdict.Fine?
      {
        RowReplaced(s.adj, q.un, After(v, sops, k).row, After(v, sops, k).row);
        CheckMeans(v, sops, k);
        verdict := Judged(q.un, sops[k]);
        assert verdict == Check(v, sops, k);
        if !verdict.Fine? {
          break;
        }
        ApplyOne(q.un, sops[k], v, s.adj, sops, k);
        k := k + 1;
      }
      StopIsUnique(v, sops, k);
      blocking := k;
      if k == |sops| {
        return 0, blocking;
      }
      if verdict.OutOfRange? {
        code := ERANGE;
      } else {
        code := if sops[k].nowait then EAGAIN else 1;
      }
      Rollback(q, k, v, s.adj);
    }

    // perform_atomic_semop(): without duplicates one pass decides and a second one applies.
    method Perform(q: Request, dupsop: bool) returns (code: int, blocking: nat)
      requires Valid() && Sound(State(), q) && (!dupsop ==> NoDup(q.sops))
      modifies this`adj, semval
      ensures State() == Applied(old(State()), q)
      ensures code == Code(Try(old(State()), q))
      ensures Try(old(State()), q).Sleep? ==> blocking == Try(old(State()), q).blocking
    {
      if dupsop {
        code, blocking := PerformSlow(q);
        return;
      }
      ghost var s := State();
      ghost var v := VarsOf(s, q);
      var sops := q.sops;
      var k := 0;
      hide After, Check, Judge, WithRow, AllFit, NoDup;
      while k < |sops|
        invariant 0 <= k <= |sops| && semval[..] == v.vals && adj == s.adj
        invariant forall j | 0 <= j < k :: Check(v, sops, j).Fine?
      {
        NoDupCheck(v, sops, k);
        var verdict := Judged(q.un, sops[k]);
        assert verdict == Check(v, sops, k);
        if !verdict.Fine? {
          StopIsUnique(v, sops, k);
          return if verdict.OutOfRange? then ERANGE else if sops[k].nowait then EAGAIN else 1, k;
        }
        k := k + 1;
      }
      StopIsUnique(v, sops, k);
      k := 0;
      AfterNone(v, sops);
      RowUnchanged(adj, q.un);
      while k < |sops|
        invariant 0 <= k <= |sops|
        invariant semval[..] == After(v, sops, k).vals
        invariant adj == WithRow(s.adj, q.un, After(v, sops, k).row)
      {
        ApplyOne(q.un, sops[k], v, s.adj, sops, k);
        k := k + 1;
      }
      return 0, k;
    }

    // ---- the queues --------------------------------------------------------------------------------

    function AlterList(p: Place): seq<Request>
      requires p.Of? ==> p.n < alterOf.Length
      reads this, alterOf
    {
      if p.Global? then alter else alterOf[p.n]
    }

    function ConstList(p: Place): seq<Request>
      requires p.Of? ==> p.n < constOf.Length
      reads this, constOf
    {
      if p.Global? then const_ else constOf[p.n]
    }

    // list_del() of entry i, with the count of complex requests.
    method UnlinkAlter(p: Place, i: nat)
      requires Valid() && HasPlace(State(), p) && i < |AlterList(p)|
      modifies this`alter, this`complexCount, alterOf
      ensures State() == WithAlterQ(old(State()), p, Without(old(AlterList(p)), i)).(
                complexCount := Unlinked(old(complexCount), old(AlterList(p))[i]))
    {
      var l := AlterList(p);
      if p.Global? {
        alter := l[..i] + l[i + 1..];
      } else {
        alterOf[p.n] := l[..i] + l[i + 1..];
      }
      if |l[i].sops| > 1 {
        complexCount := complexCount - 1;
      }
    }

    method UnlinkConst(p: Place, i: nat)
      requires Valid() && HasPlace(State(), p) && i < |ConstList(p)|
      modifies this`const_, this`complexCount, constOf
      ensures State() == WithConstQ(old(State()), p, Without(old(ConstList(p)), i)).(
                complexCount := Unlinked(old(complexCount), old(ConstList(p))[i]))
    {
      var l := ConstList(p);
      if p.Global? {
        const_ := l[..i] + l[i + 1..];
      } else {
        constOf[p.n] := l[..i] + l[i + 1..];
      }
      if |l[i].sops| > 1 {
        complexCount := complexCount - 1;
      }
    }

    // Entry i of a const queue was performed and did not have to sleep.
    method CompleteConst(p: Place, i: nat, error: int)
      requires Valid() && HasPlace(State(), p) && i < |ConstList(p)| && Sound(State(), ConstList(p)[i])
      requires error == Code(Try(State(), ConstList(p)[i]))
      modifies this`const_, this`complexCount, this`woken, constOf
      ensures State() == Dropped(old(State()), p, i)
    {
      var q := ConstList(p)[i];
      UnlinkConst(p, i);
      woken := woken + [Wake(q, error)];
    }

    // One round of wake_const_ops(): entry i sleeps on, or it leaves.
    method TryConst(p: Place, i: nat) returns (next: nat)
      requires Valid() && Waits(State(), p) && i < |ConstQ(State(), p)|
      modifies this, semval, constOf
      ensures Waits(State(), p) && next <= |ConstQ(State(), p)|
      ensures ScanFrom(State(), p, next) == ScanFrom(old(State()), p, i)
      ensures |ConstQ(State(), p)| - next < old(|ConstQ(State(), p)|) - i
    {
      hide Waits, QueuesSound, Applied, Try, Code, Dropped, NoDup;
      ghost var t := State();
      WaiterAt(t, p, i);
      DroppedWaits(t, p, i);
      ScanFromStep(t, p, i);
      var q := ConstList(p)[i];
      assert q == ConstQ(t, p)[i];
      var error, _ := Perform(q, q.dupsop);
      assert State() == t;
      if error > 0 {
        next := i + 1;
      } else {
        CompleteConst(p, i, error);
        next := i;
      }
    }

    // wake_const_ops()
    method WakeConstOps(p: Place)
      requires Valid() && Waits(State(), p)
      modifies this, semval, constOf
      ensures State() == WakeConst(old(State()), p)
    {
      ghost var s := State();
      var i: nat := 0;
      while i < |ConstList(p)|
        invariant Waits(State(), p) && i <= |ConstQ(State(), p)|
        invariant ScanFrom(State(), p, i) == ScanFrom(s, p, 0)
        decreases |ConstList(p)| - i
      {
        i := TryConst(p, i);
      }
      ScanIsWakeConst(s, p);
    }

    // The body of the loops in do_smart_wakeup_zero().
    method WakeIfZero(num: nat) returns (zero: bool)
      requires Valid() && Structure(State()) && num < semval.Length
      modifies this, semval, constOf
      ensures zero <==> old(semval[num]) == 0
      ensures Structure(State()) && State().vals == old(State()).vals
      ensures State() == if zero then WakeConst(old(State()), Of(num)) else old(State())
    {
      zero := semval[num] == 0;
      if zero {
        WakeConstStructure(State(), Of(num));
        StructureWaits(State(), Of(num));
        WakeConstOps(Of(num));
      }
    }

    // do_smart_wakeup_zero()
    method SmartWakeupZero(sops: Option<seq<Sembuf>>)
      requires Valid() && Structure(State()) && SopsBelow(State(), sops)
      modifies this, semval, constOf
      ensures Nums(old(State()), Touched(old(State()), sops))
      ensures State() == WakeZero(old(State()), Touched(old(State()), sops))
    {
      hide Kinds, Ranges, SimpleQueuesEmpty, ZeroScan, WakeConst, Sound, AllSound, Waits, ComplexIn, Below;
      ghost var s := State();
      RescannedInRange(s, sops);
      ghost var nums := Touched(s, sops);
      var count := if sops.Some? then |sops.value| else semval.Length;
      var gotZero := false;
      var i := 0;
      while i < count
        invariant 0 <= i <= count == |nums|
        invariant Structure(State()) && State().vals == s.vals
        invariant ZeroScan(State(), nums, i) == ZeroScan(s, nums, 0)
        invariant gotZero <==> exists k | 0 <= k < i :: s.vals[nums[k]] == 0
      {
        var num := if sops.Some? then sops.value[i].num else i;
        assert num == nums[i];
        ZeroScanStep(State(), nums, i);
        var zero := WakeIfZero(num);
        if zero {
          gotZero := true;
        }
        i := i + 1;
      }
      ZeroScanEnd(State(), nums);
      if gotZero {
        StructureWaits(State(), Global);
        WakeConstOps(Global);
      }
    }

    // check_restart(), after request q of an alter queue was done.
    method CheckRestart(q: Request) returns (restart: bool)
      ensures restart <==> alter != [] || Complex(q)
    {
      restart := alter != [] || |q.sops| > 1;
    }

    // The second half of the loop body of update_queue(): entry i was performed and did not have
    // to sleep.
    method Complete(p: Place, i: nat, error: int, ghost s: SemSet) returns (restart: bool)
      requires Valid() && Structure(s) && HasPlace(s, p) && i < |AlterQ(s, p)|
      requires Sound(s, AlterQ(s, p)[i]) && State() == Applied(s, AlterQ(s, p)[i])
      requires error == Code(Try(s, AlterQ(s, p)[i])) && error <= 0
      modifies this, semval, alterOf, constOf
      ensures State() == Finish(s, p, i)
      ensures restart <==> error == 0 && (alter != [] || Complex(AlterQ(s, p)[i]))
    {
      hide Kinds, Ranges, SimpleQueuesEmpty, WakeZero, Sound, Try, ComplexIn, Without;
      FinishPrepares(s, p, i);
      var q := AlterList(p)[i];
      UnlinkThenApply(s, p, i);
      CodeSigns(s, q);
      hide Applied, Unlink;
      UnlinkAlter(p, i);
      restart := false;
      if error == 0 {
        SmartWakeupZero(Some(q.sops));
        restart := CheckRestart(q);
      }
      woken := woken + [Wake(q, error)];
    }

    // Entry i of the queue was performed and does not have to sleep: unlink it, and scan on from
    // here or from the start.
    method FinishEntry(p: Place, i: nat, error: int, ghost s: SemSet) returns (next: nat, ghost t: SemSet)
      requires Valid() && Structure(s) && HasPlace(s, p) && i < |AlterQ(s, p)|
      requires Sound(s, AlterQ(s, p)[i]) && State() == Applied(s, AlterQ(s, p)[i])
      requires error == Code(Try(s, AlterQ(s, p)[i])) && error <= 0
      requires Slept(s, p, i)
      modifies this, semval, alterOf, constOf
      ensures State() == t && Structure(t) && HasPlace(t, p) && Serve(t, p) == Serve(s, p)
      ensures next <= |AlterQ(t, p)| < |AlterQ(s, p)|
      ensures Slept(t, p, next)
    {
      hide Kinds, Ranges, SimpleQueuesEmpty, Finish;
      CodeSigns(s, AlterQ(s, p)[i]);
      FirstReadyIsServed(s, p, i);
      FinishStructure(s, p, i);
      t := Finish(s, p, i);
      var restart := Complete(p, i, error, s);
      if restart {
        next := 0;
      } else {
        NoRestartNeeded(s, p, i);
        next := i;
      }
    }

    // One round of the scan: entry i sleeps on, or it is finished.
    method Advance(p: Place, i: nat, ghost s: SemSet) returns (next: nat, ghost t: SemSet)
      requires Valid() && State() == s && Structure(s) && HasPlace(s, p) && i < |AlterQ(s, p)|
      requires Slept(s, p, i)
      modifies this, semval, alterOf, constOf
      ensures State() == t && Structure(t) && HasPlace(t, p) && Serve(t, p) == Serve(s, p)
      ensures next <= |AlterQ(t, p)| <= |AlterQ(s, p)| && ((t == s && next == i + 1) || |AlterQ(t, p)| < |AlterQ(s, p)|)
      ensures Slept(t, p, next)
    {
      hide Structure, Slept, QueuesSound, Sound, Try, Code, Applied, Serve, NoDup;
      var q := AlterList(p)[i];
      EntryIsSound(s, p, i);
      CodeSigns(s, q);
      var error, _ := Perform(q, q.dupsop);
      if error > 0 {
        next, t := i + 1, s;
        SleptOne(s, p, i);
      } else {
        next, t := FinishEntry(p, i, error, s);
      }
    }

    // update_queue(): the scan with its skipped restarts and its early exit does what serving the
    // first request that can go on, over and over, does; every restart has removed a request.
    method UpdateQueue(p: Place)
      requires Valid() && Structure(State()) && HasPlace(State(), p)
      modifies this, semval, alterOf, constOf
      ensures State() == Serve(old(State()), p)
    {
      hide Kinds, Ranges, SimpleQueuesEmpty, Try, Slept;
      ghost var s := State();
      var i: nat := 0;
      NoneSlept(s, p);
      while i < |AlterList(p)|
        invariant State() == s && Structure(s) && HasPlace(s, p) && i <= |AlterQ(s, p)|
        invariant Serve(s, p) == Serve(old(State()), p)
        invariant Slept(s, p, i)
        decreases |AlterList(p)|, |AlterList(p)| - i
      {
        if p.Of? && semval[p.n] == 0 {
          NothingAtZero(s, p.n);
          break;
        }
        i, s := Advance(p, i, s);
      }
      if i == |AlterList(p)| {
        AllSlept(s, p);
      }
      NothingLeft(s, p);
    }

    // do_smart_update()
    method DoSmartUpdate(sops: Option<seq<Sembuf>>)
      requires Valid() && Structure(State()) && SopsBelow(State(), sops)
      modifies this, semval, alterOf, constOf
      ensures State() == SmartUpdate(old(State()), sops)
    {
      ghost var s := State();
      RescannedInRange(s, sops);
      WakeZeroStructure(s, Touched(s, sops));
      SmartWakeupZero(sops);
      if alter != [] {
        UpdateQueue(Global);
      } else if sops.Some? {
        UpdateIncreased(sops.value);
      } else {
        UpdateAll();
      }
    }

    // Every semaphore's queue, because the modified semaphores are not known.
    method UpdateAll()
      requires Valid() && Structure(State())
      modifies this, semval, alterOf, constOf
      ensures Nums(old(State()), Range(semval.Length))
      ensures State() == ServeEach(old(State()), Range(semval.Length), 0)
    {
      hide Kinds, Ranges, SimpleQueuesEmpty, Serve, AllSound;
      ghost var s := State();
      ghost var nums := Range(semval.Length);
      var i := 0;
      while i < semval.Length
        invariant 0 <= i <= semval.Length == |nums|
        invariant Structure(State())
        invariant ServeEach(State(), nums, i) == ServeEach(s, nums, 0)
      {
        ServeStructure(State(), Of(i));
        assert nums[i] == i;
        UpdateQueue(Of(i));
        i := i + 1;
      }
    }

    // The queues of the semaphores that were increased.
    method UpdateIncreased(sops: seq<Sembuf>)
      requires Valid() && Structure(State()) && Below(sops, semval.Length)
      modifies this, semval, alterOf, constOf
      ensures Nums(old(State()), Increased(sops))
      ensures State() == ServeEach(old(State()), Increased(sops), 0)
    {
      hide Kinds, Ranges, SimpleQueuesEmpty, Serve, AllSound;
      ghost var s := State();
      var i := 0;
      while i < |sops|
        invariant 0 <= i <= |sops|
        invariant Structure(State())
        invariant ServeIncreased(State(), sops, i) == ServeIncreased(s, sops, 0)
      {
        if sops[i].op > 0 {
          ServeStructure(State(), Of(sops[i].num));
          UpdateQueue(Of(sops[i].num));
        }
        i := i + 1;
      }
      RescannedInRange(s, Some(sops));
      assert sops[0..] == sops && Increased(sops)[0..] == Increased(sops);
      ServeIncreasedIsEach(s, sops, 0, Increased(sops), 0);
    }

    // ---- the two alter queues -------------------------------------------------------------------

    // merge_queues()
    method MergeQueues()
      requires Valid()
      modifies this`alter, alterOf
      ensures State() == Merge(old(State()))
    {
      ghost var s := State();
      var i := 0;
      while i < alterOf.Length
        invariant 0 <= i <= alterOf.Length
        invariant forall n | 0 <= n < i :: alterOf[n] == []
        invariant forall n | i <= n < alterOf.Length :: alterOf[n] == s.alterOf[n]
        invariant constOf[..] == s.constOf
        invariant Stacked(s.alterOf) + s.alter == Stacked(s.alterOf[i..]) + alter
      {
        assert s.alterOf[i..] == [s.alterOf[i]] + s.alterOf[i + 1..];
        alter := alterOf[i] + alter;
        alterOf[i] := [];
        i := i + 1;
      }
      assert s.alterOf[i..] == [];
      assert alterOf[..] == Merge(s).alterOf;
    }

    // The request goes to the queue of its own semaphore.
    method SendHome(q: Request)
      requires q.sops != [] && q.sops[0].num < alterOf.Length
      modifies alterOf
      ensures alterOf[..] == old(alterOf[..])[q.sops[0].num := old(alterOf[q.sops[0].num]) + [q]]
    {
      alterOf[q.sops[0].num] := alterOf[q.sops[0].num] + [q];
    }

    // unmerge_queues()
    method UnmergeQueues()
      requires Valid() && QueuesSound(State())
      modifies this`alter, alterOf
      ensures State() == Unmerge(old(State()))
    {
      if complexCount != 0 {
        return;
      }
      ghost var s := State();
      var pending := alter;
      AlterNamed(s);
      hide QueuesSound, Merge, AllSound;
      var i := 0;
      while i < |pending|
        invariant 0 <= i <= |pending| && constOf[..] == s.constOf
        invariant HomeSoFar(s.alterOf, alterOf[..], pending, i)
      {
        HomeStep(s.alterOf, alterOf[..], pending, i);
        SendHome(pending[i]);
        i := i + 1;
      }
      HomeEnd(s.alterOf, alterOf[..], pending);
      alter := [];
      assert alterOf[..] == Unmerge(s).alterOf;
    }

    // ---- locking ----------------------------------------------------------------------------------

    // The counter in complexmode_enter(); the waiting for the other lock holders is SemLock's.
    method ComplexmodeEnter()
      modifies this`useGlobal
      ensures useGlobal == HYSTERESIS
    {
      useGlobal := HYSTERESIS;
    }

    method ComplexmodeTryleave()
      requires Valid()
      modifies this`useGlobal
      ensures State() == TryLeave(old(State()))
    {
      if complexCount != 0 {
        return;
      }
      if useGlobal == 1 {
        useGlobal := 0;
      } else {
        useGlobal := useGlobal - 1;
      }
    }

    method SemLock(nsops: int) returns (global: bool)
      requires Valid()
      modifies this`useGlobal
      ensures (State(), global) == Lock(old(State()), nsops)
    {
      if nsops != 1 {
        ComplexmodeEnter();
        return true;
      }
      global := useGlobal > 0;
    }

    method SemUnlock(global: bool)
      requires Valid() && QueuesSound(State())
      modifies this`useGlobal, this`alter, alterOf
      ensures State() == Unlock(old(State()), global)
    {
      if global {
        UnmergeQueues();
        ComplexmodeTryleave();
      }
    }

    // ---- the system calls ---------------------------------------------------------------------------

    // The part of do_semtimedop() that puts a request to sleep.
    method EnqueueRequest(q: Request, alters: bool)
      requires Valid() && QueuesSound(State()) && Sound(State(), q) && alters == Alters(q.sops)
      modifies this`alter, this`const_, this`complexCount, alterOf, constOf
      ensures State() == Enqueue(old(State()), q)
    {
      assert Fits(VarsOf(State(), q), q.sops[0]);
      if |q.sops| == 1 {
        var n := q.sops[0].num;
        if alters {
          if complexCount != 0 {
            alter := alter + [q];
          } else {
            alterOf[n] := alterOf[n] + [q];
          }
        } else {
          constOf[n] := constOf[n] + [q];
        }
      } else {
        if complexCount == 0 {
          MergeQueues();
        }
        if alters {
          alter := alter + [q];
        } else {
          const_ := const_ + [q];
        }
        complexCount := complexCount + 1;
      }
    }

    // do_semtimedop() from sem_lock() to the first sem_unlock(); 1 means that the caller sleeps.
    method Operate(q: Request, alters: bool) returns (code: int)
      requires Valid() && Unlocked(State()) && Sound(State(), q) && alters == Alters(q.sops)
      modifies this, semval, alterOf, constOf
      ensures (State(), code) == Semop(old(State()), q)
    {
      ghost var s := State();
      var global := SemLock(|q.sops|);
      ghost var l := State();
      LockedStructure(s, |q.sops|);
      assert Sound(l, q);
      var blocking;
      code, blocking := Perform(q, q.dupsop);
      CodeSigns(l, q);
      if code == 0 {
        AppliedStructure(l, q);
        if alters {
          SopsAreBelow(l, q);
          SmartUpdateStructure(State(), Some(q.sops));
          DoSmartUpdate(Some(q.sops));
        }
      } else if code > 0 {
        EnqueueRequest(q, alters);
      }
      SemUnlock(global);
    }

    // semop(): the checks on the request, the caller's undo structure ulp, the operation.
    method Semtimedop(pid: nat, sops: seq<Sembuf>, ulp: nat, semopm: nat) returns (code: int)
      requires Valid() && Unlocked(State())
      modifies this, semval, alterOf, constOf
      ensures sops == [] ==> code == EINVAL && State() == old(State())
      ensures sops != [] && |sops| > semopm ==> code == E2BIG && State() == old(State())
      ensures
        sops != [] && |sops| <= semopm ==>
          var s := if Undoes(sops) && ulp !in old(adj) then AddUndo(old(State()), ulp) else old(State());
          var q := EntryOf(pid, sops, ulp);
          if Below(sops, semval.Length) then Sound(s, q) && (State(), code) == Semop(s, q)
          else code == EFBIG && State() == s
    {
      hide QueuesSound, Kinds, SimpleQueuesEmpty, Semop, AddUndo, Collides;
      if |sops| < 1 {
        return EINVAL;
      }
      if |sops| > semopm {
        return E2BIG;
      }
      var max, undos, alters, dupsop := ScanRequest(sops);
      if undos && ulp !in adj {
        AllocUndo(ulp);
      }
      ghost var s := State();
      if max >= semval.Length {
        return EFBIG;
      }
      var q := Entry(pid, sops, if undos then Some(ulp) else None, dupsop);
      EntrySound(s, q);
      code := Operate(q, alters);
    }

    // find_alloc_undo(), when the caller has no undo structure for this set.
    method AllocUndo(u: nat)
      requires Valid() && Unlocked(State()) && u !in adj
      modifies this, alterOf
      ensures State() == AddUndo(old(State()), u)
      ensures Unlocked(State()) && u in adj
    {
      ghost var s := State();
      var global := SemLock(-1);
      adj := adj[u := seq(semval.Length, _ => 0)];
      assert State() == Enter(s).(adj := s.adj[u := Zeros(|s.vals|)]);
      AddUndoUnlocked(s, u);
      SemUnlock(global);
    }

    // semctl(SETVAL)
    method Setval(n: int, val: int) returns (code: int)
      requires Valid() && Unlocked(State())
      modifies this, semval, alterOf, constOf
      ensures val < 0 || val > SEMVMX ==> code == ERANGE && State() == old(State())
      ensures 0 <= val <= SEMVMX && !(0 <= n < semval.Length) ==> code == EINVAL && State() == old(State())
      ensures 0 <= val <= SEMVMX && 0 <= n < semval.Length ==> code == 0 && State() == SetVal(old(State()), n, val)
    {
      if val > SEMVMX || val < 0 {
        return ERANGE;
      }
      if n < 0 || n >= semval.Length {
        return EINVAL;
      }
      hide Unlocked, Structure, QueuesSound, SmartUpdate, Unlock, ZeroAdj;
      ghost var s := State();
      RowsAreFull(s);
      var global := SemLock(-1);
      StoreOne(n, val);
      ValueSet(s, n, val);
      DoSmartUpdate(None);
      SemUnlock(global);
      code := 0;
    }

    method StoreOne(n: nat, val: int)
      requires n < semval.Length && forall u | u in adj :: |adj[u]| == semval.Length
      modifies this`adj, semval
      ensures semval[..] == old(semval[..])[n := val] && adj == ZeroAdj(old(adj), n)
    {
      adj := map u | u in adj :: adj[u][n := 0];
      semval[n] := val;
    }

    // semctl(SETALL); the values are unsigned.
    method Setall(vals: seq<nat>) returns (code: int)
      requires Valid() && Unlocked(State()) && |vals| == semval.Length
      modifies this, semval, alterOf, constOf
      ensures (exists k | 0 <= k < |vals| :: vals[k] > SEMVMX) ==> code == ERANGE && State() == old(State())
      ensures (forall k | 0 <= k < |vals| :: vals[k] <= SEMVMX) ==>
                code == 0 && State() == SetAll(old(State()), vals)
    {
      hide Kinds, SimpleQueuesEmpty, Sound, SmartUpdate, Unlock;
      var ok := AllInRange(vals);
      if !ok {
        return ERANGE;
      }
      ghost var s := State();
      var global := SemLock(-1);
      StoreAll(vals);
      adj := map u | u in adj :: seq(|adj[u]|, _ => 0);
      assert adj == map u | u in s.adj :: Zeros(|s.adj[u]|);
      ValuesSet(s, vals);
      hide Ranges, QueuesSound, Lock, Zeros;
      DoSmartUpdate(None);
      SemUnlock(global);
      code := 0;
    }

    method AllInRange(vals: seq<nat>) returns (ok: bool)
      ensures ok <==> forall k | 0 <= k < |vals| :: vals[k] <= SEMVMX
    {
      var i := 0;
      while i < |vals|
        invariant 0 <= i <= |vals|
        invariant forall k | 0 <= k < i :: vals[k] <= SEMVMX
      {
        if vals[i] > SEMVMX {
          return false;
        }
        i := i + 1;
      }
      return true;
    }

    method StoreAll(vals: seq<int>)
      requires |vals| == semval.Length
      modifies semval
      ensures semval[..] == vals
    {
      var i := 0;
      while i < |vals|
        invariant 0 <= i <= |vals|
        invariant forall k | 0 <= k < i :: semval[k] == vals[k]
      {
        semval[i] := vals[i];
        i := i + 1;
      }
    }

    // exit_sem() for the undo structure u, which no sleeping request of a live task refers to.
    method ExitSem(u: nat)
      requires Valid() && Unlocked(State()) && u in adj && UndoIdle(State(), u)
      modifies this, semval, alterOf, constOf
      ensures |old(adj)[u]| == semval.Length && State() == ExitUndo(old(State()), u)
    {
      hide Kinds, SimpleQueuesEmpty, Sound, SmartUpdate, Unlock, UndoIdle, Adjusted;
      ghost var s := State();
      UndoDropped(s, u);
      var global := SemLock(-1);
      var row := adj[u];
      adj := adj - {u};
      Adjust(row);
      hide Ranges, QueuesSound, Lock;
      DoSmartUpdate(None);
      SemUnlock(global);
    }

    // The values with the adjustments added, kept in range.
    method Adjust(row: seq<int>)
      requires |row| == semval.Length
      modifies semval
      ensures semval[..] == Adjusted(old(semval[..]), row)
    {
      ghost var vals := semval[..];
      var i := 0;
      while i < semval.Length
        invariant 0 <= i <= semval.Length
        invariant forall k | 0 <= k < i :: semval[k] == Adjusted(vals, row)[k]
        invariant forall k | i <= k < semval.Length :: semval[k] == vals[k]
      {
        if row[i] != 0 {
          semval[i] := semval[i] + row[i];
          if semval[i] < 0 {
            semval[i] := 0;
          }
          if semval[i] > SEMVMX {
            semval[i] := SEMVMX;
          }
        }
        i := i + 1;
      }
    }

    // A sleeper takes its own request off the queue it is found on.
    method CancelRequest(x: Slot)
      requires Valid() && Unlocked(State()) && HasSlot(State(), x)
      modifies this, alterOf, constOf
      ensures State() == Cancel(old(State()), x)
    {
      hide Sound, Kinds, Ranges, Unlock, UnlinkAt;
      ghost var s := State();
      var q := if x.altering then AlterList(x.place)[x.index] else ConstList(x.place)[x.index];
      var global := SemLock(|q.sops|);
      LockedStructure(s, |q.sops|);
      ghost var l := State();
      assert HasSlot(l, x) && At(l, x) == q;
      UnlinkSlot(x);
      SemUnlock(global);
    }

    method UnlinkSlot(x: Slot)
      requires Valid() && QueuesSound(State()) && HasSlot(State(), x)
      modifies this`alter, this`const_, this`complexCount, alterOf, constOf
      ensures State() == UnlinkAt(old(State()), x)
    {
      if x.altering {
        UnlinkAlter(x.place, x.index);
      } else {
        UnlinkConst(x.place, x.index);
      }
    }

    // The loops of freeary(): every entry of the list is unlinked and woken with EIDRM.
    method Expel(l: seq<Request>)
      modifies this`complexCount, this`woken
      ensures complexCount == old(complexCount) - ComplexIn(l)
      ensures woken == old(woken) + Expelled(l)
    {
      var k := 0;
      assert l[0..] == l;
      while k < |l|
        invariant 0 <= k <= |l|
        invariant complexCount == old(complexCount) - ComplexIn(l) + ComplexIn(l[k..])
        invariant woken == old(woken) + Expelled(l[..k])
      {
        ExpelOne(l, k);
        if |l[k].sops| > 1 {
          complexCount := complexCount - 1;
        }
        woken := woken + [Wake(l[k], EIDRM)];
        k := k + 1;
      }
      assert l[..k] == l && l[k..] == [];
    }

    // freeary(): every sleeper of the queues leaves with EIDRM, once, and no undo is left.
    method Freeary()
      requires Valid() && Structure(State())
      modifies this, alterOf, constOf
      ensures Valid() && useGlobal == old(useGlobal)
      ensures adj == map[] && alter == [] && const_ == [] && complexCount == 0
      ensures forall n | 0 <= n < semval.Length :: alterOf[n] == [] && constOf[n] == []
      ensures woken == old(woken) + Expelled(old(const_)) + Expelled(old(alter)) +
                       ExpelledAll(old(constOf[..]), old(alterOf[..]), semval.Length)
    {
      hide Structure, ComplexIn, Expelled, ExpelledAll;
      ghost var s := State();
      SimpleCounts(s);
      adj := map[];
      Expel(const_);
      const_ := [];
      Expel(alter);
      alter := [];
      ExpelSemaphores(s);
    }

    // Everything that sleeps on one semaphore.
    method ExpelAt(i: nat)
      requires Valid() && i < semval.Length && ComplexIn(constOf[i]) == 0 && ComplexIn(alterOf[i]) == 0
      modifies this`complexCount, this`woken, alterOf, constOf
      ensures complexCount == old(complexCount)
      ensures alterOf[..] == old(alterOf[..])[i := []] && constOf[..] == old(constOf[..])[i := []]
      ensures woken == old(woken) + Expelled(old(constOf[i])) + Expelled(old(alterOf[i]))
    {
      Expel(constOf[i]);
      constOf[i] := [];
      Expel(alterOf[i]);
      alterOf[i] := [];
    }

    // The loop of freeary() over the semaphores.
    method ExpelSemaphores(ghost s: SemSet)
      requires Valid() && alterOf[..] == s.alterOf && constOf[..] == s.constOf
      requires forall n | 0 <= n < |s.alterOf| :: ComplexIn(s.alterOf[n]) == 0
      requires forall n | 0 <= n < |s.constOf| :: ComplexIn(s.constOf[n]) == 0
      modifies this`complexCount, this`woken, alterOf, constOf
      ensures complexCount == old(complexCount)
      ensures forall n | 0 <= n < semval.Length :: alterOf[n] == [] && constOf[n] == []
      ensures woken == old(woken) + ExpelledAll(s.constOf, s.alterOf, semval.Length)
    {
      hide ComplexIn, Expelled, ExpelledAll;
      NobodyExpelled(s.constOf, s.alterOf);
      var i := 0;
      while i < semval.Length
        invariant 0 <= i <= semval.Length && complexCount == old(complexCount)
        invariant forall n | 0 <= n < i :: alterOf[n] == [] && constOf[n] == []
        invariant forall n | i <= n < semval.Length :: alterOf[n] == s.alterOf[n] && constOf[n] == s.constOf[n]
        invariant woken == old(woken) + ExpelledAll(s.constOf, s.alterOf, i)
      {
        ghost var a, c := alterOf[..], constOf[..];
        ExpelledStep(s.constOf, s.alterOf, i);
        ExpelAt(i);
        assert forall n | 0 <= n < semval.Length && n != i :: alterOf[..][n] == a[n] && constOf[..][n] == c[n];
        i := i + 1;
      }
    }
  }

  lemma ExpelOne(l: seq<Request>, k: nat)
    requires k < |l|
    ensures ComplexIn(l[k..]) == (if Complex(l[k]) then 1 else 0) + ComplexIn(l[k + 1..])
    ensures Expelled(l[..k + 1]) == Expelled(l[..k]) + [Wake(l[k], EIDRM)]
  {
    assert l[k..][1..] == l[k + 1..];
    assert l[..k + 1][..k] == l[..k];
  }

  // The request that semop() makes of its arguments.
  ghost function EntryOf(pid: nat, sops: seq<Sembuf>, ulp: nat): Request {
    if !Collides(sops, |sops|) then
      NoCollisionNoDup(sops);
      Entry(pid, sops, if Undoes(sops) then Some(ulp) else None, false)
    else Entry(pid, sops, if Undoes(sops) then Some(ulp) else None, true)
  }

  function Expelled(l: seq<Request>): seq<Wake> {
    if l == [] then [] else Expelled(l[..|l| - 1]) + [Wake(l[|l| - 1], EIDRM)]
  }

  function ExpelledAll(c: seq<seq<Request>>, a: seq<seq<Request>>, n: nat): seq<Wake>
    requires n <= |c| && n <= |a|
  {
    if n == 0 then [] else ExpelledAll(c, a, n - 1) + Expelled(c[n - 1]) + Expelled(a[n - 1])
  }

  // Each of them once, in order, with the error for a set that is gone.
  lemma {:induction false} ExpelledEach(l: seq<Request>, k: nat)
    requires k < |l|
    ensures |Expelled(l)| == |l| && Expelled(l)[k] == Wake(l[k], -43)
    decreases |l|
  {
    if k < |l| - 1 {
      ExpelledEach(l[..|l| - 1], k);
    } else if |l| > 1 {
      ExpelledEach(l[..|l| - 1], k - 1);
    }
  }

  lemma NobodyExpelled(c: seq<seq<Request>>, a: seq<seq<Request>>)
    ensures ExpelledAll(c, a, 0) == []
  {
  }

  lemma ExpelledStep(c: seq<seq<Request>>, a: seq<seq<Request>>, n: nat)
    requires n < |c| && n < |a|
    ensures forall w: seq<Wake> ::
      w + ExpelledAll(c, a, n + 1) == w + ExpelledAll(c, a, n) + Expelled(c[n]) + Expelled(a[n])
  {
    hide Expelled;
    assert ExpelledAll(c, a, n + 1) == ExpelledAll(c, a, n) + (Expelled(c[n]) + Expelled(a[n]));
  }

  lemma SimpleCounts(s: SemSet)
    requires Structure(s)
    ensures s.complexCount == ComplexIn(s.alter) + ComplexIn(s.const_)
    ensures forall n | 0 <= n < |s.vals| :: ComplexIn(s.alterOf[n]) == 0 && ComplexIn(s.constOf[n]) == 0
  {
    forall n | 0 <= n < |s.vals| ensures ComplexIn(s.alterOf[n]) == 0 && ComplexIn(s.constOf[n]) == 0 {
      NoComplexIn(s.alterOf[n]);
      NoComplexIn(s.constOf[n]);
    }
  }

  lemma LockedStructure(s: SemSet, nsops: int)
    requires Unlocked(s)
    ensures Structure(Lock(s, nsops).0)
  {
    SoundIsStable(s, Lock(s, nsops).0);
  }

  lemma SopsAreBelow(s: SemSet, q: Request)
    requires Sound(s, q)
    ensures SopsBelow(Applied(s, q), Some(q.sops))
  {
    forall k | 0 <= k < |q.sops| ensures q.sops[k].num < |s.vals| {
      assert Fits(VarsOf(s, q), q.sops[k]);
    }
  }

  lemma EntrySound(s: SemSet, q: Request)
    requires q.sops != [] && Below(q.sops, |s.vals|) && Ranges(s)
    requires q.un.Some? <==> Undoes(q.sops)
    requires q.un.Some? ==> q.un.value in s.adj
    ensures Sound(s, q)
  {
  }

  lemma AlterNamed(s: SemSet)
    requires QueuesSound(s)
    ensures forall j | 0 <= j < |s.alter| :: s.alter[j].sops != [] && s.alter[j].sops[0].num < |s.vals|
  {
    forall j | 0 <= j < |s.alter| ensures s.alter[j].sops != [] && s.alter[j].sops[0].num < |s.vals| {
      assert Sound(s, s.alter[j]) && Fits(VarsOf(s, s.alter[j]), s.alter[j].sops[0]);
    }
  }

  // The loop over the request in do_smart_update(), from operation i on.
  function ServeIncreased(s: SemSet, sops: seq<Sembuf>, i: nat): (t: SemSet)
    requires i <= |sops| && Below(sops, |s.vals|) && QueuesSound(s)
    ensures QueuesSound(t) && |t.vals| == |s.vals|
    decreases |sops| - i
  {
    if i == |sops| then s
    else ServeIncreased(if sops[i].op > 0 then Serve(s, Of(sops[i].num)) else s, sops, i + 1)
  }

  lemma {:induction false} ServeIncreasedIsEach(s: SemSet, sops: seq<Sembuf>, i: nat, nums: seq<nat>, k: nat)
    requires i <= |sops| && Below(sops, |s.vals|) && QueuesSound(s)
    requires k <= |nums| && Nums(s, nums) && nums[k..] == Increased(sops[i..])
    ensures ServeIncreased(s, sops, i) == ServeEach(s, nums, k)
    decreases |sops| - i
  {
    if i < |sops| {
      assert sops[i..][1..] == sops[i + 1..];
      if sops[i].op > 0 {
        assert nums[k..][0] == sops[i].num && nums[k + 1..] == nums[k..][1..];
        ServeIncreasedIsEach(Serve(s, Of(sops[i].num)), sops, i + 1, nums, k + 1);
      } else {
        ServeIncreasedIsEach(s, sops, i + 1, nums, k);
      }
    }
  }

  // A decrement cannot be done on a semaphore that is zero.
  lemma NothingAtZero(s: SemSet, n: nat)
    requires Structure(s) && n < |s.vals| && s.vals[n] == 0
    ensures AlterQuiet(s, Of(n))
  {
    forall i | 0 <= i < |s.alterOf[n]| ensures Try(s, s.alterOf[n][i]).Sleep? {
      assert Sound(s, s.alterOf[n][i]);
      DecrementSleeps(s, s.alterOf[n][i], n);
    }
  }

  // The entries before i of the queue have to sleep.
  predicate Slept(s: SemSet, p: Place, i: nat)
    requires QueuesSound(s) && HasPlace(s, p)
  {
    i <= |AlterQ(s, p)| && forall j | 0 <= j < i :: Try(s, AlterQ(s, p)[j]).Sleep?
  }

  lemma NoneSlept(s: SemSet, p: Place)
    requires QueuesSound(s) && HasPlace(s, p)
    ensures Slept(s, p, 0)
  {
  }

  lemma SleptOne(s: SemSet, p: Place, i: nat)
    requires QueuesSound(s) && HasPlace(s, p) && Slept(s, p, i) && i < |AlterQ(s, p)| && Try(s, AlterQ(s, p)[i]).Sleep?
    ensures Slept(s, p, i + 1)
  {
    hide Try;
  }

  predicate AllNamed(l: seq<Request>, n: nat) {
    forall j | 0 <= j < |l| :: l[j].sops != [] && l[j].sops[0].num < n
  }

  // The first i of the pending requests are in the queues of their semaphores, behind what was there.
  predicate HomeSoFar(was: seq<seq<Request>>, now: seq<seq<Request>>, pending: seq<Request>, i: nat) {
    && |now| == |was| && i <= |pending| && AllNamed(pending, |was|)
    && forall n | 0 <= n < |was| :: was[n] + OnSem(pending, n) == now[n] + OnSem(pending[i..], n)
  }

  lemma HomeStep(was: seq<seq<Request>>, now: seq<seq<Request>>, pending: seq<Request>, i: nat)
    requires HomeSoFar(was, now, pending, i) && i < |pending|
    ensures var m := pending[i].sops[0].num;
      HomeSoFar(was, now[m := now[m] + [pending[i]]], pending, i + 1)
  {
    var q := pending[i];
    assert pending[i..] == [q] + pending[i + 1..];
  }

  lemma HomeEnd(was: seq<seq<Request>>, now: seq<seq<Request>>, pending: seq<Request>)
    requires HomeSoFar(was, now, pending, |pending|)
    ensures AllNamed(pending, |was|) && forall n | 0 <= n < |was| :: now[n] == was[n] + OnSem(pending, n)
  {
    assert pending[|pending|..] == [];
    forall n | 0 <= n < |was| ensures now[n] == was[n] + OnSem(pending, n) {
      assert was[n] + OnSem(pending, n) == now[n] + OnSem(pending[|pending|..], n);
      assert now[n] + [] == now[n];
    }
  }

  lemma AllSlept(s: SemSet, p: Place)
    requires QueuesSound(s) && HasPlace(s, p) && Slept(s, p, |AlterQ(s, p)|)
    ensures AlterQuiet(s, p)
  {
    hide Try;
  }

  lemma NothingLeft(s: SemSet, p: Place)
    requires QueuesSound(s) && HasPlace(s, p) && AlterQuiet(s, p)
    ensures Serve(s, p) == s
  {
  }

  lemma FirstReadyIsServed(s: SemSet, p: Place, i: nat)
    requires QueuesSound(s) && HasPlace(s, p) && i < |AlterQ(s, p)|
    requires forall j | 0 <= j < i :: Try(s, AlterQ(s, p)[j]).Sleep?
    requires !Try(s, AlterQ(s, p)[i]).Sleep?
    ensures Serve(s, p) == Serve(Finish(s, p, i), p)
  {
    assert FirstReady(s, AlterQ(s, p), 0) == i;
  }

  lemma RowsAreFull(s: SemSet)
    requires Unlocked(s)
    ensures forall u | u in s.adj :: |s.adj[u]| == |s.vals|
  {
  }

  lemma EntryIsSound(s: SemSet, p: Place, i: nat)
    requires Structure(s) && HasPlace(s, p) && i < |AlterQ(s, p)|
    ensures QueuesSound(s) && Sound(s, AlterQ(s, p)[i])
    ensures !AlterQ(s, p)[i].dupsop ==> NoDup(AlterQ(s, p)[i].sops)
  {
    hide Kinds, Ranges, SimpleQueuesEmpty, Sound, NoDup;
  }

  // Whether the request leaves its queue before or after it is done.
  lemma UnlinkThenApply(s: SemSet, p: Place, i: nat)
    requires QueuesSound(s) && HasPlace(s, p) && i < |AlterQ(s, p)|
    ensures var q, u := AlterQ(s, p)[i], Unlink(s, p, i);
      && Sound(s, q) && Sound(u, q) && Try(u, q) == Try(s, q)
      && HasPlace(Applied(s, q), p) && AlterQ(Applied(s, q), p) == AlterQ(s, p)
      && Applied(s, q).complexCount == s.complexCount
      && Applied(u, q) == WithAlterQ(Applied(s, q), p, Without(AlterQ(s, p), i)).(
           complexCount := Unlinked(s.complexCount, q))
  {
    var q, u := AlterQ(s, p)[i], Unlink(s, p, i);
    assert Sound(s, q);
    SoundIsStable(s, u);
    hide Sound;
  }

  lemma FinishPrepares(s: SemSet, p: Place, i: nat)
    requires Structure(s) && HasPlace(s, p) && i < |AlterQ(s, p)|
    ensures
      var q := AlterQ(s, p)[i];
      Sound(Unlink(s, p, i), q) && Structure(Applied(Unlink(s, p, i), q)) &&
      SopsBelow(Applied(Unlink(s, p, i), q), Some(q.sops))
  {
    var q := AlterQ(s, p)[i];
    assert Sound(s, q);
    var u := Unlink(s, p, i);
    assert Sound(u, q);
    UnlinkStructure(s, p, i);
    AppliedStructure(u, q);
    forall k | 0 <= k < |q.sops| ensures q.sops[k].num < |Applied(u, q).vals| {
      assert Fits(VarsOf(u, q), q.sops[k]);
    }
  }

  // The argument in check_restart(): a failed request changed nothing, and a single decrement only
  // lowers the value that the older decrements already found too small.
  lemma NoRestartNeeded(s: SemSet, p: Place, i: nat)
    requires Structure(s) && HasPlace(s, p) && i < |AlterQ(s, p)|
    requires forall j | 0 <= j < i :: Try(s, AlterQ(s, p)[j]).Sleep?
    requires Try(s, AlterQ(s, p)[i]).Done? ==> Finish(s, p, i).alter == [] && !Complex(AlterQ(s, p)[i])
    ensures i <= |AlterQ(Finish(s, p, i), p)|
    ensures forall j | 0 <= j < i :: Try(Finish(s, p, i), AlterQ(Finish(s, p, i), p)[j]).Sleep?
  {
    var q := AlterQ(s, p)[i];
    assert Sound(s, q);
    var u := Unlink(s, p, i);
    assert Sound(u, q) && Try(u, q) == Try(s, q);
    var t := Finish(s, p, i);
    FinishStructure(s, p, i);
    FinishFrame(s, p, i);
    forall j | 0 <= j < i ensures Try(t, AlterQ(t, p)[j]).Sleep? {
      var r := AlterQ(t, p)[j];
      assert r == AlterQ(s, p)[j] && Sound(s, r) && Sound(t, r);
      if p.Of? {
        FinishLocalVals(s, p.n, i, p.n);
        DecrementSleeps(s, r, p.n);
        DecrementSleeps(t, r, p.n);
      }
    }
  }
}
