// A semaphore set as a value, and what each operation on it is meant to do: the queues are served
// by the plain policy "finish the first request that does not have to sleep, and look again".
module SemSpec {
  import opened SemOps

  const EINVAL := -22
  const EIDRM := -43
  const EFBIG := -27
  const E2BIG := -7
  const HYSTERESIS := 10

  datatype Option<T> = None | Some(value: T)

  // struct sem_queue: the sleeper, its operations, its sem_undo (named by un in the set's list).
  // The fast form may be used on it only when dupsop is false, so a false dupsop has to be right.
  datatype Entry = Entry(pid: nat, sops: seq<Sembuf>, un: Option<nat>, dupsop: bool)

  type Request = q: Entry | !q.dupsop ==> NoDup(q.sops) witness Entry(0, [], None, true)

  // wake_up_sem_queue_prepare(): the request leaves its queue with this status.
  datatype Wake = Wake(req: Request, code: int)

  datatype SemSet = SemSet(
    vals: seq<int>,                // sems[i].semval
    alterOf: seq<seq<Request>>,    // sems[i].pending_alter
    constOf: seq<seq<Request>>,    // sems[i].pending_const
    alter: seq<Request>,           // pending_alter
    const_: seq<Request>,          // pending_const
    adj: map<nat, seq<int>>,       // semadj of every sem_undo on list_id
    complexCount: int,
    useGlobal: int,
    woken: seq<Wake>)

  // The per-semaphore queue of n, or the queue of the whole set.
  datatype Place = Global | Of(n: nat)

  predicate Complex(q: Request) {
    |q.sops| > 1
  }

  function Row(adj: map<nat, seq<int>>, un: Option<nat>): seq<int> {
    if un.Some? && un.value in adj then adj[un.value] else []
  }

  function WithRow(adj: map<nat, seq<int>>, un: Option<nat>, row: seq<int>): map<nat, seq<int>> {
    if un.Some? && un.value in adj then adj[un.value := row] else adj
  }

  function VarsOf(s: SemSet, q: Request): Vars {
    Vars(s.vals, Row(s.adj, q.un))
  }

  // The operations name semaphores of the set, and an undo structure is there if one is asked for.
  predicate Sound(s: SemSet, q: Request) {
    q.sops != [] && (q.un.Some? ==> q.un.value in s.adj) && AllFit(VarsOf(s, q), q.sops)
  }

  function Try(s: SemSet, q: Request): Outcome
    requires Sound(s, q)
  {
    Attempt(VarsOf(s, q), q.sops)
  }

  // The set after a request that can be done has been done.
  function Applied(s: SemSet, q: Request): SemSet
    requires Sound(s, q)
  {
    var o := Try(s, q);
    if o.Done? then s.(vals := o.v.vals, adj := WithRow(s.adj, q.un, o.v.row)) else s
  }

  function Code(o: Outcome): int {
    match o
    case Done(_) => 0
    case Sleep(_) => 1
    case Error(c) => c
  }

  // ---- queues ------------------------------------------------------------------------------

  predicate HasPlace(s: SemSet, p: Place) {
    p.Of? ==> p.n < |s.alterOf| && p.n < |s.constOf|
  }

  function AlterQ(s: SemSet, p: Place): seq<Request>
    requires HasPlace(s, p)
  {
    if p.Global? then s.alter else s.alterOf[p.n]
  }

  function ConstQ(s: SemSet, p: Place): seq<Request>
    requires HasPlace(s, p)
  {
    if p.Global? then s.const_ else s.constOf[p.n]
  }

  function WithAlterQ(s: SemSet, p: Place, l: seq<Request>): SemSet
    requires HasPlace(s, p)
  {
    if p.Global? then s.(alter := l) else s.(alterOf := s.alterOf[p.n := l])
  }

  function WithConstQ(s: SemSet, p: Place, l: seq<Request>): SemSet
    requires HasPlace(s, p)
  {
    if p.Global? then s.(const_ := l) else s.(constOf := s.constOf[p.n := l])
  }

  function ComplexIn(l: seq<Request>): nat {
    if l == [] then 0 else (if Complex(l[0]) then 1 else 0) + ComplexIn(l[1..])
  }

  function Without(l: seq<Request>, i: nat): seq<Request>
    requires i < |l|
  {
    l[..i] + l[i + 1..]
  }

  predicate AllSound(s: SemSet, l: seq<Request>) {
    forall i | 0 <= i < |l| :: Sound(s, l[i])
  }

  predicate QueuesSound(s: SemSet) {
    && |s.vals| == |s.alterOf| == |s.constOf|
    && AllSound(s, s.alter) && AllSound(s, s.const_)
    && (forall n | 0 <= n < |s.vals| :: AllSound(s, s.alterOf[n]) && AllSound(s, s.constOf[n]))
  }

  // ---- waking the requests that wait for zero -----------------------------------------------

  // The requests of l that stay, and the wake-ups of those that do not.
  function Stay(s: SemSet, l: seq<Request>): seq<Request>
    requires AllSound(s, l)
  {
    if l == [] then []
    else if Try(s, l[0]).Sleep? then [l[0]] + Stay(s, l[1..])
    else Stay(s, l[1..])
  }

  function Leave(s: SemSet, l: seq<Request>): seq<Wake>
    requires AllSound(s, l)
  {
    if l == [] then []
    else if Try(s, l[0]).Sleep? then Leave(s, l[1..])
    else [Wake(l[0], Code(Try(s, l[0])))] + Leave(s, l[1..])
  }

  function WakeConst(s: SemSet, p: Place): SemSet
    requires HasPlace(s, p) && AllSound(s, ConstQ(s, p))
  {
    var l := ConstQ(s, p);
    WithConstQ(s, p, Stay(s, l)).(
      complexCount := s.complexCount - (ComplexIn(l) - ComplexIn(Stay(s, l))),
      woken := s.woken + Leave(s, l))
  }

  predicate Nums(s: SemSet, nums: seq<nat>) {
    forall k | 0 <= k < |nums| :: nums[k] < |s.vals|
  }

  lemma WakeConstKeepsSound(s: SemSet, p: Place)
    requires QueuesSound(s) && HasPlace(s, p)
    ensures QueuesSound(WakeConst(s, p))
    ensures WakeConst(s, p).vals == s.vals && WakeConst(s, p).adj == s.adj
  {
    StaySubset(s, ConstQ(s, p));
    var t := WakeConst(s, p);
    assert forall q :: Sound(s, q) <==> Sound(t, q);
  }

  lemma {:induction false} StaySubset(s: SemSet, l: seq<Request>)
    requires AllSound(s, l)
    ensures forall q :: q in Stay(s, l) <==> q in l && Sound(s, q) && Try(s, q).Sleep?
    ensures AllSound(s, Stay(s, l))
  {
    if l != [] {
      StaySubset(s, l[1..]);
      assert l == [l[0]] + l[1..];
      assert Sound(s, l[0]);
    }
  }

  // The modified semaphores from number k on are looked at.
  function ZeroScan(s: SemSet, nums: seq<nat>, k: nat): (t: SemSet)
    requires k <= |nums| && Nums(s, nums) && QueuesSound(s)
    ensures QueuesSound(t) && t.vals == s.vals && t.adj == s.adj
    decreases |nums| - k
  {
    if k == |nums| then s
    else if s.vals[nums[k]] == 0 then
      WakeConstKeepsSound(s, Of(nums[k]));
      ZeroScan(WakeConst(s, Of(nums[k])), nums, k + 1)
    else ZeroScan(s, nums, k + 1)
  }

  predicate GotZero(s: SemSet, nums: seq<nat>)
    requires Nums(s, nums)
  {
    exists k | 0 <= k < |nums| :: s.vals[nums[k]] == 0
  }

  // do_smart_wakeup_zero() for a known list of modified semaphores.
  function WakeZero(s: SemSet, nums: seq<nat>): (t: SemSet)
    requires Nums(s, nums) && QueuesSound(s)
    ensures QueuesSound(t) && t.vals == s.vals && t.adj == s.adj
  {
    var t := ZeroScan(s, nums, 0);
    if GotZero(s, nums) then
      WakeConstKeepsSound(t, Global);
      WakeConst(t, Global)
    else t
  }

  // ---- the simple policy --------------------------------------------------------------------

  // The first request of l, from position i on, that does not have to sleep.
  function FirstReady(s: SemSet, l: seq<Request>, i: nat): (r: nat)
    requires i <= |l| && AllSound(s, l)
    ensures i <= r <= |l|
    ensures forall j | i <= j < r :: Try(s, l[j]).Sleep?
    ensures r < |l| ==> !Try(s, l[r]).Sleep?
    decreases |l| - i
  {
    if i == |l| || !Try(s, l[i]).Sleep? then i else FirstReady(s, l, i + 1)
  }

  function SopNums(sops: seq<Sembuf>): seq<nat> {
    seq(|sops|, k requires 0 <= k < |sops| => sops[k].num)
  }

  function Unlinked(count: int, q: Request): int {
    if Complex(q) then count - 1 else count
  }

  predicate SameShape(s: SemSet, t: SemSet) {
    && |t.vals| == |s.vals| && t.adj.Keys == s.adj.Keys
    && (forall u | u in s.adj :: |t.adj[u]| == |s.adj[u]|)
  }

  lemma SoundIsStable(s: SemSet, t: SemSet)
    requires SameShape(s, t)
    ensures forall q :: Sound(s, q) <==> Sound(t, q)
  {
    forall q ensures Sound(s, q) <==> Sound(t, q) {
      assert |Row(s.adj, q.un)| == |Row(t.adj, q.un)|;
    }
  }

  lemma WithoutSound(s: SemSet, l: seq<Request>, i: nat)
    requires AllSound(s, l) && i < |l|
    ensures AllSound(s, Without(l, i))
  {
    forall k | 0 <= k < |Without(l, i)| ensures Sound(s, Without(l, i)[k]) {
      assert Without(l, i)[k] == l[if k < i then k else k + 1];
    }
  }

  // Request i leaves the alter queue at p.
  function Unlink(s: SemSet, p: Place, i: nat): (t: SemSet)
    requires QueuesSound(s) && HasPlace(s, p) && i < |AlterQ(s, p)|
    ensures QueuesSound(t) && HasPlace(t, p) && AlterQ(t, p) == Without(AlterQ(s, p), i)
    ensures t.vals == s.vals && t.adj == s.adj
  {
    var l := AlterQ(s, p);
    var t := WithAlterQ(s, p, Without(l, i)).(complexCount := Unlinked(s.complexCount, l[i]));
    WithoutSound(s, l, i);
    SoundIsStable(s, t);
    t
  }

  lemma AppliedKeepsSound(s: SemSet, q: Request)
    requires QueuesSound(s) && Sound(s, q)
    ensures QueuesSound(Applied(s, q)) && SameShape(s, Applied(s, q))
    ensures forall r :: Sound(s, r) <==> Sound(Applied(s, q), r)
  {
    SoundIsStable(s, Applied(s, q));
  }

  lemma {:induction false} ZeroScanKeepsAlter(s: SemSet, nums: seq<nat>, k: nat)
    requires k <= |nums| && Nums(s, nums) && QueuesSound(s)
    ensures ZeroScan(s, nums, k).alter == s.alter && ZeroScan(s, nums, k).alterOf == s.alterOf
    ensures ZeroScan(s, nums, k).useGlobal == s.useGlobal
    decreases |nums| - k
  {
    if k < |nums| {
      if s.vals[nums[k]] == 0 {
        WakeConstKeepsSound(s, Of(nums[k]));
        ZeroScanKeepsAlter(WakeConst(s, Of(nums[k])), nums, k + 1);
      } else {
        ZeroScanKeepsAlter(s, nums, k + 1);
      }
    }
  }

  lemma ZeroKeepsAlter(s: SemSet, nums: seq<nat>)
    requires Nums(s, nums) && QueuesSound(s)
    ensures WakeZero(s, nums).alter == s.alter && WakeZero(s, nums).alterOf == s.alterOf
    ensures WakeZero(s, nums).useGlobal == s.useGlobal
  {
    ZeroScanKeepsAlter(s, nums, 0);
  }

  lemma UnlinkedSound(s: SemSet, p: Place, i: nat)
    requires QueuesSound(s) && HasPlace(s, p) && i < |AlterQ(s, p)|
    ensures var q, u := AlterQ(s, p)[i], Unlink(s, p, i);
      Sound(s, q) && Sound(u, q) && QueuesSound(Applied(u, q)) && Nums(Applied(u, q), SopNums(q.sops)) && |u.vals| == |s.vals|
  {
    var q, u := AlterQ(s, p)[i], Unlink(s, p, i);
    assert Sound(s, q);
    SoundIsStable(s, u);
    AppliedKeepsSound(u, q);
    forall k | 0 <= k < |q.sops| ensures q.sops[k].num < |s.vals| {
      assert Fits(VarsOf(s, q), q.sops[k]);
    }
  }

  lemma AppliedQueues(u: SemSet, q: Request)
    requires Sound(u, q)
    ensures var a := Applied(u, q);
      |a.vals| == |u.vals| && a.alter == u.alter && a.alterOf == u.alterOf && a.const_ == u.const_ && a.constOf == u.constOf
  {
  }

  // Finish request i of the queue at p: do it (or fail it), wake what waited for the zeros it
  // left, then wake its sleeper.
  function Finish(s: SemSet, p: Place, i: nat): (t: SemSet)
    requires QueuesSound(s) && HasPlace(s, p) && i < |AlterQ(s, p)|
    ensures QueuesSound(t) && HasPlace(t, p) && AlterQ(t, p) == Without(AlterQ(s, p), i)
    ensures |t.vals| == |s.vals|
  {
    var q := AlterQ(s, p)[i];
    var u := Unlink(s, p, i);
    UnlinkedSound(s, p, i);
    var a := Applied(u, q);
    ZeroKeepsAlter(a, SopNums(q.sops));
    AppliedQueues(u, q);
    var t := if Try(u, q).Done? then WakeZero(a, SopNums(q.sops)) else a;
    t.(woken := t.woken + [Wake(q, Code(Try(u, q)))])
  }

  // Repeatedly finish the first request that does not have to sleep.
  function Serve(s: SemSet, p: Place): (t: SemSet)
    requires QueuesSound(s) && HasPlace(s, p)
    ensures QueuesSound(t) && HasPlace(t, p) && |t.vals| == |s.vals|
    decreases |AlterQ(s, p)|
  {
    var i := FirstReady(s, AlterQ(s, p), 0);
    if i == |AlterQ(s, p)| then s else Serve(Finish(s, p, i), p)
  }

  function Range(n: nat): seq<nat> {
    seq(n, i => i)
  }

  // The semaphores that the operations increase, in their order.
  function Increased(sops: seq<Sembuf>): seq<nat> {
    if sops == [] then []
    else (if sops[0].op > 0 then [sops[0].num] else []) + Increased(sops[1..])
  }

  // The queues of these semaphores, from number k on, are served one after the other.
  function ServeEach(s: SemSet, nums: seq<nat>, k: nat): (t: SemSet)
    requires k <= |nums| && Nums(s, nums) && QueuesSound(s)
    ensures QueuesSound(t) && |t.vals| == |s.vals|
    decreases |nums| - k
  {
    if k == |nums| then s else ServeEach(Serve(s, Of(nums[k])), nums, k + 1)
  }

  lemma {:induction false} IncreasedAreNamed(sops: seq<Sembuf>, n: nat)
    ensures n in Increased(sops) <==> exists k | 0 <= k < |sops| :: sops[k].num == n && sops[k].op > 0
  {
    if sops != [] {
      IncreasedAreNamed(sops[1..], n);
      assert forall k | 0 < k < |sops| :: sops[k] == sops[1..][k - 1];
      assert forall k | 0 <= k < |sops[1..]| :: sops[1..][k] == sops[k + 1];
    }
  }

  function Touched(s: SemSet, sops: Option<seq<Sembuf>>): seq<nat> {
    if sops.Some? then SopNums(sops.value) else Range(|s.vals|)
  }

  function Rescanned(s: SemSet, sops: Option<seq<Sembuf>>): seq<nat> {
    if sops.Some? then Increased(sops.value) else Range(|s.vals|)
  }

  predicate SopsBelow(s: SemSet, sops: Option<seq<Sembuf>>) {
    sops.Some? ==> Below(sops.value, |s.vals|)
  }

  lemma RescannedInRange(s: SemSet, sops: Option<seq<Sembuf>>)
    requires SopsBelow(s, sops)
    ensures Nums(s, Touched(s, sops)) && Nums(s, Rescanned(s, sops))
  {
    if sops.Some? {
      forall k | 0 <= k < |Increased(sops.value)| ensures Increased(sops.value)[k] < |s.vals| {
        IncreasedAreNamed(sops.value, Increased(sops.value)[k]);
      }
    }
  }

  // do_smart_update(): sops are the operations that changed the set, None when that is not known.
  function SmartUpdate(s: SemSet, sops: Option<seq<Sembuf>>): (t: SemSet)
    requires QueuesSound(s) && SopsBelow(s, sops)
    ensures QueuesSound(t) && |t.vals| == |s.vals|
  {
    RescannedInRange(s, sops);
    var t := WakeZero(s, Touched(s, sops));
    if t.alter != [] then Serve(t, Global)
    else ServeEach(t, Rescanned(s, sops), 0)
  }

  // ---- switching between the two kinds of alter queue ----------------------------------------

  // Each list goes in front of the ones before it.
  function Stacked(ls: seq<seq<Request>>): seq<Request> {
    if ls == [] then [] else Stacked(ls[1..]) + ls[0]
  }

  function OnSem(l: seq<Request>, n: nat): seq<Request>
    requires forall i | 0 <= i < |l| :: l[i].sops != []
  {
    if l == [] then []
    else (if l[0].sops[0].num == n then [l[0]] else []) + OnSem(l[1..], n)
  }

  function Merge(s: SemSet): SemSet {
    s.(alter := Stacked(s.alterOf) + s.alter, alterOf := seq(|s.alterOf|, _ => []))
  }

  function Unmerge(s: SemSet): SemSet
    requires QueuesSound(s)
  {
    assert forall i | 0 <= i < |s.alter| :: Sound(s, s.alter[i]);
    if s.complexCount != 0 then s
    else s.(alterOf := seq(|s.alterOf|, n requires 0 <= n < |s.alterOf| => s.alterOf[n] + OnSem(s.alter, n)),
            alter := [])
  }

  lemma {:induction false} StackedMembers(ls: seq<seq<Request>>, q: Request)
    ensures q in Stacked(ls) <==> exists n | 0 <= n < |ls| :: q in ls[n]
  {
    if ls != [] {
      StackedMembers(ls[1..], q);
      assert forall n | 0 < n < |ls| :: ls[n] == ls[1..][n - 1];
      assert forall n | 0 <= n < |ls[1..]| :: ls[1..][n] == ls[n + 1];
    }
  }

  lemma {:induction false} OnSemMembers(l: seq<Request>, n: nat, q: Request)
    requires forall i | 0 <= i < |l| :: l[i].sops != []
    ensures q in OnSem(l, n) <==> q in l && q.sops != [] && q.sops[0].num == n
  {
    if l != [] {
      OnSemMembers(l[1..], n, q);
      assert l == [l[0]] + l[1..];
    }
  }

  lemma MergeKeepsSound(s: SemSet)
    requires QueuesSound(s)
    ensures QueuesSound(Merge(s))
  {
    var t := Merge(s);
    SoundIsStable(s, t);
    forall i | 0 <= i < |t.alter| ensures Sound(t, t.alter[i]) {
      if i < |Stacked(s.alterOf)| {
        assert t.alter[i] in Stacked(s.alterOf);
        StackedMembers(s.alterOf, t.alter[i]);
      }
    }
  }

  lemma MergeShape(s: SemSet)
    ensures SameShape(s, Merge(s))
    ensures forall q :: Sound(s, q) <==> Sound(Merge(s), q)
  {
    SoundIsStable(s, Merge(s));
  }

  // r is m with q behind one of its queues.
  lemma AppendedSound(m: SemSet, r: SemSet, q: Request, p: Place)
    requires QueuesSound(m) && Sound(m, q) && HasPlace(m, p)
    requires r == (if Alters(q.sops) then WithAlterQ(m, p, AlterQ(m, p) + [q])
                   else WithConstQ(m, p, ConstQ(m, p) + [q])).(complexCount := r.complexCount)
    ensures QueuesSound(r)
  {
    SoundIsStable(m, r);
    hide Sound, Alters;
  }

  lemma UnmergeKeepsSound(s: SemSet)
    requires QueuesSound(s)
    ensures QueuesSound(Unmerge(s))
  {
    var t := Unmerge(s);
    SoundIsStable(s, t);
    if s.complexCount == 0 {
      assert forall i | 0 <= i < |s.alter| :: Sound(s, s.alter[i]);
      forall n, i | 0 <= n < |t.vals| && 0 <= i < |t.alterOf[n]| ensures Sound(t, t.alterOf[n][i]) {
        if i >= |s.alterOf[n]| {
          assert t.alterOf[n][i] in OnSem(s.alter, n);
          OnSemMembers(s.alter, n, t.alterOf[n][i]);
        }
      }
    }
  }

  // ---- locking, as seen by one operation -----------------------------------------------------

  function Enter(s: SemSet): SemSet {
    s.(useGlobal := HYSTERESIS)
  }

  // sem_lock(): the set as the caller finds it, and whether the global lock was taken.
  function Lock(s: SemSet, nsops: int): (SemSet, bool) {
    if nsops != 1 then (Enter(s), true) else (s, s.useGlobal > 0)
  }

  function TryLeave(s: SemSet): SemSet {
    if s.complexCount != 0 then s
    else s.(useGlobal := if s.useGlobal == 1 then 0 else s.useGlobal - 1)
  }

  function Unlock(s: SemSet, global: bool): (t: SemSet)
    requires QueuesSound(s)
    ensures QueuesSound(t) && |t.vals| == |s.vals|
  {
    UnmergeKeepsSound(s);
    var t := if global then TryLeave(Unmerge(s)) else s;
    SoundIsStable(if global then Unmerge(s) else s, t);
    t
  }

  // ---- the operations --------------------------------------------------------------------------

  function Enqueue(s: SemSet, q: Request): (t: SemSet)
    requires QueuesSound(s) && Sound(s, q)
    ensures QueuesSound(t) && |t.vals| == |s.vals|
  {
    assert Fits(VarsOf(s, q), q.sops[0]);
    MergeKeepsSound(s);
    MergeShape(s);
    var m := if Complex(q) && s.complexCount == 0 then Merge(s) else s;
    var p := if Complex(q) || (Alters(q.sops) && s.complexCount != 0) then Global else Of(q.sops[0].num);
    var t := if Alters(q.sops) then WithAlterQ(m, p, AlterQ(m, p) + [q]) else WithConstQ(m, p, ConstQ(m, p) + [q]);
    var r := t.(complexCount := if Complex(q) then m.complexCount + 1 else m.complexCount);
    AppendedSound(m, r, q, p);
    r
  }

  // What semop() does between sem_lock() and sem_unlock(), and the unlocking.
  function SemopInside(l: SemSet, g: bool, q: Request): (r: (SemSet, int))
    requires QueuesSound(l) && Sound(l, q)
    ensures QueuesSound(r.0) && |r.0.vals| == |l.vals|
  {
    match Try(l, q)
    case Done(_) =>
      AppliedKeepsSound(l, q);
      var a := Applied(l, q);
      assert SopsBelow(a, Some(q.sops)) by {
        forall k | 0 <= k < |q.sops| ensures q.sops[k].num < |a.vals| { assert Fits(VarsOf(l, q), q.sops[k]); }
      }
      (Unlock(if Alters(q.sops) then SmartUpdate(a, Some(q.sops)) else a, g), 0)
    case Error(c) => (Unlock(l, g), c)
    case Sleep(_) => (Unlock(Enqueue(l, q), g), 1)
  }

  // semop() after its arguments were checked: the new set and the result, 1 for "sleeps".
  function Semop(s: SemSet, q: Request): (r: (SemSet, int))
    requires QueuesSound(s) && Sound(s, q)
    ensures QueuesSound(r.0) && |r.0.vals| == |s.vals|
  {
    var (l, g) := Lock(s, |q.sops|);
    SoundIsStable(s, l);
    SemopInside(l, g, q)
  }

  function ZeroAdj(adj: map<nat, seq<int>>, n: nat): map<nat, seq<int>> {
    map u | u in adj :: if n < |adj[u]| then adj[u][n := 0] else adj[u]
  }

  function SetVal(s: SemSet, n: nat, val: int): (t: SemSet)
    requires QueuesSound(s) && n < |s.vals|
    ensures QueuesSound(t) && |t.vals| == |s.vals|
  {
    var a := Enter(s).(vals := s.vals[n := val], adj := ZeroAdj(s.adj, n));
    SoundIsStable(s, a);
    Unlock(SmartUpdate(a, None), true)
  }

  function Zeros(n: nat): seq<int> {
    seq(n, _ => 0)
  }

  function SetAll(s: SemSet, vals: seq<int>): (t: SemSet)
    requires QueuesSound(s) && |vals| == |s.vals|
    ensures QueuesSound(t) && |t.vals| == |s.vals|
  {
    var a := Enter(s).(vals := vals, adj := map u | u in s.adj :: Zeros(|s.adj[u]|));
    SoundIsStable(s, a);
    Unlock(SmartUpdate(a, None), true)
  }

  function Clamp(x: int): int {
    if x < 0 then 0 else if x > SEMVMX then SEMVMX else x
  }

  // exit_sem() for the undo structure u.
  function Adjusted(vals: seq<int>, row: seq<int>): seq<int>
    requires |row| == |vals|
  {
    seq(|vals|, n requires 0 <= n < |vals| => if row[n] != 0 then Clamp(vals[n] + row[n]) else vals[n])
  }

  // No sleeping request still refers to the undo structure u.
  predicate Unreferred(l: seq<Request>, u: nat) {
    forall i | 0 <= i < |l| :: l[i].un != Some(u)
  }

  predicate UndoIdle(s: SemSet, u: nat) {
    && Unreferred(s.alter, u) && Unreferred(s.const_, u)
    && (forall n | 0 <= n < |s.alterOf| :: Unreferred(s.alterOf[n], u))
    && (forall n | 0 <= n < |s.constOf| :: Unreferred(s.constOf[n], u))
  }

  function DropUndo(s: SemSet, u: nat): (t: SemSet)
    requires QueuesSound(s) && u in s.adj && |s.adj[u]| == |s.vals| && UndoIdle(s, u)
    ensures QueuesSound(t) && |t.vals| == |s.vals|
  {
    var t := Enter(s).(vals := Adjusted(s.vals, s.adj[u]), adj := s.adj - {u});
    assert forall q | Sound(s, q) && q.un != Some(u) :: Sound(t, q) by {
      forall q | Sound(s, q) && q.un != Some(u) ensures Sound(t, q) { assert Row(s.adj, q.un) == Row(t.adj, q.un); }
    }
    t
  }

  function ExitUndo(s: SemSet, u: nat): (t: SemSet)
    requires QueuesSound(s) && u in s.adj && |s.adj[u]| == |s.vals| && UndoIdle(s, u)
    ensures QueuesSound(t) && |t.vals| == |s.vals|
  {
    Unlock(SmartUpdate(DropUndo(s, u), None), true)
  }

  // find_alloc_undo() when the caller has no undo structure for this set yet.
  function AddUndo(s: SemSet, u: nat): (t: SemSet)
    requires QueuesSound(s)
    ensures QueuesSound(t) && |t.vals| == |s.vals|
  {
    var a := if u in s.adj then Enter(s) else Enter(s).(adj := s.adj[u := Zeros(|s.vals|)]);
    assert forall q | Sound(s, q) :: Sound(a, q) by {
      forall q | Sound(s, q) ensures Sound(a, q) { AddUndoRow(s, a, u, q); }
    }
    Unlock(a, true)
  }

  lemma AddUndoRow(s: SemSet, a: SemSet, u: nat, q: Request)
    requires Sound(s, q) && a.vals == s.vals
    requires a.adj == if u in s.adj then s.adj else s.adj[u := Zeros(|s.vals|)]
    ensures Sound(a, q)
  {
    forall k | 0 <= k < |q.sops| ensures Fits(VarsOf(a, q), q.sops[k]) {
      assert Fits(VarsOf(s, q), q.sops[k]);
    }
  }

  // Any other user of the global lock (GETALL, GETNCNT, IPC_STAT, a spurious wake-up, ...).
  function Visit(s: SemSet): (t: SemSet)
    requires QueuesSound(s)
    ensures QueuesSound(t) && |t.vals| == |s.vals|
  {
    SoundIsStable(s, Enter(s));
    Unlock(Enter(s), true)
  }

  // Where a sleeping request is found.
  datatype Slot = Slot(altering: bool, place: Place, index: nat)

  predicate HasSlot(s: SemSet, x: Slot) {
    HasPlace(s, x.place) && x.index < |(if x.altering then AlterQ(s, x.place) else ConstQ(s, x.place))|
  }

  function At(s: SemSet, x: Slot): Request
    requires HasSlot(s, x)
  {
    if x.altering then AlterQ(s, x.place)[x.index] else ConstQ(s, x.place)[x.index]
  }

  function UnlinkAt(s: SemSet, x: Slot): (t: SemSet)
    requires QueuesSound(s) && HasSlot(s, x)
    ensures QueuesSound(t) && t.vals == s.vals && t.adj == s.adj
  {
    if x.altering then Unlink(s, x.place, x.index)
    else
      var l := ConstQ(s, x.place);
      var t := WithConstQ(s, x.place, Without(l, x.index)).(complexCount := Unlinked(s.complexCount, l[x.index]));
      WithoutSound(s, l, x.index);
      SoundIsStable(s, t);
      t
  }

  // A sleeper gives up (a signal, a timeout) before anybody completed its request.
  function Cancel(s: SemSet, x: Slot): (t: SemSet)
    requires QueuesSound(s) && HasSlot(s, x)
    ensures QueuesSound(t) && |t.vals| == |s.vals|
  {
    var (l, g) := Lock(s, |At(s, x).sops|);
    SoundIsStable(s, l);
    Unlock(UnlinkAt(l, x), g)
  }
}
