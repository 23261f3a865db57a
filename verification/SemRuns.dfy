// What every operation on a semaphore set keeps, over whole runs: the form of the queues, the
// ranges of the values and adjustments, and that no request sleeps that could be done.
module SemRuns {
  import opened SemOps
  import opened SemSpec

  // ---- the form of the queues ----------------------------------------------------------------

  predicate Decrement(q: Request, n: nat) {
    |q.sops| == 1 && q.sops[0].num == n && q.sops[0].op < 0 && !q.sops[0].nowait
  }

  predicate WaitsZero(q: Request, n: nat) {
    |q.sops| == 1 && q.sops[0].num == n && q.sops[0].op == 0 && !q.sops[0].nowait
  }

  predicate AlterKind(q: Request) {
    q.sops != [] && (if Complex(q) then Alters(q.sops) else Decrement(q, q.sops[0].num))
  }

  predicate ConstKind(q: Request) {
    Complex(q) && !Alters(q.sops)
  }

  predicate Kinds(s: SemSet) {
    && |s.vals| == |s.alterOf| == |s.constOf|
    && (forall i | 0 <= i < |s.alter| :: AlterKind(s.alter[i]))
    && (forall i | 0 <= i < |s.const_| :: ConstKind(s.const_[i]))
    && (forall n, i | 0 <= n < |s.vals| && 0 <= i < |s.alterOf[n]| :: Decrement(s.alterOf[n][i], n))
    && (forall n, i | 0 <= n < |s.vals| && 0 <= i < |s.constOf[n]| :: WaitsZero(s.constOf[n][i], n))
  }

  predicate Ranges(s: SemSet) {
    && InRange(s.vals)
    && (forall u | u in s.adj :: |s.adj[u]| == |s.vals| && RowInRange(s.adj[u]))
  }

  predicate SimpleQueuesEmpty(s: SemSet) {
    forall n | 0 <= n < |s.alterOf| :: s.alterOf[n] == []
  }

  // Holds at every point inside the critical section.
  predicate Structure(s: SemSet) {
    && QueuesSound(s) && Kinds(s) && Ranges(s)
    && s.complexCount == ComplexIn(s.alter) + ComplexIn(s.const_)
    && (s.complexCount > 0 || s.alter != [] ==> SimpleQueuesEmpty(s))
  }

  // Holds whenever the set is unlocked.
  predicate Unlocked(s: SemSet) {
    && Structure(s)
    && (s.complexCount == 0 ==> s.alter == [] && s.const_ == [])
    && 0 <= s.useGlobal <= HYSTERESIS
    && (s.complexCount > 0 ==> s.useGlobal > 0)
  }

  // ---- nobody sleeps who could go on -----------------------------------------------------------

  predicate ConstQuiet(s: SemSet)
    requires QueuesSound(s)
  {
    && (forall i | 0 <= i < |s.const_| :: !Try(s, s.const_[i]).Done?)
    && (forall n, i | 0 <= n < |s.vals| && 0 <= i < |s.constOf[n]| :: Try(s, s.constOf[n][i]).Sleep?)
  }

  predicate AlterQuiet(s: SemSet, p: Place)
    requires QueuesSound(s) && HasPlace(s, p)
  {
    forall i | 0 <= i < |AlterQ(s, p)| :: Try(s, AlterQ(s, p)[i]).Sleep?
  }

  // Every queued request that alters the set, and every single wait-for-zero, has to sleep on the
  // current values; no queued request of several wait-for-zeros can succeed on them.
  ghost predicate Quiet(s: SemSet)
    requires QueuesSound(s)
  {
    ConstQuiet(s) && forall p | HasPlace(s, p) :: AlterQuiet(s, p)
  }

  // ---- counting complex requests ----------------------------------------------------------------

  lemma {:induction false} ComplexInConcat(a: seq<Request>, b: seq<Request>)
    ensures ComplexIn(a + b) == ComplexIn(a) + ComplexIn(b)
  {
    if a == [] {
      assert a + b == b;
    } else {
      assert (a + b)[1..] == a[1..] + b;
      ComplexInConcat(a[1..], b);
    }
  }

  lemma ComplexInWithout(l: seq<Request>, i: nat)
    requires i < |l|
    ensures ComplexIn(Without(l, i)) == ComplexIn(l) - (if Complex(l[i]) then 1 else 0)
  {
    assert l == l[..i] + ([l[i]] + l[i + 1..]);
    ComplexInConcat(l[..i], [l[i]] + l[i + 1..]);
    ComplexInConcat(l[..i], l[i + 1..]);
  }

  lemma {:induction false} NoComplexIn(l: seq<Request>)
    ensures ComplexIn(l) == 0 <==> forall i | 0 <= i < |l| :: !Complex(l[i])
  {
    if l != [] {
      NoComplexIn(l[1..]);
      assert forall i | 0 < i < |l| :: l[i] == l[1..][i - 1];
      assert forall i | 0 <= i < |l[1..]| :: l[1..][i] == l[i + 1];
    }
  }

  lemma StayMembers(s: SemSet, l: seq<Request>)
    requires AllSound(s, l)
    ensures forall i | 0 <= i < |Stay(s, l)| :: Stay(s, l)[i] in l
  {
    StaySubset(s, l);
    forall i | 0 <= i < |Stay(s, l)| ensures Stay(s, l)[i] in l {
      assert Stay(s, l)[i] in Stay(s, l);
    }
  }

  // ---- waking waits for zero keeps the structure --------------------------------------------------

  lemma WakeConstStructure(s: SemSet, p: Place)
    requires Structure(s) && HasPlace(s, p)
    ensures Structure(WakeConst(s, p))
  {
    WakeConstKeepsSound(s, p);
    var l := ConstQ(s, p);
    StayMembers(s, l);
    if p.Of? {
      NoComplexIn(l);
      NoComplexIn(Stay(s, l));
    }
  }

  lemma {:induction false} ZeroScanStructure(s: SemSet, nums: seq<nat>, k: nat)
    requires Structure(s) && k <= |nums| && Nums(s, nums)
    ensures Structure(ZeroScan(s, nums, k))
    decreases |nums| - k
  {
    if k < |nums| {
      if s.vals[nums[k]] == 0 {
        WakeConstStructure(s, Of(nums[k]));
        ZeroScanStructure(WakeConst(s, Of(nums[k])), nums, k + 1);
      } else {
        ZeroScanStructure(s, nums, k + 1);
      }
    }
  }

  lemma WakeZeroStructure(s: SemSet, nums: seq<nat>)
    requires Structure(s) && Nums(s, nums)
    ensures Structure(WakeZero(s, nums))
  {
    ZeroScanStructure(s, nums, 0);
    if GotZero(s, nums) {
      WakeConstStructure(ZeroScan(s, nums, 0), Global);
    }
  }

  // ---- serving a queue keeps the structure --------------------------------------------------------

  lemma UnlinkKinds(s: SemSet, p: Place, i: nat)
    requires Structure(s) && HasPlace(s, p) && i < |AlterQ(s, p)|
    ensures Kinds(Unlink(s, p, i)) && (s.complexCount > 0 || s.alter != [] ==> SimpleQueuesEmpty(Unlink(s, p, i)))
  {
    var t := Unlink(s, p, i);
    UnlinkQueues(s, p, i);
    hide Sound, Ranges, QueuesSound, Unlink, ComplexIn;
    forall n, j | 0 <= n < |t.vals| && 0 <= j < |t.alterOf[n]| ensures Decrement(t.alterOf[n][j], n) {
      assert t.alterOf[n][j] == s.alterOf[n][if p == Of(n) && j >= i then j + 1 else j];
    }
    forall j | 0 <= j < |t.alter| ensures AlterKind(t.alter[j]) {
      assert t.alter[j] == s.alter[if p.Global? && j >= i then j + 1 else j];
    }
  }

  lemma UnlinkQueues(s: SemSet, p: Place, i: nat)
    requires QueuesSound(s) && HasPlace(s, p) && i < |AlterQ(s, p)|
    ensures var t := Unlink(s, p, i);
      && t.const_ == s.const_ && t.constOf == s.constOf && |t.vals| == |t.alterOf| == |s.alterOf|
      && t.alter == (if p.Global? then Without(s.alter, i) else s.alter)
      && forall n | 0 <= n < |s.alterOf| ::
           t.alterOf[n] == if p == Of(n) then Without(s.alterOf[n], i) else s.alterOf[n]
  {
    hide Sound;
  }

  lemma UnlinkStructure(s: SemSet, p: Place, i: nat)
    requires Structure(s) && HasPlace(s, p) && i < |AlterQ(s, p)|
    ensures Structure(Unlink(s, p, i))
  {
    ComplexInWithout(AlterQ(s, p), i);
    UnlinkKinds(s, p, i);
    if p.Of? {
      assert Decrement(s.alterOf[p.n][i], p.n);
    }
    hide QueuesSound, Kinds, Ranges, SimpleQueuesEmpty, Without, ComplexIn;
  }

  lemma AppliedStructure(s: SemSet, q: Request)
    requires Structure(s) && Sound(s, q)
    ensures Structure(Applied(s, q))
  {
    AppliedKeepsSound(s, q);
    if Try(s, q).Done? {
      AfterInRange(VarsOf(s, q), q.sops, |q.sops|);
    }
  }

  lemma FinishStructure(s: SemSet, p: Place, i: nat)
    requires Structure(s) && HasPlace(s, p) && i < |AlterQ(s, p)|
    ensures Structure(Finish(s, p, i))
  {
    var q := AlterQ(s, p)[i];
    assert Sound(s, q);
    var u := Unlink(s, p, i);
    UnlinkStructure(s, p, i);
    assert Sound(u, q);
    AppliedStructure(u, q);
    AppliedKeepsSound(u, q);
    if Try(u, q).Done? {
      WakeZeroStructure(Applied(u, q), SopNums(q.sops));
    }
    var t := Finish(s, p, i);
    assert t.(woken := s.woken) == (if Try(u, q).Done? then WakeZero(Applied(u, q), SopNums(q.sops)) else Applied(u, q)).(woken := s.woken);
    WokenIsFree(if Try(u, q).Done? then WakeZero(Applied(u, q), SopNums(q.sops)) else Applied(u, q), t.woken);
  }

  lemma WokenIsFree(s: SemSet, w: seq<Wake>)
    requires Structure(s)
    ensures Structure(s.(woken := w))
  {
    SoundIsStable(s, s.(woken := w));
  }

  lemma {:induction false} ServeStructure(s: SemSet, p: Place)
    requires Structure(s) && HasPlace(s, p)
    ensures Structure(Serve(s, p))
    decreases |AlterQ(s, p)|
  {
    var i := FirstReady(s, AlterQ(s, p), 0);
    if i < |AlterQ(s, p)| {
      FinishStructure(s, p, i);
      ServeStructure(Finish(s, p, i), p);
    }
  }

  lemma {:induction false} ServeEachStructure(s: SemSet, nums: seq<nat>, k: nat)
    requires Structure(s) && k <= |nums| && Nums(s, nums)
    ensures Structure(ServeEach(s, nums, k))
    decreases |nums| - k
  {
    if k < |nums| {
      ServeStructure(s, Of(nums[k]));
      ServeEachStructure(Serve(s, Of(nums[k])), nums, k + 1);
    }
  }

  lemma SmartUpdateStructure(s: SemSet, sops: Option<seq<Sembuf>>)
    requires Structure(s) && SopsBelow(s, sops)
    ensures Structure(SmartUpdate(s, sops))
  {
    RescannedInRange(s, sops);
    WakeZeroStructure(s, Touched(s, sops));
    var t := WakeZero(s, Touched(s, sops));
    ServeStructure(t, Global);
    ServeEachStructure(t, Rescanned(s, sops), 0);
  }

  // ---- what makes a queued request sleep ----------------------------------------------------------

  lemma ZeroWaitSleeps(s: SemSet, q: Request, n: nat)
    requires Sound(s, q) && Ranges(s) && WaitsZero(q, n)
    ensures n < |s.vals| && (Try(s, q).Sleep? <==> s.vals[n] != 0)
  {
    assert Fits(VarsOf(s, q), q.sops[0]);
    WaitForZero(VarsOf(s, q), q.sops);
  }

  lemma DecrementSleeps(s: SemSet, q: Request, n: nat)
    requires Sound(s, q) && Decrement(q, n)
    ensures n < |s.vals| && (Try(s, q).Sleep? <==> s.vals[n] + q.sops[0].op < 0)
  {
    assert Fits(VarsOf(s, q), q.sops[0]);
    SingleDecrement(VarsOf(s, q), q.sops);
  }

  predicate NamesZeros(s: SemSet, q: Request) {
    forall k | 0 <= k < |q.sops| :: q.sops[k].num < |s.vals| && s.vals[q.sops[k].num] == 0
  }

  lemma ConstSucceeds(s: SemSet, q: Request)
    requires Sound(s, q) && Ranges(s) && !Alters(q.sops)
    ensures Try(s, q).Done? <==> NamesZeros(s, q)
    ensures Try(s, q).Done? ==> Applied(s, q) == s
  {
    WaitForZero(VarsOf(s, q), q.sops);
    forall k | 0 <= k < |q.sops| ensures q.sops[k].num < |s.vals| {
      assert Fits(VarsOf(s, q), q.sops[k]);
    }
    if Try(s, q).Done? && q.un.Some? && q.un.value in s.adj {
      assert s.adj[q.un.value := s.adj[q.un.value]] == s.adj;
    }
  }

  // ---- the zero scan, in closed form --------------------------------------------------------------

  lemma {:induction false} StaySame(s: SemSet, t: SemSet, l: seq<Request>)
    requires AllSound(s, l) && AllSound(t, l) && t.vals == s.vals && t.adj == s.adj
    ensures Stay(s, l) == Stay(t, l)
  {
    if l != [] {
      StaySame(s, t, l[1..]);
    }
  }

  lemma {:induction false} StayTwice(s: SemSet, l: seq<Request>)
    requires AllSound(s, l)
    ensures AllSound(s, Stay(s, l)) && Stay(s, Stay(s, l)) == Stay(s, l)
  {
    StaySubset(s, l);
    if l != [] {
      StayTwice(s, l[1..]);
      StaySubset(s, l[1..]);
      if Try(s, l[0]).Sleep? {
        assert Stay(s, l)[1..] == Stay(s, l[1..]);
      }
    }
  }

  predicate Scanned(s: SemSet, nums: seq<nat>, k: nat, n: nat)
    requires k <= |nums| && n < |s.vals|
  {
    n in nums[k..] && s.vals[n] == 0
  }

  lemma {:induction false} ZeroScanForm(s: SemSet, nums: seq<nat>, k: nat, n: nat)
    requires QueuesSound(s) && k <= |nums| && Nums(s, nums) && n < |s.vals|
    ensures ZeroScan(s, nums, k).const_ == s.const_
    ensures ZeroScan(s, nums, k).constOf[n] ==
            if Scanned(s, nums, k, n) then Stay(s, s.constOf[n]) else s.constOf[n]
    decreases |nums| - k
  {
    if k < |nums| {
      assert nums[k..] == [nums[k]] + nums[k + 1..];
      if s.vals[nums[k]] == 0 {
        var t := WakeConst(s, Of(nums[k]));
        WakeConstKeepsSound(s, Of(nums[k]));
        ZeroScanForm(t, nums, k + 1, n);
        if nums[k] == n {
          StayTwice(s, s.constOf[n]);
          StaySame(s, t, t.constOf[n]);
        } else {
          StaySame(s, t, s.constOf[n]);
        }
      } else {
        ZeroScanForm(s, nums, k + 1, n);
      }
    }
  }

  // Looking only at the semaphores in nums is enough when every request that could have become
  // possible names one of them; the queue of the whole set only needs a look when one is zero.
  lemma WakeZeroQuiet(s: SemSet, nums: seq<nat>)
    requires Structure(s) && Nums(s, nums)
    requires forall n, i | 0 <= n < |s.vals| && n !in nums && 0 <= i < |s.constOf[n]| ::
               Try(s, s.constOf[n][i]).Sleep?
    requires forall i | 0 <= i < |s.const_| && Try(s, s.const_[i]).Done? ::
               exists k | 0 <= k < |s.const_[i].sops| :: s.const_[i].sops[k].num in nums
    ensures ConstQuiet(WakeZero(s, nums))
  {
    var t := WakeZero(s, nums);
    forall n, i | 0 <= n < |s.vals| && 0 <= i < |t.constOf[n]| ensures Try(t, t.constOf[n][i]).Sleep? {
      ZeroScanForm(s, nums, 0, n);
      assert nums[0..] == nums;
      var q := t.constOf[n][i];
      if Scanned(s, nums, 0, n) {
        StaySubset(s, s.constOf[n]);
        assert q in Stay(s, s.constOf[n]);
      } else {
        assert Sound(s, s.constOf[n][i]);
        ZeroWaitSleeps(s, q, n);
      }
      assert Sound(t, q);
    }
    if GotZero(s, nums) {
      ConstScanQuiet(ZeroScan(s, nums, 0));
    } else {
      forall i | 0 <= i < |t.const_| ensures !Try(t, t.const_[i]).Done? {
        if |s.vals| > 0 { ZeroScanForm(s, nums, 0, 0); }
        assert Sound(t, t.const_[i]);
        ConstScanIdle(s, nums, i);
      }
    }
  }

  lemma ConstScanQuiet(s: SemSet)
    requires QueuesSound(s)
    ensures forall i | 0 <= i < |WakeConst(s, Global).const_| ::
              Sound(s, WakeConst(s, Global).const_[i]) && Try(s, WakeConst(s, Global).const_[i]).Sleep?
  {
    StaySubset(s, s.const_);
    forall i | 0 <= i < |WakeConst(s, Global).const_|
      ensures Sound(s, WakeConst(s, Global).const_[i]) && Try(s, WakeConst(s, Global).const_[i]).Sleep?
    {
      assert WakeConst(s, Global).const_[i] in Stay(s, s.const_);
    }
  }

  lemma ConstScanIdle(s: SemSet, nums: seq<nat>, i: nat)
    requires Structure(s) && Nums(s, nums) && !GotZero(s, nums) && i < |s.const_|
    requires Try(s, s.const_[i]).Done? ==>
               exists k | 0 <= k < |s.const_[i].sops| :: s.const_[i].sops[k].num in nums
    ensures !Try(s, s.const_[i]).Done?
  {
    var q := s.const_[i];
    assert Sound(s, q);
    ConstSucceeds(s, q);
    assert forall n | n in nums :: s.vals[n] != 0;
  }

  // The two ways in which WakeZeroQuiet is used: after a known request, and after anything.
  lemma WakeZeroAfterRequest(s0: SemSet, s: SemSet, nums: seq<nat>)
    requires Structure(s0) && ConstQuiet(s0) && Structure(s) && Nums(s, nums)
    requires s.constOf == s0.constOf && s.const_ == s0.const_
    requires forall n | 0 <= n < |s.vals| && n !in nums :: s.vals[n] == s0.vals[n]
    ensures ConstQuiet(WakeZero(s, nums))
  {
    forall n, i | 0 <= n < |s.vals| && n !in nums && 0 <= i < |s.constOf[n]|
      ensures Try(s, s.constOf[n][i]).Sleep?
    {
      assert Sound(s, s.constOf[n][i]) && Sound(s0, s0.constOf[n][i]);
      ZeroWaitSleeps(s, s.constOf[n][i], n);
      ZeroWaitSleeps(s0, s.constOf[n][i], n);
    }
    forall i | 0 <= i < |s.const_| && Try(s, s.const_[i]).Done?
      ensures exists k | 0 <= k < |s.const_[i].sops| :: s.const_[i].sops[k].num in nums
    {
      var q := s.const_[i];
      assert Sound(s0, s0.const_[i]);
      ConstSucceeds(s, q);
      ConstSucceeds(s0, q);
      var k :| 0 <= k < |q.sops| && !(q.sops[k].num < |s0.vals| && s0.vals[q.sops[k].num] == 0);
      assert q.sops[k].num in nums;
    }
    WakeZeroQuiet(s, nums);
  }

  lemma WakeZeroAfterAnything(s: SemSet)
    requires Structure(s)
    ensures ConstQuiet(WakeZero(s, Range(|s.vals|)))
  {
    var nums := Range(|s.vals|);
    forall n | 0 <= n < |s.vals| ensures n in nums {
      assert nums[n] == n;
    }
    forall i | 0 <= i < |s.const_| && Try(s, s.const_[i]).Done?
      ensures exists k | 0 <= k < |s.const_[i].sops| :: s.const_[i].sops[k].num in nums
    {
      var q := s.const_[i];
      assert Sound(s, q) && Fits(VarsOf(s, q), q.sops[0]);
      assert nums[q.sops[0].num] == q.sops[0].num;
    }
    WakeZeroQuiet(s, nums);
  }

  // ---- serving a queue leaves it quiet --------------------------------------------------------------

  // After request q of a quiet set was done, waking zeros where q wrote makes it quiet again.
  lemma DoneConstQuiet(s: SemSet, u: SemSet, q: Request)
    requires Structure(s) && ConstQuiet(s) && Structure(u) && Sound(u, q) && Try(u, q).Done?
    requires u.vals == s.vals && u.adj == s.adj && u.constOf == s.constOf && u.const_ == s.const_
    ensures QueuesSound(Applied(u, q)) && Nums(Applied(u, q), SopNums(q.sops))
    ensures ConstQuiet(WakeZero(Applied(u, q), SopNums(q.sops)))
  {
    AppliedStructure(u, q);
    var a, nums := Applied(u, q), SopNums(q.sops);
    forall k | 0 <= k < |nums| ensures nums[k] < |a.vals| {
      assert Fits(VarsOf(u, q), q.sops[k]);
    }
    forall n | 0 <= n < |a.vals| && n !in nums ensures a.vals[n] == s.vals[n] {
      UnnamedUnchanged(u, q, n);
    }
    WakeZeroAfterRequest(s, a, nums);
  }

  lemma ConstQuietWoken(s: SemSet, w: seq<Wake>)
    requires QueuesSound(s) && ConstQuiet(s)
    ensures QueuesSound(s.(woken := w)) && ConstQuiet(s.(woken := w))
  {
    SoundIsStable(s, s.(woken := w));
  }

  lemma FinishConstQuiet(s: SemSet, p: Place, i: nat)
    requires Structure(s) && ConstQuiet(s) && HasPlace(s, p) && i < |AlterQ(s, p)|
    ensures ConstQuiet(Finish(s, p, i))
  {
    var q := AlterQ(s, p)[i];
    assert Sound(s, q);
    var u := Unlink(s, p, i);
    UnlinkStructure(s, p, i);
    UnlinkFrame(s, p, i);
    assert Sound(u, q);
    if Try(u, q).Done? {
      hide Structure, Unlink, Kinds, Ranges;
      DoneConstQuiet(s, u, q);
      ConstQuietWoken(WakeZero(Applied(u, q), SopNums(q.sops)), Finish(s, p, i).woken);
    } else {
      UnlinkConstQuiet(s, p, i);
      hide Structure, Unlink, Kinds, Ranges;
      ConstQuietWoken(u, Finish(s, p, i).woken);
    }
  }

  lemma UnlinkFrame(s: SemSet, p: Place, i: nat)
    requires QueuesSound(s) && HasPlace(s, p) && i < |AlterQ(s, p)|
    ensures var u := Unlink(s, p, i);
      u.vals == s.vals && u.adj == s.adj && u.constOf == s.constOf && u.const_ == s.const_
  {
  }

  lemma UnlinkConstQuiet(s: SemSet, p: Place, i: nat)
    requires QueuesSound(s) && ConstQuiet(s) && HasPlace(s, p) && i < |AlterQ(s, p)|
    ensures ConstQuiet(Unlink(s, p, i))
  {
    UnlinkFrame(s, p, i);
    hide Unlink, Sound;
    SameWaiters(s, Unlink(s, p, i));
  }

  lemma SameWaiters(s: SemSet, t: SemSet)
    requires QueuesSound(s) && QueuesSound(t) && ConstQuiet(s)
    requires t.vals == s.vals && t.adj == s.adj && t.constOf == s.constOf && t.const_ == s.const_
    ensures ConstQuiet(t)
  {
    forall i | 0 <= i < |t.const_| ensures !Try(t, t.const_[i]).Done? {
      assert !Try(s, s.const_[i]).Done?;
    }
    forall n, i | 0 <= n < |t.vals| && 0 <= i < |t.constOf[n]| ensures Try(t, t.constOf[n][i]).Sleep? {
      assert Try(s, s.constOf[n][i]).Sleep?;
    }
  }

  lemma UnnamedUnchanged(s: SemSet, q: Request, n: nat)
    requires Sound(s, q) && Try(s, q).Done? && n < |s.vals| && n !in SopNums(q.sops)
    ensures Applied(s, q).vals[n] == s.vals[n]
  {
    forall k | 0 <= k < |q.sops| ensures q.sops[k].num != n {
      assert SopNums(q.sops)[k] == q.sops[k].num;
    }
    DoneChangesOnlyNamed(VarsOf(s, q), q.sops, n);
  }

  lemma {:induction false} ServeQuiet(s: SemSet, p: Place)
    requires Structure(s) && ConstQuiet(s) && HasPlace(s, p)
    ensures ConstQuiet(Serve(s, p)) && AlterQuiet(Serve(s, p), p)
    decreases |AlterQ(s, p)|
  {
    hide Kinds, Ranges, ConstQuiet, Sound, Try, Finish;
    var i := FirstReady(s, AlterQ(s, p), 0);
    if i < |AlterQ(s, p)| {
      FinishStructure(s, p, i);
      FinishConstQuiet(s, p, i);
      ServeQuiet(Finish(s, p, i), p);
    }
  }

  // Serving the queue of the whole set leaves the queues of the semaphores alone, and vice versa.
  lemma {:induction false} ServeGlobalFrame(s: SemSet)
    requires QueuesSound(s)
    ensures Serve(s, Global).alterOf == s.alterOf
    decreases |s.alter|
  {
    var i := FirstReady(s, s.alter, 0);
    if i < |s.alter| {
      FinishFrame(s, Global, i);
      ServeGlobalFrame(Finish(s, Global, i));
    }
  }

  lemma FinishFrame(s: SemSet, p: Place, i: nat)
    requires QueuesSound(s) && HasPlace(s, p) && i < |AlterQ(s, p)|
    ensures p.Global? ==> Finish(s, p, i).alterOf == s.alterOf
    ensures p.Of? ==> Finish(s, p, i).alter == s.alter &&
                      Finish(s, p, i).alterOf == s.alterOf[p.n := Without(AlterQ(s, p), i)]
  {
    var q := AlterQ(s, p)[i];
    assert Sound(s, q);
    var u := Unlink(s, p, i);
    assert Sound(u, q);
    AppliedKeepsSound(u, q);
    ZeroKeepsAlter(Applied(u, q), SopNums(q.sops));
  }

  lemma FinishLocalVals(s: SemSet, n: nat, i: nat, m: nat)
    requires Structure(s) && n < |s.vals| && i < |s.alterOf[n]| && m < |s.vals|
    ensures m != n ==> Finish(s, Of(n), i).vals[m] == s.vals[m]
    ensures Finish(s, Of(n), i).vals[m] <= s.vals[m]
  {
    var q := s.alterOf[n][i];
    assert Sound(s, q) && Decrement(q, n);
    var u := Unlink(s, Of(n), i);
    assert Sound(u, q);
    AppliedKeepsSound(u, q);
    SingleDecrement(VarsOf(u, q), q.sops);
  }

  lemma {:induction false} ServeLocalFrame(s: SemSet, n: nat, m: nat)
    requires Structure(s) && n < |s.vals| && m < |s.vals| && m != n
    ensures
      var t := Serve(s, Of(n));
      t.alter == s.alter && t.alterOf[m] == s.alterOf[m] && t.vals[m] == s.vals[m]
    decreases |s.alterOf[n]|
  {
    var i := FirstReady(s, s.alterOf[n], 0);
    if i < |s.alterOf[n]| {
      FinishStructure(s, Of(n), i);
      FinishFrame(s, Of(n), i);
      FinishLocalVals(s, n, i, m);
      ServeLocalFrame(Finish(s, Of(n), i), n, m);
    }
  }

  lemma {:induction false} ServeLocalAlter(s: SemSet, n: nat)
    requires QueuesSound(s) && n < |s.vals|
    ensures Serve(s, Of(n)).alter == s.alter
    decreases |s.alterOf[n]|
  {
    var i := FirstReady(s, s.alterOf[n], 0);
    if i < |s.alterOf[n]| {
      FinishFrame(s, Of(n), i);
      ServeLocalAlter(Finish(s, Of(n), i), n);
    }
  }

  // The queue of a semaphore stays quiet while its value does not grow.
  lemma LocalStaysQuiet(s: SemSet, t: SemSet, m: nat)
    requires Structure(s) && Structure(t) && m < |s.vals| == |t.vals|
    requires t.alterOf[m] == s.alterOf[m] && t.vals[m] <= s.vals[m] && AlterQuiet(s, Of(m))
    ensures AlterQuiet(t, Of(m))
  {
    forall i | 0 <= i < |t.alterOf[m]| ensures Try(t, t.alterOf[m][i]).Sleep? {
      var q := t.alterOf[m][i];
      assert Sound(t, q) && Sound(s, q) && Try(s, AlterQ(s, Of(m))[i]).Sleep?;
      DecrementSleeps(s, q, m);
      DecrementSleeps(t, q, m);
    }
  }

  lemma {:induction false} ServeEachConstQuiet(s: SemSet, nums: seq<nat>, k: nat)
    requires Structure(s) && ConstQuiet(s) && k <= |nums| && Nums(s, nums)
    ensures ConstQuiet(ServeEach(s, nums, k)) && ServeEach(s, nums, k).alter == s.alter
    decreases |nums| - k
  {
    hide Kinds, Ranges, ConstQuiet, AlterQuiet, Sound, Try;
    if k < |nums| {
      ServeStructure(s, Of(nums[k]));
      ServeQuiet(s, Of(nums[k]));
      ServeLocalAlter(s, nums[k]);
      ServeEachConstQuiet(Serve(s, Of(nums[k])), nums, k + 1);
    }
  }

  lemma {:induction false} ServeEachQuiet(s: SemSet, nums: seq<nat>, k: nat, m: nat)
    requires Structure(s) && ConstQuiet(s) && k <= |nums| && Nums(s, nums) && m < |s.vals|
    requires m !in nums[k..] ==> AlterQuiet(s, Of(m))
    ensures AlterQuiet(ServeEach(s, nums, k), Of(m))
    decreases |nums| - k
  {
    if k < |nums| {
      assert nums[k..] == [nums[k]] + nums[k + 1..];
      ServeOneQuiet(s, nums[k], m);
      ServeEachQuiet(Serve(s, Of(nums[k])), nums, k + 1, m);
    }
  }

  lemma ServeOneQuiet(s: SemSet, n: nat, m: nat)
    requires Structure(s) && ConstQuiet(s) && n < |s.vals| && m < |s.vals|
    ensures Structure(Serve(s, Of(n))) && ConstQuiet(Serve(s, Of(n)))
    ensures m == n || AlterQuiet(s, Of(m)) ==> AlterQuiet(Serve(s, Of(n)), Of(m))
  {
    ServeStructure(s, Of(n));
    ServeQuiet(s, Of(n));
    if m != n && AlterQuiet(s, Of(m)) {
      ServeLocalFrame(s, n, m);
      LocalStaysQuiet(s, Serve(s, Of(n)), m);
    }
  }

  // ---- do_smart_update() loses no wake-up -------------------------------------------------------------

  lemma ServeGlobalQuiet(t: SemSet)
    requires Structure(t) && ConstQuiet(t) && SimpleQueuesEmpty(t)
    ensures Quiet(Serve(t, Global))
  {
    ServeQuiet(t, Global);
    ServeGlobalFrame(t);
    var r := Serve(t, Global);
    forall p | HasPlace(r, p) ensures AlterQuiet(r, p) {
      if p.Of? {
        assert AlterQ(r, p) == [];
      }
    }
  }

  lemma ServeLocalsQuiet(t: SemSet, nums: seq<nat>)
    requires Structure(t) && ConstQuiet(t) && Nums(t, nums) && t.alter == []
    requires forall m | 0 <= m < |t.vals| && m !in nums :: AlterQuiet(t, Of(m))
    ensures Quiet(ServeEach(t, nums, 0))
  {
    assert nums[0..] == nums;
    ServeEachConstQuiet(t, nums, 0);
    var r := ServeEach(t, nums, 0);
    assert AlterQuiet(r, Global);
    hide Structure, ConstQuiet, AlterQuiet, Nums;
    forall m: nat | m < |t.vals| ensures AlterQuiet(r, Of(m)) {
      ServeEachQuiet(t, nums, 0, m);
    }
    forall p | HasPlace(r, p) ensures AlterQuiet(r, p) {
      assert p.Global? || (p == Of(p.n) && p.n < |t.vals|);
    }
  }

  lemma ServesQuiet(t: SemSet, nums: seq<nat>)
    requires Structure(t) && ConstQuiet(t) && Nums(t, nums)
    requires forall m | 0 <= m < |t.vals| && m !in nums :: AlterQuiet(t, Of(m))
    ensures Quiet(if t.alter != [] then Serve(t, Global) else ServeEach(t, nums, 0))
  {
    if t.alter != [] {
      ServeGlobalQuiet(t);
    } else {
      ServeLocalsQuiet(t, nums);
    }
  }

  // Rescanning only the semaphores that the request increased, and waking zeros only on those it
  // named, is enough.
  lemma UpdateAfterRequest(s: SemSet, q: Request)
    requires Structure(s) && Quiet(s) && Sound(s, q) && Try(s, q).Done?
    ensures
      var a := Applied(s, q);
      Structure(a) && SopsBelow(a, Some(q.sops)) && Quiet(SmartUpdate(a, Some(q.sops)))
  {
    AppliedStructure(s, q);
    AppliedKeepsSound(s, q);
    var a := Applied(s, q);
    forall k | 0 <= k < |q.sops| ensures q.sops[k].num < |a.vals| {
      assert Fits(VarsOf(s, q), q.sops[k]);
    }
    RescannedInRange(a, Some(q.sops));
    var nums := SopNums(q.sops);
    WakeZeroAfterDone(s, q);
    var t := WakeZero(a, nums);
    hide Structure, ConstQuiet, Applied, WakeZero;
    ServesQuiet(t, Increased(q.sops));
  }

  lemma WakeZeroAfterDone(s: SemSet, q: Request)
    requires Structure(s) && Quiet(s) && Sound(s, q) && Try(s, q).Done?
    requires QueuesSound(Applied(s, q)) && Structure(Applied(s, q)) && Nums(Applied(s, q), SopNums(q.sops))
    ensures var t := WakeZero(Applied(s, q), SopNums(q.sops));
      && Structure(t) && ConstQuiet(t)
      && forall m | 0 <= m < |t.vals| && m !in Increased(q.sops) :: AlterQuiet(t, Of(m))
  {
    var a, nums := Applied(s, q), SopNums(q.sops);
    forall n | 0 <= n < |a.vals| && n !in nums ensures a.vals[n] == s.vals[n] {
      UnnamedUnchanged(s, q, n);
    }
    WakeZeroAfterRequest(s, a, nums);
    WakeZeroStructure(a, nums);
    ZeroKeepsAlter(a, nums);
    var t := WakeZero(a, nums);
    hide Kinds, Ranges, WakeZero, ConstQuiet;
    forall m | 0 <= m < |t.vals| && m !in Increased(q.sops) ensures AlterQuiet(t, Of(m)) {
      IncreasedAreNamed(q.sops, m);
      DoneChangesOnlyNamed(VarsOf(s, q), q.sops, m);
      LocalStaysQuiet(s, t, m);
    }
  }

  lemma UpdateAfterAnything(s: SemSet)
    requires Structure(s)
    ensures Quiet(SmartUpdate(s, None))
  {
    RescannedInRange(s, None);
    var nums := Range(|s.vals|);
    forall n | 0 <= n < |s.vals| ensures n in nums {
      assert nums[n] == n;
    }
    WakeZeroAfterAnything(s);
    WakeZeroStructure(s, nums);
    ServesQuiet(WakeZero(s, nums), nums);
  }
}
