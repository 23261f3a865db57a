// A segment lives as long as it is used, and goes once.
module ShmRuns {
  import opened ShmSpec

  // ---- sizes -------------------------------------------------------------------------------

  function Ceiling(size: nat): nat {
    (size + PAGE_SIZE - 1) / PAGE_SIZE
  }

  // The check on the number of pages refuses exactly the sizes for which rounding up wraps around.
  lemma PagesIff(size: nat)
    requires 0 < size < WORD
    ensures Pages(size) * PAGE_SIZE % WORD >= size <==> size + PAGE_SIZE - 1 < WORD
    ensures size + PAGE_SIZE - 1 < WORD ==> Pages(size) == Ceiling(size)
  {
    var n := size + PAGE_SIZE - 1;
    if n >= WORD {
      assert n % WORD == n - WORD;
      assert Pages(size) == 0;
    } else {
      assert n % WORD == n;
      assert size <= Pages(size) * PAGE_SIZE <= n;
    }
  }

  function Total(segs: map<nat, Seg>, n: nat): nat {
    if n == 0 then 0 else Total(segs, n - 1) + if n - 1 in segs then Ceiling(segs[n - 1].size) else 0
  }

  lemma {:induction false} TotalChange(a: map<nat, Seg>, b: map<nat, Seg>, idx: nat, n: nat)
    requires forall i: nat | i != idx :: (i in a <==> i in b) && (i in a ==> a[i].size == b[i].size)
    ensures Total(a, n) + (if idx < n && idx in b then Ceiling(b[idx].size) else 0)
         == Total(b, n) + (if idx < n && idx in a then Ceiling(a[idx].size) else 0)
    decreases n
  {
    if n > 0 {
      TotalChange(a, b, idx, n - 1);
    }
  }

  // ---- the invariant -------------------------------------------------------------------------

  function UserCount(s: Space, h: Handle): nat {
    s.areas[h] + s.flights[h]
  }

  function At(s: Space, i: nat): Handle
    requires i in s.segs
  {
    Handle(i, s.segs[i].file)
  }

  // The count of a segment is the number of its users, and every user has a segment.
  ghost predicate Users(s: Space) {
    && (forall i | i in s.segs :: s.segs[i].nattch == UserCount(s, At(s, i)))
    && (forall h: Handle :: UserCount(s, h) > 0 ==> Live(s, h))
  }

  // No segment stays that is marked for destruction and has no user.
  predicate NoneOverdue(s: Space) {
    forall i | i in s.segs :: s.segs[i].dest ==> s.segs[i].nattch != 0
  }

  // Files tell segments apart for ever; a segment is destroyed once.
  ghost predicate Once(s: Space) {
    && (forall i | i in s.segs :: s.segs[i].file < s.nextFile && s.segs[i].file !in s.gone)
    && (forall i, j | i in s.segs && j in s.segs && i != j :: s.segs[i].file != s.segs[j].file)
    && (forall a | 0 <= a < |s.gone| :: s.gone[a] < s.nextFile)
    && (forall a, b | 0 <= a < b < |s.gone| :: s.gone[a] != s.gone[b])
  }

  // mni bounds the indices.
  ghost predicate Accounted(s: Space, mni: nat) {
    && s.tot == Total(s.segs, mni) && s.tot < WORD
    && (forall i | i in s.segs :: i < mni && 0 < s.segs[i].size && s.segs[i].size + PAGE_SIZE - 1 < WORD)
  }

  ghost predicate Inv(s: Space, mni: nat) {
    Users(s) && NoneOverdue(s) && Once(s) && Accounted(s, mni)
  }

  // ---- the pieces -----------------------------------------------------------------------------

  lemma DestroyUsers(s: Space, idx: nat)
    requires Users(s) && idx in s.segs && s.segs[idx].nattch == 0
    ensures Users(Destroy(s, idx))
  {
    assert UserCount(s, At(s, idx)) == 0;
    assert forall h: Handle :: UserCount(Destroy(s, idx), h) == UserCount(s, h);
    assert forall i | i in Destroy(s, idx).segs :: At(Destroy(s, idx), i) == At(s, i);
  }

  lemma DestroyOnce(s: Space, idx: nat)
    requires Once(s) && idx in s.segs
    ensures Once(Destroy(s, idx))
  {
  }

  lemma DestroyAccounted(s: Space, mni: nat, idx: nat)
    requires Accounted(s, mni) && idx in s.segs
    ensures Accounted(Destroy(s, idx), mni)
  {
    TotalChange(s.segs, Destroy(s, idx).segs, idx, mni);
    PagesIff(s.segs[idx].size);
  }

  // What holds while one segment is being looked at.
  ghost predicate InvBut(s: Space, mni: nat, idx: nat) {
    && Users(s) && Once(s) && Accounted(s, mni) && idx in s.segs
    && forall i | i in s.segs && i != idx :: s.segs[i].dest ==> s.segs[i].nattch != 0
  }

  lemma DestroyKeeps(s: Space, mni: nat, idx: nat)
    requires InvBut(s, mni, idx) && s.segs[idx].nattch == 0
    ensures Inv(Destroy(s, idx), mni)
  {
    DestroyUsers(s, idx);
    DestroyOnce(s, idx);
    DestroyAccounted(s, mni, idx);
  }

  lemma DestroyIfKeeps(s: Space, mni: nat, idx: nat)
    requires InvBut(s, mni, idx)
    ensures Inv(DestroyIf(s, idx), mni)
  {
    hide Users, Once, Accounted, Destroy;
    if MayDestroy(s, s.segs[idx]) {
      DestroyKeeps(s, mni, idx);
    }
  }

  // Only counts, marks, keys, lists and users differ.
  ghost predicate SameSegs(s: Space, s': Space) {
    && s'.segs.Keys == s.segs.Keys && s'.tot == s.tot && s'.nextFile == s.nextFile && s'.gone == s.gone
    && forall i | i in s.segs :: s'.segs[i].file == s.segs[i].file && s'.segs[i].size == s.segs[i].size
  }

  lemma SameSegsKeep(s: Space, s': Space, mni: nat)
    requires Once(s) && Accounted(s, mni) && SameSegs(s, s')
    ensures Once(s') && Accounted(s', mni)
  {
    TotalChange(s.segs, s'.segs, mni, mni);
  }

  predicate Comes(a: multiset<Handle>, b: multiset<Handle>, h: Handle) {
    b == a + multiset{h}
  }

  predicate UserComes(s: Space, s': Space, h: Handle) {
    (Comes(s.areas, s'.areas, h) && s'.flights == s.flights) || (Comes(s.flights, s'.flights, h) && s'.areas == s.areas)
  }

  lemma UserCountComes(s: Space, s': Space, h: Handle, k: Handle)
    requires UserComes(s, s', h)
    ensures UserCount(s', k) == UserCount(s, k) + if k == h then 1 else 0
  {
  }

  // The count of a segment follows the number of its users.
  lemma UsersFollow(s: Space, s': Space, h: Handle, d: int)
    requires Users(s) && Live(s, h) && s' == Counted(s, h.idx, d).(areas := s'.areas, flights := s'.flights)
    requires forall k: Handle :: UserCount(s', k) == UserCount(s, k) + if k == h then d else 0
    ensures Users(s')
  {
    hide UserCount;
    assert forall i | i in s'.segs :: At(s', i) == At(s, i) && (At(s, i) == h <==> i == h.idx);
    assert forall k: Handle :: Live(s', k) == Live(s, k);
  }

  lemma ComesUsers(s: Space, s': Space, h: Handle)
    requires Users(s) && Live(s, h) && UserComes(s, s', h)
    requires s' == Counted(s, h.idx, 1).(areas := s'.areas, flights := s'.flights)
    ensures Users(s')
  {
    hide Users, UserCount, UserComes;
    forall k: Handle ensures UserCount(s', k) == UserCount(s, k) + if k == h then 1 else 0 {
      UserCountComes(s, s', h, k);
    }
    UsersFollow(s, s', h, 1);
  }

  lemma GoesUsers(s: Space, s': Space, h: Handle)
    requires Users(s) && Live(s, h) && UserComes(s', s, h)
    requires s' == Counted(s, h.idx, -1).(areas := s'.areas, flights := s'.flights)
    ensures Users(s')
  {
    hide Users, UserCount, UserComes;
    forall k: Handle ensures UserCount(s', k) == UserCount(s, k) + if k == h then -1 else 0 {
      UserCountComes(s', s, h, k);
    }
    UsersFollow(s, s', h, -1);
  }

  lemma NewSegUsers(s: Space, t: Task, idx: nat, size: nat, keyed: bool, ctlmax: nat, ctlall: nat, fileOk: bool)
    requires Users(s) && idx !in s.segs
    ensures Users(NewSeg(s, t, idx, size, keyed, ctlmax, ctlall, fileOk).0)
  {
    var s' := NewSeg(s, t, idx, size, keyed, ctlmax, ctlall, fileOk).0;
    assert !Live(s, Handle(idx, s.nextFile));
    assert forall h: Handle :: UserCount(s', h) == UserCount(s, h);
    assert forall i | i in s.segs :: At(s', i) == At(s, i);
  }

  lemma NewSegAccounted(s: Space, mni: nat, t: Task, idx: nat, size: nat, keyed: bool, ctlmax: nat, ctlall: nat, fileOk: bool)
    requires Accounted(s, mni) && idx !in s.segs && idx < mni && size < WORD
    ensures Accounted(NewSeg(s, t, idx, size, keyed, ctlmax, ctlall, fileOk).0, mni)
  {
    if SizeCheck(s.tot, size, ctlmax, ctlall) == Ok && fileOk {
      PagesIff(size);
      TotalChange(s.segs, NewSeg(s, t, idx, size, keyed, ctlmax, ctlall, fileOk).0.segs, idx, mni);
    }
  }

  lemma NewSegKeeps(s: Space, mni: nat, t: Task, idx: nat, size: nat, keyed: bool, ctlmax: nat, ctlall: nat, fileOk: bool)
    requires Inv(s, mni) && idx !in s.segs && idx < mni && size < WORD
    ensures Inv(NewSeg(s, t, idx, size, keyed, ctlmax, ctlall, fileOk).0, mni)
  {
    hide Users, Accounted;
    NewSegUsers(s, t, idx, size, keyed, ctlmax, ctlall, fileOk);
    NewSegAccounted(s, mni, t, idx, size, keyed, ctlmax, ctlall, fileOk);
  }

  lemma OpenKeeps(s: Space, mni: nat, h: Handle)
    requires Inv(s, mni)
    ensures Inv(Open(s, h).0, mni)
  {
    if Live(s, h) {
      ComesUsers(s, Open(s, h).0, h);
      UserCounts(s, h);
      hide Users, Once, Accounted;
      SameSegsKeep(s, Open(s, h).0, mni);
    }
  }

  lemma AttachKeeps(s: Space, mni: nat, h: Handle)
    requires Inv(s, mni)
    ensures Inv(Attach(s, h).0, mni)
  {
    if Live(s, h) {
      ComesUsers(s, Attach(s, h).0, h);
      UserCounts(s, h);
      hide Users, Once, Accounted;
      SameSegsKeep(s, Attach(s, h).0, mni);
    }
  }

  lemma UserCounts(s: Space, h: Handle)
    requires Users(s)
    ensures Live(s, h) ==> s.segs[h.idx].nattch >= 0
    ensures h in s.areas || h in s.flights ==> Live(s, h) && s.segs[h.idx].nattch > 0
  {
    assert UserCount(s, h) == s.areas[h] + s.flights[h];
    assert Live(s, h) ==> At(s, h.idx) == h;
  }

  lemma CountedSegs(s: Space, s': Space, idx: nat, d: int)
    requires idx in s.segs && s' == Counted(s, idx, d).(areas := s'.areas, flights := s'.flights)
    ensures SameSegs(s, s') && idx in s'.segs
    ensures forall i | i in s.segs && i != idx :: s'.segs[i] == s.segs[i]
  {
  }

  // A user goes: until the segment has been looked at, the invariant holds for all the others.
  lemma UserLeaves(s: Space, mni: nat, h: Handle, areas: multiset<Handle>, flights: multiset<Handle>)
    requires Inv(s, mni) && UserComes(s.(areas := areas, flights := flights), s, h)
    ensures Live(s, h) && s.segs[h.idx].nattch > 0
    ensures InvBut(Counted(s.(areas := areas, flights := flights), h.idx, -1), mni, h.idx)
  {
    hide Users, Once, Accounted, SameSegs, Counted;
    UserCounts(s, h);
    var c := Counted(s.(areas := areas, flights := flights), h.idx, -1);
    CountedElsewhere(s, h.idx, areas, flights);
    GoesUsers(s, c, h);
    CountedSegs(s, c, h.idx, -1);
    SameSegsKeep(s, c, mni);
  }

  lemma CountedElsewhere(s: Space, idx: nat, areas: multiset<Handle>, flights: multiset<Handle>)
    requires idx in s.segs
    ensures var c := Counted(s.(areas := areas, flights := flights), idx, -1);
      c == Counted(s, idx, -1).(areas := areas, flights := flights) && c.areas == areas && c.flights == flights
  {
  }

  // An area that is mapped keeps its segment: looking at the index alone finds the right one.
  lemma CloseKeeps(s: Space, mni: nat, h: Handle)
    requires Inv(s, mni) && h in s.areas
    ensures Live(s, h) && s.segs[h.idx].nattch > 0 && Inv(Close(s, h), mni)
  {
    hide Inv, InvBut, DestroyIf, Counted;
    assert UserComes(s.(areas := s.areas - multiset{h}, flights := s.flights), s, h);
    UserLeaves(s, mni, h, s.areas - multiset{h}, s.flights);
    DestroyIfKeeps(Counted(s.(areas := s.areas - multiset{h}), h.idx, -1), mni, h.idx);
  }

  lemma EndAttachKeeps(s: Space, mni: nat, h: Handle)
    requires Inv(s, mni) && h in s.flights
    ensures Live(s, h) && s.segs[h.idx].nattch > 0 && Inv(EndAttach(s, h), mni)
  {
    hide Inv, InvBut, DestroyIf, Counted;
    assert UserComes(s.(areas := s.areas, flights := s.flights - multiset{h}), s, h);
    UserLeaves(s, mni, h, s.areas, s.flights - multiset{h});
    DestroyIfKeeps(Counted(s.(flights := s.flights - multiset{h}), h.idx, -1), mni, h.idx);
  }

  lemma RmidKeeps(s: Space, mni: nat, idx: nat)
    requires Inv(s, mni) && idx in s.segs
    ensures Inv(Rmid(s, idx), mni)
  {
    if s.segs[idx].nattch == 0 {
      DestroyKeeps(s, mni, idx);
    } else {
      SameSegsKeep(s, Rmid(s, idx), mni);
      assert forall h: Handle :: UserCount(Rmid(s, idx), h) == UserCount(s, h);
      assert forall i | i in s.segs :: At(Rmid(s, idx), i) == At(s, i);
    }
  }

  // The lists of the creators, the exits and the sysctl do not matter to the invariant.
  lemma ListsDoNotMatter(s: Space, s': Space, mni: nat)
    requires Inv(s, mni) && s' == s.(clist := s'.clist, exits := s'.exits, forced := s'.forced)
    ensures Inv(s', mni)
  {
    SameSegsKeep(s, s', mni);
    assert forall h: Handle :: UserCount(s', h) == UserCount(s, h);
    assert forall i | i in s.segs :: At(s', i) == At(s, i);
  }

  lemma FinishExitKeeps(s: Space, mni: nat, i: nat)
    requires Inv(s, mni) && i < |s.exits|
    ensures Inv(FinishExit(s, i), mni)
  {
    var s' := s.(exits := Without(s.exits, i));
    ListsDoNotMatter(s, s', mni);
    if Live(s, s.exits[i]) {
      DestroyIfKeeps(s', mni, s.exits[i].idx);
    }
  }

  lemma {:induction false} OrphanedKeeps(s: Space, mni: nat, i: nat, end: nat)
    requires Inv(s, mni)
    ensures Inv(Orphaned(s, i, end), mni)
    decreases end - i
  {
    if i < end {
      if i in s.segs && Orphan(s, i) {
        DestroyIfKeeps(s, mni, i);
        OrphanedKeeps(DestroyIf(s, i), mni, i + 1, end);
      } else {
        OrphanedKeeps(s, mni, i + 1, end);
      }
    }
  }

  // ---- runs -----------------------------------------------------------------------------------

  datatype Action =
    | DoNew(t: Task, idx: nat, size: nat, keyed: bool, ctlmax: nat, ctlall: nat, fileOk: bool)
    | DoOpen(h: Handle)
    | DoClose(h: Handle)
    | DoAttach(h: Handle)
    | DoEndAttach(h: Handle)
    | DoRmid(idx: nat)
    | DoUnlink(i: nat)
    | DoFinishExit(i: nat)
    | DoForced(b: bool)
    | DoOrphans

  // The area closed is mapped and the attach that ends is under way; a handle that is opened or
  // attached may be out of date.
  predicate Allowed(s: Space, mni: nat, a: Action) {
    match a
    case DoNew(_, idx, size, _, _, _, _) => idx !in s.segs && idx < mni && size < WORD
    case DoClose(h) => h in s.areas
    case DoEndAttach(h) => h in s.flights && h.idx in s.segs
    case DoRmid(idx) => idx in s.segs
    case DoUnlink(i) => i < |s.clist|
    case DoFinishExit(i) => i < |s.exits|
    case _ => true
  }

  function Step(s: Space, mni: nat, a: Action): Space
    requires Allowed(s, mni, a)
  {
    match a
    case DoNew(t, idx, size, keyed, ctlmax, ctlall, fileOk) => NewSeg(s, t, idx, size, keyed, ctlmax, ctlall, fileOk).0
    case DoOpen(h) => Open(s, h).0
    case DoClose(h) => Close(s, h)
    case DoAttach(h) => Attach(s, h).0
    case DoEndAttach(h) => EndAttach(s, h)
    case DoRmid(idx) => Rmid(s, idx)
    case DoUnlink(i) => Unlink(s, i)
    case DoFinishExit(i) => FinishExit(s, i)
    case DoForced(b) => s.(forced := b)
    case DoOrphans => Orphaned(s, 0, mni)
  }

  lemma StepKeeps(s: Space, mni: nat, a: Action)
    requires Inv(s, mni) && Allowed(s, mni, a)
    ensures Inv(Step(s, mni, a), mni)
  {
    hide Inv, NewSeg, Open, Close, Attach, EndAttach, Rmid, FinishExit;
    match a
    case DoNew(t, idx, size, keyed, ctlmax, ctlall, fileOk) =>
      NewSegKeeps(s, mni, t, idx, size, keyed, ctlmax, ctlall, fileOk);
    case DoOpen(h) => OpenKeeps(s, mni, h);
    case DoClose(h) => CloseKeeps(s, mni, h);
    case DoAttach(h) => AttachKeeps(s, mni, h);
    case DoEndAttach(h) => EndAttachKeeps(s, mni, h);
    case DoRmid(idx) => RmidKeeps(s, mni, idx);
    case DoUnlink(i) => ListsDoNotMatter(s, Unlink(s, i), mni);
    case DoFinishExit(i) => FinishExitKeeps(s, mni, i);
    case DoForced(b) => ListsDoNotMatter(s, s.(forced := b), mni);
    case DoOrphans => OrphanedKeeps(s, mni, 0, mni);
  }

  ghost predicate Leads(s: Space, mni: nat, run: seq<Action>, s': Space)
    decreases |run|
  {
    if run == [] then s == s' else Allowed(s, mni, run[0]) && Leads(Step(s, mni, run[0]), mni, run[1..], s')
  }

  ghost predicate Reachable(s: Space, mni: nat) {
    exists run :: Leads(Empty(), mni, run, s)
  }

  lemma {:induction false} TotalOfNone(n: nat)
    ensures Total(map[], n) == 0
    decreases n
  {
    if n > 0 {
      TotalOfNone(n - 1);
    }
  }

  lemma {:induction false} RunKeeps(s: Space, mni: nat, run: seq<Action>, s': Space)
    requires Inv(s, mni) && Leads(s, mni, run, s')
    ensures Inv(s', mni)
    decreases |run|
  {
    if run != [] {
      StepKeeps(s, mni, run[0]);
      RunKeeps(Step(s, mni, run[0]), mni, run[1..], s');
    }
  }

  lemma ReachableInv(s: Space, mni: nat)
    requires Reachable(s, mni)
    ensures Inv(s, mni)
  {
    var run :| Leads(Empty(), mni, run, s);
    TotalOfNone(mni);
    RunKeeps(Empty(), mni, run, s);
  }

  // The count of a segment is its mapped areas and the attaches under way; all of them have a
  // segment; none that is marked stays without users; none is destroyed twice.
  lemma LifetimeIsUse(s: Space, mni: nat)
    requires Reachable(s, mni)
    ensures forall i | i in s.segs ::
      s.segs[i].nattch == s.areas[Handle(i, s.segs[i].file)] + s.flights[Handle(i, s.segs[i].file)]
    ensures forall h: Handle | h in s.areas || h in s.flights :: h.idx in s.segs && s.segs[h.idx].file == h.file && h.file !in s.gone
    ensures forall i | i in s.segs :: s.segs[i].dest ==> s.segs[i].nattch > 0
    ensures forall a, b | 0 <= a < b < |s.gone| :: s.gone[a] != s.gone[b]
  {
    ReachableInv(s, mni);
    forall i | i in s.segs
      ensures s.segs[i].nattch == s.areas[Handle(i, s.segs[i].file)] + s.flights[Handle(i, s.segs[i].file)]
    {
      assert At(s, i) == Handle(i, s.segs[i].file);
    }
    forall h: Handle | h in s.areas || h in s.flights ensures Live(s, h) {
      UserCounts(s, h);
    }
  }

  // shm_tot is the sum of the page-rounded sizes, without any wrap-around.
  lemma TotalIsSum(s: Space, mni: nat)
    requires Reachable(s, mni)
    ensures s.tot == Total(s.segs, mni)
  {
    ReachableInv(s, mni);
  }

  // Whatever a step does, a segment that it takes away had no user left.
  lemma DestroyedUnused(s: Space, mni: nat, a: Action, h: Handle)
    requires Reachable(s, mni) && Allowed(s, mni, a) && Live(s, h) && !Live(Step(s, mni, a), h)
    ensures h !in Step(s, mni, a).areas && h !in Step(s, mni, a).flights
  {
    ReachableInv(s, mni);
    StepKeeps(s, mni, a);
    UserCounts(Step(s, mni, a), h);
  }

  // After shm_destroy_orphaned() with shm_rmid_forced set, every segment has a user or a creator.
  lemma {:induction false} NoOrphansLeft(s: Space, i: nat, end: nat)
    requires s.forced
    ensures var s' := Orphaned(s, i, end);
      s'.forced && forall j | j in s'.segs && i <= j < end :: s'.segs[j].nattch != 0 || !Orphan(s', j)
    decreases end - i
  {
    if i < end {
      var s1 := if i in s.segs && Orphan(s, i) then DestroyIf(s, i) else s;
      NoOrphansLeft(s1, i + 1, end);
      OrphanedBelow(s1, i + 1, end, i);
    }
  }

  // The scan does not come back to an index, and takes from the lists of the creators nothing that
  // belongs to it.
  lemma {:induction false} OrphanedBelow(s: Space, i: nat, end: nat, j: nat)
    requires j < i
    ensures var s' := Orphaned(s, i, end);
      (j in s'.segs <==> j in s.segs) && (j in s.segs ==> s'.segs[j] == s.segs[j] && Orphan(s', j) == Orphan(s, j))
    decreases end - i
  {
    if i < end {
      var s1 := if i in s.segs && Orphan(s, i) then DestroyIf(s, i) else s;
      if s1 != s {
        UnlistedOther(s.clist, Handle(i, s.segs[i].file), Handle(j, if j in s.segs then s.segs[j].file else 0));
      }
      OrphanedBelow(s1, i + 1, end, j);
    }
  }

  lemma AbsentCons(x: Owned, l: seq<Owned>, h: Handle)
    ensures Absent([x] + l, h) <==> x.h != h && Absent(l, h)
  {
    assert ([x] + l)[0] == x && forall i | 0 <= i < |l| :: ([x] + l)[i + 1] == l[i];
  }

  lemma {:induction false} UnlistedOther(l: seq<Owned>, h: Handle, k: Handle)
    requires h != k
    ensures Absent(Unlisted(l, h), k) <==> Absent(l, k)
    decreases |l|
  {
    if l != [] {
      UnlistedOther(l[1..], h, k);
      assert l == [l[0]] + l[1..];
      AbsentCons(l[0], l[1..], k);
      AbsentCons(l[0], Unlisted(l[1..], h), k);
      assert [] + Unlisted(l[1..], h) == Unlisted(l[1..], h);
    }
  }
}
