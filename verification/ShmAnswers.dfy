// What each call does to a segment, and that a removed segment goes with its last user.
module ShmAnswers {
  import opened ShmSpec
  import opened ShmRuns

  // Nothing but segment idx has changed among the segments.
  ghost predicate OnlyAt(s: Space, s': Space, idx: nat) {
    forall i: nat | i != idx :: (i in s'.segs <==> i in s.segs) && (i in s.segs ==> s'.segs[i] == s.segs[i])
  }

  // The segment at idx is gone for good: with its pages, and from the list of its creator.
  ghost predicate GoneFrom(s: Space, s': Space, idx: nat) {
    && idx in s.segs && idx !in s'.segs && OnlyAt(s, s', idx)
    && s'.gone == s.gone + [s.segs[idx].file] && s'.nextFile == s.nextFile
    && s'.tot == (s.tot - Pages(s.segs[idx].size)) % WORD
    && Absent(s'.clist, Handle(idx, s.segs[idx].file))
    && (forall k: Handle | k != Handle(idx, s.segs[idx].file) :: Absent(s'.clist, k) == Absent(s.clist, k))
  }

  lemma {:induction false} UnlistedAbsent(l: seq<Owned>, h: Handle)
    ensures Absent(Unlisted(l, h), h)
    decreases |l|
  {
    if l != [] {
      UnlistedAbsent(l[1..], h);
    }
  }

  lemma DestroyGone(s: Space, idx: nat)
    requires idx in s.segs
    ensures GoneFrom(s, Destroy(s, idx), idx)
    ensures Destroy(s, idx).areas == s.areas && Destroy(s, idx).flights == s.flights
  {
    var h := Handle(idx, s.segs[idx].file);
    UnlistedAbsent(s.clist, h);
    forall k: Handle | k != h ensures Absent(Unlisted(s.clist, h), k) == Absent(s.clist, k) {
      UnlistedOther(s.clist, h, k);
    }
  }

  // ---- IPC_RMID -------------------------------------------------------------------------------------

  // A segment in use stays with its users, is marked and has no key any more; an unused one goes at once.
  lemma RmidMarksOrDestroys(s: Space, idx: nat)
    requires idx in s.segs
    ensures var s', g := Rmid(s, idx), s.segs[idx];
      && s'.areas == s.areas && s'.flights == s.flights && OnlyAt(s, s', idx)
      && if g.nattch != 0 then
           && s' == s.(segs := s'.segs) && idx in s'.segs && s'.segs[idx].dest && !s'.segs[idx].keyed
           && s'.segs[idx].file == g.file && s'.segs[idx].size == g.size && s'.segs[idx].nattch == g.nattch
         else GoneFrom(s, s', idx)
  {
    DestroyGone(s, idx);
  }

  // ---- users come and go --------------------------------------------------------------------------------

  // The segment of h has d users more.
  ghost predicate CountChanges(s: Space, s': Space, h: Handle, d: int) {
    && h.idx in s.segs && h.idx in s'.segs && OnlyAt(s, s', h.idx)
    && s'.segs[h.idx].nattch == s.segs[h.idx].nattch + d
    && s'.segs[h.idx].file == s.segs[h.idx].file && s'.segs[h.idx].size == s.segs[h.idx].size
    && s'.segs[h.idx].dest == s.segs[h.idx].dest && s'.segs[h.idx].keyed == s.segs[h.idx].keyed
    && s' == s.(segs := s'.segs, areas := s'.areas, flights := s'.flights)
  }

  lemma OpenAnswers(s: Space, h: Handle)
    ensures var (s', c) := Open(s, h);
      if h.idx !in s.segs then c == EIDRM && s' == s
      else if s.segs[h.idx].file != h.file then c == EINVAL && s' == s
      else c == Ok && CountChanges(s, s', h, 1) && s'.areas == s.areas + multiset{h} && s'.flights == s.flights
  {
  }

  lemma AttachAnswers(s: Space, h: Handle)
    ensures var (s', c) := Attach(s, h);
      if !(h.idx in s.segs && s.segs[h.idx].file == h.file) then c == EIDRM && s' == s
      else c == Ok && CountChanges(s, s', h, 1) && s'.areas == s.areas && s'.flights == s.flights + multiset{h}
  {
  }

  // The last user of a segment that is marked, or of any with the sysctl set, takes it along; otherwise
  // there is one user less and nothing else has changed.
  lemma CloseAnswers(s: Space, h: Handle)
    requires h.idx in s.segs
    ensures var s', g := Close(s, h), s.segs[h.idx];
      && s'.areas == s.areas - multiset{h} && s'.flights == s.flights
      && if g.nattch == 1 && (g.dest || s.forced) then GoneFrom(s, s', h.idx) else CountChanges(s, s', h, -1)
  {
    DestroyGone(Counted(s.(areas := s.areas - multiset{h}), h.idx, -1), h.idx);
  }

  lemma EndAttachAnswers(s: Space, h: Handle)
    requires h.idx in s.segs
    ensures var s', g := EndAttach(s, h), s.segs[h.idx];
      && s'.areas == s.areas && s'.flights == s.flights - multiset{h}
      && if g.nattch == 1 && (g.dest || s.forced) then GoneFrom(s, s', h.idx) else CountChanges(s, s', h, -1)
  {
    DestroyGone(Counted(s.(flights := s.flights - multiset{h}), h.idx, -1), h.idx);
  }

  // ---- newseg() -----------------------------------------------------------------------------------------

  // The errors in order, in numbers; and the new segment, without users, marks or anything in common
  // with another one.
  lemma NewSegAnswers(s: Space, t: Task, idx: nat, size: nat, keyed: bool, ctlmax: nat, ctlall: nat, fileOk: bool)
    requires idx !in s.segs && size < WORD && s.tot < WORD
    ensures var (s', c) := NewSeg(s, t, idx, size, keyed, ctlmax, ctlall, fileOk);
      var pages := (size + 4095) / 4096;
      if size < 1 || size > ctlmax then c == EINVAL && s' == s
      else if size + 4095 >= WORD || s.tot + pages >= WORD || s.tot + pages > ctlall then c == ENOSPC && s' == s
      else if !fileOk then c == ENOMEM && s' == s
      else
        && c == Ok && idx in s'.segs && OnlyAt(s, s', idx)
        && s'.segs[idx] == Seg(s.nextFile, size, 0, false, keyed) && s'.nextFile == s.nextFile + 1
        && s'.tot == s.tot + pages && s'.clist == [Owned(t, Handle(idx, s.nextFile))] + s.clist
        && s'.areas == s.areas && s'.flights == s.flights && s'.gone == s.gone
        && s'.exits == s.exits && s'.forced == s.forced
  {
    if size > 0 {
      PagesIff(size);
      SumWraps(s.tot, Pages(size));
    }
  }

  lemma SumWraps(tot: nat, pages: nat)
    requires tot < WORD && pages <= WORD / PAGE_SIZE
    ensures (tot + pages) % WORD < tot <==> tot + pages >= WORD && pages > 0
    ensures tot + pages < WORD ==> (tot + pages) % WORD == tot + pages
  {
    if tot + pages >= WORD {
      assert (tot + pages) % WORD == tot + pages - WORD;
    }
  }

  // ---- exit_shm() ------------------------------------------------------------------------------------------

  // One round: the entry leaves the list of the creator. With the sysctl set its segment goes if it has no
  // user; nothing else changes.
  lemma UnlinkAnswers(s: Space, i: nat)
    requires i < |s.clist|
    ensures var s' := Unlink(s, i);
      && s' == s.(clist := s.clist[..i] + s.clist[i + 1..], exits := s'.exits)
      && s'.exits == if s.forced then s.exits + [s.clist[i].h] else s.exits
  {
  }

  lemma FinishExitAnswers(s: Space, i: nat)
    requires i < |s.exits|
    ensures var s', h := FinishExit(s, i), s.exits[i];
      && s'.exits == s.exits[..i] + s.exits[i + 1..] && s'.areas == s.areas && s'.flights == s.flights
      && if h.idx in s.segs && s.segs[h.idx].file == h.file && s.segs[h.idx].nattch == 0
            && (s.forced || s.segs[h.idx].dest) then
           GoneFrom(s, s', h.idx)
         else s' == s.(exits := s'.exits)
  {
    var h := s.exits[i];
    if h.idx in s.segs {
      DestroyGone(s.(exits := Without(s.exits, i)), h.idx);
    }
  }

  // One round of exit_shm() with nobody in between.
  function Round(s: Space, i: nat): Space
    requires i < |s.clist|
  {
    if s.forced then FinishExit(Unlink(s, i), |Unlink(s, i).exits| - 1) else Unlink(s, i)
  }

  predicate Unused(s: Space, h: Handle) {
    Live(s, h) && s.segs[h.idx].nattch == 0
  }

  lemma {:induction false} UnlistedMembers(l: seq<Owned>, h: Handle)
    ensures forall o | o in l :: o.h == h || o in Unlisted(l, h)
    ensures forall o | o in Unlisted(l, h) :: o in l
    decreases |l|
  {
    if l != [] {
      UnlistedMembers(l[1..], h);
    }
  }

  lemma RoundAnswers(s: Space, i: nat)
    requires i < |s.clist|
    ensures var s', h := Round(s, i), s.clist[i].h;
      && s'.forced == s.forced && s'.exits == s.exits && |s'.clist| < |s.clist|
      && (if s.forced && Unused(s, h) then s'.segs == s.segs - {h.idx} else s'.segs == s.segs)
      && (forall o | o in s'.clist :: o in s.clist)
      && (forall o | o in s.clist :: o == s.clist[i] || o in s'.clist || (s.forced && o.h == h && Unused(s, h)))
  {
    var s', h := Unlink(s, i), s.clist[i].h;
    WithoutMembers(s.clist, i);
    UnlistedMembers(s'.clist, h);
    UnlistedShorter(s'.clist, h);
    if s.forced {
      assert Without(s'.exits, |s.exits|) == s.exits;
    }
  }

  lemma WithoutMembers<T>(l: seq<T>, i: nat)
    requires i < |l|
    ensures forall o | o in l :: o == l[i] || o in Without(l, i)
    ensures forall o | o in Without(l, i) :: o in l
  {
    forall k | 0 <= k < |l| && k != i ensures l[k] in Without(l, i) {
      assert Without(l, i)[if k < i then k else k - 1] == l[k];
    }
  }

  // Afterwards nothing is listed under the task. With the sysctl set its unused segments are gone; no other
  // segment is, and those that are left are as they were.
  lemma {:induction false} ExitAllAnswers(s: Space, t: Task)
    ensures var s' := ExitAll(s, t);
      && (forall o | o in s'.clist :: o.task != t && o in s.clist)
      && (forall k | k in s'.segs :: k in s.segs && s'.segs[k] == s.segs[k])
      && (forall k | k in s.segs && k !in s'.segs ::
            s.forced && s.segs[k].nattch == 0 && Owned(t, Handle(k, s.segs[k].file)) in s.clist)
      && (forall o | o in s.clist && o.task == t && s.forced && Unused(s, o.h) :: o.h.idx !in s'.segs)
    decreases |s.clist|
  {
    hide FinishExit, Unlink;
    var f := FirstOf(s.clist, t);
    if f.Some? {
      RoundAnswers(s, f.value);
      ExitAllAnswers(Round(s, f.value), t);
    }
  }

  // ---- shm_destroy_orphaned() --------------------------------------------------------------------------------

  // The scan takes the segments of the range that have no creator and no user and are marked, or all those
  // without creator and user with the sysctl set; it leaves all others as they are.
  lemma {:induction false} OrphansAnswers(s: Space, i: nat, end: nat)
    ensures var s' := Orphaned(s, i, end);
      && s'.areas == s.areas && s'.flights == s.flights && s'.exits == s.exits && s'.forced == s.forced
      && (forall k | k in s'.segs :: k in s.segs && s'.segs[k] == s.segs[k])
      && (forall k | k in s.segs :: k !in s'.segs <==>
            && i <= k < end && Absent(s.clist, Handle(k, s.segs[k].file))
            && s.segs[k].nattch == 0 && (s.forced || s.segs[k].dest))
    decreases end - i
  {
    if i < end {
      if i in s.segs && Orphan(s, i) {
        OrphansAnswers(DestroyIf(s, i), i + 1, end);
        DestroyGone(s, i);
        hide Absent, Destroy, Orphaned;
      } else {
        OrphansAnswers(s, i + 1, end);
        hide Absent, Destroy, Orphaned;
      }
    }
  }

  // ---- a removed segment over whole runs -----------------------------------------------------------------

  // The files on which IPC_RMID was called.
  function NowRemoved(s: Space, removed: set<nat>, a: Action): set<nat> {
    if a.DoRmid? && a.idx in s.segs then removed + {s.segs[a.idx].file} else removed
  }

  ghost predicate LeadsWith(s: Space, removed: set<nat>, mni: nat, run: seq<Action>, s': Space, removed': set<nat>)
    decreases |run|
  {
    if run == [] then s == s' && removed == removed'
    else
      Allowed(s, mni, run[0])
      && LeadsWith(Step(s, mni, run[0]), NowRemoved(s, removed, run[0]), mni, run[1..], s', removed')
  }

  ghost predicate Going(s: Space, i: nat, f: nat) {
    i in s.segs && s.segs[i].file == f && s.segs[i].dest && !s.segs[i].keyed
  }

  ghost predicate RemovedOk(s: Space, removed: set<nat>) {
    forall f | f in removed :: f in s.gone || exists i :: Going(s, i, f)
  }

  // A segment that goes is among those gone; one that stays keeps its mark, and gets no key again.
  ghost predicate Ages(s: Space, s': Space) {
    && (forall f | f in s.gone :: f in s'.gone)
    && forall i | i in s.segs ::
         s.segs[i].file in s'.gone
         || (i in s'.segs && s'.segs[i].file == s.segs[i].file
             && (s.segs[i].dest ==> s'.segs[i].dest) && (!s.segs[i].keyed ==> !s'.segs[i].keyed))
  }

  lemma AgesOn(a: Space, b: Space, c: Space)
    requires Ages(a, b) && Ages(b, c)
    ensures Ages(a, c)
  {
  }

  lemma DestroyIfAges(s: Space, idx: nat)
    requires idx in s.segs
    ensures Ages(s, DestroyIf(s, idx))
  {
    assert Destroy(s, idx).gone[|s.gone|] == s.segs[idx].file;
    assert forall k | 0 <= k < |s.gone| :: Destroy(s, idx).gone[k] == s.gone[k];
  }

  lemma {:induction false} OrphanedAges(s: Space, i: nat, end: nat)
    ensures Ages(s, Orphaned(s, i, end))
    decreases end - i
  {
    hide Ages, DestroyIf;
    if i >= end {
      AgesNot(s);
    } else if i in s.segs && Orphan(s, i) {
      DestroyIfAges(s, i);
      OrphanedAges(DestroyIf(s, i), i + 1, end);
      AgesOn(s, DestroyIf(s, i), Orphaned(DestroyIf(s, i), i + 1, end));
    } else {
      OrphanedAges(s, i + 1, end);
    }
  }

  lemma AgesNot(s: Space)
    ensures Ages(s, s)
  {
  }

  lemma SameAges(s: Space, s': Space)
    requires s'.gone == s.gone && s'.segs == s.segs
    ensures Ages(s, s')
  {
  }

  lemma CountedAges(s: Space, idx: nat, d: int, areas: multiset<Handle>, flights: multiset<Handle>)
    requires idx in s.segs
    ensures Ages(s, Counted(s.(areas := areas, flights := flights), idx, d))
    ensures Ages(s, Counted(s, idx, d).(areas := areas, flights := flights))
  {
  }

  // A user leaves, by either way.
  lemma LeaveAges(s: Space, idx: nat, areas: multiset<Handle>, flights: multiset<Handle>)
    requires idx in s.segs
    ensures Ages(s, DestroyIf(Counted(s.(areas := areas, flights := flights), idx, -1), idx))
  {
    hide Ages, DestroyIf, MayDestroy;
    var c := Counted(s.(areas := areas, flights := flights), idx, -1);
    CountedAges(s, idx, -1, areas, flights);
    DestroyIfAges(c, idx);
    AgesOn(s, c, DestroyIf(c, idx));
  }

  lemma CloseAges(s: Space, h: Handle)
    ensures Ages(s, Close(s, h))
  {
    hide Ages, DestroyIf;
    if h.idx in s.segs {
      LeaveAges(s, h.idx, s.areas - multiset{h}, s.flights);
    } else {
      SameAges(s, Close(s, h));
    }
  }

  lemma EndAttachAges(s: Space, h: Handle)
    requires h.idx in s.segs
    ensures Ages(s, EndAttach(s, h))
  {
    hide Ages, DestroyIf;
    LeaveAges(s, h.idx, s.areas, s.flights - multiset{h});
  }

  lemma ComeAges(s: Space, h: Handle)
    ensures Ages(s, Open(s, h).0) && Ages(s, Attach(s, h).0)
  {
    hide Ages;
    SameAges(s, s);
    if h.idx in s.segs {
      CountedAges(s, h.idx, 1, s.areas + multiset{h}, s.flights);
      CountedAges(s, h.idx, 1, s.areas, s.flights + multiset{h});
    }
  }

  lemma NewAges(s: Space, t: Task, idx: nat, size: nat, keyed: bool, ctlmax: nat, ctlall: nat, fileOk: bool)
    requires idx !in s.segs
    ensures Ages(s, NewSeg(s, t, idx, size, keyed, ctlmax, ctlall, fileOk).0)
  {
    hide SizeCheck;
  }

  lemma RmidAges(s: Space, idx: nat)
    requires idx in s.segs
    ensures Ages(s, Rmid(s, idx))
  {
    if s.segs[idx].nattch == 0 {
      var gone := Destroy(s, idx).gone;
      assert gone[|s.gone|] == s.segs[idx].file;
      assert forall k | 0 <= k < |s.gone| :: gone[k] == s.gone[k];
    }
  }

  lemma FinishExitAges(s: Space, i: nat)
    requires i < |s.exits|
    ensures Ages(s, FinishExit(s, i))
  {
    hide Ages, DestroyIf;
    var h, e := s.exits[i], s.(exits := Without(s.exits, i));
    SameAges(s, e);
    if Live(s, h) {
      DestroyIfAges(e, h.idx);
      AgesOn(s, e, DestroyIf(e, h.idx));
    }
  }

  lemma UnlinkAges(s: Space, i: nat)
    requires i < |s.clist|
    ensures Ages(s, Unlink(s, i))
  {
    SameAges(s, Unlink(s, i));
  }

  lemma StepAges(s: Space, mni: nat, a: Action)
    requires Allowed(s, mni, a)
    ensures Ages(s, Step(s, mni, a))
  {
    hide Ages, NewSeg, Open, Close, Attach, EndAttach, Rmid, Unlink, FinishExit, Orphaned;
    match a
    case DoNew(t, idx, size, keyed, ctlmax, ctlall, fileOk) => NewAges(s, t, idx, size, keyed, ctlmax, ctlall, fileOk);
    case DoOpen(h) => ComeAges(s, h);
    case DoAttach(h) => ComeAges(s, h);
    case DoClose(h) => CloseAges(s, h);
    case DoEndAttach(h) => EndAttachAges(s, h);
    case DoRmid(idx) => RmidAges(s, idx);
    case DoFinishExit(i) => FinishExitAges(s, i);
    case DoOrphans => OrphanedAges(s, 0, mni);
    case DoUnlink(i) => UnlinkAges(s, i);
    case DoForced(b) => SameAges(s, s.(forced := b));
  }

  lemma RemovedStays(s: Space, s': Space, removed: set<nat>)
    requires RemovedOk(s, removed) && Ages(s, s')
    ensures RemovedOk(s', removed)
  {
    forall f | f in removed ensures f in s'.gone || exists i :: Going(s', i, f) {
      if f !in s.gone {
        var i :| Going(s, i, f);
        assert f in s'.gone || Going(s', i, f);
      }
    }
  }

  lemma StepRemoved(s: Space, removed: set<nat>, mni: nat, a: Action)
    requires RemovedOk(s, removed) && Allowed(s, mni, a)
    ensures RemovedOk(Step(s, mni, a), NowRemoved(s, removed, a))
  {
    var s' := Step(s, mni, a);
    StepAges(s, mni, a);
    RemovedStays(s, s', removed);
    if a.DoRmid? {
      RmidMarksOrDestroys(s, a.idx);
      var f := s.segs[a.idx].file;
      if s.segs[a.idx].nattch != 0 {
        assert Going(s', a.idx, f);
      } else {
        assert s'.gone[|s.gone|] == f;
      }
    }
  }

  lemma {:induction false} RunRemoved(s: Space, removed: set<nat>, mni: nat, run: seq<Action>, s': Space, removed': set<nat>)
    requires RemovedOk(s, removed) && Inv(s, mni) && LeadsWith(s, removed, mni, run, s', removed')
    ensures RemovedOk(s', removed') && Inv(s', mni)
    decreases |run|
  {
    hide Inv, Step, Allowed, RemovedOk, NowRemoved;
    if run != [] {
      StepKeeps(s, mni, run[0]);
      StepRemoved(s, removed, mni, run[0]);
      RunRemoved(Step(s, mni, run[0]), NowRemoved(s, removed, run[0]), mni, run[1..], s', removed');
    }
  }

  // Over every run: a segment on which IPC_RMID was called has been destroyed, or it has users, is marked
  // and has no key.
  lemma RemovedGoesWithUsers(mni: nat, run: seq<Action>, s: Space, removed: set<nat>, f: nat)
    requires LeadsWith(Empty(), {}, mni, run, s, removed) && f in removed
    ensures f in s.gone
      || exists i :: i in s.segs && s.segs[i].file == f && s.segs[i].nattch > 0 && s.segs[i].dest && !s.segs[i].keyed
  {
    TotalOfNone(mni);
    RunRemoved(Empty(), {}, mni, run, s, removed);
    if f !in s.gone {
      var i :| Going(s, i, f);
      assert s.segs[i].nattch == UserCount(s, At(s, i));
    }
  }

  // And its last user destroys it: the area that is closed, or the attach that ends.
  lemma LastUserDestroys(mni: nat, run: seq<Action>, s: Space, removed: set<nat>, h: Handle)
    requires LeadsWith(Empty(), {}, mni, run, s, removed) && h.file in removed && s.areas[h] + s.flights[h] == 1
    ensures h in s.areas ==> h.file in Close(s, h).gone && h.idx !in Close(s, h).segs
    ensures h in s.flights ==> h.idx in s.segs && h.file in EndAttach(s, h).gone && h.idx !in EndAttach(s, h).segs
  {
    TotalOfNone(mni);
    RunRemoved(Empty(), {}, mni, run, s, removed);
    assert UserCount(s, h) == 1 && Live(s, h) && At(s, h.idx) == h;
    assert h.file !in s.gone;
    var i :| Going(s, i, h.file);
    assert i == h.idx;
    CloseAnswers(s, h);
    EndAttachAnswers(s, h);
    assert (s.gone + [h.file])[|s.gone|] == h.file;
  }
}
