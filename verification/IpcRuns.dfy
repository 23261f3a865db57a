// The tables agree after every run, and an id says which object is meant for as long as the sequence
// counter does not come round.
module IpcRuns {
  import opened IpcSpec
  import opened Numbers

  // ---- the tables agree --------------------------------------------------------------------

  ghost predicate Tables(cf: Config, ids: Ids) {
    && ids.inUse == |ids.idr|
    && (forall i | i in ids.idr :: i < cf.mni && i <= ids.maxIdx)
    && -1 <= ids.maxIdx && (ids.maxIdx >= 0 ==> ids.maxIdx in ids.idr)
    && ids.next == ids.lastIdx + 1
    && ids.seqno < cf.seqMax
    && (forall i | i in ids.idr :: ids.idr[i].id == ids.idr[i].seqno * cf.span + i)
    && KeysAgree(ids)
  }

  ghost predicate KeysAgree(ids: Ids) {
    && (forall k | k in ids.keys :: k != IPC_PRIVATE && ids.keys[k] in ids.idr && ids.idr[ids.keys[k]].key == k)
    && (forall i | i in ids.idr && ids.idr[i].key != IPC_PRIVATE :: ids.idr[i].key in ids.keys && ids.keys[ids.idr[i].key] == i)
  }

  lemma MapSizes(m: map<nat, Perm>, i: nat, p: Perm)
    ensures i !in m ==> |m[i := p]| == |m| + 1
    ensures i in m ==> |m[i := p]| == |m| && |m - {i}| == |m| - 1
  {
    if i in m {
      assert m[i := p].Keys == m.Keys;
      assert (m - {i}).Keys == m.Keys - {i};
    } else {
      assert m[i := p].Keys == m.Keys + {i};
    }
    assert |m| == |m.Keys| && |m[i := p]| == |m[i := p].Keys| && |m - {i}| == |(m - {i}).Keys|;
  }

  lemma CyclicFits(cf: Config, ids: Ids, end: nat)
    ensures var r := Cyclic(ids, end);
      r.Some? ==> r.value < end && r.value !in ids.idr && (r.value < ids.next <==> FirstFree(ids.idr, ids.next, end).None?)
  {
  }

  lemma KeyAdded(ids: Ids, idx: nat, p: Perm)
    requires KeysAgree(ids) && idx !in ids.idr && p.key !in ids.keys
    ensures KeysAgree(ids.(idr := ids.idr[idx := p], keys := if p.key == IPC_PRIVATE then ids.keys else ids.keys[p.key := idx]))
  {
  }

  lemma PrivateIsNoKey(ids: Ids)
    requires KeysAgree(ids)
    ensures IPC_PRIVATE !in ids.keys
  {
  }

  lemma SameTables(ids: Ids, ids': Ids)
    requires ids'.idr == ids.idr && ids'.keys == ids.keys
    ensures KeysAgree(ids') == KeysAgree(ids)
  {
  }

  lemma AddIdKeeps(cf: Config, ids: Ids, key: int, tag: nat, limit: int, idrOk: bool, htOk: bool)
    requires Sane(cf) && Tables(cf, ids)
    ensures Tables(cf, AddId(cf, ids, key, tag, limit, idrOk, htOk).0)
  {
    hide KeysAgree, Cyclic;
    var idx := Cyclic(ids, Window(cf, ids.inUse));
    CyclicFits(cf, ids, Window(cf, ids.inUse));
    if idx.Some? {
      var p := Place(cf, ids, idx.value, key, tag).idr[idx.value];
      MapSizes(ids.idr, idx.value, p);
      PrivateIsNoKey(ids);
      var r := AddId(cf, ids, key, tag, limit, idrOk, htOk);
      if r.1.Got? {
        KeyAdded(ids, idx.value, p);
        SameTables(ids.(idr := ids.idr[idx.value := p], keys := if key == IPC_PRIVATE then ids.keys else ids.keys[key := idx.value]), r.0);
      } else {
        SameTables(ids, r.0);
      }
    }
  }

  lemma RmidKeeps(cf: Config, ids: Ids, idx: nat)
    requires Sane(cf) && Tables(cf, ids) && idx in ids.idr
    ensures ids.inUse > 0 && Tables(cf, Rmid(ids, idx))
  {
    MapSizes(ids.idr, idx, ids.idr[idx]);
  }

  lemma SetKeyPrivateKeeps(cf: Config, ids: Ids, idx: nat)
    requires Tables(cf, ids) && idx in ids.idr
    ensures Tables(cf, SetKeyPrivate(ids, idx))
  {
    MapSizes(ids.idr, idx, ids.idr[idx].(key := IPC_PRIVATE));
  }

  // ---- a free index ---------------------------------------------------------------------------

  lemma {:induction false} AllTaken(idr: map<nat, Perm>, end: nat)
    requires forall j | 0 <= j < end :: j in idr
    ensures end <= |idr|
    decreases end
  {
    if end > 0 {
      MapSizes(idr, end - 1, idr[end - 1]);
      AllTaken(idr - {end - 1}, end - 1);
    }
  }

  // Below the limit there is always a free index in the window that the search is confined to.
  lemma FreeIndex(cf: Config, ids: Ids)
    requires Sane(cf) && Tables(cf, ids) && ids.inUse < cf.mni
    ensures Cyclic(ids, Window(cf, ids.inUse)).Some?
  {
    if Cyclic(ids, Window(cf, ids.inUse)).None? {
      AllTaken(ids.idr, Window(cf, ids.inUse));
      assert false;
    }
  }

  // So an allocation fails only at the limit, for want of memory, or because the key is taken.
  lemma AddIdFailsIff(cf: Config, ids: Ids, key: int, tag: nat, limit: int, idrOk: bool, htOk: bool)
    requires Sane(cf) && Tables(cf, ids)
    ensures AddId(cf, ids, key, tag, limit, idrOk, htOk).1.Err? <==>
      ids.inUse >= Min(limit, cf.mni) || !idrOk || (key != IPC_PRIVATE && (key in ids.keys || !htOk))
  {
    if ids.inUse < cf.mni {
      FreeIndex(cf, ids);
    }
  }

  // ---- sequence numbers ---------------------------------------------------------------------------

  // Where an object got its place: how often the sequence number had been bumped, and the index.
  datatype Birth = Birth(bumps: nat, idx: nat, tag: nat)

  // All allocations of indices so far, in order.
  datatype Log = Log(bumps: nat, births: seq<Birth>)

  predicate Earlier(a: Birth, b: Birth) {
    a.bumps < b.bumps || (a.bumps == b.bumps && a.idx < b.idx)
  }

  ghost predicate History(cf: Config, ids: Ids, log: Log)
    requires Sane(cf)
  {
    && ids.seqno == log.bumps % cf.seqMax
    && (forall a | 0 <= a < |log.births| :: log.births[a].idx < cf.mni)
    && (forall a, b | 0 <= a < b < |log.births| :: Earlier(log.births[a], log.births[b]))
    && (if log.births == [] then ids.lastIdx == -1
        else ids.lastIdx == log.births[|log.births| - 1].idx && log.bumps == log.births[|log.births| - 1].bumps)
    && (forall i | i in ids.idr :: Born(cf, ids.idr[i], i, log))
  }

  // The object p at index i is in the log; it is the last one there with its index.
  ghost predicate Born(cf: Config, p: Perm, i: nat, log: Log)
    requires Sane(cf)
  {
    exists b | 0 <= b < |log.births| :: BornAs(cf, p, i, log, b)
  }

  ghost predicate BornAs(cf: Config, p: Perm, i: nat, log: Log, b: nat)
    requires Sane(cf)
  {
    && b < |log.births| && log.births[b].idx == i && log.births[b].tag == p.tag
    && p.seqno == log.births[b].bumps % cf.seqMax
    && forall c | b < c < |log.births| :: log.births[c].idx != i
  }

  function Recorded(ids: Ids, log: Log, idx: nat, tag: nat): Log {
    var bumps := if idx <= ids.lastIdx then log.bumps + 1 else log.bumps;
    Log(bumps, log.births + [Birth(bumps, idx, tag)])
  }

  lemma NextSeqCounts(cf: Config, n: nat)
    requires Sane(cf)
    ensures NextSeq(cf, n % cf.seqMax) == (n + 1) % cf.seqMax
  {
    NextRemainder(n, cf.seqMax);
  }

  lemma NewIsBorn(cf: Config, p: Perm, i: nat, log: Log)
    requires Sane(cf) && |log.births| > 0 && p.seqno == log.births[|log.births| - 1].bumps % cf.seqMax
    requires log.births[|log.births| - 1].idx == i && log.births[|log.births| - 1].tag == p.tag
    ensures Born(cf, p, i, log)
  {
    assert BornAs(cf, p, i, log, |log.births| - 1);
  }

  lemma OthersStayBorn(cf: Config, p: Perm, i: nat, log: Log, log': Log)
    requires Sane(cf) && Born(cf, p, i, log)
    requires |log'.births| == |log.births| + 1 && log'.births[..|log.births|] == log.births && log'.births[|log.births|].idx != i
    ensures Born(cf, p, i, log')
  {
    var b :| 0 <= b < |log.births| && BornAs(cf, p, i, log, b);
    assert forall c | 0 <= c < |log.births| :: log'.births[c] == log.births[c];
    assert BornAs(cf, p, i, log', b);
  }

  // Every allocation moves the pair of bumps and index on.
  lemma PlaceKeepsHistory(cf: Config, ids: Ids, log: Log, idx: nat, key: int, tag: nat)
    requires Sane(cf) && Tables(cf, ids) && History(cf, ids, log) && idx !in ids.idr && idx < cf.mni
    ensures History(cf, Place(cf, ids, idx, key, tag), Recorded(ids, log, idx, tag))
  {
    hide Born;
    var ids', log' := Place(cf, ids, idx, key, tag), Recorded(ids, log, idx, tag);
    NextSeqCounts(cf, log.bumps);
    var n := |log.births|;
    forall a, b | 0 <= a < b < |log'.births| ensures Earlier(log'.births[a], log'.births[b]) {
      if b == n && a < n - 1 {
        assert Earlier(log.births[a], log.births[n - 1]);
      }
    }
    forall i | i in ids'.idr ensures Born(cf, ids'.idr[i], i, log') {
      if i == idx {
        NewIsBorn(cf, ids'.idr[i], i, log');
      } else {
        OthersStayBorn(cf, ids.idr[i], i, log, log');
      }
    }
  }

  lemma FewerKeepHistory(cf: Config, ids: Ids, ids': Ids, log: Log)
    requires Sane(cf) && History(cf, ids, log) && ids'.seqno == ids.seqno && ids'.lastIdx == ids.lastIdx
    requires forall i | i in ids'.idr :: i in ids.idr && ids'.idr[i].tag == ids.idr[i].tag && ids'.idr[i].seqno == ids.idr[i].seqno
    ensures History(cf, ids', log)
  {
    forall i | i in ids'.idr ensures Born(cf, ids'.idr[i], i, log) {
      var b :| 0 <= b < |log.births| && BornAs(cf, ids.idr[i], i, log, b);
      assert BornAs(cf, ids'.idr[i], i, log, b);
    }
  }

  // ---- runs ---------------------------------------------------------------------------------------

  datatype Action =
    | DoGet(a: Ask, tag: nat, limit: int, idrOk: bool, htOk: bool)
    | DoRmid(idx: nat)
    | DoSetPrivate(idx: nat)

  predicate Allowed(ids: Ids, a: Action) {
    match a
    case DoGet(_, _, _, _, _) => true
    case DoRmid(idx) => idx in ids.idr && ids.inUse > 0
    case DoSetPrivate(idx) => idx in ids.idr
  }

  // Does the call get as far as taking an index?
  predicate Allocates(cf: Config, ids: Ids, a: Action)
    requires Sane(cf)
  {
    a.DoGet? && ids.inUse < Min(a.limit, cf.mni) && a.idrOk && Cyclic(ids, Window(cf, ids.inUse)).Some?
    && (a.a.key == IPC_PRIVATE || (FindKey(ids, a.a.key).None? && a.a.create))
  }

  function Step(cf: Config, ids: Ids, a: Action): Ids
    requires Sane(cf) && Allowed(ids, a)
  {
    match a
    case DoGet(ask, tag, limit, idrOk, htOk) => Get(cf, ids, ask, tag, limit, idrOk, htOk).0
    case DoRmid(idx) => Rmid(ids, idx)
    case DoSetPrivate(idx) => SetKeyPrivate(ids, idx)
  }

  function StepLog(cf: Config, ids: Ids, log: Log, a: Action): Log
    requires Sane(cf)
  {
    if Allocates(cf, ids, a) then Recorded(ids, log, Cyclic(ids, Window(cf, ids.inUse)).value, a.tag) else log
  }

  ghost predicate Inv(cf: Config, ids: Ids, log: Log)
    requires Sane(cf)
  {
    Tables(cf, ids) && History(cf, ids, log)
  }

  lemma GetKeeps(cf: Config, ids: Ids, log: Log, a: Action)
    requires Sane(cf) && Inv(cf, ids, log) && a.DoGet?
    ensures Inv(cf, Step(cf, ids, a), StepLog(cf, ids, log, a))
  {
    hide History, Tables;
    AddIdKeeps(cf, ids, a.a.key, a.tag, a.limit, a.idrOk, a.htOk);
    if Allocates(cf, ids, a) {
      var idx := Cyclic(ids, Window(cf, ids.inUse)).value;
      CyclicFits(cf, ids, Window(cf, ids.inUse));
      PlaceKeepsHistory(cf, ids, log, idx, a.a.key, a.tag);
      FewerKeepHistory(cf, Place(cf, ids, idx, a.a.key, a.tag), Step(cf, ids, a), StepLog(cf, ids, log, a));
    }
  }

  lemma StepKeeps(cf: Config, ids: Ids, log: Log, a: Action)
    requires Sane(cf) && Inv(cf, ids, log) && Allowed(ids, a)
    ensures Inv(cf, Step(cf, ids, a), StepLog(cf, ids, log, a))
  {
    hide History, Tables;
    match a
    case DoGet(_, _, _, _, _) => GetKeeps(cf, ids, log, a);
    case DoRmid(idx) =>
      RmidKeeps(cf, ids, idx);
      FewerKeepHistory(cf, ids, Rmid(ids, idx), log);
    case DoSetPrivate(idx) =>
      SetKeyPrivateKeeps(cf, ids, idx);
      FewerKeepHistory(cf, ids, SetKeyPrivate(ids, idx), log);
  }

  ghost predicate Leads(cf: Config, ids: Ids, log: Log, run: seq<Action>, ids': Ids, log': Log)
    requires Sane(cf)
    decreases |run|
  {
    if run == [] then ids == ids' && log == log'
    else Allowed(ids, run[0]) && Leads(cf, Step(cf, ids, run[0]), StepLog(cf, ids, log, run[0]), run[1..], ids', log')
  }

  ghost predicate Reachable(cf: Config, ids: Ids, log: Log)
    requires Sane(cf)
  {
    exists run :: Leads(cf, Empty(), Log(0, []), run, ids, log)
  }

  lemma {:induction false} RunKeeps(cf: Config, ids: Ids, log: Log, run: seq<Action>, ids': Ids, log': Log)
    requires Sane(cf) && Inv(cf, ids, log) && Leads(cf, ids, log, run, ids', log')
    ensures Inv(cf, ids', log')
    decreases |run|
  {
    if run != [] {
      StepKeeps(cf, ids, log, run[0]);
      RunKeeps(cf, Step(cf, ids, run[0]), StepLog(cf, ids, log, run[0]), run[1..], ids', log');
    }
  }

  lemma ReachableInv(cf: Config, ids: Ids, log: Log)
    requires Sane(cf) && Reachable(cf, ids, log)
    ensures Inv(cf, ids, log)
  {
    var run :| Leads(cf, Empty(), Log(0, []), run, ids, log);
    RunKeeps(cf, Empty(), Log(0, []), run, ids, log);
  }

  // The tables agree: as many objects as are counted, the largest index, and the keys.
  lemma TablesAgree(cf: Config, ids: Ids, log: Log)
    requires Sane(cf) && Reachable(cf, ids, log)
    ensures ids.inUse == |ids.idr|
    ensures (ids.idr == map[] <==> ids.maxIdx == -1) && (ids.maxIdx >= 0 ==> ids.maxIdx in ids.idr)
    ensures forall i | i in ids.idr :: i <= ids.maxIdx && i < cf.mni
    ensures forall k: int, i: nat :: FindKey(ids, k) == Some(i) <==> k != IPC_PRIVATE && i in ids.idr && ids.idr[i].key == k
  {
    ReachableInv(cf, ids, log);
    if ids.idr != map[] {
      assert ids.idr.Keys != {};
      var i :| i in ids.idr;
    }
  }

  // The id that object b was given.
  function IdOf(cf: Config, b: Birth): nat
    requires Sane(cf)
  {
    (b.bumps % cf.seqMax) * cf.span + b.idx
  }

  lemma IdSplits(cf: Config, seqno: nat, idx: nat)
    requires Sane(cf) && idx < cf.span
    ensures (seqno * cf.span + idx) % cf.span == idx && (seqno * cf.span + idx) / cf.span == seqno
  {
    Remainder(seqno * cf.span + idx, cf.span, seqno, idx);
  }

  // Two objects that ever had the same index came after different numbers of bumps, so they have the
  // same id exactly when the counter went round a whole number of times in between.
  lemma SameIndexDifferentBumps(cf: Config, ids: Ids, log: Log, a: nat, b: nat)
    requires Sane(cf) && Reachable(cf, ids, log) && a < b < |log.births|
    requires log.births[a].idx == log.births[b].idx
    ensures log.births[a].bumps < log.births[b].bumps
    ensures IdOf(cf, log.births[a]) == IdOf(cf, log.births[b]) <==>
      (log.births[b].bumps - log.births[a].bumps) % cf.seqMax == 0
  {
    ReachableInv(cf, ids, log);
    var x, y, m := log.births[a].bumps, log.births[b].bumps, cf.seqMax;
    assert Earlier(log.births[a], log.births[b]);
    SameRemainder(x, y, m);
    assert (x % m) * cf.span - (y % m) * cf.span == (x % m - y % m) * cf.span;
    Multiples(x % m - y % m, cf.span);
  }

  lemma ObtainIff(cf: Config, ids: Ids, b: Birth)
    requires Sane(cf) && b.idx < cf.span
    ensures ObtainCheck(cf, ids, IdOf(cf, b)).Some? <==> b.idx in ids.idr && ids.idr[b.idx].seqno == b.bumps % cf.seqMax
  {
    IdSplits(cf, b.bumps % cf.seqMax, b.idx);
  }

  lemma BornLast(cf: Config, p: Perm, i: nat, log: Log, a: nat, b: nat)
    requires Sane(cf) && a < |log.births| && log.births[a].idx == i && BornAs(cf, p, i, log, b)
    ensures a <= b && p.seqno == log.births[b].bumps % cf.seqMax && log.births[b].idx == i
  {
  }

  lemma BornOnce(cf: Config, p: Perm, i: nat, log: Log, b: nat, c: nat)
    requires Sane(cf) && BornAs(cf, p, i, log, b) && BornAs(cf, p, i, log, c)
    ensures b == c
  {
  }

  lemma NotFewerBumps(x: Birth, y: Birth, later: bool)
    requires if later then Earlier(x, y) else x == y
    ensures x.bumps <= y.bumps
  {
  }

  // The id of an object that is gone, presented again: it is rejected, unless the object that has the
  // index now came a whole number of rounds later.
  lemma StaleIdIff(cf: Config, ids: Ids, log: Log, a: nat)
    requires Sane(cf) && Reachable(cf, ids, log) && a < |log.births|
    ensures var old_ := log.births[a];
      ObtainCheck(cf, ids, IdOf(cf, old_)).Some? <==>
        old_.idx in ids.idr && exists b | a <= b < |log.births| ::
          BornAs(cf, ids.idr[old_.idx], old_.idx, log, b) && (log.births[b].bumps - old_.bumps) % cf.seqMax == 0
  {
    hide Tables, Earlier, BornAs;
    ReachableInv(cf, ids, log);
    var x := log.births[a];
    ObtainIff(cf, ids, x);
    if x.idx in ids.idr {
      var p := ids.idr[x.idx];
      var b :| 0 <= b < |log.births| && BornAs(cf, p, x.idx, log, b);
      BornLast(cf, p, x.idx, log, a, b);
      assert a < b ==> Earlier(x, log.births[b]);
      NotFewerBumps(x, log.births[b], a < b);
      SameRemainder(x.bumps, log.births[b].bumps, cf.seqMax);
      forall c: nat | c < |log.births| && BornAs(cf, p, x.idx, log, c) ensures c == b {
        BornOnce(cf, p, x.idx, log, b, c);
      }
    }
  }

  // That happens: with two sequence numbers and room for one object, the id of the first object is the
  // third one's as well.
  function Small(): Config {
    Config(1, 2, 2, 1)
  }

  function Add(tag: nat): Action {
    DoGet(Ask(IPC_PRIVATE, true, false, 0), tag, 1, true, true)
  }

  // The table while an object lives in it that came after so many bumps, and the table without it.
  function OneLives(tag: nat, seqno: nat): Ids {
    Ids(1, seqno, 0, 0, 1, map[0 := Perm(IPC_PRIVATE, seqno, seqno, tag)], map[])
  }

  function NoneLives(seqno: nat): Ids {
    Ids(0, seqno, 0, -1, 1, map[], map[])
  }

  lemma AddOne(ids: Ids, log: Log, tag: nat)
    requires ids == Empty() || exists n :: n < 2 && ids == NoneLives(n)
    ensures var seqno := if ids == Empty() then 0 else NextSeq(Small(), ids.seqno);
      && Step(Small(), ids, Add(tag)) == OneLives(tag, seqno)
      && StepLog(Small(), ids, log, Add(tag)) == Recorded(ids, log, 0, tag)
  {
    var cf := Small();
    assert Window(cf, 0) == 1;
    assert FirstFree(ids.idr, 0, 1) == Some(0) && FirstFree(ids.idr, 1, 1) == None;
    assert Cyclic(ids, 1) == Some(0);
    assert map[0 := Perm(IPC_PRIVATE, 0, 0, tag)] == map[][0 := Perm(IPC_PRIVATE, 0, 0, tag)];
  }

  lemma DropOne(tag: nat, seqno: nat)
    ensures Step(Small(), OneLives(tag, seqno), DoRmid(0)) == NoneLives(seqno)
  {
    assert OneLives(tag, seqno).idr - {0} == map[];
  }

  lemma {:induction false} LeadsOn(cf: Config, x: Ids, l: Log, run: seq<Action>, y: Ids, m: Log, a: Action)
    requires Sane(cf) && Leads(cf, x, l, run, y, m) && Allowed(y, a)
    ensures Leads(cf, x, l, run + [a], Step(cf, y, a), StepLog(cf, y, m, a))
    decreases |run|
  {
    if run == [] {
      assert [] + [a] == [a] && [a][1..] == [];
    } else {
      assert (run + [a])[0] == run[0] && (run + [a])[1..] == run[1..] + [a];
      LeadsOn(cf, Step(cf, x, run[0]), StepLog(cf, x, l, run[0]), run[1..], y, m, a);
    }
  }

  lemma ReachesOn(cf: Config, ids: Ids, log: Log, a: Action)
    requires Sane(cf) && Reachable(cf, ids, log) && Allowed(ids, a)
    ensures Reachable(cf, Step(cf, ids, a), StepLog(cf, ids, log, a))
  {
    var run :| Leads(cf, Empty(), Log(0, []), run, ids, log);
    LeadsOn(cf, Empty(), Log(0, []), run, ids, log, a);
  }

  // One object comes, and goes again.
  lemma ComesAndGoes(ids: Ids, log: Log, tag: nat)
    requires Reachable(Small(), ids, log) && (ids == Empty() || exists n :: n < 2 && ids == NoneLives(n))
    ensures var seqno := if ids == Empty() then 0 else NextSeq(Small(), ids.seqno);
      && Reachable(Small(), OneLives(tag, seqno), Recorded(ids, log, 0, tag))
      && Reachable(Small(), NoneLives(seqno), Recorded(ids, log, 0, tag))
  {
    hide Reachable, Recorded, Step;
    var seqno := if ids == Empty() then 0 else NextSeq(Small(), ids.seqno);
    AddOne(ids, log, tag);
    ReachesOn(Small(), ids, log, Add(tag));
    DropOne(tag, seqno);
    ReachesOn(Small(), OneLives(tag, seqno), Recorded(ids, log, 0, tag), DoRmid(0));
  }

  lemma StaleIdAccepted() returns (ids: Ids, log: Log)
    ensures Reachable(Small(), ids, log) && |log.births| == 3 && log.births[0].tag != log.births[2].tag
    ensures 0 in ids.idr && ids.idr[0].tag == log.births[2].tag
    ensures ObtainCheck(Small(), ids, IdOf(Small(), log.births[0])) == Some(ids.idr[0])
  {
    hide Reachable;
    var l0 := Log(0, []);
    StartReachable();
    ComesAndGoes(Empty(), l0, 7);
    var l1 := Recorded(Empty(), l0, 0, 7);
    ComesAndGoes(NoneLives(0), l1, 8);
    var l2 := Recorded(NoneLives(0), l1, 0, 8);
    ComesAndGoes(NoneLives(1), l2, 9);
    ids, log := OneLives(9, 0), Recorded(NoneLives(1), l2, 0, 9);
    assert log.births == [Birth(0, 0, 7), Birth(1, 0, 8), Birth(2, 0, 9)];
  }

  lemma StartReachable()
    ensures Reachable(Small(), Empty(), Log(0, []))
  {
    assert Leads(Small(), Empty(), Log(0, []), [], Empty(), Log(0, []));
  }

  // ---- the listing -------------------------------------------------------------------------------

  lemma ListingStep(cf: Config, ids: Ids, pos: nat)
    requires Tables(cf, ids)
    ensures var r, l := FirstLive(ids.idr, pos, cf.mni), Listing(cf, ids, pos);
      if r.Some? then
        && l == [r.value] + Listing(cf, ids, r.value + 1) && pos <= r.value < cf.mni && r.value in ids.idr
        && forall i | i in ids.idr && pos <= i :: r.value <= i
      else
        l == [] && forall i | i in ids.idr :: i < pos
  {
  }

  // Each live object once, in the order of the indices.
  lemma {:induction false} ListingIsComplete(cf: Config, ids: Ids, pos: nat)
    requires Tables(cf, ids)
    ensures var l := Listing(cf, ids, pos);
      && (forall j | 0 <= j < |l| :: pos <= l[j])
      && (forall j, k | 0 <= j < k < |l| :: l[j] < l[k])
      && (forall i: nat :: i in l <==> i in ids.idr && pos <= i)
    decreases cf.mni - pos
  {
    hide Tables, FirstLive, Listing;
    ListingStep(cf, ids, pos);
    var r := FirstLive(ids.idr, pos, cf.mni);
    if r.Some? {
      ListingIsComplete(cf, ids, r.value + 1);
    }
  }
}
