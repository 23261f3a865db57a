// struct ipc_ids and the functions that change it in place, proved against IpcSpec.
module IpcIds {
  import opened IpcSpec
  import opened IpcRuns

  class IdTable {
    const cf: Config
    var inUse: nat
    var seqno: nat
    var lastIdx: int
    var maxIdx: int
    var next: nat
    var idr: map<nat, Perm>
    var keyHt: map<int, nat>

    ghost predicate Valid()
      reads this
    {
      Sane(cf) && Tables(cf, Value())
    }

    ghost function Value(): Ids
      reads this
    {
      Ids(inUse, seqno, lastIdx, maxIdx, next, idr, keyHt)
    }

    // ipc_init_ids().
    constructor (c: Config)
      requires Sane(c)
      ensures Valid() && cf == c && Value() == Empty()
    {
      cf := c;
      inUse, seqno, lastIdx, maxIdx, next, idr, keyHt := 0, 0, -1, -1, 0, map[], map[];
    }

    // idr_alloc_cyclic() over [0, end), without the memory for the new entry.
    method IdrCyclic(end: nat) returns (idx: Option<nat>)
      ensures idx == Cyclic(Value(), end)
    {
      var i := next;
      while i < end && i in idr
        invariant FirstFree(idr, i, end) == FirstFree(idr, next, end)
        decreases end - i
      {
        i := i + 1;
      }
      if i < end {
        return Some(i);
      }
      i := 0;
      while i < end && i in idr
        invariant FirstFree(idr, i, end) == FirstFree(idr, 0, end)
        decreases end - i
      {
        i := i + 1;
      }
      return if i < end then Some(i) else None;
    }

    method IpcIdrAlloc(key: int, tag: nat, idrOk: bool) returns (r: Result)
      requires Sane(cf)
      modifies `idr, `next, `seqno, `lastIdx
      ensures var ids := old(Value());
        var idx := Cyclic(ids, Window(cf, ids.inUse));
        if !idrOk then Value() == ids && r == Err(ENOMEM)
        else if idx.None? then Value() == ids && r == Err(ENOSPC)
        else Value() == Place(cf, ids, idx.value, key, tag) && r == Got(idx.value)
    {
      hide FirstFree, Cyclic;
      var end := if inUse * 3 / 2 < cf.minCycle then cf.minCycle else inUse * 3 / 2;
      if cf.mni < end {
        end := cf.mni;
      }
      if !idrOk {
        return Err(ENOMEM);
      }
      var found := IdrCyclic(end);
      if found.None? {
        return Err(ENOSPC);
      }
      var idx := found.value;
      next := idx + 1;
      if idx <= lastIdx {
        seqno := seqno + 1;
        if seqno >= cf.seqMax {
          seqno := 0;
        }
      }
      lastIdx := idx;
      idr := idr[idx := Perm(key, seqno, seqno * cf.span + idx, tag)];
      return Got(idx);
    }

    method IpcAddid(key: int, tag: nat, limit: int, idrOk: bool, htOk: bool) returns (r: Result)
      requires Valid()
      modifies `inUse, `seqno, `lastIdx, `maxIdx, `next, `idr, `keyHt
      ensures Valid() && (Value(), r) == AddId(cf, old(Value()), key, tag, limit, idrOk, htOk)
    {
      hide Tables, Cyclic, Window, AddId, Place;
      AddIdKeeps(cf, Value(), key, tag, limit, idrOk, htOk);
      CyclicFits(cf, Value(), Window(cf, inUse));
      AddIdRefused(cf, Value(), key, tag, limit, idrOk, htOk);
      var max := if limit > cf.mni then cf.mni else limit;
      if inUse >= max {
        return Err(ENOSPC);
      }
      ghost var before := Value();
      r := IpcIdrAlloc(key, tag, idrOk);
      if r.Err? {
        return;
      }
      AddIdPlaced(cf, before, key, tag, limit, htOk, Value(), r.idx);
      if key != IPC_PRIVATE {
        if key in keyHt || !htOk {
          idr := idr - {r.idx};
          return Err(if key in keyHt then EEXIST else ENOMEM);
        }
        keyHt := keyHt[key := r.idx];
      }
      inUse := inUse + 1;
      if r.idx > maxIdx {
        maxIdx := r.idx;
      }
    }

    method IpcKhtRemove(p: Perm)
      modifies `keyHt
      ensures keyHt == Unkeyed(old(Value()), p)
    {
      if p.key != IPC_PRIVATE {
        keyHt := keyHt - {p.key};
      }
    }

    // The loop that looks for the next index in use, downwards, only when the largest one went.
    method IpcRmid(idx: nat)
      requires Valid() && idx in idr
      modifies `idr, `keyHt, `inUse, `maxIdx
      ensures Valid() && old(inUse) > 0 && Value() == Rmid(old(Value()), idx)
    {
      hide Tables, LargestBelow;
      RmidKeeps(cf, Value(), idx);
      var p := idr[idx];
      idr := idr - {idx};
      IpcKhtRemove(p);
      inUse := inUse - 1;
      if idx == maxIdx {
        var i: int := idx - 1;
        while i != -1 && i !in idr
          invariant -1 <= i < idx && LargestBelow(idr, i + 1) == LargestBelow(idr, idx)
          modifies {}
          decreases i
        {
          LargestStep(idr, i);
          i := i - 1;
        }
        LargestStep(idr, i);
        maxIdx := i;
      }
    }

    method IpcSetKeyPrivate(idx: nat)
      requires Valid() && idx in idr
      modifies `idr, `keyHt
      ensures Valid() && Value() == SetKeyPrivate(old(Value()), idx)
    {
      SetKeyPrivateKeeps(cf, Value(), idx);
      hide Tables;
      IpcKhtRemove(idr[idx]);
      idr := idr[idx := idr[idx].(key := IPC_PRIVATE)];
    }

    // ipcget(); creating an object comes down to ipc_addid().
    method Ipcget(a: Ask, tag: nat, limit: int, idrOk: bool, htOk: bool) returns (r: Result)
      requires Valid()
      modifies `inUse, `seqno, `lastIdx, `maxIdx, `next, `idr, `keyHt
      ensures Valid() && (Value(), r) == Get(cf, old(Value()), a, tag, limit, idrOk, htOk)
    {
      hide Tables, AddId;
      if a.key == IPC_PRIVATE {
        r := IpcAddid(a.key, tag, limit, idrOk, htOk);
        return;
      }
      if a.key !in keyHt {
        if !a.create {
          return Err(ENOENT);
        }
        r := IpcAddid(a.key, tag, limit, idrOk, htOk);
        return;
      }
      if a.create && a.excl {
        return Err(EEXIST);
      }
      return if a.checks != 0 then Err(a.checks) else Got(keyHt[a.key]);
    }

    // sysvipc_find_ipc(): the object at pos or after it, and the position behind it. Counting the
    // objects in front of pos first is only a short cut.
    method FindIpc(pos: nat) returns (found: Option<nat>, newPos: nat)
      requires Valid()
      ensures found == FirstLive(idr, pos, cf.mni)
      ensures found.Some? ==> found.value < cf.mni && newPos == found.value + 1
    {
      var total, id := 0, 0;
      while id < pos && total < inUse
        invariant 0 <= id <= pos && total == |LiveBelow(idr, id)|
      {
        LiveStep(idr, id);
        if id in idr {
          total := total + 1;
        }
        id := id + 1;
      }
      if total >= inUse {
        AllBelow(idr, id);
        NothingFrom(idr, pos, cf.mni);
        return None, pos + 1;
      }
      var p := pos;
      while p < cf.mni && p !in idr
        invariant pos <= p && FirstLive(idr, p, cf.mni) == FirstLive(idr, pos, cf.mni)
        decreases cf.mni - p
      {
        p := p + 1;
      }
      return if p < cf.mni then Some(p) else None, p + 1;
    }

    // A whole listing.
    method List() returns (l: seq<nat>)
      requires Valid()
      ensures l == Listing(cf, Value(), 0)
      ensures (forall j, k | 0 <= j < k < |l| :: l[j] < l[k]) && (forall i: nat :: i in l <==> i in idr)
    {
      hide Tables, FirstLive;
      l := [];
      var found, pos := FindIpc(0);
      ghost var from := 0;
      while found.Some?
        invariant found == FirstLive(idr, from, cf.mni) && (found.Some? ==> found.value < cf.mni && pos == found.value + 1)
        invariant l + Listing(cf, Value(), from) == Listing(cf, Value(), 0)
        decreases if found.Some? then cf.mni - found.value else 0
      {
        assert l + Listing(cf, Value(), from) == (l + [found.value]) + Listing(cf, Value(), pos);
        l := l + [found.value];
        from := pos;
        found, pos := FindIpc(pos);
      }
      ListingIsComplete(cf, Value(), 0);
    }
  }

  lemma LargestStep(idr: map<nat, Perm>, i: int)
    requires -1 <= i
    ensures LargestBelow(idr, i + 1) == if i < 0 || i in idr then i else LargestBelow(idr, i)
  {
  }

  lemma AddIdRefused(cf: Config, ids: Ids, key: int, tag: nat, limit: int, idrOk: bool, htOk: bool)
    requires Sane(cf)
    ensures ids.inUse >= Min(limit, cf.mni) ==> AddId(cf, ids, key, tag, limit, idrOk, htOk) == (ids, Err(ENOSPC))
    ensures ids.inUse < Min(limit, cf.mni) && !idrOk ==> AddId(cf, ids, key, tag, limit, idrOk, htOk) == (ids, Err(ENOMEM))
    ensures ids.inUse < Min(limit, cf.mni) && idrOk && Cyclic(ids, Window(cf, ids.inUse)).None? ==>
      AddId(cf, ids, key, tag, limit, idrOk, htOk) == (ids, Err(ENOSPC))
  {
  }

  // What ipc_addid() makes of the table p in which the object has its index.
  lemma AddIdPlaced(cf: Config, ids: Ids, key: int, tag: nat, limit: int, htOk: bool, p: Ids, idx: nat)
    requires Sane(cf) && ids.inUse < Min(limit, cf.mni) && idx !in ids.idr
    requires Cyclic(ids, Window(cf, ids.inUse)) == Some(idx) && p == Place(cf, ids, idx, key, tag)
    ensures p.keys == ids.keys && p.inUse == ids.inUse && p.maxIdx == ids.maxIdx
    ensures AddId(cf, ids, key, tag, limit, true, htOk) ==
      if key != IPC_PRIVATE && (key in p.keys || !htOk) then
        (p.(idr := p.idr - {idx}), Err(if key in p.keys then EEXIST else ENOMEM))
      else
        (p.(inUse := p.inUse + 1, maxIdx := if idx > p.maxIdx then idx else p.maxIdx,
            keys := if key == IPC_PRIVATE then p.keys else p.keys[key := idx]),
         Got(idx))
  {
    assert p.idr - {idx} == ids.idr;
  }

  function LiveBelow(idr: map<nat, Perm>, n: nat): set<nat> {
    set i | i in idr && i < n
  }

  lemma LiveStep(idr: map<nat, Perm>, n: nat)
    ensures |LiveBelow(idr, n + 1)| == |LiveBelow(idr, n)| + if n in idr then 1 else 0
    ensures |LiveBelow(idr, 0)| == 0
  {
    assert LiveBelow(idr, 0) == {};
    assert LiveBelow(idr, n + 1) == if n in idr then LiveBelow(idr, n) + {n} else LiveBelow(idr, n);
  }

  lemma AllBelow(idr: map<nat, Perm>, n: nat)
    requires |LiveBelow(idr, n)| >= |idr|
    ensures forall i | i in idr :: i < n
  {
    if i :| i in idr && i >= n {
      assert |idr| == |idr.Keys|;
      Smaller(LiveBelow(idr, n), idr.Keys, i);
    }
  }

  lemma Smaller(a: set<nat>, b: set<nat>, x: nat)
    requires a <= b && x in b && x !in a
    ensures |a| < |b|
  {
    assert b == a + (b - a) && x in b - a;
    assert |b| == |a| + |b - a|;
  }

  lemma NothingFrom(idr: map<nat, Perm>, pos: nat, end: nat)
    requires forall i | i in idr :: i < pos
    ensures FirstLive(idr, pos, end).None?
  {
  }
}
