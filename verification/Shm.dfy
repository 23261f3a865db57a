// The segments of a namespace as the kernel changes them in place, proved against ShmSpec.
module Shm {
  import opened ShmSpec
  import opened ShmRuns

  class Namespace {
    var segs: map<nat, Seg>
    var shmTot: nat
    var rmidForced: bool
    var clist: seq<Owned>
    var nextFile: nat
    ghost var areas: multiset<Handle>
    ghost var flights: multiset<Handle>
    ghost var exits: seq<Handle>
    ghost var gone: seq<nat>

    ghost function Value(): Space
      reads this
    {
      Space(segs, shmTot, rmidForced, clist, areas, flights, exits, nextFile, gone)
    }

    constructor ()
      ensures Value() == Empty()
    {
      segs, shmTot, rmidForced, clist, nextFile := map[], 0, false, [], 0;
      areas, flights, exits, gone := multiset{}, multiset{}, [], [];
    }

    // newseg(); idx is where ipc_addid() found room.
    method Newseg(t: Task, idx: nat, size: nat, keyed: bool, ctlmax: nat, ctlall: nat, fileOk: bool) returns (c: Code)
      requires idx !in segs
      modifies `segs, `shmTot, `clist, `nextFile
      ensures (Value(), c) == NewSeg(old(Value()), t, idx, size, keyed, ctlmax, ctlall, fileOk)
    {
      var numpages := (size + PAGE_SIZE - 1) % WORD / PAGE_SIZE;
      if size < SHMMIN || size > ctlmax {
        return EINVAL;
      }
      if numpages * PAGE_SIZE % WORD < size {
        return ENOSPC;
      }
      if (shmTot + numpages) % WORD < shmTot || (shmTot + numpages) % WORD > ctlall {
        return ENOSPC;
      }
      if !fileOk {
        return ENOMEM;
      }
      segs := segs[idx := Seg(nextFile, size, 0, false, keyed)];
      clist := [Owned(t, Handle(idx, nextFile))] + clist;
      nextFile := nextFile + 1;
      shmTot := (shmTot + numpages) % WORD;
      return Ok;
    }

    // shm_clist_rm().
    method ClistRm(h: Handle)
      modifies `clist
      ensures clist == Unlisted(old(clist), h)
    {
      var left, i := [], 0;
      while i < |clist|
        invariant 0 <= i <= |clist| && clist == old(clist)
        invariant left + Unlisted(clist[i..], h) == Unlisted(clist, h)
      {
        assert clist[i..][1..] == clist[i + 1..];
        if clist[i].h != h {
          left := left + [clist[i]];
        }
        i := i + 1;
      }
      clist := left;
    }

    method ShmDestroy(idx: nat)
      requires idx in segs
      modifies `segs, `shmTot, `clist, `gone
      ensures Value() == Destroy(old(Value()), idx)
    {
      var g := segs[idx];
      shmTot := (shmTot - Pages(g.size)) % WORD;
      ClistRm(Handle(idx, g.file));
      segs := segs - {idx};
      gone := gone + [g.file];
    }

    method DestroyIfUnused(idx: nat)
      requires idx in segs
      modifies `segs, `shmTot, `clist, `gone
      ensures Value() == DestroyIf(old(Value()), idx)
    {
      if segs[idx].nattch == 0 && (rmidForced || segs[idx].dest) {
        ShmDestroy(idx);
      }
    }

    // __shm_open().
    method ShmOpen(h: Handle) returns (c: Code)
      modifies `segs, `areas
      ensures (Value(), c) == Open(old(Value()), h)
    {
      if h.idx !in segs {
        return EIDRM;
      }
      if segs[h.idx].file != h.file {
        return EINVAL;
      }
      segs := segs[h.idx := segs[h.idx].(nattch := segs[h.idx].nattch + 1)];
      areas := areas + multiset{h};
      return Ok;
    }

    // shm_close(): the file is not compared. The area is mapped, so it need not be.
    method ShmClose(h: Handle)
      modifies `segs, `areas, `shmTot, `clist, `gone
      ensures Value() == Close(old(Value()), h)
    {
      hide DestroyIf;
      areas := areas - multiset{h};
      if h.idx !in segs {
        return;
      }
      segs := segs[h.idx := segs[h.idx].(nattch := segs[h.idx].nattch - 1)];
      DestroyIfUnused(h.idx);
    }

    method ShmatBegins(h: Handle) returns (c: Code)
      modifies `segs, `flights
      ensures (Value(), c) == Attach(old(Value()), h)
    {
      if h.idx !in segs || segs[h.idx].file != h.file {
        return EIDRM;
      }
      segs := segs[h.idx := segs[h.idx].(nattch := segs[h.idx].nattch + 1)];
      flights := flights + multiset{h};
      return Ok;
    }

    // From out_nattch on, where the result of shm_lock() is not checked.
    method ShmatEnds(h: Handle)
      requires h.idx in segs
      modifies `segs, `flights, `shmTot, `clist, `gone
      ensures Value() == EndAttach(old(Value()), h)
    {
      hide DestroyIf;
      flights := flights - multiset{h};
      segs := segs[h.idx := segs[h.idx].(nattch := segs[h.idx].nattch - 1)];
      DestroyIfUnused(h.idx);
    }

    method DoShmRmid(idx: nat)
      requires idx in segs
      modifies `segs, `shmTot, `clist, `gone
      ensures Value() == Rmid(old(Value()), idx)
    {
      hide Destroy;
      if segs[idx].nattch != 0 {
        segs := segs[idx := segs[idx].(dest := true, keyed := false)];
      } else {
        ShmDestroy(idx);
      }
    }

    // One round of exit_shm(), for the i-th entry of the list.
    method ExitRound(i: nat)
      requires i < |clist|
      modifies `segs, `shmTot, `clist, `exits, `gone
      ensures var s := Unlink(old(Value()), i);
        Value() == if s.forced then FinishExit(s, |s.exits| - 1) else s
    {
      hide DestroyIf;
      var h := clist[i].h;
      clist := clist[..i] + clist[i + 1..];
      if !rmidForced {
        return;
      }
      assert Without(exits + [h], |exits|) == exits;
      if h.idx in segs && segs[h.idx].file == h.file {
        DestroyIfUnused(h.idx);
      }
    }

    method ExitShm(t: Task)
      modifies `segs, `shmTot, `clist, `exits, `gone
      ensures Value() == ExitAll(old(Value()), t)
    {
      hide FinishExit;
      while true
        invariant ExitAll(Value(), t) == ExitAll(old(Value()), t)
        decreases |clist|
      {
        var i := FirstOf(clist, t);
        if i.None? {
          break;
        }
        RoundShortens(Value(), i.value);
        ExitRound(i.value);
      }
    }

    // shm_destroy_orphaned(): idr_for_each() from index 0 up.
    method DestroyOrphaned(mni: nat)
      modifies `segs, `shmTot, `clist, `gone
      ensures Value() == Orphaned(old(Value()), 0, mni)
    {
      hide DestroyIf;
      var i := 0;
      while i < mni
        invariant 0 <= i <= mni
        invariant Orphaned(Value(), i, mni) == Orphaned(old(Value()), 0, mni)
      {
        if i in segs {
          var listed := IsListed(Handle(i, segs[i].file));
          if !listed {
            DestroyIfUnused(i);
          }
        }
        i := i + 1;
      }
    }

    method IsListed(h: Handle) returns (listed: bool)
      ensures listed <==> !Absent(clist, h)
    {
      var i := 0;
      while i < |clist|
        invariant 0 <= i <= |clist| && forall j | 0 <= j < i :: clist[j].h != h
      {
        if clist[i].h == h {
          return true;
        }
        i := i + 1;
      }
      return false;
    }
  }

  lemma RoundShortens(s: Space, i: nat)
    requires i < |s.clist|
    ensures var s' := Unlink(s, i);
      |(if s.forced then FinishExit(s', |s'.exits| - 1) else s').clist| < |s.clist|
  {
    UnlistedShorter(Unlink(s, i).clist, s.clist[i].h);
  }
}
