// What the calls answer, by the objects there are.
module IpcAnswers {
  import opened IpcSpec
  import opened IpcRuns
  import opened Numbers

  // The object at i is the one with the key.
  predicate Has(ids: Ids, i: nat, key: int) {
    i in ids.idr && ids.idr[i].key == key
  }

  // The table of keys finds exactly the objects that have a key of their own.
  lemma FindKeyIff(cf: Config, ids: Ids, key: int, i: nat)
    requires Tables(cf, ids)
    ensures FindKey(ids, key) == Some(i) <==> key != 0 && Has(ids, i, key)
  {
  }

  lemma NotFound(cf: Config, ids: Ids, key: int)
    requires Tables(cf, ids)
    ensures key !in ids.keys <==> key == 0 || forall i: nat :: !Has(ids, i, key)
  {
    forall i: nat ensures key != 0 && Has(ids, i, key) ==> key in ids.keys {
      FindKeyIff(cf, ids, key, i);
    }
    if key in ids.keys {
      FindKeyIff(cf, ids, key, ids.keys[key]);
    }
  }

  // Among the indices up to end, i is the first free one from the place of the last allocation on, or
  // the first of all if there is none behind it.
  ghost predicate Chosen(ids: Ids, end: int, i: nat) {
    && i < end && i !in ids.idr
    && if i >= ids.lastIdx + 1 then forall j: nat | ids.lastIdx + 1 <= j < i :: j in ids.idr
       else (forall j: nat | ids.lastIdx + 1 <= j < end :: j in ids.idr) && forall j: nat | j < i :: j in ids.idr
  }

  lemma CyclicChooses(cf: Config, ids: Ids, end: nat)
    requires Tables(cf, ids)
    ensures var r := Cyclic(ids, end);
      if r.None? then forall j: nat | j < end :: j in ids.idr else Chosen(ids, end, r.value)
  {
  }

  // A new object, or why there is none.
  ghost predicate Created(cf: Config, ids: Ids, key: int, tag: nat, limit: int, idrOk: bool, htOk: bool,
                          ids': Ids, r: Result)
    requires Sane(cf)
  {
    if ids.inUse >= limit || ids.inUse >= cf.mni then ids' == ids && r == Err(-28)
    else if !idrOk then ids' == ids && r == Err(-12)
    else if key != 0 && (exists i: nat :: Has(ids, i, key)) then
      r == Err(-17) && ids'.idr == ids.idr && ids'.keys == ids.keys && ids'.inUse == ids.inUse && ids'.maxIdx == ids.maxIdx
    else if key != 0 && !htOk then
      r == Err(-12) && ids'.idr == ids.idr && ids'.keys == ids.keys && ids'.inUse == ids.inUse && ids'.maxIdx == ids.maxIdx
    else r.Got? && New(cf, ids, key, tag, ids', r.idx)
  }

  // The window for the index: half as many again as there are objects, within the limits. The sequence
  // number goes on, and starts again at zero, when the index is not behind the last one.
  ghost predicate New(cf: Config, ids: Ids, key: int, tag: nat, ids': Ids, i: nat)
    requires Sane(cf)
  {
    var wanted := if ids.inUse * 3 / 2 > cf.minCycle then ids.inUse * 3 / 2 else cf.minCycle;
    && Chosen(ids, if wanted < cf.mni then wanted else cf.mni, i)
    && ids'.seqno == (if i > ids.lastIdx then ids.seqno else if ids.seqno + 1 < cf.seqMax then ids.seqno + 1 else 0)
    && ids'.idr == ids.idr[i := Perm(key, ids'.seqno, ids'.seqno * cf.span + i, tag)]
    && ids'.keys == (if key == 0 then ids.keys else ids.keys[key := i])
    && ids'.inUse == ids.inUse + 1 && ids'.maxIdx == (if i > ids.maxIdx then i else ids.maxIdx)
    && ids'.lastIdx == i && ids'.next == i + 1
  }

  lemma WindowIs(cf: Config, inUse: nat)
    requires Sane(cf)
    ensures var wanted := if inUse * 3 / 2 > cf.minCycle then inUse * 3 / 2 else cf.minCycle;
      Window(cf, inUse) == if wanted < cf.mni then wanted else cf.mni
  {
  }

  lemma PlacedIsNew(cf: Config, ids: Ids, key: int, tag: nat, i: nat)
    requires Sane(cf) && Chosen(ids, Window(cf, ids.inUse), i)
    ensures New(cf, ids, key, tag, Place(cf, ids, i, key, tag).(inUse := ids.inUse + 1, maxIdx := Max(ids.maxIdx, i),
      keys := if key == IPC_PRIVATE then ids.keys else ids.keys[key := i]), i)
  {
    WindowIs(cf, ids.inUse);
    hide Chosen, Window;
  }

  lemma AddIdAnswers(cf: Config, ids: Ids, key: int, tag: nat, limit: int, idrOk: bool, htOk: bool)
    requires Sane(cf) && Tables(cf, ids)
    ensures var (ids', r) := AddId(cf, ids, key, tag, limit, idrOk, htOk);
      Created(cf, ids, key, tag, limit, idrOk, htOk, ids', r)
  {
    NotFound(cf, ids, key);
    if ids.inUse < cf.mni {
      FreeIndex(cf, ids);
      CyclicChooses(cf, ids, Window(cf, ids.inUse));
      PlacedIsNew(cf, ids, key, tag, Cyclic(ids, Window(cf, ids.inUse)).value);
    }
    hide Cyclic, Tables, Chosen, Has, New, Window;
  }

  // ipcget(): whether there is an object with the key decides, unless the key is IPC_PRIVATE.
  lemma GetAnswers(cf: Config, ids: Ids, a: Ask, tag: nat, limit: int, idrOk: bool, htOk: bool)
    requires Sane(cf) && Tables(cf, ids)
    ensures var (ids', r) := Get(cf, ids, a, tag, limit, idrOk, htOk);
      if a.key != 0 && exists i: nat :: Has(ids, i, a.key) then
        ids' == ids &&
        if a.create && a.excl then r == Err(-17)
        else if a.checks != 0 then r == Err(a.checks)
        else r.Got? && Has(ids, r.idx, a.key)
      else if a.key != 0 && !a.create then ids' == ids && r == Err(-2)
      else Created(cf, ids, a.key, tag, limit, idrOk, htOk, ids', r)
  {
    NotFound(cf, ids, a.key);
    AddIdAnswers(cf, ids, a.key, tag, limit, idrOk, htOk);
    if a.key in ids.keys {
      FindKeyIff(cf, ids, a.key, ids.keys[a.key]);
    }
    hide Tables, AddId, Created, Has;
  }

  // The object is gone, and its key finds nothing; all others are found as before. The largest index in use
  // is known again.
  lemma RmidAnswers(cf: Config, ids: Ids, idx: nat, key: int)
    requires Tables(cf, ids) && idx in ids.idr && ids.inUse > 0
    ensures var ids' := Rmid(ids, idx);
      && ids'.idr == ids.idr - {idx} && ids'.inUse == ids.inUse - 1
      && ids'.seqno == ids.seqno && ids'.lastIdx == ids.lastIdx && ids'.next == ids.next
      && FindKey(ids', key) == (if key == ids.idr[idx].key then None else FindKey(ids, key))
      && (forall i | i in ids'.idr :: i <= ids'.maxIdx) && (ids'.maxIdx == -1 || ids'.maxIdx in ids'.idr)
  {
  }

  // The object stays and is nobody's by key.
  lemma SetKeyPrivateAnswers(cf: Config, ids: Ids, idx: nat, key: int)
    requires Tables(cf, ids) && idx in ids.idr
    ensures var ids', p := SetKeyPrivate(ids, idx), ids.idr[idx];
      && ids' == ids.(idr := ids.idr[idx := Perm(0, p.seqno, p.id, p.tag)], keys := ids'.keys)
      && FindKey(ids', key) == if key == p.key then None else FindKey(ids, key)
  {
  }

  // An id is accepted exactly if a live object has it.
  lemma ObtainIff(cf: Config, ids: Ids, id: nat, p: Perm)
    requires Sane(cf) && Tables(cf, ids)
    ensures ObtainCheck(cf, ids, id) == Some(p) <==> exists i: nat :: i in ids.idr && ids.idr[i] == p && p.id == id
  {
    if ObtainCheck(cf, ids, id) == Some(p) {
      Splits(id, cf.span);
      assert id % cf.span in ids.idr;
    }
    if i: nat :| i in ids.idr && ids.idr[i] == p && p.id == id {
      Remainder(id, cf.span, p.seqno, i);
    }
  }
}
