// The identifiers of one kind of IPC object: the table of objects by index, the table of keys, and
// the sequence numbers that tell apart objects that had the same index.
module IpcSpec {

  const IPC_PRIVATE := 0
  const ENOSPC := -28
  const ENOMEM := -12
  const EEXIST := -17
  const ENOENT := -2
  const EINVAL := -22

  datatype Option<T> = None | Some(value: T)

  // ipc_mni, ipc_min_cycle, ipcid_seq_max() and 1 << ipcmni_seq_shift().
  datatype Config = Config(mni: nat, minCycle: nat, seqMax: nat, span: nat)

  predicate Sane(cf: Config) {
    0 < cf.mni <= cf.span && 2 <= cf.minCycle && 0 < cf.seqMax
  }

  // struct kern_ipc_perm; tag stands for the object it is part of.
  datatype Perm = Perm(key: int, seqno: nat, id: nat, tag: nat)

  datatype Ids = Ids(
    inUse: nat,
    seqno: nat,
    lastIdx: int,
    maxIdx: int,
    next: nat,             // where the cyclic search of the idr goes on
    idr: map<nat, Perm>,
    keys: map<int, nat>)   // key_ht, by index

  function Empty(): Ids {
    Ids(0, 0, -1, -1, 0, map[], map[])
  }

  function Max(a: int, b: int): int { if a < b then b else a }
  function Min(a: int, b: int): int { if a < b then a else b }

  // ---- allocation --------------------------------------------------------------------------

  function FirstFree(idr: map<nat, Perm>, i: nat, end: nat): (r: Option<nat>)
    ensures r.Some? ==> i <= r.value < end && r.value !in idr && forall j | i <= j < r.value :: j in idr
    ensures r.None? ==> forall j | i <= j < end :: j in idr
    decreases end - i
  {
    if i >= end then None else if i !in idr then Some(i) else FirstFree(idr, i + 1, end)
  }

  // idr_alloc_cyclic() over [0, end).
  function Cyclic(ids: Ids, end: nat): Option<nat> {
    var r := FirstFree(ids.idr, ids.next, end);
    if r.Some? then r else FirstFree(ids.idr, 0, end)
  }

  function Window(cf: Config, inUse: nat): nat
    requires Sane(cf)
  {
    Min(Max(inUse * 3 / 2, cf.minCycle), cf.mni)
  }

  function NextSeq(cf: Config, seqno: nat): nat {
    if seqno + 1 >= cf.seqMax then 0 else seqno + 1
  }

  // ipc_idr_alloc() once an index was found.
  function Place(cf: Config, ids: Ids, idx: nat, key: int, tag: nat): Ids {
    var seqno := if idx <= ids.lastIdx then NextSeq(cf, ids.seqno) else ids.seqno;
    ids.(seqno := seqno, lastIdx := idx, next := idx + 1, idr := ids.idr[idx := Perm(key, seqno, seqno * cf.span + idx, tag)])
  }

  datatype Result = Got(idx: nat) | Err(code: int)

  // ipc_addid(); idrOk and htOk: the two tables find memory.
  function AddId(cf: Config, ids: Ids, key: int, tag: nat, limit: int, idrOk: bool, htOk: bool): (Ids, Result)
    requires Sane(cf)
  {
    if ids.inUse >= Min(limit, cf.mni) then (ids, Err(ENOSPC))
    else
      var idx := Cyclic(ids, Window(cf, ids.inUse));
      if !idrOk then (ids, Err(ENOMEM))
      else if idx.None? then (ids, Err(ENOSPC))
      else
        var p := Place(cf, ids, idx.value, key, tag);
        if key != IPC_PRIVATE && (key in ids.keys || !htOk) then
          (p.(idr := ids.idr), Err(if key in ids.keys then EEXIST else ENOMEM))
        else
          (p.(inUse := ids.inUse + 1, maxIdx := Max(ids.maxIdx, idx.value),
              keys := if key == IPC_PRIVATE then ids.keys else ids.keys[key := idx.value]),
           Got(idx.value))
  }

  // ---- removal ------------------------------------------------------------------------------

  function LargestBelow(idr: map<nat, Perm>, i: nat): (r: int)
    ensures -1 <= r < i && (r >= 0 ==> r in idr) && forall j: nat | r < j < i :: j !in idr
  {
    if i == 0 then -1 else if i - 1 in idr then i - 1 else LargestBelow(idr, i - 1)
  }

  function Unkeyed(ids: Ids, p: Perm): map<int, nat> {
    if p.key != IPC_PRIVATE then ids.keys - {p.key} else ids.keys
  }

  function Rmid(ids: Ids, idx: nat): Ids
    requires idx in ids.idr && ids.inUse > 0
  {
    var idr := ids.idr - {idx};
    ids.(idr := idr, keys := Unkeyed(ids, ids.idr[idx]), inUse := ids.inUse - 1,
         maxIdx := if idx == ids.maxIdx then LargestBelow(idr, idx) else ids.maxIdx)
  }

  function SetKeyPrivate(ids: Ids, idx: nat): Ids
    requires idx in ids.idr
  {
    ids.(idr := ids.idr[idx := ids.idr[idx].(key := IPC_PRIVATE)], keys := Unkeyed(ids, ids.idr[idx]))
  }

  // ---- look-up ------------------------------------------------------------------------------

  function FindKey(ids: Ids, key: int): Option<nat> {
    if key in ids.keys then Some(ids.keys[key]) else None
  }

  // ipc_obtain_object_check().
  function ObtainCheck(cf: Config, ids: Ids, id: nat): Option<Perm>
    requires Sane(cf)
  {
    if id % cf.span in ids.idr && id / cf.span == ids.idr[id % cf.span].seqno then Some(ids.idr[id % cf.span]) else None
  }

  // What the caller of a get asks for, and what the checks of an existing object answer.
  datatype Ask = Ask(key: int, create: bool, excl: bool, checks: int)

  // ipcget().
  function Get(cf: Config, ids: Ids, a: Ask, tag: nat, limit: int, idrOk: bool, htOk: bool): (Ids, Result)
    requires Sane(cf)
  {
    if a.key == IPC_PRIVATE then AddId(cf, ids, a.key, tag, limit, idrOk, htOk)
    else
      match FindKey(ids, a.key)
      case None => if !a.create then (ids, Err(ENOENT)) else AddId(cf, ids, a.key, tag, limit, idrOk, htOk)
      case Some(idx) =>
        if a.create && a.excl then (ids, Err(EEXIST))
        else if a.checks != 0 then (ids, Err(a.checks))
        else (ids, Got(idx))
  }

  function FirstLive(idr: map<nat, Perm>, i: nat, end: nat): (r: Option<nat>)
    ensures r.Some? ==> i <= r.value < end && r.value in idr && forall j | i <= j < r.value :: j !in idr
    ensures r.None? ==> forall j | i <= j < end :: j !in idr
    decreases end - i
  {
    if i >= end then None else if i in idr then Some(i) else FirstLive(idr, i + 1, end)
  }

  // A whole listing: sysvipc_find_ipc() from pos on, each time going on behind the object found.
  function Listing(cf: Config, ids: Ids, pos: nat): seq<nat>
    decreases cf.mni - pos
  {
    match FirstLive(ids.idr, pos, cf.mni)
    case None => []
    case Some(i) => [i] + Listing(cf, ids, i + 1)
  }
}
