// Shared memory segments: who uses them, and when they go.
module ShmSpec {

  const PAGE_SIZE := 4096
  const WORD := 0x1_0000_0000_0000_0000  // unsigned long and size_t
  const SHMMIN := 1

  type Task = nat

  datatype Option<T> = None | Some(value: T)

  // struct shmid_kernel; file stands for shm_file, which no other segment ever has.
  datatype Seg = Seg(file: nat, size: nat, nattch: int, dest: bool, keyed: bool)

  // A segment by its place in the table and by its file, as struct shm_file_data has it.
  datatype Handle = Handle(idx: nat, file: nat)

  datatype Owned = Owned(task: Task, h: Handle)

  datatype Space = Space(
    segs: map<nat, Seg>,
    tot: nat,                  // shm_tot
    forced: bool,              // shm_rmid_forced
    clist: seq<Owned>,         // the lists of segments by creator, newest first
    areas: multiset<Handle>,   // mapped areas
    flights: multiset<Handle>, // calls of do_shmat() that hold a count
    exits: seq<Handle>,        // calls of exit_shm() between unlinking a segment and locking it
    nextFile: nat,
    gone: seq<nat>)            // files of the segments destroyed so far

  function Empty(): Space {
    Space(map[], 0, false, [], multiset{}, multiset{}, [], 0, [])
  }

  datatype Code = Ok | EINVAL | ENOSPC | EIDRM | ENOMEM

  // (size + PAGE_SIZE - 1) >> PAGE_SHIFT, in 64 bits.
  function Pages(size: nat): nat {
    (size + PAGE_SIZE - 1) % WORD / PAGE_SIZE
  }

  predicate Live(s: Space, h: Handle) {
    h.idx in s.segs && s.segs[h.idx].file == h.file
  }

  // The checks of newseg(), in its order.
  function SizeCheck(tot: nat, size: nat, ctlmax: nat, ctlall: nat): Code {
    if size < SHMMIN || size > ctlmax then EINVAL
    else if Pages(size) * PAGE_SIZE % WORD < size then ENOSPC
    else if (tot + Pages(size)) % WORD < tot || (tot + Pages(size)) % WORD > ctlall then ENOSPC
    else Ok
  }

  // idx: where ipc_addid() finds room.
  function NewSeg(s: Space, t: Task, idx: nat, size: nat, keyed: bool, ctlmax: nat, ctlall: nat, fileOk: bool): (Space, Code)
    requires idx !in s.segs
  {
    var c := SizeCheck(s.tot, size, ctlmax, ctlall);
    if c != Ok then (s, c)
    else if !fileOk then (s, ENOMEM)
    else
      (s.(segs := s.segs[idx := Seg(s.nextFile, size, 0, false, keyed)],
          clist := [Owned(t, Handle(idx, s.nextFile))] + s.clist,
          tot := (s.tot + Pages(size)) % WORD,
          nextFile := s.nextFile + 1), Ok)
  }

  function Unlisted(l: seq<Owned>, h: Handle): seq<Owned> {
    if l == [] then [] else (if l[0].h == h then [] else [l[0]]) + Unlisted(l[1..], h)
  }

  function Destroy(s: Space, idx: nat): Space
    requires idx in s.segs
  {
    var g := s.segs[idx];
    s.(segs := s.segs - {idx}, tot := (s.tot - Pages(g.size)) % WORD,
       clist := Unlisted(s.clist, Handle(idx, g.file)), gone := s.gone + [g.file])
  }

  predicate MayDestroy(s: Space, g: Seg) {
    g.nattch == 0 && (s.forced || g.dest)
  }

  function DestroyIf(s: Space, idx: nat): Space
    requires idx in s.segs
  {
    if MayDestroy(s, s.segs[idx]) then Destroy(s, idx) else s
  }

  function Counted(s: Space, idx: nat, d: int): Space
    requires idx in s.segs
  {
    s.(segs := s.segs[idx := s.segs[idx].(nattch := s.segs[idx].nattch + d)])
  }

  // __shm_open() for an area of h, which may be out of date.
  function Open(s: Space, h: Handle): (Space, Code) {
    if h.idx !in s.segs then (s, EIDRM)
    else if s.segs[h.idx].file != h.file then (s, EINVAL)
    else (Counted(s, h.idx, 1).(areas := s.areas + multiset{h}), Ok)
  }

  // shm_close(): looks at the place in the table only.
  function Close(s: Space, h: Handle): Space {
    var s' := s.(areas := s.areas - multiset{h});
    if h.idx !in s.segs then s' else DestroyIf(Counted(s', h.idx, -1), h.idx)
  }

  // do_shmat() up to the first unlock.
  function Attach(s: Space, h: Handle): (Space, Code) {
    if !Live(s, h) then (s, EIDRM)
    else (Counted(s, h.idx, 1).(flights := s.flights + multiset{h}), Ok)
  }

  // do_shmat() from out_nattch on.
  function EndAttach(s: Space, h: Handle): Space
    requires h.idx in s.segs
  {
    DestroyIf(Counted(s.(flights := s.flights - multiset{h}), h.idx, -1), h.idx)
  }

  // do_shm_rmid().
  function Rmid(s: Space, idx: nat): Space
    requires idx in s.segs
  {
    if s.segs[idx].nattch != 0 then s.(segs := s.segs[idx := s.segs[idx].(dest := true, keyed := false)])
    else Destroy(s, idx)
  }

  function FirstOf(l: seq<Owned>, t: Task): (r: Option<nat>)
    ensures r.Some? ==> r.value < |l| && l[r.value].task == t
    ensures r.None? ==> forall i | 0 <= i < |l| :: l[i].task != t
  {
    if l == [] then None
    else if l[0].task == t then Some(0)
    else match FirstOf(l[1..], t)
      case Some(i) => Some(i + 1)
      case None => assert forall i | 0 < i < |l| :: l[i] == l[1..][i - 1]; None
  }

  function Without<T>(l: seq<T>, i: nat): seq<T>
    requires i < |l|
  {
    l[..i] + l[i + 1..]
  }

  // exit_shm(), one round: the segment leaves the list of its creator, and with shm_rmid_forced set
  // is looked at again once the locks are held.
  function Unlink(s: Space, i: nat): Space
    requires i < |s.clist|
  {
    var s' := s.(clist := Without(s.clist, i));
    if s.forced then s'.(exits := s.exits + [s.clist[i].h]) else s'
  }

  // The second half: nothing if somebody else has destroyed the segment.
  function FinishExit(s: Space, i: nat): Space
    requires i < |s.exits|
  {
    var h := s.exits[i];
    var s' := s.(exits := Without(s.exits, i));
    if Live(s, h) then DestroyIf(s', h.idx) else s'
  }

  predicate Absent(l: seq<Owned>, h: Handle) {
    forall i | 0 <= i < |l| :: l[i].h != h
  }

  predicate Orphan(s: Space, idx: nat)
    requires idx in s.segs
  {
    Absent(s.clist, Handle(idx, s.segs[idx].file))
  }

  // shm_destroy_orphaned(), from index i on.
  function Orphaned(s: Space, i: nat, end: nat): Space
    decreases end - i
  {
    if i >= end then s
    else if i in s.segs && Orphan(s, i) then Orphaned(DestroyIf(s, i), i + 1, end)
    else Orphaned(s, i + 1, end)
  }

  lemma UnlistedShorter(l: seq<Owned>, h: Handle)
    ensures |Unlisted(l, h)| <= |l|
  {
  }

  // The whole of exit_shm(), when nobody comes in between.
  function ExitAll(s: Space, t: Task): Space
    decreases |s.clist|
  {
    match FirstOf(s.clist, t)
    case None => s
    case Some(i) =>
      var s' := Unlink(s, i);
      var s'' := if s.forced then FinishExit(s', |s'.exits| - 1) else s';
      UnlistedShorter(s'.clist, s.clist[i].h);
      ExitAll(s'', t)
  }
}
