// The message queue as the kernel keeps it, changed in place; each method is proved against the
// value functions of MsgSpec.
module MsgQueue {
  import opened MsgSpec
  import opened MsgRuns

  // The counters that the queues of a namespace share.
  class Namespace {
    var msgHdrs: int
    var msgBytes: int
    var msgCtlmax: nat
    var msgCtlmnb: nat

    constructor (ctlmax: nat, ctlmnb: nat)
      ensures msgHdrs == 0 && msgBytes == 0 && msgCtlmax == ctlmax && msgCtlmnb == ctlmnb
    {
      msgHdrs, msgBytes, msgCtlmax, msgCtlmnb := 0, 0, ctlmax, ctlmnb;
    }
  }

  function Prefix(q: Queue, l: seq<Sender>, k: nat, fits: bool): seq<Sender>
    requires k <= |l|
  {
    Fitting(q, l[..k], fits)
  }

  lemma {:induction false} FittingSnoc(q: Queue, l: seq<Sender>, e: Sender, fits: bool)
    ensures Fitting(q, l + [e], fits) == Fitting(q, l, fits) + if Fits(q, e.msg.size) == fits then [e] else []
    decreases |l|
  {
    if l == [] {
      assert l + [e] == [e];
    } else {
      assert (l + [e])[1..] == l[1..] + [e];
      FittingSnoc(q, l[1..], e, fits);
    }
  }

  lemma PrefixStep(q: Queue, l: seq<Sender>, k: nat, fits: bool)
    requires k < |l|
    ensures Prefix(q, l, k + 1, fits) == Prefix(q, l, k, fits) + if Fits(q, l[k].msg.size) == fits then [l[k]] else []
  {
    assert l[..k + 1] == l[..k] + [l[k]];
    FittingSnoc(q, l[..k], l[k], fits);
  }

  lemma {:induction false} PrefixFrom(q: Queue, l: seq<Sender>, k: nat, fits: bool)
    requires k <= |l|
    ensures forall i | 0 <= i < |Prefix(q, l, k, fits)| :: Prefix(q, l, k, fits)[i] in l[..k]
    decreases k
  {
    if k > 0 {
      PrefixFrom(q, l, k - 1, fits);
      PrefixStep(q, l, k - 1, fits);
    }
  }

  lemma TasksSnoc(l: seq<Sender>, e: Sender)
    ensures Tasks(l + [e]) == Tasks(l) + {e.task}
  {
    forall t | t in Tasks(l) + {e.task} ensures t in Tasks(l + [e]) {
      if t in Tasks(l) {
        var i :| 0 <= i < |l| && l[i].task == t;
        assert (l + [e])[i].task == t;
      } else {
        assert (l + [e])[|l|].task == t;
      }
    }
  }

  lemma NobodyWaits()
    ensures Waiting([]) == {}
  {
  }

  lemma GoneSnoc(replies: map<Task, Reply>, tasks: set<Task>, t: Task)
    ensures (replies + map u | u in tasks :: Gone)[t := Gone] == replies + map u | u in tasks + {t} :: Gone
  {
  }

  lemma {:induction false} OfferFrame(q: Queue, m: Msg, i: nat)
    requires i <= |q.receivers|
    ensures Offer(q, m, i).0.messages == q.messages
    ensures Offer(q, m, i).0.cbytes == q.cbytes && Offer(q, m, i).0.qnum == q.qnum
    decreases |q.receivers| - i
  {
    if i < |q.receivers| && !Matches(m, q.receivers[i]) {
      OfferFrame(q, m, i + 1);
    } else if i < |q.receivers| && q.receivers[i].maxSize < m.size {
      OfferFrame(Answer(q, i, TooBig), m, i);
    }
  }

  // Where the scan of the senders stands after k of them: the ones that fit in front, the ones not
  // seen yet, and behind them the ones that were moved to the tail.
  predicate Scanned(q: Queue, now: Queue, k: nat, i: nat, stop: Option<Task>) {
    k <= |q.senders| &&
    var yes, no := Prefix(q, q.senders, k, true), Prefix(q, q.senders, k, false);
    && now == q.(senders := yes + q.senders[k..] + no, woken := q.woken + Tasks(yes))
    && i == |yes|
    && stop == if no == [] then None else Some(no[0].task)
  }

  lemma ScanStarts(q: Queue)
    ensures Scanned(q, q, 0, 0, None)
  {
  }

  lemma ScanFrame(q: Queue, now: Queue, k: nat, i: nat, stop: Option<Task>)
    requires Scanned(q, now, k, i, stop)
    ensures now == q.(senders := now.senders, woken := now.woken) && k <= |q.senders|
  {
  }

  lemma ScanIsOver(q: Queue, now: Queue, k: nat, i: nat, stop: Option<Task>)
    requires Scanned(q, now, k, i, stop) && i >= |now.senders|
    ensures k == |q.senders|
  {
  }

  lemma ScanAtLast(q: Queue, now: Queue, k: nat, i: nat, stop: Option<Task>)
    requires Scanned(q, now, k, i, stop) && k < |q.senders|
    ensures i + 1 == |now.senders| ==> k + 1 == |q.senders|
  {
  }

  lemma WithoutIs(l: seq<Sender>, i: nat)
    requires i < |l|
    ensures Without(l, i) == l[..i] + l[i + 1..]
  {
  }

  lemma ScanMeetsNew(q: Queue, now: Queue, k: nat, i: nat, stop: Option<Task>)
    requires DistinctSenders(q.senders) && Scanned(q, now, k, i, stop) && k < |q.senders|
    ensures i < |now.senders| && now.senders[i] == q.senders[k] && stop != Some(q.senders[k].task)
  {
    PrefixFrom(q, q.senders, k, false);
    var no := Prefix(q, q.senders, k, false);
    if no != [] {
      assert no[0] in q.senders[..k];
    }
  }

  lemma ScanMeetsMoved(q: Queue, now: Queue, i: nat, stop: Option<Task>)
    requires Scanned(q, now, |q.senders|, i, stop)
    ensures now == WakeSenders(q)
    ensures i < |now.senders| ==> stop == Some(now.senders[i].task)
    ensures stop.None? ==> i == |now.senders|
  {
    var yes, no := Fitting(q, q.senders, true), Fitting(q, q.senders, false);
    assert q.senders[..|q.senders|] == q.senders;
    assert now.senders == yes + no;
  }

  lemma ScanWakes(q: Queue, now: Queue, k: nat, i: nat, stop: Option<Task>)
    requires Scanned(q, now, k, i, stop) && k < |q.senders| && Fits(q, q.senders[k].msg.size)
    ensures Scanned(q, now.(woken := now.woken + {q.senders[k].task}), k + 1, i + 1, stop)
  {
    PrefixStep(q, q.senders, k, true);
    PrefixStep(q, q.senders, k, false);
    TasksSnoc(Prefix(q, q.senders, k, true), q.senders[k]);
  }

  lemma ScanMoves(q: Queue, now: Queue, k: nat, i: nat, stop: Option<Task>)
    requires Scanned(q, now, k, i, stop) && k < |q.senders| && !Fits(q, q.senders[k].msg.size) && i < |now.senders|
    ensures Scanned(q, now.(senders := Without(now.senders, i) + [q.senders[k]]), k + 1, i,
                    if stop.None? then Some(q.senders[k].task) else stop)
  {
    PrefixStep(q, q.senders, k, true);
    PrefixStep(q, q.senders, k, false);
    var yes, no := Prefix(q, q.senders, k, true), Prefix(q, q.senders, k, false);
    assert Prefix(q, q.senders, k + 1, true) == yes && Prefix(q, q.senders, k + 1, false) == no + [q.senders[k]];
    assert Without(now.senders, i) + [q.senders[k]] == yes + q.senders[k + 1..] + (no + [q.senders[k]]);
  }

  lemma ScanGoesOn(q: Queue, now: Queue, k: nat, i: nat, stop: Option<Task>)
    requires Scanned(q, now, k, i, stop)
    requires i < |now.senders| && stop != Some(now.senders[i].task)
    ensures k < |q.senders|
  {
    if k == |q.senders| {
      ScanMeetsMoved(q, now, i, stop);
    }
  }

  lemma ScanEnds(q: Queue, now: Queue, k: nat, i: nat, stop: Option<Task>)
    requires DistinctSenders(q.senders) && Scanned(q, now, k, i, stop)
    requires i < |now.senders| ==> stop == Some(now.senders[i].task)
    ensures k == |q.senders|
  {
    if k < |q.senders| {
      ScanMeetsNew(q, now, k, i, stop);
    }
  }

  // find_msg() with a bound on the type, after i messages: the best one so far is the first of the
  // least type, and the bound has dropped below it.
  predicate Lowered(ms: seq<Msg>, bound: int, typ: int, i: nat, found: Option<nat>) {
    i <= |ms| &&
    match found
    case None => typ == bound && forall j | 0 <= j < i :: ms[j].mtype > bound
    case Some(f) =>
      && f < i && ms[f].mtype <= bound && typ == ms[f].mtype - 1
      && (forall j | 0 <= j < f :: ms[j].mtype > ms[f].mtype)
      && (forall j | 0 <= j < i :: ms[j].mtype >= ms[f].mtype)
  }

  lemma FoundIsFind(ms: seq<Msg>, typ: int, mode: Mode, i: nat)
    requires Selected(ms, typ, mode, i)
    ensures Find(ms, typ, mode) == Some(i)
  {
    var r := Find(ms, typ, mode);
    if r.Some? {
      SelectedIsUnique(ms, typ, mode, i, r.value);
    }
  }

  class MessageQueue {
    var live: bool
    var messages: seq<Msg>
    var cbytes: int
    var qnum: int
    var qbytes: int
    var receivers: seq<Receiver>
    var replies: map<Task, Reply>
    var senders: seq<Sender>
    var woken: set<Task>

    ghost function State(): Queue
      reads this
    {
      Queue(live, messages, cbytes, qnum, qbytes, receivers, replies, senders, woken)
    }

    ghost function With(ns: Namespace): Store
      reads this, ns
    {
      Store(State(), ns.msgHdrs, ns.msgBytes)
    }

    // newque().
    constructor (ns: Namespace)
      ensures State() == Created(ns.msgCtlmnb) && Inv(State())
    {
      live, messages, cbytes, qnum, qbytes := true, [], 0, 0, ns.msgCtlmnb;
      receivers, replies, senders, woken := [], map[], [], {};
    }

    predicate FitsNow(size: nat)
      reads this
      ensures FitsNow(size) == Fits(State(), size)
    {
      size + cbytes <= qbytes && 1 + qnum <= qbytes
    }

    // find_msg(): one pass; for a bound on the type the bound drops below each candidate found.
    method FindMsg(msgtyp: int, mode: Mode) returns (found: Option<nat>)
      requires PositiveTypes(messages)
      ensures found.Some? ==> Selected(messages, msgtyp, mode, found.value)
      ensures found.None? ==> NoneSelected(messages, msgtyp, mode)
      ensures found == Find(messages, msgtyp, mode)
    {
      found := None;
      var typ := msgtyp;
      var i, count := 0, 0;
      while i < |messages|
        invariant 0 <= i <= |messages| && (mode.Number? ==> count == i)
        invariant !mode.LessEqual? ==> typ == msgtyp && found.None?
        invariant mode.Number? ==> !(0 <= msgtyp < i)
        invariant !mode.LessEqual? && !mode.Number? ==> forall j | 0 <= j < i :: !Test(messages[j], typ, mode)
        invariant mode.LessEqual? ==> Lowered(messages, msgtyp, typ, i, found)
      {
        if Test(messages[i], typ, mode) {
          if mode.LessEqual? && messages[i].mtype != 1 {
            typ := messages[i].mtype - 1;
            found := Some(i);
          } else if mode.Number? {
            if typ == count {
              FoundIsFind(messages, msgtyp, mode, i);
              return Some(i);
            }
          } else {
            FoundIsFind(messages, msgtyp, mode, i);
            return Some(i);
          }
          count := count + 1;
        }
        i := i + 1;
      }
      if found.Some? {
        FoundIsFind(messages, msgtyp, mode, found.value);
      }
    }

    // pipelined_send(): hand the message to a sleeping receiver, if there is one for it.
    method PipelinedSend(m: Msg) returns (taken: bool)
      modifies this
      ensures State() == Offer(old(State()), m, 0).0
      ensures taken == Offer(old(State()), m, 0).1.Some?
    {
      var i := 0;
      while i < |receivers|
        invariant 0 <= i <= |receivers|
        invariant Offer(State(), m, i) == Offer(old(State()), m, 0)
        decreases |receivers| - i
      {
        var r := receivers[i];
        if Test(m, r.mtype, r.mode) {
          receivers := receivers[..i] + receivers[i + 1..];
          woken := woken + {r.task};
          if r.maxSize < m.size {
            replies := replies[r.task := TooBig];
          } else {
            replies := replies[r.task := Got(m)];
            return true;
          }
        } else {
          i := i + 1;
        }
      }
      return false;
    }

    // ss_wakeup(), whose loop is written here once for each value of kill.
    method SsWakeup(kill: bool)
      requires DistinctSenders(senders)
      modifies `senders, `woken
      ensures State() == if kill then old(State()).(woken := old(woken + Tasks(senders))) else WakeSenders(old(State()))
    {
      if kill {
        WakeEverySender();
      } else {
        WakeFittingSenders();
      }
    }

    method WakeEverySender()
      modifies `woken
      ensures woken == old(woken) + Tasks(senders)
    {
      var i := 0;
      while i < |senders|
        invariant 0 <= i <= |senders|
        invariant woken == old(woken) + Tasks(senders[..i])
      {
        assert senders[..i + 1] == senders[..i] + [senders[i]];
        TasksSnoc(senders[..i], senders[i]);
        woken := woken + {senders[i].task};
        i := i + 1;
      }
      assert senders[..i] == senders;
    }

    // The neighbour is looked up before an entry moves, so the loop ends with the move of an entry
    // that is already last; otherwise it ends at the first entry that was moved.
    method WakeFittingSenders()
      requires DistinctSenders(senders)
      modifies `senders, `woken
      ensures State() == WakeSenders(old(State()))
    {
      hide Scanned, WakeSenders, DistinctSenders, Without;
      ghost var q := State();
      ghost var k := 0;
      var stop: Option<Task> := None;
      var i := 0;
      ScanStarts(q);
      while i < |senders|
        invariant Scanned(q, State(), k, i, stop)
        decreases |q.senders| - k
      {
        var e := senders[i];
        if stop == Some(e.task) {
          ScanEnds(q, State(), k, i, stop);
          break;
        }
        ScanGoesOn(q, State(), k, i, stop);
        ScanMeetsNew(q, State(), k, i, stop);
        ScanFrame(q, State(), k, i, stop);
        if FitsNow(e.msg.size) {
          ScanWakes(q, State(), k, i, stop);
          ghost var now := State();
          woken := woken + {e.task};
          assert State() == now.(woken := now.woken + {q.senders[k].task});
          i := i + 1;
        } else {
          ScanMoves(q, State(), k, i, stop);
          ScanAtLast(q, State(), k, i, stop);
          WithoutIs(senders, i);
          var isLast := i + 1 == |senders|;
          ghost var now := State();
          senders := senders[..i] + senders[i + 1..] + [e];
          assert State() == now.(senders := Without(now.senders, i) + [q.senders[k]]);
          stop := if stop.None? then Some(e.task) else stop;
          if isLast {
            k := k + 1;
            break;
          }
        }
        k := k + 1;
      }
      ScanFrame(q, State(), k, i, stop);
      if i >= |senders| {
        ScanIsOver(q, State(), k, i, stop);
      }
      ScanMeetsMoved(q, State(), i, stop);
    }

    // expunge_all().
    method ExpungeAll(removed: bool)
      modifies `replies, `woken
      ensures State() == if removed then Dismiss(old(State())) else Nudge(old(State()))
    {
      hide Waiting;
      NobodyWaits();
      var i := 0;
      while i < |receivers|
        invariant 0 <= i <= |receivers|
        invariant woken == old(woken) + Waiting(receivers[..i])
        invariant replies == if removed then old(replies) + map t | t in Waiting(receivers[..i]) :: Gone else old(replies)
      {
        WaitingSnoc(receivers[..i], receivers[i]);
        assert receivers[..i + 1] == receivers[..i] + [receivers[i]];
        GoneSnoc(old(replies), Waiting(receivers[..i]), receivers[i].task);
        if removed {
          replies := replies[receivers[i].task := Gone];
        }
        woken := woken + {receivers[i].task};
        i := i + 1;
      }
      assert receivers[..i] == receivers;
    }

    // The last part of do_msgsnd(): hand the message over, or queue it and count it.
    method Post(ns: Namespace, m: Msg)
      modifies this, ns`msgHdrs, ns`msgBytes
      ensures With(ns) == Deliver(old(With(ns)), m)
    {
      OfferFrame(State(), m, 0);
      var taken := PipelinedSend(m);
      if !taken {
        messages := messages + [m];
        cbytes := cbytes + m.size;
        qnum := qnum + 1;
        ns.msgBytes := ns.msgBytes + m.size;
        ns.msgHdrs := ns.msgHdrs + 1;
      }
    }

    // do_msgsnd(), up to the point where the caller sleeps or is done.
    method Msgsnd(ns: Namespace, t: Task, m: Msg, nowait: bool) returns (o: Outcome)
      modifies this, ns`msgHdrs, ns`msgBytes
      ensures (With(ns), o) == Send(old(With(ns)), ns.msgCtlmax, t, m, nowait)
    {
      if m.size > ns.msgCtlmax || m.mtype < 1 {
        return Failed(EINVAL);
      }
      o := TryMsgsnd(ns, t, m, nowait);
    }

    method TryMsgsnd(ns: Namespace, t: Task, m: Msg, nowait: bool) returns (o: Outcome)
      modifies this, ns`msgHdrs, ns`msgBytes
      ensures (With(ns), o) == TrySend(old(With(ns)), t, m, nowait)
    {
      if !live {
        return Failed(EIDRM);
      }
      if FitsNow(m.size) {
        Post(ns, m);
        return Sent;
      }
      if nowait {
        return Failed(EAGAIN);
      }
      senders := senders + [Sender(t, m)];
      woken := woken - {t};
      return Sleeps;
    }

    // do_msgsnd() from schedule() on.
    method MsgsndResumes(ns: Namespace, i: nat, signal: bool) returns (o: Outcome)
      requires i < |senders|
      modifies this, ns`msgHdrs, ns`msgBytes
      ensures (With(ns), o) == ResumeSender(old(With(ns)), i, signal)
    {
      if !live {
        return Failed(EIDRM);
      }
      var e := senders[i];
      senders := senders[..i] + senders[i + 1..];
      woken := woken - {e.task};
      if signal {
        return Failed(ERESTART);
      }
      o := TryMsgsnd(ns, e.task, e.msg, false);
    }

    method Unlink(ns: Namespace, i: nat)
      requires i < |messages| && DistinctSenders(senders)
      modifies this, ns`msgHdrs, ns`msgBytes
      ensures With(ns) == Taken(old(With(ns)), i)
    {
      var m := messages[i];
      messages := messages[..i] + messages[i + 1..];
      qnum := qnum - 1;
      cbytes := cbytes - m.size;
      ns.msgBytes := ns.msgBytes - m.size;
      ns.msgHdrs := ns.msgHdrs - 1;
      SsWakeup(false);
    }

    // The loop of do_msgrcv().
    method TryMsgrcv(ns: Namespace, t: Task, w: Want) returns (o: Outcome)
      requires PositiveTypes(messages) && DistinctSenders(senders)
      modifies this, ns`msgHdrs, ns`msgBytes
      ensures (With(ns), o) == Receive(old(With(ns)), t, w)
    {
      if !live {
        return Failed(EIDRM);
      }
      var found := FindMsg(w.typ, w.mode);
      if found.Some? {
        var m := messages[found.value];
        if w.size < m.size && !w.noerror {
          return Failed(E2BIG);
        }
        if w.mode.Number? {
          return Copied(m);
        }
        Unlink(ns, found.value);
        return Received(m);
      }
      if w.nowait {
        return Failed(ENOMSG);
      }
      receivers := receivers + [Receiver(t, w.mode, w.typ, if w.noerror then INT_MAX else w.size)];
      replies := replies[t := Pending];
      woken := woken - {t};
      return Sleeps;
    }

    method DoMsgrcv(ns: Namespace, t: Task, typ: int, size: nat, noerror: bool, except: bool, copy: bool, nowait: bool)
      returns (o: Outcome)
      requires LONG_MIN <= typ <= LONG_MAX && PositiveTypes(messages) && DistinctSenders(senders)
      modifies this, ns`msgHdrs, ns`msgBytes
      ensures (With(ns), o) == Msgrcv(old(With(ns)), t, typ, size, noerror, except, copy, nowait)
    {
      if copy && (except || !nowait) {
        return Failed(EINVAL);
      }
      var (mode, ty) := ConvertMode(typ, copy, except);
      o := TryMsgrcv(ns, t, Want(mode, ty, size, noerror, nowait));
    }

    // do_msgrcv() from schedule() on; with None the caller goes through TryMsgrcv again.
    method MsgrcvResumes(t: Task, signal: bool) returns (o: Option<Outcome>)
      requires t in replies
      modifies this
      ensures (State(), o) == ResumeReceiver(old(State()), t, signal)
    {
      var reply := replies[t];
      replies := replies - {t};
      woken := woken - {t};
      match reply
      case Got(m) => o := Some(Received(m));
      case TooBig => o := Some(Failed(E2BIG));
      case Gone => o := Some(Failed(EIDRM));
      case Pending =>
        var i := IndexOf(receivers, t);
        if i.Some? {
          receivers := receivers[..i.value] + receivers[i.value + 1..];
        }
        o := if signal then Some(Failed(ERESTART)) else None;
    }

    // IPC_SET.
    method IpcSet(newLimit: int)
      requires DistinctSenders(senders)
      modifies this
      ensures State() == SetLimit(old(State()), newLimit)
    {
      qbytes := newLimit;
      ExpungeAll(false);
      SsWakeup(false);
    }

    // freeque().
    method Freeque(ns: Namespace)
      requires DistinctSenders(senders)
      modifies this, ns`msgHdrs, ns`msgBytes
      ensures With(ns) == Remove(old(With(ns)))
    {
      ExpungeAll(true);
      SsWakeup(true);
      live := false;
      while messages != []
        invariant ns.msgHdrs - |messages| == old(ns.msgHdrs - |messages|)
        invariant State() == Dismiss(old(State())).(live := false, messages := messages, woken := woken)
        invariant woken == Dismiss(old(State())).woken + Tasks(old(senders))
        invariant ns.msgBytes == old(ns.msgBytes)
        decreases |messages|
      {
        ns.msgHdrs := ns.msgHdrs - 1;
        messages := messages[1..];
      }
      ns.msgBytes := ns.msgBytes - cbytes;
    }
  }
}
