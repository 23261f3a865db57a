// The calls on message queues keep the invariant and lose, repeat or reorder no message: one step at
// a time, then over whole runs of a namespace with any number of queues.
module MsgHistory {
  import opened MsgSpec
  import opened MsgRuns

  // ---- ss_wakeup -------------------------------------------------------------------------------

  lemma {:induction false} FittingFits(q: Queue, l: seq<Sender>, fits: bool)
    ensures forall i | 0 <= i < |Fitting(q, l, fits)| ::
      Fitting(q, l, fits)[i] in l && Fits(q, Fitting(q, l, fits)[i].msg.size) == fits
    decreases |l|
  {
    if l != [] {
      FittingFits(q, l[1..], fits);
    }
  }

  lemma {:induction false} FittingDistinct(q: Queue, l: seq<Sender>, fits: bool)
    requires DistinctSenders(l)
    ensures DistinctSenders(Fitting(q, l, fits))
    decreases |l|
  {
    if l != [] {
      FittingDistinct(q, l[1..], fits);
      FittingFits(q, l[1..], fits);
      var f := Fitting(q, l[1..], fits);
      forall i | 0 <= i < |f| ensures f[i].task != l[0].task {
        var j :| 0 <= j < |l[1..]| && l[1..][j] == f[i];
        assert l[j + 1] == f[i];
      }
    }
  }

  lemma HeadAndRest(l: seq<Sender>)
    requires l != []
    ensures multiset(l) == multiset{l[0]} + multiset(l[1..])
  {
    assert l == [l[0]] + l[1..];
  }

  lemma {:induction false} FittingSplits(q: Queue, l: seq<Sender>)
    ensures multiset(Fitting(q, l, true)) + multiset(Fitting(q, l, false)) == multiset(l)
    decreases |l|
  {
    if l != [] {
      hide Fits;
      FittingSplits(q, l[1..]);
      HeadAndRest(l);
      if Fits(q, l[0].msg.size) {
        assert Fitting(q, l, true) == [l[0]] + Fitting(q, l[1..], true) && Fitting(q, l, false) == Fitting(q, l[1..], false);
      } else {
        assert Fitting(q, l, false) == [l[0]] + Fitting(q, l[1..], false) && Fitting(q, l, true) == Fitting(q, l[1..], true);
      }
    }
  }

  // Every sleeping sender is looked at once: the ones that fit are woken, the ones that do not keep
  // their order, and nobody is lost.
  lemma WakeSendersMeaning(q: Queue)
    ensures multiset(WakeSenders(q).senders) == multiset(q.senders)
    ensures forall i | 0 <= i < |WakeSenders(q).senders| ::
      WakeSenders(q).senders[i].task in WakeSenders(q).woken || !Fits(q, WakeSenders(q).senders[i].msg.size)
    ensures forall t | t in WakeSenders(q).woken && t !in q.woken ::
      exists e :: e in q.senders && e.task == t && Fits(q, e.msg.size)
  {
    FittingSplits(q, q.senders);
    FittingFits(q, q.senders, true);
    FittingFits(q, q.senders, false);
    var yes, no := Fitting(q, q.senders, true), Fitting(q, q.senders, false);
    var l := yes + no;
    forall i | 0 <= i < |l| ensures l[i].task in q.woken + Tasks(yes) || !Fits(q, l[i].msg.size)
    {
      if i < |yes| {
        assert yes[i].task in Tasks(yes);
      }
    }
    forall t | t in Tasks(yes) ensures exists e :: e in q.senders && e.task == t && Fits(q, e.msg.size) {
      var i :| 0 <= i < |yes| && yes[i].task == t;
      assert yes[i] in q.senders;
    }
  }

  lemma WakeSendersDistinct(q: Queue)
    requires DistinctSenders(q.senders)
    ensures DistinctSenders(WakeSenders(q).senders)
    ensures forall i | 0 <= i < |WakeSenders(q).senders| :: WakeSenders(q).senders[i] in q.senders
  {
    var yes, no := Fitting(q, q.senders, true), Fitting(q, q.senders, false);
    FittingFits(q, q.senders, true);
    FittingFits(q, q.senders, false);
    FittingDistinct(q, q.senders, true);
    FittingDistinct(q, q.senders, false);
    forall i, j | 0 <= i < |yes| && 0 <= j < |no| ensures yes[i].task != no[j].task {
      assert yes[i] in q.senders && no[j] in q.senders;
    }
  }

  // Whatever changed the room in the queue, waking the senders restores the invariant.
  lemma WakeSendersKeeps(q: Queue)
    requires Counted(q) && NoneOverlooked(q) && Slots(q) && OneSleep(q) && PositiveTypes(q.messages)
    ensures Inv(WakeSenders(q))
  {
    WakeSendersMeaning(q);
    WakeSendersDistinct(q);
    var q' := WakeSenders(q);
    forall i | 0 <= i < |q'.senders| ensures q'.senders[i] in q.senders {}
  }

  // ---- sending ----------------------------------------------------------------------------------

  datatype Take = Take(task: Task, msg: Msg)

  // Messages accepted from senders; taken out of the queue or handed over, by whom; returned by
  // msgrcv, to whom; freed with the queue. All in the order in which it happened.
  datatype Log = Log(accepted: seq<Msg>, taken: seq<Take>, returned: seq<Take>, freed: seq<Msg>)

  function Msgs(l: seq<Take>): seq<Msg> {
    if l == [] then [] else [l[0].msg] + Msgs(l[1..])
  }

  function By(t: Task, l: seq<Take>): seq<Msg> {
    if l == [] then [] else (if l[0].task == t then [l[0].msg] else []) + By(t, l[1..])
  }

  lemma {:induction false} MsgsAppend(l: seq<Take>, x: Take)
    ensures Msgs(l + [x]) == Msgs(l) + [x.msg]
    decreases |l|
  {
    if l == [] {
      assert l + [x] == [x];
    } else {
      assert (l + [x])[1..] == l[1..] + [x];
      MsgsAppend(l[1..], x);
    }
  }

  lemma {:induction false} ByAppend(t: Task, l: seq<Take>, x: Take)
    ensures By(t, l + [x]) == By(t, l) + if x.task == t then [x.msg] else []
    decreases |l|
  {
    if l == [] {
      assert l + [x] == [x] && [x][1..] == [];
    } else {
      assert (l + [x])[0] == l[0] && (l + [x])[1..] == l[1..] + [x];
      ByAppend(t, l[1..], x);
      var head := if l[0].task == t then [l[0].msg] else [];
      var last := if x.task == t then [x.msg] else [];
      assert By(t, l + [x]) == head + (By(t, l[1..]) + last) == (head + By(t, l[1..])) + last;
    }
  }

  // Messages of one type leave in the order in which they were accepted, and none is lost.
  ghost predicate InOrder(q: Queue, log: Log) {
    forall k: int :: OfType(k, log.accepted) == OfType(k, Msgs(log.taken)) + OfType(k, q.messages + log.freed)
  }

  // Every message a task took it has returned with, or still holds in its slot, in that order.
  ghost predicate Delivered(q: Queue, log: Log) {
    forall t: Task :: By(t, log.taken) == By(t, log.returned) + Held(q, t)
  }

  ghost predicate LogInv(q: Queue, log: Log) {
    InOrder(q, log) && Delivered(q, log) && (q.live ==> log.freed == [])
  }

  function TakenNow(taker: Option<Task>, m: Msg): seq<Take> {
    if taker.Some? then [Take(taker.value, m)] else []
  }

  function Accepted(log: Log, q: Queue, m: Msg): Log {
    log.(accepted := log.accepted + [m], taken := log.taken + TakenNow(Offer(q, m, 0).1, m))
  }

  lemma OfferInv(q: Queue, m: Msg)
    requires q.live && Inv(q)
    ensures Inv(Offer(q, m, 0).0)
  {
    OfferKeeps(q, m, 0);
  }

  lemma EnqueuedInv(s: Store, m: Msg)
    requires s.q.live && Inv(s.q) && m.mtype >= 1
    requires forall j | 0 <= j < |s.q.receivers| :: !Matches(m, s.q.receivers[j])
    ensures Inv(Enqueued(s, m).q)
  {
    BytesSplits(s.q.messages, [m]);
  }

  lemma DeliverKeepsInv(s: Store, m: Msg)
    requires s.q.live && Inv(s.q) && m.mtype >= 1
    ensures Inv(Deliver(s, m).q)
  {
    OfferKeeps(s.q, m, 0);
    OfferInv(s.q, m);
    var (q, taker) := Offer(s.q, m, 0);
    if taker.None? {
      EnqueuedInv(s.(q := q), m);
    }
  }

  lemma HandedInOrder(q: Queue, log: Log, t: Task, m: Msg, r: Receiver)
    requires q.live && NoneOverlooked(q) && LogInv(q, log) && r in q.receivers && Matches(m, r)
    ensures InOrder(q, log.(accepted := log.accepted + [m], taken := log.taken + [Take(t, m)]))
  {
    forall i | 0 <= i < |q.messages| ensures q.messages[i].mtype != m.mtype {
      assert !Matches(q.messages[i], r);
    }
    NoneOfType(m.mtype, q.messages);
    MsgsAppend(log.taken, Take(t, m));
    assert q.messages + [] == q.messages;
    forall k: int
      ensures OfType(k, log.accepted + [m]) == OfType(k, Msgs(log.taken + [Take(t, m)])) + OfType(k, q.messages + log.freed)
    {
      OfTypeSplits(k, log.accepted, [m]);
      OfTypeSplits(k, Msgs(log.taken), [m]);
    }
  }

  lemma EnqueuedInOrder(q: Queue, log: Log, m: Msg)
    requires q.live && LogInv(q, log)
    ensures InOrder(q.(messages := q.messages + [m], cbytes := q.cbytes + m.size, qnum := q.qnum + 1),
                    log.(accepted := log.accepted + [m]))
  {
    assert q.messages + [] == q.messages && (q.messages + [m]) + [] == q.messages + [m];
    forall k: int ensures OfType(k, log.accepted + [m]) == OfType(k, Msgs(log.taken)) + OfType(k, q.messages + [m]) {
      OfTypeSplits(k, log.accepted, [m]);
      OfTypeSplits(k, q.messages, [m]);
    }
  }

  lemma DeliverInOrder(s: Store, log: Log, m: Msg)
    requires s.q.live && Inv(s.q) && LogInv(s.q, log)
    ensures InOrder(Deliver(s, m).q, Accepted(log, s.q, m))
  {
    OfferKeeps(s.q, m, 0);
    var (q, taker) := Offer(s.q, m, 0);
    if taker.Some? {
      var r :| r in s.q.receivers && Matches(m, r);
      HandedInOrder(s.q, log, taker.value, m, r);
    } else {
      assert log.taken + [] == log.taken;
      EnqueuedInOrder(s.q, log, m);
    }
  }

  lemma DeliverDelivered(s: Store, log: Log, m: Msg)
    requires s.q.live && Inv(s.q) && Delivered(s.q, log)
    ensures Delivered(Deliver(s, m).q, Accepted(log, s.q, m))
  {
    OfferKeeps(s.q, m, 0);
    var (q, taker) := Offer(s.q, m, 0);
    assert taker.None? ==> Accepted(log, s.q, m).taken == log.taken;
    forall t: Task ensures By(t, Accepted(log, s.q, m).taken) == By(t, log.returned) + Held(q, t) {
      if taker.Some? {
        ByAppend(t, log.taken, Take(taker.value, m));
      }
    }
    forall t: Task ensures Held(Deliver(s, m).q, t) == Held(q, t) {}
  }

  lemma DeliverKeeps(s: Store, log: Log, m: Msg)
    requires s.q.live && Inv(s.q) && LogInv(s.q, log) && m.mtype >= 1
    ensures Inv(Deliver(s, m).q) && LogInv(Deliver(s, m).q, Accepted(log, s.q, m))
    ensures Deliver(s, m).hdrs - s.hdrs == |Deliver(s, m).q.messages| - |s.q.messages|
    ensures Deliver(s, m).bytes - s.bytes == Bytes(Deliver(s, m).q.messages) - Bytes(s.q.messages)
  {
    DeliverKeepsInv(s, m);
    DeliverInOrder(s, log, m);
    DeliverDelivered(s, log, m);
    OfferKeeps(s.q, m, 0);
    BytesSplits(s.q.messages, [m]);
  }

  function Sending(log: Log, q: Queue, m: Msg, o: Outcome): Log {
    if o.Sent? then Accepted(log, q, m) else log
  }

  // How a step has to treat the queue, its log and the counters of the namespace.
  ghost predicate Keeps(s: Store, s': Store, log': Log) {
    && Inv(s'.q) && LogInv(s'.q, log')
    && s'.hdrs - s.hdrs == |s'.q.messages| - |s.q.messages|
    && s'.bytes - s.bytes == Bytes(s'.q.messages) - Bytes(s.q.messages)
  }

  lemma TrySendKeeps(s: Store, log: Log, t: Task, m: Msg, nowait: bool)
    requires Inv(s.q) && LogInv(s.q, log) && m.mtype >= 1 && !Asleep(s.q, t)
    ensures Keeps(s, TrySend(s, t, m, nowait).0, Sending(log, s.q, m, TrySend(s, t, m, nowait).1))
  {
    if s.q.live && Fits(s.q, m.size) {
      DeliverKeeps(s, log, m);
    } else if s.q.live && !nowait {
      var q' := SleepSending(s.q, t, m);
      forall i | 0 <= i < |s.q.senders| ensures s.q.senders[i].task != t {
        assert s.q.senders[i].task in Tasks(s.q.senders);
      }
      forall u: Task ensures Held(q', u) == Held(s.q, u) {}
    }
  }

  function AwakeSender(q: Queue, i: nat): Queue
    requires i < |q.senders|
  {
    q.(senders := Without(q.senders, i), woken := q.woken - {q.senders[i].task})
  }

  lemma SendersWithout(l: seq<Sender>, i: nat)
    requires i < |l| && DistinctSenders(l)
    ensures |Without(l, i)| == |l| - 1 && DistinctSenders(Without(l, i)) && l[i].task !in Tasks(Without(l, i))
    ensures forall j | 0 <= j < |l| - 1 :: Without(l, i)[j] == l[if j < i then j else j + 1]
  {
    WithoutAt(l, i);
  }

  lemma SlotsIgnoreSenders(q: Queue, q': Queue)
    requires q' == q.(senders := q'.senders, woken := q'.woken) && Slots(q) && NoneOverlooked(q)
    ensures Slots(q') && NoneOverlooked(q')
  {
  }

  lemma AwakeSenderKeeps(q: Queue, log: Log, i: nat)
    requires Inv(q) && LogInv(q, log) && q.live && i < |q.senders|
    ensures Inv(AwakeSender(q, i)) && LogInv(AwakeSender(q, i), log) && !Asleep(AwakeSender(q, i), q.senders[i].task)
  {
    hide Without, Slots, NoneOverlooked;
    var q' := AwakeSender(q, i);
    SendersWithout(q.senders, i);
    SlotsIgnoreSenders(q, q');
    assert forall u: Task :: Held(q', u) == Held(q, u);
  }

  function ResumeSenderLog(s: Store, log: Log, i: nat, signal: bool): Log
    requires i < |s.q.senders|
  {
    Sending(log, AwakeSender(s.q, i), s.q.senders[i].msg, ResumeSender(s, i, signal).1)
  }

  lemma ResumeSenderKeeps(s: Store, log: Log, i: nat, signal: bool)
    requires Inv(s.q) && LogInv(s.q, log) && i < |s.q.senders|
    ensures Keeps(s, ResumeSender(s, i, signal).0, ResumeSenderLog(s, log, i, signal))
  {
    if s.q.live {
      AwakeSenderKeeps(s.q, log, i);
      var e := s.q.senders[i];
      if !signal {
        TrySendKeeps(s.(q := AwakeSender(s.q, i)), log, e.task, e.msg, false);
      }
    }
  }

  // ---- receiving ---------------------------------------------------------------------------------

  lemma TakenKeepsInv(s: Store, i: nat)
    requires s.q.live && Inv(s.q) && i < |s.q.messages|
    ensures Inv(Taken(s, i).q)
  {
    var m := s.q.messages[i];
    var q := s.q.(messages := Without(s.q.messages, i), qnum := s.q.qnum - 1, cbytes := s.q.cbytes - m.size);
    BytesWithout(s.q.messages, i);
    assert forall j | 0 <= j < |q.messages| :: q.messages[j] == s.q.messages[if j < i then j else j + 1];
    WakeSendersKeeps(q);
  }

  function Returning(log: Log, t: Task, m: Msg): Log {
    log.(taken := log.taken + [Take(t, m)], returned := log.returned + [Take(t, m)])
  }

  lemma TakenInOrder(s: Store, log: Log, i: nat, t: Task, w: Want)
    requires s.q.live && LogInv(s.q, log) && !w.mode.Number? && Selected(s.q.messages, w.typ, w.mode, i)
    ensures InOrder(Taken(s, i).q, Returning(log, t, s.q.messages[i]))
  {
    var m, left := s.q.messages[i], Without(s.q.messages, i);
    var log' := Returning(log, t, m);
    MsgsAppend(log.taken, Take(t, m));
    SelectedIsOldestOfType(s.q.messages, w.typ, w.mode, i);
    assert s.q.messages + [] == s.q.messages && left + [] == left;
    forall k: int ensures OfType(k, log'.accepted) == OfType(k, Msgs(log'.taken)) + OfType(k, left + log'.freed) {
      OldestLeaves(k, s.q.messages, i);
      OfTypeSplits(k, Msgs(log.taken), [m]);
    }
  }

  lemma ReturningDelivered(q: Queue, log: Log, t: Task, m: Msg)
    requires Delivered(q, log) && t !in q.replies
    ensures Delivered(q, Returning(log, t, m))
  {
    forall u: Task ensures By(u, Returning(log, t, m).taken) == By(u, Returning(log, t, m).returned) + Held(q, u) {
      ByAppend(u, log.taken, Take(t, m));
      ByAppend(u, log.returned, Take(t, m));
    }
  }

  function Receiving(log: Log, t: Task, o: Outcome): Log {
    if o.Received? then Returning(log, t, o.msg) else log
  }

  lemma DistinctPlus(l: seq<Receiver>, r: Receiver)
    requires r.task !in Waiting(l) && DistinctReceivers(l)
    ensures DistinctReceivers(l + [r])
  {
    forall i | 0 <= i < |l| ensures l[i].task in Waiting(l) {}
  }

  lemma SleepReceivingSlots(q: Queue, r: Receiver)
    requires q.live && Slots(q) && r.task !in q.replies && !r.mode.Number?
    ensures Slots(SleepReceiving(q, r))
  {
    hide Slots, Waiting, DistinctReceivers;
    SlotsByTask(q);
    WaitingSnoc(q.receivers, r);
    DistinctPlus(q.receivers, r);
    SlotsFromTasks(SleepReceiving(q, r));
  }

  lemma SleepReceivingOneSleep(q: Queue, r: Receiver)
    requires OneSleep(q) && SendersBlocked(q) && !Asleep(q, r.task)
    ensures OneSleep(SleepReceiving(q, r)) && SendersBlocked(SleepReceiving(q, r))
  {
    forall i | 0 <= i < |q.senders| ensures q.senders[i].task != r.task {
      assert q.senders[i].task in Tasks(q.senders);
    }
  }

  lemma SleepReceivingKeeps(q: Queue, log: Log, r: Receiver)
    requires q.live && Inv(q) && LogInv(q, log) && !Asleep(q, r.task) && !r.mode.Number?
    requires forall j | 0 <= j < |q.messages| :: !Test(q.messages[j], r.mtype, r.mode)
    ensures Inv(SleepReceiving(q, r)) && LogInv(SleepReceiving(q, r), log)
  {
    hide Slots, OneSleep, SendersBlocked;
    SleepReceivingSlots(q, r);
    SleepReceivingOneSleep(q, r);
    forall u: Task ensures Held(SleepReceiving(q, r), u) == Held(q, u) {}
  }

  lemma ReceiveKeeps(s: Store, log: Log, t: Task, w: Want)
    requires Inv(s.q) && LogInv(s.q, log) && !Asleep(s.q, t) && (w.mode.Number? ==> w.nowait)
    ensures Keeps(s, Receive(s, t, w).0, Receiving(log, t, Receive(s, t, w).1))
  {
    if s.q.live {
      match Find(s.q.messages, w.typ, w.mode)
      case Some(i) =>
        if !w.mode.Number? {
          TakenKeepsInv(s, i);
          TakenInOrder(s, log, i, t, w);
          assert forall u: Task :: Held(Taken(s, i).q, u) == Held(s.q, u);
          ReturningDelivered(Taken(s, i).q, log, t, s.q.messages[i]);
          BytesWithout(s.q.messages, i);
        }
      case None =>
        if !w.nowait {
          SleepReceivingKeeps(s.q, log, Receiver(t, w.mode, w.typ, if w.noerror then INT_MAX else w.size));
        }
    }
  }

  function ResumeReceiverLog(q: Queue, log: Log, t: Task): Log
    requires t in q.replies
  {
    if q.replies[t].Got? then log.(returned := log.returned + [Take(t, q.replies[t].msg)]) else log
  }

  function Withdrawn(q: Queue, i: nat): Queue
    requires i < |q.receivers|
  {
    var t := q.receivers[i].task;
    q.(replies := q.replies - {t}, woken := q.woken - {t}, receivers := Without(q.receivers, i))
  }

  lemma WithdrawnSlots(q: Queue, i: nat)
    requires q.live && Slots(q) && i < |q.receivers|
    ensures Slots(Withdrawn(q, i))
  {
    hide Slots, Waiting, DistinctReceivers, NoneNumber, Without;
    SlotsByTask(q);
    WaitingWithout(q.receivers, i);
    NoneNumberWithout(q.receivers, i);
    SlotsFromTasks(Withdrawn(q, i));
  }

  lemma WithdrawnOverlooksNone(q: Queue, i: nat)
    requires i < |q.receivers| && NoneOverlooked(q)
    ensures NoneOverlooked(Withdrawn(q, i))
  {
    hide Without, Matches;
    WithoutAt(q.receivers, i);
  }

  lemma WithdrawnSenders(q: Queue, i: nat)
    requires q.live && i < |q.receivers| && Slots(q) && OneSleep(q) && SendersBlocked(q)
    ensures OneSleep(Withdrawn(q, i)) && SendersBlocked(Withdrawn(q, i))
  {
    hide Without;
    assert q.receivers[i].task in q.replies;
  }

  lemma WithdrawnKeepsInv(q: Queue, i: nat)
    requires q.live && Inv(q) && i < |q.receivers|
    ensures Inv(Withdrawn(q, i))
  {
    hide Slots, NoneOverlooked, OneSleep, SendersBlocked, Without;
    WithdrawnSlots(q, i);
    WithdrawnOverlooksNone(q, i);
    WithdrawnSenders(q, i);
  }

  lemma ResumeReceiverKeepsInv(q: Queue, t: Task, signal: bool)
    requires Inv(q) && t in q.replies
    ensures Inv(ResumeReceiver(q, t, signal).0)
  {
    if q.replies[t].Pending? {
      assert t in Waiting(q.receivers);
      WithdrawnKeepsInv(q, IndexOf(q.receivers, t).value);
    } else if q.live {
      forall j | 0 <= j < |q.receivers| ensures q.receivers[j].task != t {}
    }
  }

  lemma ResumeReceiverMessages(q: Queue, t: Task, signal: bool)
    requires t in q.replies
    ensures ResumeReceiver(q, t, signal).0.messages == q.messages && ResumeReceiver(q, t, signal).0.live == q.live
    ensures ResumeReceiver(q, t, signal).0.replies == q.replies - {t}
  {
  }

  lemma SameMessagesInOrder(q: Queue, q': Queue, log: Log, log': Log)
    requires InOrder(q, log) && q'.messages == q.messages
    requires log'.accepted == log.accepted && log'.taken == log.taken && log'.freed == log.freed
    ensures InOrder(q', log')
  {
  }

  lemma ResumeReceiverDelivered(q: Queue, log: Log, t: Task, signal: bool)
    requires Delivered(q, log) && t in q.replies
    ensures Delivered(ResumeReceiver(q, t, signal).0, ResumeReceiverLog(q, log, t))
  {
    hide ResumeReceiver;
    ResumeReceiverMessages(q, t, signal);
    var q', log' := ResumeReceiver(q, t, signal).0, ResumeReceiverLog(q, log, t);
    forall u: Task ensures By(u, log'.taken) == By(u, log'.returned) + Held(q', u) {
      if q.replies[t].Got? {
        ByAppend(u, log.returned, Take(t, q.replies[t].msg));
      }
    }
  }

  lemma ResumeReceiverKeeps(s: Store, log: Log, t: Task, signal: bool)
    requires Inv(s.q) && LogInv(s.q, log) && t in s.q.replies
    ensures Keeps(s, s.(q := ResumeReceiver(s.q, t, signal).0), ResumeReceiverLog(s.q, log, t))
  {
    hide Inv, Delivered, InOrder;
    ResumeReceiverKeepsInv(s.q, t, signal);
    ResumeReceiverMessages(s.q, t, signal);
    ResumeReceiverDelivered(s.q, log, t, signal);
    SameMessagesInOrder(s.q, ResumeReceiver(s.q, t, signal).0, log, ResumeReceiverLog(s.q, log, t));
  }

  // ---- IPC_SET, IPC_RMID --------------------------------------------------------------------------

  lemma SetLimitKeeps(s: Store, log: Log, qbytes: int)
    requires s.q.live && Inv(s.q) && LogInv(s.q, log)
    ensures Keeps(s, s.(q := SetLimit(s.q, qbytes)), log)
  {
    WakeSendersKeeps(Nudge(s.q.(qbytes := qbytes)));
    forall u: Task ensures Held(SetLimit(s.q, qbytes), u) == Held(s.q, u) {}
  }

  function Freeing(log: Log, q: Queue): Log {
    log.(freed := log.freed + q.messages)
  }

  lemma RemoveKeeps(s: Store, log: Log)
    requires s.q.live && Inv(s.q) && LogInv(s.q, log)
    ensures Keeps(s, Remove(s), Freeing(log, s.q))
  {
    var q' := Remove(s).q;
    forall t | t in q'.replies ensures !q'.replies[t].Pending? {}
    assert s.q.messages + [] == [] + ([] + s.q.messages);
    forall u: Task ensures Held(q', u) == Held(s.q, u) {
      if u in Waiting(s.q.receivers) {
        var i :| 0 <= i < |s.q.receivers| && s.q.receivers[i].task == u;
        assert s.q.replies[u].Pending?;
      }
    }
  }

  // ---- runs -----------------------------------------------------------------------------------------

  datatype Action =
    | DoSend(ctlmax: nat, t: Task, m: Msg, nowait: bool)
    | DoResumeSender(i: nat, signal: bool)
    | DoReceive(t: Task, typ: int, size: nat, noerror: bool, except: bool, copy: bool, nowait: bool)
    | DoRetry(t: Task, w: Want)
    | DoResumeReceiver(t: Task, signal: bool)
    | DoSetLimit(qbytes: int)
    | DoRemove

  // A task that sleeps on a queue makes no other call on it.
  predicate Allowed(q: Queue, a: Action) {
    match a
    case DoSend(_, t, _, _) => !Asleep(q, t)
    case DoResumeSender(i, _) => i < |q.senders|
    case DoReceive(t, typ, _, _, _, _, _) => !Asleep(q, t) && LONG_MIN <= typ <= LONG_MAX
    case DoRetry(t, w) => !Asleep(q, t) && !w.mode.Number?
    case DoResumeReceiver(t, _) => t in q.replies
    case DoSetLimit(_) => q.live
    case DoRemove => q.live
  }

  function Apply(s: Store, log: Log, a: Action): (Store, Log)
    requires Allowed(s.q, a)
  {
    match a
    case DoSend(ctlmax, t, m, nowait) =>
      var (s', o) := Send(s, ctlmax, t, m, nowait);
      (s', Sending(log, s.q, m, o))
    case DoResumeSender(i, signal) =>
      (ResumeSender(s, i, signal).0, ResumeSenderLog(s, log, i, signal))
    case DoReceive(t, typ, size, noerror, except, copy, nowait) =>
      var (s', o) := Msgrcv(s, t, typ, size, noerror, except, copy, nowait);
      (s', Receiving(log, t, o))
    case DoRetry(t, w) =>
      var (s', o) := Receive(s, t, w);
      (s', Receiving(log, t, o))
    case DoResumeReceiver(t, signal) =>
      (s.(q := ResumeReceiver(s.q, t, signal).0), ResumeReceiverLog(s.q, log, t))
    case DoSetLimit(qbytes) => (s.(q := SetLimit(s.q, qbytes)), log)
    case DoRemove => (Remove(s), Freeing(log, s.q))
  }

  lemma ApplyKeeps(s: Store, log: Log, a: Action)
    requires Inv(s.q) && LogInv(s.q, log) && Allowed(s.q, a)
    ensures Keeps(s, Apply(s, log, a).0, Apply(s, log, a).1)
  {
    match a
    case DoSend(ctlmax, t, m, nowait) =>
      if m.size <= ctlmax && m.mtype >= 1 {
        TrySendKeeps(s, log, t, m, nowait);
      }
    case DoResumeSender(i, signal) => ResumeSenderKeeps(s, log, i, signal);
    case DoReceive(t, typ, size, noerror, except, copy, nowait) =>
      if !(copy && (except || !nowait)) {
        var (mode, ty) := ConvertMode(typ, copy, except);
        ReceiveKeeps(s, log, t, Want(mode, ty, size, noerror, nowait));
      }
    case DoRetry(t, w) => ReceiveKeeps(s, log, t, w);
    case DoResumeReceiver(t, signal) => ResumeReceiverKeeps(s, log, t, signal);
    case DoSetLimit(qbytes) => SetLimitKeeps(s, log, qbytes);
    case DoRemove => RemoveKeeps(s, log);
  }

  datatype Line = Line(q: Queue, log: Log)

  datatype Space = Space(lines: seq<Line>, hdrs: int, bytes: int)

  datatype Event = Create(qbytes: nat) | On(n: nat, a: Action)

  predicate Possible(x: Space, e: Event) {
    match e
    case Create(_) => true
    case On(n, a) => n < |x.lines| && Allowed(x.lines[n].q, a)
  }

  function Next(x: Space, e: Event): Space
    requires Possible(x, e)
  {
    match e
    case Create(qbytes) => x.(lines := x.lines + [Line(Created(qbytes), Log([], [], [], []))])
    case On(n, a) =>
      var (s, log) := Apply(Store(x.lines[n].q, x.hdrs, x.bytes), x.lines[n].log, a);
      Space(x.lines[n := Line(s.q, log)], s.hdrs, s.bytes)
  }

  ghost predicate Leads(x: Space, run: seq<Event>, y: Space)
    decreases |run|
  {
    if run == [] then x == y
    else Possible(x, run[0]) && Leads(Next(x, run[0]), run[1..], y)
  }

  ghost predicate Reachable(x: Space) {
    exists run :: Leads(Space([], 0, 0), run, x)
  }

  function HdrsOf(lines: seq<Line>): nat {
    if lines == [] then 0 else |lines[0].q.messages| + HdrsOf(lines[1..])
  }

  function BytesOf(lines: seq<Line>): nat {
    if lines == [] then 0 else Bytes(lines[0].q.messages) + BytesOf(lines[1..])
  }

  lemma {:induction false} SumsUpdate(lines: seq<Line>, n: nat, l: Line)
    requires n < |lines|
    ensures HdrsOf(lines[n := l]) == HdrsOf(lines) - |lines[n].q.messages| + |l.q.messages|
    ensures BytesOf(lines[n := l]) == BytesOf(lines) - Bytes(lines[n].q.messages) + Bytes(l.q.messages)
    decreases |lines|
  {
    if n == 0 {
      assert lines[n := l][1..] == lines[1..];
    } else {
      assert lines[n := l][1..] == lines[1..][n - 1 := l];
      SumsUpdate(lines[1..], n - 1, l);
    }
  }

  lemma {:induction false} SumsAppend(lines: seq<Line>, l: Line)
    ensures HdrsOf(lines + [l]) == HdrsOf(lines) + |l.q.messages|
    ensures BytesOf(lines + [l]) == BytesOf(lines) + Bytes(l.q.messages)
    decreases |lines|
  {
    if lines == [] {
      assert lines + [l] == [l];
    } else {
      assert (lines + [l])[1..] == lines[1..] + [l];
      SumsAppend(lines[1..], l);
    }
  }

  ghost predicate SpaceInv(x: Space) {
    && x.hdrs == HdrsOf(x.lines) && x.bytes == BytesOf(x.lines)
    && forall n | 0 <= n < |x.lines| :: Inv(x.lines[n].q) && LogInv(x.lines[n].q, x.lines[n].log)
  }

  lemma CreatedKeeps(qbytes: nat)
    ensures Inv(Created(qbytes)) && LogInv(Created(qbytes), Log([], [], [], [])) && Bytes(Created(qbytes).messages) == 0
  {
    var q, log := Created(qbytes), Log([], [], [], []);
    assert forall k: int :: OfType(k, []) == [];
    assert forall t: Task :: By(t, []) == [] && Held(q, t) == [];
  }

  lemma NextKeeps(x: Space, e: Event)
    requires SpaceInv(x) && Possible(x, e)
    ensures SpaceInv(Next(x, e))
  {
    hide Apply, Inv, LogInv, HdrsOf, BytesOf;
    match e
    case Create(qbytes) =>
      CreatedKeeps(qbytes);
      SumsAppend(x.lines, Line(Created(qbytes), Log([], [], [], [])));
    case On(n, a) =>
      var s := Store(x.lines[n].q, x.hdrs, x.bytes);
      ApplyKeeps(s, x.lines[n].log, a);
      SumsUpdate(x.lines, n, Next(x, e).lines[n]);
  }

  lemma {:induction false} RunKeeps(x: Space, run: seq<Event>, y: Space)
    requires SpaceInv(x) && Leads(x, run, y)
    ensures SpaceInv(y)
    decreases |run|
  {
    if run != [] {
      NextKeeps(x, run[0]);
      RunKeeps(Next(x, run[0]), run[1..], y);
    }
  }

  lemma ReachableInv(x: Space)
    requires Reachable(x)
    ensures SpaceInv(x)
  {
    var run :| Leads(Space([], 0, 0), run, x);
    RunKeeps(Space([], 0, 0), run, x);
  }

  // No overlooked receiver and no sender asleep without a reason, in any queue after any run.
  lemma NobodyWaitsInVain(x: Space, n: nat)
    requires Reachable(x) && n < |x.lines|
    ensures var q := x.lines[n].q;
      && (forall i, j | 0 <= i < |q.messages| && 0 <= j < |q.receivers| :: !Matches(q.messages[i], q.receivers[j]))
      && (q.live ==> forall i | 0 <= i < |q.senders| :: q.senders[i].task in q.woken || !Fits(q, q.senders[i].msg.size))
      && (!q.live ==> forall t | t in q.replies :: !q.replies[t].Pending?)
  {
    ReachableInv(x);
  }

  // Messages of one type are taken in the order in which they were accepted, although a hand-off
  // passes by the queue; a message is in one place only, and what a task took it gets.
  lemma FifoPerType(x: Space, n: nat, k: int)
    requires Reachable(x) && n < |x.lines|
    ensures var l := x.lines[n];
      && OfType(k, l.log.accepted) == OfType(k, Msgs(l.log.taken)) + OfType(k, l.q.messages + l.log.freed)
      && (l.q.live ==> l.log.freed == []) && (!l.q.live ==> l.q.messages == [])
  {
    ReachableInv(x);
  }

  lemma TakenMeansReturned(x: Space, n: nat, t: Task)
    requires Reachable(x) && n < |x.lines|
    ensures var l := x.lines[n];
      By(t, l.log.taken) == By(t, l.log.returned) + Held(l.q, t)
  {
    ReachableInv(x);
  }

  // The counters of each queue, and the two that all queues share.
  lemma CountersAgree(x: Space)
    requires Reachable(x)
    ensures x.hdrs == HdrsOf(x.lines) && x.bytes == BytesOf(x.lines)
    ensures forall n | 0 <= n < |x.lines| && x.lines[n].q.live ::
      x.lines[n].q.qnum == |x.lines[n].q.messages| && x.lines[n].q.cbytes == Bytes(x.lines[n].q.messages)
  {
    ReachableInv(x);
  }
}
