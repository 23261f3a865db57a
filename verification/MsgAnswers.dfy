// What the callers of the message queue calls are answered, and what becomes of the queue, in terms of
// the arguments they give.
module MsgAnswers {
  import opened MsgSpec
  import opened MsgRuns
  import opened MsgHistory

  // ---- which message a receiver asks for ----------------------------------------------------------

  predicate TypesFit(ms: seq<Msg>) {
    forall i | 0 <= i < |ms| :: 1 <= ms[i].mtype <= LONG_MAX
  }

  // msgtyp 0 is for any message, a positive one for its type or, with MSG_EXCEPT, for any other type, a
  // negative one for types up to its absolute value.
  predicate Asked(typ: int, except: bool, m: Msg) {
    typ == 0 || (typ < 0 && m.mtype <= -typ) || (typ > 0 && (m.mtype == typ) != except)
  }

  // The message that the caller gets: number msgtyp for MSG_COPY; otherwise the first one asked for, or,
  // for a bound, the first one of the least type.
  predicate Chosen(ms: seq<Msg>, typ: int, except: bool, copy: bool, i: nat) {
    && i < |ms|
    && if copy then i == typ
       else
         && Asked(typ, except, ms[i])
         && (typ >= 0 ==> forall j | 0 <= j < i :: !Asked(typ, except, ms[j]))
         && (typ < 0 ==> forall j | 0 <= j < |ms| && Asked(typ, except, ms[j]) ::
               ms[i].mtype < ms[j].mtype || (ms[i].mtype == ms[j].mtype && i <= j))
  }

  lemma AskedIsTest(typ: int, except: bool, m: Msg)
    requires LONG_MIN <= typ <= LONG_MAX && 1 <= m.mtype <= LONG_MAX
    ensures var (mode, ty) := ConvertMode(typ, false, except); Test(m, ty, mode) == Asked(typ, except, m)
  {
    ConvertModeMeaning(typ, except, m);
  }

  lemma ChosenIsSelected(ms: seq<Msg>, typ: int, except: bool, copy: bool, i: nat)
    requires LONG_MIN <= typ <= LONG_MAX && TypesFit(ms)
    ensures var (mode, ty) := ConvertMode(typ, copy, except); Selected(ms, ty, mode, i) == Chosen(ms, typ, except, copy, i)
  {
    var (mode, ty) := ConvertMode(typ, copy, except);
    if !copy {
      forall j | 0 <= j < |ms| ensures Test(ms[j], ty, mode) == Asked(typ, except, ms[j]) {
        AskedIsTest(typ, except, ms[j]);
      }
      assert mode.LessEqual? <==> typ < 0;
    }
  }

  lemma FindIsChosen(ms: seq<Msg>, typ: int, except: bool, copy: bool)
    requires LONG_MIN <= typ <= LONG_MAX && TypesFit(ms)
    ensures var (mode, ty) := ConvertMode(typ, copy, except);
      && (Find(ms, ty, mode).Some? ==> Chosen(ms, typ, except, copy, Find(ms, ty, mode).value))
      && forall i: nat | Chosen(ms, typ, except, copy, i) :: Find(ms, ty, mode) == Some(i)
  {
    var (mode, ty) := ConvertMode(typ, copy, except);
    hide Chosen, Selected, Test;
    var f := Find(ms, ty, mode);
    if f.Some? {
      ChosenIsSelected(ms, typ, except, copy, f.value);
    }
    forall i: nat | Chosen(ms, typ, except, copy, i) ensures f == Some(i) {
      ChosenIsSelected(ms, typ, except, copy, i);
      SelectedIsFound(ms, ty, mode, i);
    }
  }

  lemma SelectedIsFound(ms: seq<Msg>, typ: int, mode: Mode, i: nat)
    requires Selected(ms, typ, mode, i)
    ensures Find(ms, typ, mode) == Some(i)
  {
    var f := Find(ms, typ, mode);
    if f.Some? {
      SelectedIsUnique(ms, typ, mode, i, f.value);
    }
  }

  // ---- msgrcv() ---------------------------------------------------------------------------------------

  // Message i is taken out of the queue and off all counters; receivers and their replies stay.
  predicate TakenOut(s: Store, s': Store, i: nat) {
    && i < |s.q.messages| && |s'.q.messages| == |s.q.messages| - 1
    && (forall j | 0 <= j < i :: s'.q.messages[j] == s.q.messages[j])
    && (forall j | i < j < |s.q.messages| :: s'.q.messages[j - 1] == s.q.messages[j])
    && s'.q.qnum == s.q.qnum - 1 && s'.q.cbytes == s.q.cbytes - s.q.messages[i].size
    && s'.hdrs == s.hdrs - 1 && s'.bytes == s.bytes - s.q.messages[i].size
    && s'.q.live == s.q.live && s'.q.qbytes == s.q.qbytes && s'.q.receivers == s.q.receivers && s'.q.replies == s.q.replies
  }

  // With a message to be had: E2BIG, and nothing happens, exactly if it does not fit into the buffer and
  // may not be cut. Otherwise that message is returned; it stays in the queue with MSG_COPY only.
  lemma MsgrcvFinds(s: Store, t: Task, typ: int, size: nat, noerror: bool, except: bool, copy: bool, nowait: bool, i: nat)
    requires LONG_MIN <= typ <= LONG_MAX && s.q.live && TypesFit(s.q.messages) && (copy ==> !except && nowait)
    requires Chosen(s.q.messages, typ, except, copy, i)
    ensures var (s', o) := Msgrcv(s, t, typ, size, noerror, except, copy, nowait);
      if s.q.messages[i].size > size && !noerror then o == Failed(E2BIG) && s' == s
      else if copy then o == Copied(s.q.messages[i]) && s' == s
      else o == Received(s.q.messages[i]) && TakenOut(s, s', i)
  {
    hide Chosen, Find;
    FindIsChosen(s.q.messages, typ, except, copy);
  }

  // With none: ENOMSG and nothing happens with IPC_NOWAIT. Otherwise the caller sleeps, last in the list,
  // without a reply; a message of its type that is sent now is too big for it exactly if it is larger than
  // the buffer and may not be cut.
  lemma MsgrcvFindsNone(s: Store, t: Task, typ: int, size: nat, noerror: bool, except: bool, copy: bool, nowait: bool)
    requires LONG_MIN <= typ <= LONG_MAX && s.q.live && TypesFit(s.q.messages) && (copy ==> !except && nowait)
    requires forall i: nat :: !Chosen(s.q.messages, typ, except, copy, i)
    ensures var (s', o) := Msgrcv(s, t, typ, size, noerror, except, copy, nowait);
      if nowait then o == Failed(ENOMSG) && s' == s
      else
        && o.Sleeps? && s' == s.(q := s'.q) && |s'.q.receivers| == |s.q.receivers| + 1
        && s'.q == s.q.(receivers := s'.q.receivers, replies := s.q.replies[t := Pending], woken := s.q.woken - {t})
        && s'.q.receivers[..|s.q.receivers|] == s.q.receivers
        && var r := s'.q.receivers[|s.q.receivers|];
           && r.task == t && !r.mode.Number?
           && (forall m: Msg | 1 <= m.mtype <= LONG_MAX :: Matches(m, r) <==> Asked(typ, except, m))
           && (forall m: Msg | m.size <= INT_MAX :: r.maxSize < m.size <==> m.size > size && !noerror)
  {
    hide Chosen, Find;
    FindIsChosen(s.q.messages, typ, except, copy);
    forall m: Msg | 1 <= m.mtype <= LONG_MAX
      ensures var (mode, ty) := ConvertMode(typ, false, except); Test(m, ty, mode) == Asked(typ, except, m)
    {
      AskedIsTest(typ, except, m);
    }
  }

  lemma MsgrcvRefuses(s: Store, t: Task, typ: int, size: nat, noerror: bool, except: bool, copy: bool, nowait: bool)
    requires LONG_MIN <= typ <= LONG_MAX
    ensures copy && (except || !nowait) ==>
      Msgrcv(s, t, typ, size, noerror, except, copy, nowait) == (s, Failed(EINVAL))
    ensures (copy ==> !except && nowait) && !s.q.live ==>
      Msgrcv(s, t, typ, size, noerror, except, copy, nowait) == (s, Failed(EIDRM))
  {
  }

  // A receiver that runs again returns with the message handed to it, with E2BIG if one was too big, or
  // with EIDRM if the queue is gone. Without any reply it leaves the list, and a signal ends the call.
  lemma ReceiverRunsAgain(q: Queue, t: Task, signal: bool)
    requires t in q.replies
    ensures var (q', o) := ResumeReceiver(q, t, signal);
      && q' == q.(receivers := q'.receivers, replies := q.replies - {t}, woken := q.woken - {t})
      && (q.replies[t].Got? ==> o == Some(Received(q.replies[t].msg)))
      && (q.replies[t].TooBig? ==> o == Some(Failed(E2BIG)))
      && (q.replies[t].Gone? ==> o == Some(Failed(EIDRM)))
      && (q.replies[t].Pending? ==> o == if signal then Some(Failed(ERESTART)) else None)
      && (!q.replies[t].Pending? ==> q'.receivers == q.receivers)
      && (q.replies[t].Pending? && DistinctReceivers(q.receivers) ==> Waiting(q'.receivers) == Waiting(q.receivers) - {t})
  {
    if q.replies[t].Pending? && DistinctReceivers(q.receivers) {
      var i := IndexOf(q.receivers, t);
      if i.Some? {
        WaitingWithout(q.receivers, i.value);
      }
    }
  }

  // ---- msgsnd() ------------------------------------------------------------------------------------------

  predicate HasRoom(q: Queue, size: nat) {
    size + q.cbytes <= q.qbytes && q.qnum + 1 <= q.qbytes
  }

  // The message is last in the queue, and counted there and for all queues together.
  predicate Appended(s: Store, s': Store, m: Msg) {
    && s'.q.messages == s.q.messages + [m]
    && s'.q.qnum == s.q.qnum + 1 && s'.q.cbytes == s.q.cbytes + m.size
    && s'.hdrs == s.hdrs + 1 && s'.bytes == s.bytes + m.size
  }

  // The message is in no queue, but in the slot of receiver j.
  predicate HandedOver(s: Store, s': Store, m: Msg, j: nat) {
    && j < |s.q.receivers| && s.q.receivers[j].task in s'.q.replies && s'.q.replies[s.q.receivers[j].task] == Got(m)
    && s'.q.messages == s.q.messages && s'.q.qnum == s.q.qnum && s'.q.cbytes == s.q.cbytes
    && s'.hdrs == s.hdrs && s'.bytes == s.bytes
  }

  lemma {:induction false} OfferTouches(q: Queue, m: Msg, i: nat)
    requires i <= |q.receivers|
    ensures var q' := Offer(q, m, i).0; q' == q.(receivers := q'.receivers, replies := q'.replies, woken := q'.woken)
    decreases |q.receivers| - i
  {
    if i < |q.receivers| {
      if !Matches(m, q.receivers[i]) {
        OfferTouches(q, m, i + 1);
      } else if q.receivers[i].maxSize < m.size {
        OfferTouches(Answer(q, i, TooBig), m, i);
      }
    }
  }

  // With room for it a message is sent: to the receiver at which the search ends, or into the queue.
  lemma MsgsndSends(s: Store, ctlmax: nat, t: Task, m: Msg, nowait: bool, j: nat)
    requires s.q.live && Slots(s.q) && 1 <= m.mtype && m.size <= ctlmax && HasRoom(s.q, m.size) && EndsAt(s.q, m, 0, j)
    ensures var (s', o) := Send(s, ctlmax, t, m, nowait);
      && o.Sent? && s'.q.live && s'.q.senders == s.q.senders && s'.q.qbytes == s.q.qbytes
      && (if j < |s.q.receivers| then HandedOver(s, s', m, j) else Appended(s, s', m))
  {
    OfferMeaning(s.q, m, 0, j);
    OfferTouches(s.q, m, 0);
    hide Offer, Slots;
    if j < |s.q.receivers| {
      assert Verdict(s.q, m, 0, j, j) == Got(m);
    }
  }

  // Otherwise it is refused, or its sender sleeps, last in the list.
  lemma MsgsndDoesNot(s: Store, ctlmax: nat, t: Task, m: Msg, nowait: bool)
    ensures var (s', o) := Send(s, ctlmax, t, m, nowait);
      if m.mtype < 1 || m.size > ctlmax then o == Failed(EINVAL) && s' == s
      else if !s.q.live then o == Failed(EIDRM) && s' == s
      else if HasRoom(s.q, m.size) then o.Sent?
      else if nowait then o == Failed(EAGAIN) && s' == s
      else o.Sleeps? && s' == s.(q := s.q.(senders := s.q.senders + [Sender(t, m)], woken := s.q.woken - {t}))
  {
  }

  // A sender that runs again finds the queue gone, gives up for a signal, or tries once more; in the last
  // two cases it has left the list.
  lemma SenderRunsAgain(s: Store, i: nat, signal: bool)
    requires i < |s.q.senders|
    ensures var (s', o) := ResumeSender(s, i, signal);
      var e := s.q.senders[i];
      var left := s.(q := s.q.(senders := s.q.senders[..i] + s.q.senders[i + 1..], woken := s.q.woken - {e.task}));
      if !s.q.live then o == Failed(EIDRM) && s' == s
      else if signal then o == Failed(ERESTART) && s' == left
      else if HasRoom(s.q, e.msg.size) then o.Sent?
      else o.Sleeps? && s'.q.senders == left.q.senders + [e] && s'.q.messages == s.q.messages
  {
  }

  // ---- IPC_SET and IPC_RMID -------------------------------------------------------------------------------

  // A new limit wakes every receiver, to try again, and of the senders exactly those that have room now.
  lemma SetLimitWakes(q: Queue, qbytes: int)
    ensures var q' := SetLimit(q, qbytes);
      && q' == q.(qbytes := qbytes, senders := q'.senders, woken := q'.woken)
      && multiset(q'.senders) == multiset(q.senders)
      && forall t: Task :: t in q'.woken <==>
           t in q.woken || (exists i :: 0 <= i < |q.receivers| && q.receivers[i].task == t)
           || exists e :: e in q.senders && e.task == t && HasRoom(q.(qbytes := qbytes), e.msg.size)
  {
    var n := Nudge(q.(qbytes := qbytes));
    WakeSendersMeaning(n);
    FittingSplits(n, n.senders);
    FittingFits(n, n.senders, true);
    FittingFits(n, n.senders, false);
    forall e | e in q.senders && HasRoom(q.(qbytes := qbytes), e.msg.size) ensures e.task in SetLimit(q, qbytes).woken {
      FittingHas(n, n.senders, e);
      var yes := Fitting(n, n.senders, true);
      var i :| 0 <= i < |yes| && yes[i] == e;
      assert yes[i].task in Tasks(yes);
    }
  }

  lemma {:induction false} FittingHas(q: Queue, l: seq<Sender>, e: Sender)
    requires e in l && Fits(q, e.msg.size)
    ensures e in Fitting(q, l, true)
    decreases |l|
  {
    if l[0] != e {
      assert l == [l[0]] + l[1..];
      FittingHas(q, l[1..], e);
    }
  }

  // The queue is gone: its messages are off the counters, every sleeping receiver in the list has EIDRM for
  // an answer, and every sleeper is made to run.
  lemma RemoveTellsAll(s: Store)
    ensures var s' := Remove(s);
      && !s'.q.live && s'.q.messages == [] && s'.hdrs == s.hdrs - |s.q.messages| && s'.bytes == s.bytes - s.q.cbytes
      && (forall i | 0 <= i < |s.q.receivers| ::
            var t := s.q.receivers[i].task; t in s'.q.replies && s'.q.replies[t] == Gone && t in s'.q.woken)
      && (forall t | t in s.q.replies && t !in Waiting(s.q.receivers) ::
            t in s'.q.replies && s'.q.replies[t] == s.q.replies[t])
      && (forall i | 0 <= i < |s.q.senders| :: s.q.senders[i].task in s'.q.woken)
      && s'.q.senders == s.q.senders
  {
    forall i | 0 <= i < |s.q.receivers| ensures s.q.receivers[i].task in Waiting(s.q.receivers) {}
    forall i | 0 <= i < |s.q.senders| ensures s.q.senders[i].task in Tasks(s.q.senders) {}
  }
}
