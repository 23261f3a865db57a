// What every run of msgsnd, msgrcv, IPC_SET and IPC_RMID keeps, over any number of queues and tasks.
module MsgRuns {
  import opened MsgSpec

  function Bytes(ms: seq<Msg>): nat {
    if ms == [] then 0 else ms[0].size + Bytes(ms[1..])
  }

  function OfType(k: int, ms: seq<Msg>): seq<Msg> {
    if ms == [] then [] else (if ms[0].mtype == k then [ms[0]] else []) + OfType(k, ms[1..])
  }

  lemma {:induction false} OfTypeSplits(k: int, a: seq<Msg>, b: seq<Msg>)
    ensures OfType(k, a + b) == OfType(k, a) + OfType(k, b)
    decreases |a|
  {
    if a == [] {
      assert a + b == b;
    } else {
      assert (a + b)[0] == a[0] && (a + b)[1..] == a[1..] + b;
      OfTypeSplits(k, a[1..], b);
    }
  }

  lemma {:induction false} BytesSplits(a: seq<Msg>, b: seq<Msg>)
    ensures Bytes(a + b) == Bytes(a) + Bytes(b)
    decreases |a|
  {
    if a == [] {
      assert a + b == b;
    } else {
      assert (a + b)[0] == a[0] && (a + b)[1..] == a[1..] + b;
      BytesSplits(a[1..], b);
    }
  }

  lemma {:induction false} NoneOfType(k: int, ms: seq<Msg>)
    requires forall i | 0 <= i < |ms| :: ms[i].mtype != k
    ensures OfType(k, ms) == []
    decreases |ms|
  {
    if ms != [] {
      assert ms[0].mtype != k && forall i | 0 <= i < |ms[1..]| :: ms[1..][i] == ms[i + 1];
      NoneOfType(k, ms[1..]);
    }
  }

  // Taking the oldest message of its type takes the head of that type's line.
  lemma OldestLeaves(k: int, ms: seq<Msg>, i: nat)
    requires i < |ms| && forall j | 0 <= j < i :: ms[j].mtype != ms[i].mtype
    ensures OfType(k, ms) == OfType(k, [ms[i]]) + OfType(k, Without(ms, i))
  {
    assert ms == ms[..i] + [ms[i]] + ms[i + 1..];
    OfTypeSplits(k, ms[..i] + [ms[i]], ms[i + 1..]);
    OfTypeSplits(k, ms[..i], [ms[i]]);
    OfTypeSplits(k, ms[..i], ms[i + 1..]);
    if k == ms[i].mtype {
      NoneOfType(k, ms[..i]);
    }
  }

  lemma BytesWithout(ms: seq<Msg>, i: nat)
    requires i < |ms|
    ensures Bytes(ms) == ms[i].size + Bytes(Without(ms, i))
  {
    var a, b := ms[..i], ms[i + 1..];
    assert ms == a + ([ms[i]] + b);
    BytesSplits(a, [ms[i]] + b);
    assert ([ms[i]] + b)[0] == ms[i] && ([ms[i]] + b)[1..] == b;
    BytesSplits(a, b);
  }

  // ---- the invariant of one queue --------------------------------------------------------------

  predicate Counted(q: Queue) {
    if q.live then q.qnum == |q.messages| && q.cbytes == Bytes(q.messages) else q.messages == []
  }

  // No message lies in the queue that a task still in the list of receivers would take.
  predicate NoneOverlooked(q: Queue) {
    forall i, j | 0 <= i < |q.messages| && 0 <= j < |q.receivers| :: !Matches(q.messages[i], q.receivers[j])
  }

  predicate DistinctReceivers(l: seq<Receiver>) {
    forall i, j | 0 <= i < j < |l| :: l[i].task != l[j].task
  }

  predicate DistinctSenders(l: seq<Sender>) {
    forall i, j | 0 <= i < j < |l| :: l[i].task != l[j].task
  }

  // While the queue lives a sleeping receiver is in the list exactly as long as it has no reply.
  predicate Slots(q: Queue) {
    && DistinctReceivers(q.receivers)
    && (forall i | 0 <= i < |q.receivers| :: !q.receivers[i].mode.Number?)
    && (if q.live then
          forall t | t in q.replies :: q.replies[t].Pending? ==> t in Waiting(q.receivers)
        else
          forall t | t in q.replies :: !q.replies[t].Pending?)
    && (q.live ==> forall i | 0 <= i < |q.receivers| ::
          q.receivers[i].task in q.replies && q.replies[q.receivers[i].task].Pending?)
  }

  // A sender that has not been woken sleeps for a reason.
  predicate SendersBlocked(q: Queue) {
    q.live ==> forall i | 0 <= i < |q.senders| :: q.senders[i].task in q.woken || !Fits(q, q.senders[i].msg.size)
  }

  predicate OneSleep(q: Queue) {
    && DistinctSenders(q.senders)
    && (q.live ==> forall i | 0 <= i < |q.senders| :: q.senders[i].task !in q.replies && q.senders[i].msg.mtype >= 1)
  }

  predicate Inv(q: Queue) {
    Counted(q) && NoneOverlooked(q) && Slots(q) && SendersBlocked(q) && OneSleep(q) && PositiveTypes(q.messages)
  }

  predicate Asleep(q: Queue, t: Task) {
    t in q.replies || t in Tasks(q.senders)
  }

  // ---- Offer ------------------------------------------------------------------------------------

  // The message a sleeping task has been handed and has not yet returned with.
  function Held(q: Queue, t: Task): seq<Msg> {
    if t in q.replies && q.replies[t].Got? then [q.replies[t].msg] else []
  }

  function HandedTo(taker: Option<Task>, t: Task, m: Msg): seq<Msg> {
    if taker == Some(t) then [m] else []
  }

  // ---- the tasks in the list of receivers --------------------------------------------------------

  lemma WithoutAt<T>(l: seq<T>, i: nat)
    requires i < |l|
    ensures |Without(l, i)| == |l| - 1
    ensures forall j | 0 <= j < |l| - 1 :: Without(l, i)[j] == l[if j < i then j else j + 1]
  {
  }

  lemma WaitingWithout(l: seq<Receiver>, i: nat)
    requires i < |l| && DistinctReceivers(l)
    ensures DistinctReceivers(Without(l, i)) && Waiting(Without(l, i)) == Waiting(l) - {l[i].task}
  {
    hide Without;
    WithoutAt(l, i);
    var r := Without(l, i);
    forall t | t in Waiting(l) && t != l[i].task ensures t in Waiting(r) {
      var j :| 0 <= j < |l| && l[j].task == t;
      assert r[if j < i then j else j - 1].task == t;
    }
  }

  lemma WaitingSnoc(l: seq<Receiver>, r: Receiver)
    ensures Waiting(l + [r]) == Waiting(l) + {r.task}
  {
    forall t | t in Waiting(l) + {r.task} ensures t in Waiting(l + [r]) {
      if t in Waiting(l) {
        var i :| 0 <= i < |l| && l[i].task == t;
        assert (l + [r])[i].task == t;
      } else {
        assert (l + [r])[|l|].task == t;
      }
    }
  }

  // What Slots says of a live queue, by task.
  predicate PendingAreWaiting(q: Queue) {
    && (forall t | t in Waiting(q.receivers) :: t in q.replies && q.replies[t].Pending?)
    && (forall t | t in q.replies && q.replies[t].Pending? :: t in Waiting(q.receivers))
  }

  predicate NoneNumber(l: seq<Receiver>) {
    forall i | 0 <= i < |l| :: !l[i].mode.Number?
  }

  lemma SlotsByTask(q: Queue)
    requires q.live && Slots(q)
    ensures PendingAreWaiting(q) && DistinctReceivers(q.receivers) && NoneNumber(q.receivers)
  {
  }

  lemma SlotsFromTasks(q: Queue)
    requires q.live && PendingAreWaiting(q) && DistinctReceivers(q.receivers) && NoneNumber(q.receivers)
    ensures Slots(q)
  {
    forall i | 0 <= i < |q.receivers| ensures q.receivers[i].task in Waiting(q.receivers) {}
  }

  lemma NoneNumberWithout(l: seq<Receiver>, i: nat)
    requires i < |l| && NoneNumber(l)
    ensures NoneNumber(Without(l, i))
  {
    WithoutAt(l, i);
  }

  lemma AnswerWaiting(q: Queue, i: nat, reply: Reply)
    requires q.live && i < |q.receivers| && Slots(q) && !reply.Pending?
    ensures Slots(Answer(q, i, reply))
  {
    hide Slots, Waiting, DistinctReceivers, NoneNumber, Without;
    SlotsByTask(q);
    WaitingWithout(q.receivers, i);
    NoneNumberWithout(q.receivers, i);
    SlotsFromTasks(Answer(q, i, reply));
  }

  lemma AnswerOverlooksNone(q: Queue, i: nat, reply: Reply)
    requires i < |q.receivers| && NoneOverlooked(q)
    ensures NoneOverlooked(Answer(q, i, reply))
  {
    hide Without, Matches;
    WithoutAt(q.receivers, i);
  }

  lemma AnswerKeeps(q: Queue, i: nat, reply: Reply)
    requires q.live && i < |q.receivers| && Slots(q) && NoneOverlooked(q) && !reply.Pending?
    ensures Slots(Answer(q, i, reply)) && NoneOverlooked(Answer(q, i, reply))
  {
    hide Slots, NoneOverlooked;
    AnswerWaiting(q, i, reply);
    AnswerOverlooksNone(q, i, reply);
  }

  // Only the lists of receivers and their slots change.
  predicate SameButReceivers(q: Queue, q': Queue) {
    q' == q.(receivers := q'.receivers, replies := q'.replies, woken := q'.woken) && q.woken <= q'.woken
  }

  // What pipelined_send() does to the queue, if none before i asks for the message.
  ghost predicate Offered(q: Queue, m: Msg, q': Queue, taker: Option<Task>) {
    && SameButReceivers(q, q') && q'.replies.Keys == q.replies.Keys
    && Slots(q') && NoneOverlooked(q')
    && (taker.None? ==> forall j | 0 <= j < |q'.receivers| :: !Matches(m, q'.receivers[j]))
    && (taker.Some? ==> exists r :: r in q.receivers && Matches(m, r))
    && forall t: Task :: Held(q', t) == Held(q, t) + HandedTo(taker, t, m)
  }

  lemma AnsweredHolds(q: Queue, i: nat)
    requires q.live && i < |q.receivers| && Slots(q)
    ensures Answer(q, i, TooBig).replies.Keys == q.replies.Keys
    ensures forall t: Task :: Held(Answer(q, i, TooBig), t) == Held(q, t)
  {
    assert q.replies[q.receivers[i].task].Pending?;
  }

  lemma WithoutMembers(l: seq<Receiver>, i: nat, r: Receiver)
    requires i < |l| && r in Without(l, i)
    ensures r in l
  {
  }

  lemma AnswerOffers(q: Queue, m: Msg, i: nat, q': Queue, taker: Option<Task>)
    requires q.live && i < |q.receivers| && Slots(q) && Offered(Answer(q, i, TooBig), m, q', taker)
    ensures Offered(q, m, q', taker)
  {
    hide Without, Matches, NoneOverlooked;
    var a := Answer(q, i, TooBig);
    AnsweredHolds(q, i);
    if taker.Some? {
      var r :| r in a.receivers && Matches(m, r);
      WithoutMembers(q.receivers, i, r);
    }
  }

  lemma HandOver(q: Queue, m: Msg, i: nat)
    requires q.live && i < |q.receivers| && Slots(q) && NoneOverlooked(q) && Matches(m, q.receivers[i])
    ensures Offered(q, m, Answer(q, i, Got(m)), Some(q.receivers[i].task))
  {
    AnswerKeeps(q, i, Got(m));
    assert q.receivers[i] in q.receivers && q.replies[q.receivers[i].task].Pending?;
  }

  lemma {:induction false} OfferKeeps(q: Queue, m: Msg, i: nat)
    requires q.live && i <= |q.receivers| && Slots(q) && NoneOverlooked(q)
    requires forall j | 0 <= j < i :: !Matches(m, q.receivers[j])
    ensures Offered(q, m, Offer(q, m, i).0, Offer(q, m, i).1)
    decreases |q.receivers| - i
  {
    if i < |q.receivers| {
      hide Offered, Slots, NoneOverlooked;
      if !Matches(m, q.receivers[i]) {
        OfferKeeps(q, m, i + 1);
      } else if q.receivers[i].maxSize < m.size {
        AnswerKeeps(q, i, TooBig);
        OfferKeeps(Answer(q, i, TooBig), m, i);
        AnswerOffers(q, m, i, Offer(q, m, i).0, Offer(q, m, i).1);
      } else {
        HandOver(q, m, i);
      }
    }
  }

  // The search from i on ends at j: with the first receiver that asks for the type of the message and
  // has room for it, or at the end of the list.
  predicate EndsAt(q: Queue, m: Msg, i: nat, j: nat) {
    && i <= j <= |q.receivers|
    && (forall k | i <= k < j && Matches(m, q.receivers[k]) :: q.receivers[k].maxSize < m.size)
    && (j < |q.receivers| ==> Matches(m, q.receivers[j]) && m.size <= q.receivers[j].maxSize)
  }

  function Verdict(q: Queue, m: Msg, i: nat, j: nat, k: nat): Reply
    requires k < |q.receivers|
  {
    if k < i || k > j || !Matches(m, q.receivers[k]) then Pending
    else if k == j then Got(m) else TooBig
  }

  lemma {:induction false} SearchEnds(q: Queue, m: Msg, i: nat) returns (j: nat)
    requires i <= |q.receivers|
    ensures EndsAt(q, m, i, j)
    decreases |q.receivers| - i
  {
    if i == |q.receivers| || (Matches(m, q.receivers[i]) && m.size <= q.receivers[i].maxSize) {
      j := i;
    } else {
      j := SearchEnds(q, m, i + 1);
    }
  }

  lemma {:induction false} OfferLeavesAnswered(q: Queue, m: Msg, i: nat, t: Task)
    requires i <= |q.receivers| && t in q.replies && t !in Waiting(q.receivers)
    ensures t in Offer(q, m, i).0.replies && Offer(q, m, i).0.replies[t] == q.replies[t]
    decreases |q.receivers| - i
  {
    if i < |q.receivers| {
      if !Matches(m, q.receivers[i]) {
        OfferLeavesAnswered(q, m, i + 1, t);
      } else {
        assert q.receivers[i].task in Waiting(q.receivers);
        var a := Answer(q, i, TooBig);
        forall j | 0 <= j < |a.receivers| ensures a.receivers[j].task in Waiting(q.receivers) {
          assert a.receivers[j] == q.receivers[if j < i then j else j + 1];
        }
        if q.receivers[i].maxSize < m.size {
          OfferLeavesAnswered(a, m, i, t);
        }
      }
    }
  }

  lemma AnswerSlots(q: Queue, i: nat)
    requires q.live && Slots(q) && i < |q.receivers|
    ensures Slots(Answer(q, i, TooBig))
  {
    AnswerWaiting(q, i, TooBig);
  }

  predicate Answered(q: Queue, q': Queue, m: Msg, i: nat, j: nat) {
    forall k | 0 <= k < |q.receivers| ::
      q.receivers[k].task in q'.replies && q'.replies[q.receivers[k].task] == Verdict(q, m, i, j, k)
  }

  lemma RefusalShifts(q: Queue, q': Queue, m: Msg, i: nat, j: nat)
    requires EndsAt(q, m, i, j) && i < j && Matches(m, q.receivers[i])
    requires Answered(Answer(q, i, TooBig), q', m, i, j - 1)
    requires q.receivers[i].task in q'.replies && q'.replies[q.receivers[i].task] == TooBig
    ensures Answered(q, q', m, i, j)
  {
    var a := Answer(q, i, TooBig);
    forall k | 0 <= k < |q.receivers|
      ensures q.receivers[k].task in q'.replies && q'.replies[q.receivers[k].task] == Verdict(q, m, i, j, k)
    {
      if k != i {
        assert a.receivers[if k < i then k else k - 1] == q.receivers[k];
      }
    }
  }

  lemma AnswerEndsAt(q: Queue, m: Msg, i: nat, j: nat)
    requires EndsAt(q, m, i, j) && i < j
    ensures EndsAt(Answer(q, i, TooBig), m, i, j - 1)
  {
    var a := Answer(q, i, TooBig);
    assert forall k | 0 <= k < |a.receivers| :: a.receivers[k] == q.receivers[if k < i then k else k + 1];
  }

  lemma SearchShape(q: Queue, m: Msg, i: nat, j: nat)
    requires EndsAt(q, m, i, j)
    ensures i <= j <= |q.receivers|
    ensures i < j && !Matches(m, q.receivers[i]) ==> EndsAt(q, m, i + 1, j)
    ensures i < j && Matches(m, q.receivers[i]) ==> q.receivers[i].maxSize < m.size
  {
  }

  lemma PassingBy(q: Queue, q': Queue, m: Msg, i: nat, j: nat)
    requires i < |q.receivers| && !Matches(m, q.receivers[i]) && Answered(q, q', m, i + 1, j)
    ensures Answered(q, q', m, i, j)
  {
    assert forall k | 0 <= k < |q.receivers| :: Verdict(q, m, i, j, k) == Verdict(q, m, i + 1, j, k);
  }

  // What the answer to receiver i leaves for the rest of the search.
  lemma AfterAnswer(q: Queue, m: Msg, i: nat, j: nat)
    requires i < j <= |q.receivers|
    ensures var a := Answer(q, i, TooBig);
      && |a.receivers| == |q.receivers| - 1 && q.receivers[i].task in a.replies && a.replies[q.receivers[i].task] == TooBig
      && (j < |q.receivers| ==> a.receivers[j - 1] == q.receivers[j])
  {
  }

  lemma SearchDone(q: Queue, m: Msg, i: nat)
    requires q.live && Slots(q) && EndsAt(q, m, i, i)
    ensures Offer(q, m, i).1 == if i < |q.receivers| then Some(q.receivers[i].task) else None
    ensures Answered(q, Offer(q, m, i).0, m, i, i)
  {
  }

  // Who gets a message: receiver j, if the search ends there. Every earlier one that asks for its
  // type is refused with -E2BIG, and no other receiver gets an answer.
  lemma {:induction false} OfferMeaning(q: Queue, m: Msg, i: nat, j: nat)
    requires q.live && Slots(q) && EndsAt(q, m, i, j)
    ensures Offer(q, m, i).1 == if j < |q.receivers| then Some(q.receivers[j].task) else None
    ensures Answered(q, Offer(q, m, i).0, m, i, j)
    decreases j - i
  {
    hide Slots, Answered, EndsAt, Waiting, DistinctReceivers;
    SearchShape(q, m, i, j);
    if i < j {
      if !Matches(m, q.receivers[i]) {
        OfferMeaning(q, m, i + 1, j);
        PassingBy(q, Offer(q, m, i).0, m, i, j);
      } else {
        AnswerSlots(q, i);
        AnswerEndsAt(q, m, i, j);
        OfferMeaning(Answer(q, i, TooBig), m, i, j - 1);
        SlotsByTask(q);
        AnswerDropsTask(q, i);
        AfterAnswer(q, m, i, j);
        OfferLeavesAnswered(Answer(q, i, TooBig), m, i, q.receivers[i].task);
        RefusalShifts(q, Offer(q, m, i).0, m, i, j);
      }
    } else {
      SearchDone(q, m, i);
    }
  }

  lemma AnswerDropsTask(q: Queue, i: nat)
    requires DistinctReceivers(q.receivers) && i < |q.receivers|
    ensures q.receivers[i].task !in Waiting(Answer(q, i, TooBig).receivers)
  {
    var a := Answer(q, i, TooBig);
    assert forall k | 0 <= k < |a.receivers| :: a.receivers[k] == q.receivers[if k < i then k else k + 1];
  }
}
