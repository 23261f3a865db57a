// A System V message queue as a value, and what each call on it is meant to do.
module MsgSpec {

  const LONG_MAX := 0x7fff_ffff_ffff_ffff
  const LONG_MIN := -0x8000_0000_0000_0000
  const INT_MAX := 0x7fff_ffff

  type Task = nat

  datatype Option<T> = None | Some(value: T)

  datatype Mode = Any | Equal | NotEqual | LessEqual | Number

  // A message; tag stands for its contents.
  datatype Msg = Msg(mtype: int, size: nat, tag: nat)

  // struct msg_receiver on q_receivers, without r_msg.
  datatype Receiver = Receiver(task: Task, mode: Mode, mtype: int, maxSize: int)

  // struct msg_sender on q_senders; the message itself waits with the sleeping task.
  datatype Sender = Sender(task: Task, msg: Msg)

  // r_msg: -EAGAIN, a message, -E2BIG or -EIDRM.
  datatype Reply = Pending | Got(msg: Msg) | TooBig | Gone

  datatype Queue = Queue(
    live: bool,
    messages: seq<Msg>,
    cbytes: int,
    qnum: int,
    qbytes: int,
    receivers: seq<Receiver>,
    replies: map<Task, Reply>,  // r_msg of every task asleep in msgrcv
    senders: seq<Sender>,
    woken: set<Task>)           // sleepers that have been made runnable

  // A queue beside the two counters that all queues of the namespace share.
  datatype Store = Store(q: Queue, hdrs: int, bytes: int)

  datatype Outcome =
    | Sent | Received(msg: Msg) | Copied(msg: Msg) | Sleeps
    | Failed(code: Errno)

  datatype Errno = EINVAL | EAGAIN | EIDRM | ERESTART | ENOMSG | E2BIG

  // ---- selection ---------------------------------------------------------------------------

  predicate Test(m: Msg, typ: int, mode: Mode) {
    match mode
    case Any => true
    case Number => true
    case LessEqual => m.mtype <= typ
    case Equal => m.mtype == typ
    case NotEqual => m.mtype != typ
  }

  predicate Matches(m: Msg, r: Receiver) {
    Test(m, r.mtype, r.mode)
  }

  predicate PositiveTypes(ms: seq<Msg>) {
    forall i | 0 <= i < |ms| :: ms[i].mtype >= 1
  }

  // Which message msgrcv is for: the typ-th one for MSG_COPY; otherwise the first that passes the
  // test, and for a bound on the type the first among those of the least type.
  predicate Selected(ms: seq<Msg>, typ: int, mode: Mode, i: nat) {
    && i < |ms|
    && (if mode.Number? then i == typ
        else
          && Test(ms[i], typ, mode)
          && (forall j | 0 <= j < i && Test(ms[j], typ, mode) :: mode.LessEqual? && ms[j].mtype > ms[i].mtype)
          && (mode.LessEqual? ==> forall j | 0 <= j < |ms| :: ms[j].mtype >= ms[i].mtype || !Test(ms[j], typ, mode)))
  }

  ghost predicate NoneSelected(ms: seq<Msg>, typ: int, mode: Mode) {
    forall i | 0 <= i < |ms| :: !Selected(ms, typ, mode, i)
  }

  function Find(ms: seq<Msg>, typ: int, mode: Mode): (r: Option<nat>)
    ensures r.Some? ==> Selected(ms, typ, mode, r.value)
    ensures r.None? && !mode.Number? ==> forall j | 0 <= j < |ms| :: !Test(ms[j], typ, mode)
    ensures r.None? && mode.Number? ==> !(0 <= typ < |ms|)
  {
    if mode.Number? then (if 0 <= typ < |ms| then Some(typ) else None)
    else if ms == [] then None
    else if Test(ms[0], typ, mode) && !mode.LessEqual? then Some(0)
    else
      var lower := if Test(ms[0], typ, mode) then ms[0].mtype - 1 else typ;
      match Find(ms[1..], lower, mode)
      case Some(j) =>
        assert forall k | 0 < k < |ms| :: ms[k] == ms[1..][k - 1];
        Some(j + 1)
      case None =>
        assert forall k | 0 < k < |ms| :: ms[k] == ms[1..][k - 1];
        if Test(ms[0], typ, mode) then Some(0) else None
  }

  lemma SelectedIsUnique(ms: seq<Msg>, typ: int, mode: Mode, i: nat, j: nat)
    requires Selected(ms, typ, mode, i) && Selected(ms, typ, mode, j)
    ensures i == j
  {
  }

  // A message chosen without MSG_COPY is the oldest one of its own type.
  lemma SelectedIsOldestOfType(ms: seq<Msg>, typ: int, mode: Mode, i: nat)
    requires Selected(ms, typ, mode, i) && !mode.Number?
    ensures forall j | 0 <= j < i :: ms[j].mtype != ms[i].mtype
  {
  }

  // convert_mode(): MSG_COPY wins over everything, a negative type is a bound, MSG_EXCEPT negates a
  // positive one.
  function ConvertMode(typ: int, copy: bool, except: bool): (r: (Mode, int))
    requires LONG_MIN <= typ <= LONG_MAX
    ensures LONG_MIN <= r.1 <= LONG_MAX
    ensures r.0.Number? <==> copy
    ensures r.0.LessEqual? ==> r.1 >= 1
  {
    if copy then (Number, typ)
    else if typ == 0 then (Any, typ)
    else if typ < 0 then (LessEqual, if typ == LONG_MIN then LONG_MAX else -typ)
    else if except then (NotEqual, typ)
    else (Equal, typ)
  }

  // What the msgtyp of a caller means for messages whose type is a positive long.
  lemma ConvertModeMeaning(typ: int, except: bool, m: Msg)
    requires LONG_MIN <= typ <= LONG_MAX && 1 <= m.mtype <= LONG_MAX
    ensures var (mode, t) := ConvertMode(typ, false, except);
      Test(m, t, mode) <==>
        (typ == 0 || (typ < 0 && m.mtype <= -typ) || (typ > 0 && ((m.mtype == typ) != except)))
  {
  }

  // ---- the hand-off ------------------------------------------------------------------------

  function Without<T>(l: seq<T>, i: nat): seq<T>
    requires i < |l|
  {
    l[..i] + l[i + 1..]
  }

  // The receiver at i leaves the list with a reply and is woken.
  function Answer(q: Queue, i: nat, reply: Reply): Queue
    requires i < |q.receivers|
  {
    var t := q.receivers[i].task;
    q.(receivers := Without(q.receivers, i), replies := q.replies[t := reply], woken := q.woken + {t})
  }

  // pipelined_send() from receiver i on: those that want the message but not its size are refused,
  // the first that takes it ends the search.
  function Offer(q: Queue, m: Msg, i: nat): (Queue, Option<Task>)
    requires i <= |q.receivers|
    decreases |q.receivers| - i
  {
    if i == |q.receivers| then (q, None)
    else if !Matches(m, q.receivers[i]) then Offer(q, m, i + 1)
    else if q.receivers[i].maxSize < m.size then Offer(Answer(q, i, TooBig), m, i)
    else (Answer(q, i, Got(m)), Some(q.receivers[i].task))
  }

  // ---- senders ------------------------------------------------------------------------------

  predicate Fits(q: Queue, size: nat) {
    size + q.cbytes <= q.qbytes && 1 + q.qnum <= q.qbytes
  }

  // The senders whose message fits (or, for fits == false, does not), in their order.
  function Fitting(q: Queue, l: seq<Sender>, fits: bool): seq<Sender> {
    if l == [] then []
    else (if Fits(q, l[0].msg.size) == fits then [l[0]] else []) + Fitting(q, l[1..], fits)
  }

  function Tasks(l: seq<Sender>): set<Task> {
    set i | 0 <= i < |l| :: l[i].task
  }

  // ss_wakeup() without kill: wake whoever fits, and move the others behind them.
  function WakeSenders(q: Queue): Queue {
    var yes := Fitting(q, q.senders, true);
    q.(senders := yes + Fitting(q, q.senders, false), woken := q.woken + Tasks(yes))
  }

  function Waiting(l: seq<Receiver>): set<Task> {
    set i | 0 <= i < |l| :: l[i].task
  }

  // expunge_all(-EAGAIN): every receiver has to try again, and stays in the list until it does.
  function Nudge(q: Queue): Queue {
    q.(woken := q.woken + Waiting(q.receivers))
  }

  // expunge_all(-EIDRM).
  function Dismiss(q: Queue): Queue {
    Nudge(q).(replies := q.replies + map t | t in Waiting(q.receivers) :: Gone)
  }

  // ---- calls --------------------------------------------------------------------------------

  function Enqueued(s: Store, m: Msg): Store {
    Store(s.q.(messages := s.q.messages + [m], cbytes := s.q.cbytes + m.size, qnum := s.q.qnum + 1),
          s.hdrs + 1, s.bytes + m.size)
  }

  // The end of do_msgsnd(), once the message fits.
  function Deliver(s: Store, m: Msg): Store {
    var (q, taker) := Offer(s.q, m, 0);
    if taker.Some? then s.(q := q) else Enqueued(s.(q := q), m)
  }

  function SleepSending(q: Queue, t: Task, m: Msg): Queue {
    q.(senders := q.senders + [Sender(t, m)], woken := q.woken - {t})
  }

  // The loop of do_msgsnd() from one acquisition of the lock to the next.
  function TrySend(s: Store, t: Task, m: Msg, nowait: bool): (Store, Outcome) {
    if !s.q.live then (s, Failed(EIDRM))
    else if Fits(s.q, m.size) then (Deliver(s, m), Sent)
    else if nowait then (s, Failed(EAGAIN))
    else (s.(q := SleepSending(s.q, t, m)), Sleeps)
  }

  function Send(s: Store, ctlmax: nat, t: Task, m: Msg, nowait: bool): (Store, Outcome) {
    if m.size > ctlmax || m.mtype < 1 then (s, Failed(EINVAL)) else TrySend(s, t, m, nowait)
  }

  // A sender that slept runs again, woken or not.
  function ResumeSender(s: Store, i: nat, signal: bool): (Store, Outcome)
    requires i < |s.q.senders|
  {
    if !s.q.live then (s, Failed(EIDRM))
    else
      var e := s.q.senders[i];
      var s' := s.(q := s.q.(senders := Without(s.q.senders, i), woken := s.q.woken - {e.task}));
      if signal then (s', Failed(ERESTART)) else TrySend(s', e.task, e.msg, false)
  }

  function Taken(s: Store, i: nat): Store
    requires i < |s.q.messages|
  {
    var m := s.q.messages[i];
    Store(WakeSenders(s.q.(messages := Without(s.q.messages, i), qnum := s.q.qnum - 1, cbytes := s.q.cbytes - m.size)),
          s.hdrs - 1, s.bytes - m.size)
  }

  function SleepReceiving(q: Queue, r: Receiver): Queue {
    q.(receivers := q.receivers + [r], replies := q.replies[r.task := Pending], woken := q.woken - {r.task})
  }

  // What a caller of msgrcv asks for, after convert_mode().
  datatype Want = Want(mode: Mode, typ: int, size: nat, noerror: bool, nowait: bool)

  // The loop of do_msgrcv() from one acquisition of the lock to the next.
  function Receive(s: Store, t: Task, w: Want): (Store, Outcome) {
    if !s.q.live then (s, Failed(EIDRM))
    else
      match Find(s.q.messages, w.typ, w.mode)
      case Some(i) =>
        var m := s.q.messages[i];
        if w.size < m.size && !w.noerror then (s, Failed(E2BIG))
        else if w.mode.Number? then (s, Copied(m))
        else (Taken(s, i), Received(m))
      case None =>
        if w.nowait then (s, Failed(ENOMSG))
        else (s.(q := SleepReceiving(s.q, Receiver(t, w.mode, w.typ, if w.noerror then INT_MAX else w.size))), Sleeps)
  }

  // MSG_COPY is refused together with MSG_EXCEPT and without IPC_NOWAIT.
  function Msgrcv(s: Store, t: Task, typ: int, size: nat, noerror: bool, except: bool, copy: bool, nowait: bool): (Store, Outcome)
    requires LONG_MIN <= typ <= LONG_MAX
  {
    if copy && (except || !nowait) then (s, Failed(EINVAL))
    else
      var (mode, ty) := ConvertMode(typ, copy, except);
      Receive(s, t, Want(mode, ty, size, noerror, nowait))
  }

  function IndexOf(l: seq<Receiver>, t: Task): (r: Option<nat>)
    ensures r.Some? ==> r.value < |l| && l[r.value].task == t
    ensures r.None? ==> forall j | 0 <= j < |l| :: l[j].task != t
  {
    if l == [] then None
    else if l[0].task == t then Some(0)
    else match IndexOf(l[1..], t)
      case Some(j) => Some(j + 1)
      case None => assert forall j | 0 < j < |l| :: l[j] == l[1..][j - 1]; None
  }

  // A receiver that slept runs again. None: no reply was there, so it left the list, and goes on to
  // call Receive again.
  function ResumeReceiver(q: Queue, t: Task, signal: bool): (Queue, Option<Outcome>)
    requires t in q.replies
  {
    var awake := q.(replies := q.replies - {t}, woken := q.woken - {t});
    match q.replies[t]
    case Got(m) => (awake, Some(Received(m)))
    case TooBig => (awake, Some(Failed(E2BIG)))
    case Gone => (awake, Some(Failed(EIDRM)))
    case Pending =>
      var i := IndexOf(q.receivers, t);
      var q' := if i.Some? then awake.(receivers := Without(q.receivers, i.value)) else awake;
      (q', if signal then Some(Failed(ERESTART)) else None)
  }

  // IPC_SET.
  function SetLimit(q: Queue, qbytes: int): Queue {
    WakeSenders(Nudge(q.(qbytes := qbytes)))
  }

  // freeque().
  function Remove(s: Store): Store {
    var q := Dismiss(s.q);
    Store(q.(live := false, messages := [], woken := q.woken + Tasks(s.q.senders)),
          s.hdrs - |s.q.messages|, s.bytes - s.q.cbytes)
  }

  function Created(qbytes: nat): Queue {
    Queue(true, [], 0, 0, qbytes, [], map[], [], {})
  }
}
