// The unpacker as the kernel runs it: a table of actions over global state, fed one buffer at a
// time. Each action is proved against the byte automaton of CpioSpec.
module Initramfs {
  import opened CpioSpec
  import opened CpioChunks
  import opened CpioFeed

  datatype State = Start | Collect | GotHeader | SkipIt | GotName | CopyFile | GotSymlink | Reset

  datatype HashEntry = HashEntry(key: Key, name: Path)

  const BUCKETS := 0x20

  function Bucket(major: nat, minor: nat, ino: nat): (b: nat)
    ensures b < BUCKETS
  {
    var tmp := ino + minor + major * 8;
    (tmp + tmp / 32) % 32
  }

  function BucketOf(k: Key): nat {
    Bucket(k.major, k.minor, k.ino)
  }

  // The chains hold the entries of the table, each in its bucket.
  ghost predicate Agrees(chains: seq<seq<HashEntry>>, links: map<Key, Path>) {
    && |chains| == BUCKETS
    && (forall b, i | 0 <= b < BUCKETS && 0 <= i < |chains[b]| ::
          var e := chains[b][i]; BucketOf(e.key) == b && e.key in links && links[e.key] == e.name)
    && (forall k | k in links :: Chained(chains[BucketOf(k)], k))
  }

  ghost predicate Chained(chain: seq<HashEntry>, k: Key) {
    exists i :: 0 <= i < |chain| && chain[i].key == k
  }

  lemma AgreesAdd(chains: seq<seq<HashEntry>>, links: map<Key, Path>, k: Key, name: Path)
    requires Agrees(chains, links) && k !in links
    ensures Agrees(chains[BucketOf(k) := chains[BucketOf(k)] + [HashEntry(k, name)]], links[k := name])
  {
    var b := BucketOf(k);
    var chain := chains[b] + [HashEntry(k, name)];
    assert chain[|chains[b]|].key == k;
    forall j | j in links ensures Chained(chains[b := chain][BucketOf(j)], j) {
      var i :| 0 <= i < |chains[BucketOf(j)]| && chains[BucketOf(j)][i].key == j;
      assert chains[b := chain][BucketOf(j)][i].key == j;
    }
  }

  // The stale values next_state can have where it is not about to be used.
  function NextOf(n: State): Next {
    match n
    case GotHeader => ToHeader
    case Reset => ToReset
    case _ => ToStart
  }

  predicate Stale(n: State) {
    n == Start || n == GotHeader || n == Reset
  }

  function Kept(collected: seq<byte>): HeaderBytes {
    if |collected| == HEADER then collected else seq(HEADER, _ => 0)
  }

  predicate Collectable(n: State) {
    n == GotHeader || n == GotName || n == GotSymlink
  }

  class Unpacker {
    const env: Env
    var state: State
    var nextState: State
    var chunk: seq<byte>      // the buffer being worked on
    var victim: nat           // the next byte in it
    var byteCount: nat        // how many are left
    var thisHeader: nat
    var nextHeader: nat
    var collected: seq<byte>  // what has been collected, up to collect
    var remains: nat
    var h: Hdr
    var bodyLen: nat
    var message: Option<Message>
    var fx: seq<Effect>
    const head: array<seq<HashEntry>>
    ghost var links: map<Key, Path>
    ghost var irregular: bool // in SkipIt: the entry had no next_state of its own

    ghost predicate Valid()
      reads this, head
    {
      Whole() && InState()
    }

    ghost predicate InState()
      reads this
    {
      match state
      case Start => Stale(nextState)
      case Reset => Stale(nextState)
      case Collect => remains > 0 && Collecting()
      case GotHeader => Stale(nextState) && |collected| == HEADER
      case SkipIt => SkipReady()
      case GotName => NameReady()
      case CopyFile => nextState == Reset && thisHeader + bodyLen <= nextHeader
      case GotSymlink => LinkReady()
    }

    ghost predicate LinkReady()
      reads this
    {
      Regular(h) && bodyLen == h.bodyLen && |collected| == NAlign(h.nameLen) + h.bodyLen && thisHeader <= nextHeader
    }

    ghost predicate SkipReady()
      reads this
    {
      && thisHeader <= nextHeader && Stale(nextState)
      && (nextState == GotHeader ==> |collected| == HEADER) && (!irregular ==> nextState == Reset)
    }

    ghost predicate NameReady()
      reads this
    {
      Regular(h) && bodyLen == h.bodyLen && |collected| == NAlign(h.nameLen) && thisHeader + bodyLen <= nextHeader
    }

    // The part of Valid() that does not depend on the state.
    ghost predicate Whole()
      reads this, head
    {
      head.Length == BUCKETS && Agrees(head[..], links) && victim + byteCount == |chunk|
    }

    // What is still to be collected fits the entry, and so the buffer set aside for it.
    ghost predicate Collecting()
      reads this
    {
      match nextState
      case GotHeader => |collected| + remains == HEADER
      case GotName =>
        Regular(h) && bodyLen == h.bodyLen && |collected| + remains == NAlign(h.nameLen) &&
        thisHeader + remains + bodyLen <= nextHeader
      case GotSymlink =>
        Regular(h) && bodyLen == h.bodyLen && |collected| + remains == NAlign(h.nameLen) + h.bodyLen &&
        thisHeader + remains <= nextHeader
      case _ => false
    }

    ghost function Base(p: Phase): Spec
      reads this
    {
      Spec(p, thisHeader, NextOf(nextState), fx, links)
    }

    ghost function Good(p: Phase): Spec
      reads this
    {
      Spec(p, thisHeader, ToReset, fx, links)
    }

    // The automaton's state. A state of the table in which no byte is needed to go on stands for the
    // one it goes on to.
    ghost function Abs(): Spec
      reads this
    {
      if message.Some? then Spec(Failed(message.value), 0, ToReset, fx, links)
      else
        match state
        case Start => Base(Header([]))
        case Reset => Base(Idle)
        case Collect => AbsCollect()
        case GotHeader => EndHeader(Base(Idle), Kept(collected))
        case SkipIt => AbsSkip()
        case GotName => EndName(env, Good(Idle), h, collected, nextHeader)
        case CopyFile => StartBody(Good(Idle), h, bodyLen, nextHeader)
        case GotSymlink =>
          if |collected| == NAlign(h.nameLen) + h.bodyLen then EndLink(Good(Idle), h, collected, nextHeader) else Good(Idle)
    }

    ghost function AbsCollect(): Spec
      reads this
    {
      match nextState
      case GotName => Good(Name(h, collected, nextHeader))
      case GotSymlink => Good(Link(h, collected, nextHeader))
      case _ => Base(Header(collected))
    }

    ghost function AbsSkip(): Spec
      reads this
    {
      var then_ := LeftOver(NextOf(nextState), Kept(collected));
      if !irregular then Settle(Good(Idle), nextHeader)
      else if thisHeader < nextHeader then Base(Bad(nextHeader, then_))
      else Past(Base(Idle), then_)
    }

    ghost function Rest(): seq<byte>
      requires victim <= |chunk|
      reads this
    {
      chunk[victim..]
    }

    // Where the rest of the buffer leads.
    ghost function Goal(): Spec
      requires victim <= |chunk|
      reads this
    {
      Cut(FeedAll(env, Abs(), Rest()))
    }

    // Each step that does not wait for more bytes either eats some or comes closer to one that does.
    ghost function Rank(): nat
      reads this
    {
      match state
      case SkipIt => if thisHeader >= nextHeader && nextState != Reset then 8 else 2
      case Start => 7
      case GotHeader => 6
      case GotName => 5
      case GotSymlink => 5
      case CopyFile => 4
      case Collect => 1
      case Reset => 0
    }

    ghost predicate Further(count: nat, rank: nat)
      reads this
    {
      byteCount < count || (byteCount == count && Rank() < rank)
    }

    // unpack_to_rootfs() starts with everything clear.
    constructor (e: Env)
      ensures Valid() && fresh(head) && env == e
      ensures Abs() == Fresh()
    {
      env := e;
      state, nextState, chunk, victim, byteCount := Start, Start, [], 0, 0;
      thisHeader, nextHeader, collected, remains := 0, 0, [], 0;
      bodyLen, message, fx, links, irregular := 0, None, [], map[], false;
      head := new seq<HashEntry>[BUCKETS](_ => []);
    }

    method Eat(n: nat)
      requires n <= byteCount
      modifies `victim, `thisHeader, `byteCount
      ensures victim == old(victim) + n && thisHeader == old(thisHeader) + n && byteCount == old(byteCount) - n
    {
      victim := victim + n;
      thisHeader := thisHeader + n;
      byteCount := byteCount - n;
    }

    method Error(m: Message)
      modifies `message
      ensures message == if old(message).None? then Some(m) else old(message)
    {
      if message.None? {
        message := Some(m);
      }
    }

    method ReadInto(size: nat, next: State)
      requires victim + byteCount == |chunk|
      modifies `victim, `thisHeader, `byteCount, `collected, `state, `nextState, `remains
      ensures victim + byteCount == |chunk|
      ensures old(byteCount) >= size ==>
        state == next && nextState == old(nextState) && victim == old(victim) + size
        && thisHeader == old(thisHeader) + size && collected == old(chunk[victim..victim + size]) && remains == old(remains)
      ensures old(byteCount) < size ==>
        state == Collect && nextState == next && collected == [] && remains == size && unchanged(`victim) && unchanged(`thisHeader)
    {
      if byteCount >= size {
        collected := chunk[victim..victim + size];
        Eat(size);
        state := next;
      } else {
        collected := [];
        remains := size;
        nextState := next;
        state := Collect;
      }
    }

    method DoStart() returns (stop: bool)
      requires Valid() && state == Start && message.None?
      modifies `victim, `thisHeader, `byteCount, `collected, `state, `nextState, `remains
      ensures Valid() && !stop && Goal() == old(Goal()) && Further(old(byteCount), old(Rank()))
      ensures byteCount < old(byteCount) || state == Collect
    {
      hide EndHeader, EndName, EndLink, StartBody, Settle, Past, FeedAll, Agrees, LeftOver;
      ghost var s, rest := Abs(), Rest();
      ReadInto(HEADER, GotHeader);
      ReadHeader(env, s, rest);
      if state == GotHeader {
        assert collected == rest[..HEADER] && Rest() == rest[HEADER..];
      } else {
        assert Rest() == rest && Abs() == s.(next := ToHeader);
      }
      return false;
    }

    lemma AtCollect()
      requires Valid() && state == Collect && message.None?
      ensures Abs() == AbsCollect() && Wants(Abs(), remains) && Abs().phase.got == collected
      ensures Cut(Abs()) == Abs()
    {
    }

    // During a collection, and when nothing remains to be collected.
    lemma StillValid()
      requires Whole() && Collecting() && (if remains > 0 then state == Collect else state == nextState)
      ensures Valid()
    {
    }

    // Collecting n bytes, whether more are wanted or not.
    lemma AfterCollect(s: Spec, n: nat)
      requires Valid() && message.None? && (state == Collect || (state == nextState && Collectable(state)))
      requires Wants(s, n) && s.fx == fx && s.links == links && s.offset + n == thisHeader
      requires match nextState
        case GotHeader => s.phase.Header? && s.next == ToHeader
        case GotName => s.phase.Name? && s.next == ToReset && s.phase.h == h && s.phase.until == nextHeader
        case GotSymlink => s.phase.Link? && s.next == ToReset && s.phase.h == h && s.phase.until == nextHeader
        case _ => false
      ensures Abs() == AfterGot(env, s, n, collected)
    {
      hide EndHeader, EndName, EndLink, StartBody, Settle, Past, Agrees, LeftOver, AbsSkip, SkipReady;
    }

    // n bytes go from the buffer to what has been collected.
    method Gather(n: nat)
      requires n <= byteCount && n <= remains && victim + byteCount == |chunk|
      modifies `collected, `victim, `thisHeader, `byteCount, `remains
      ensures victim + byteCount == |chunk| && byteCount == old(byteCount) - n && thisHeader == old(thisHeader) + n
      ensures remains == old(remains) - n && n <= |old(Rest())| && Rest() == old(Rest())[n..]
      ensures collected == old(collected) + old(Rest())[..n]
      ensures old(Collecting()) ==> Collecting()
    {
      hide Regular, NAlign;
      ghost var rest := Rest();
      assert chunk[victim..victim + n] == rest[..n];
      collected := collected + chunk[victim..victim + n];
      Eat(n);
      remains := remains - n;
      assert Rest() == rest[n..];
    }

    lemma CollectParts()
      requires Valid() && state == Collect
      ensures Whole() && remains > 0 && Collecting()
      ensures nextState == GotHeader || nextState == GotName || nextState == GotSymlink
    {
    }

    method DoCollect() returns (stop: bool)
      requires Valid() && state == Collect && message.None?
      modifies `collected, `victim, `thisHeader, `byteCount, `remains, `state
      ensures Valid() && Goal() == old(Goal())
      ensures if stop then byteCount == 0 && Cut(Abs()) == Abs() else byteCount < old(byteCount)
    {
      hide Abs, Valid, Agrees, FeedAll, AfterGot, Cut, Collecting;
      CollectParts();
      AtCollect();
      ghost var s, rest, got := Abs(), Rest(), collected;
      var n := remains;
      if byteCount < n {
        n := byteCount;
      }
      WantsLess(s, remains, n);
      Collected(env, s, rest, n);
      Gather(n);
      hide Wants;
      if remains != 0 {
        StillValid();
        AfterCollect(s, n);
        AtCollect();
        return true;
      }
      state := nextState;
      StillValid();
      AfterCollect(s, n);
      return false;
    }

    function ThenOf(): Then
      reads this
    {
      LeftOver(NextOf(nextState), Kept(collected))
    }

    lemma AtSkip()
      requires Whole() && state == SkipIt && SkipReady() && message.None?
      ensures Valid() && Abs() == Skipping(Base(Idle), irregular, nextHeader, ThenOf())
      ensures !irregular ==> ThenOf().ThenReset?
    {
      hide Settle, EndHeader;
    }

    lemma SkipParts()
      requires Valid() && state == SkipIt
      ensures Whole() && SkipReady()
    {
    }

    // next_state is where the machine goes on.
    lemma GoesOn()
      requires Whole() && state == nextState && Stale(state) && (state == GotHeader ==> |collected| == HEADER) && message.None?
      ensures Valid() && Abs() == Past(Base(Idle), ThenOf())
    {
      hide EndHeader;
    }

    method DoSkip() returns (stop: bool)
      requires Valid() && state == SkipIt && message.None?
      modifies `victim, `thisHeader, `byteCount, `state
      ensures Valid() && Goal() == old(Goal())
      ensures if stop then byteCount == 0 && Cut(Abs()) == Abs() else Further(old(byteCount), old(Rank()))
    {
      hide Abs, Valid, Agrees, FeedAll, Skipping, Past;
      SkipParts();
      AtSkip();
      ghost var s, rest := Base(Idle), Rest();
      if thisHeader + byteCount < nextHeader {
        SkipSome(env, s, irregular, nextHeader, ThenOf(), rest, byteCount);
        Eat(byteCount);
        assert Rest() == rest[|rest|..];
        AtSkip();
        return true;
      } else {
        SkipRest(env, s, irregular, nextHeader, ThenOf(), rest, nextHeader - thisHeader);
        ghost var n := nextHeader - thisHeader;
        Eat(nextHeader - thisHeader);
        assert Rest() == rest[n..];
        state := nextState;
        GoesOn();
        return false;
      }
    }

    method ParseHeader()
      requires |collected| == HEADER
      modifies `h, `bodyLen, `nextHeader
      ensures h == Parse(collected) && bodyLen == h.bodyLen && nextHeader == Until(thisHeader, h)
    {
      hide Parse;
      h := Parse(collected);
      bodyLen := h.bodyLen;
      nextHeader := (thisHeader + NAlign(h.nameLen) + bodyLen + 3) / 4 * 4;
    }

    // A regular entry that is not a link: its name follows.
    method ReadName()
      requires Valid() && message.None? && byteCount == |Rest()| && Regular(h) && bodyLen == h.bodyLen
      requires thisHeader + NAlign(h.nameLen) + bodyLen <= nextHeader
      modifies `victim, `thisHeader, `byteCount, `collected, `state, `nextState, `remains
      ensures Valid() && Goal() == Cut(FeedAll(env, old(Good(Name(h, [], nextHeader))), old(Rest())))
      ensures byteCount < old(byteCount) || (byteCount == old(byteCount) && state == Collect)
    {
      hide EndHeader, EndName, EndLink, StartBody, Settle, Past, FeedAll, Agrees, LeftOver, AbsSkip;
      ghost var s, rest, n := Good(Name(h, [], nextHeader)), Rest(), NAlign(h.nameLen);
      ReadInto(NAlign(h.nameLen), GotName);
      if state == GotName {
        Collected(env, s, rest, n);
        assert collected == [] + rest[..n] && Rest() == rest[n..];
      } else {
        assert Rest() == rest;
      }
    }

    // A link: its name and its target follow.
    method ReadLink()
      requires Valid() && message.None? && Regular(h) && bodyLen == h.bodyLen
      requires thisHeader + NAlign(h.nameLen) + bodyLen <= nextHeader
      modifies `collected, `state, `nextState, `remains
      ensures Valid() && state == Collect && Abs() == old(Good(Link(h, [], nextHeader)))
    {
      hide EndHeader, EndName, EndLink, StartBody, Agrees, AbsSkip, Regular;
      collected := [];
      remains := NAlign(h.nameLen) + bodyLen;
      nextState := GotSymlink;
      state := Collect;
    }

    method CheckMagic() returns (bad: bool)
      requires Valid() && state == GotHeader && message.None?
      modifies `message
      ensures Valid()
      ensures bad ==> message.Some? && Abs() == old(Abs())
      ensures !bad ==> message.None? && collected[..6] != Ascii("070707") && collected[..6] == Ascii("070701")
    {
      hide Parse, Agrees, EndName, EndLink, StartBody, AbsSkip, AbsCollect;
      if collected[..6] == Ascii("070707") {
        Error(OldFormat);
        return true;
      }
      if collected[..6] != Ascii("070701") {
        Error(NoMagic);
        return true;
      }
      return false;
    }

    lemma AtHeader(s: Spec)
      requires Valid() && message.None? && state == SkipIt && irregular && |collected| == HEADER && Stale(nextState)
      requires s == Base(Idle) && collected[..6] == Ascii("070701") && collected[..6] != Ascii("070707")
      requires h == Parse(collected) && nextHeader == Until(thisHeader, h)
      ensures thisHeader < nextHeader
      ensures !Regular(h) ==> EndHeader(s, collected) == Abs()
      ensures Regular(h) && IsLnk(h.mode) ==> EndHeader(s, collected) == Good(Link(h, [], nextHeader))
      ensures Regular(h) && !IsLnk(h.mode) ==> EndHeader(s, collected) == Good(Name(h, [], nextHeader))
    {
      hide Parse, Agrees, EndName, EndLink, StartBody, AbsCollect;
    }

    // What do_header() does first: unless it goes on with the entry, that will be skipped.
    method SkipByDefault(ghost s: Spec)
      requires Valid() && state == GotHeader && message.None? && s == Base(Idle)
      requires collected[..6] == Ascii("070701") && collected[..6] != Ascii("070707")
      modifies `h, `bodyLen, `nextHeader, `irregular, `state
      ensures Valid() && state == SkipIt && bodyLen == h.bodyLen && thisHeader < nextHeader
      ensures thisHeader + NAlign(h.nameLen) + bodyLen <= nextHeader
      ensures |collected| == HEADER && old(Abs()) == EndHeader(s, collected)
      ensures !Regular(h) ==> EndHeader(s, collected) == Abs()
      ensures Regular(h) && IsLnk(h.mode) ==> EndHeader(s, collected) == Good(Link(h, [], nextHeader))
      ensures Regular(h) && !IsLnk(h.mode) ==> EndHeader(s, collected) == Good(Name(h, [], nextHeader))
    {
      hide EndHeader, EndName, EndLink, StartBody, Settle, Past, Agrees, Parse, AbsSkip, AbsCollect, Regular;
      ParseHeader();
      state := SkipIt;
      irregular := true;
      AtHeader(s);
    }

    method DoHeader() returns (stop: bool)
      requires Valid() && state == GotHeader && message.None?
      modifies `message, `h, `bodyLen, `nextHeader, `irregular, `victim, `thisHeader, `byteCount, `collected, `state, `nextState, `remains
      ensures Valid() && Goal() == old(Goal())
      ensures if stop then message.Some? && byteCount == old(byteCount) else message.None? && Further(old(byteCount), old(Rank()))
    {
      hide Abs, InState, FeedAll, Cut, EndHeader, Agrees, Until, NAlign;
      ghost var s := Base(Idle);
      stop := CheckMagic();
      if stop {
        return;
      }
      SkipByDefault(s);
      if h.nameLen <= 0 || h.nameLen > PATH_MAX {
        return false;
      }
      if IsLnk(h.mode) {
        if bodyLen > PATH_MAX {
          return false;
        }
        ReadLink();
        return false;
      }
      if IsReg(h.mode) || bodyLen == 0 {
        ReadName();
      }
      return false;
    }

    lemma AtReset()
      requires Whole() && state == Reset && Stale(nextState)
      ensures Valid() && Cut(Abs()) == Abs()
      ensures message.None? ==> Abs() == Base(Idle)
      ensures message.Some? ==> Abs() == Spec(Failed(message.value), 0, ToReset, fx, links)
    {
    }

    lemma ResetParts()
      requires Valid() && state == Reset
      ensures Whole() && Stale(nextState)
    {
    }

    method DoReset() returns (stop: bool)
      requires Valid() && state == Reset
      modifies `victim, `thisHeader, `byteCount, `message
      ensures Valid() && Goal() == old(Goal()) && stop && Cut(Abs()) == Abs() && byteCount <= old(byteCount)
      ensures old(message).Some? ==> message == old(message)
      ensures message.None? ==> byteCount == 0 || (chunk[victim] != 0 && thisHeader % 4 == 0)
      ensures old(byteCount) > 0 && old(chunk[victim]) == 0 ==> byteCount < old(byteCount)
    {
      hide Valid, Abs, Agrees, Stale, FeedAll, Cut;
      ResetParts();
      AtReset();
      while byteCount > 0 && chunk[victim] == 0
        invariant Whole() && Valid() && Goal() == old(Goal()) && message == old(message)
        invariant byteCount < old(byteCount) || (victim == old(victim) && byteCount == old(byteCount))
        decreases byteCount
      {
        AtReset();
        ghost var s, rest := Abs(), Rest();
        FeedPadding(env, s, rest);
        Eat(1);
        assert Rest() == rest[1..];
        AtReset();
      }
      AtReset();
      if byteCount > 0 && thisHeader % 4 != 0 {
        ghost var s, rest := Abs(), Rest();
        FeedBrokenPadding(env, s, rest);
        Error(BrokenPadding);
        AtReset();
        FeedFailedIf(env, Abs(), rest);
      }
      return true;
    }

    method FindLink(path: Path) returns (found: Option<Path>)
      requires Agrees(head[..], links)
      modifies head, `links
      ensures Agrees(head[..], links)
      ensures KeyOf(h) in old(links) ==> found == Some(old(links)[KeyOf(h)]) && links == old(links)
      ensures KeyOf(h) !in old(links) ==> found == None && links == old(links)[KeyOf(h) := path]
    {
      var b := Bucket(h.major, h.minor, h.ino);
      var i := 0;
      while i < |head[b]|
        invariant 0 <= i <= |head[b]|
        invariant forall j | 0 <= j < i :: head[b][j].key != KeyOf(h)
      {
        var e := head[b][i];
        if e.key.ino == h.ino && e.key.minor == h.minor && e.key.major == h.major && e.key.kind == Kind(h.mode) {
          assert head[..][b][i] == e;
          return Some(e.name);
        }
        i := i + 1;
      }
      assert KeyOf(h) in links ==> Chained(head[..][b], KeyOf(h));
      AgreesAdd(head[..], links, KeyOf(h), path);
      ghost var chains := head[..][b := head[b] + [HashEntry(KeyOf(h), path)]];
      head[b] := head[b] + [HashEntry(KeyOf(h), path)];
      assert head[..] == chains;
      links := links[KeyOf(h) := path];
      return None;
    }

    method FreeHash()
      requires head.Length == BUCKETS
      modifies head, `links
      ensures Agrees(head[..], links) && links == map[]
    {
      var p := 0;
      while p < BUCKETS
        invariant 0 <= p <= BUCKETS
        invariant forall b | 0 <= b < p :: head[b] == []
      {
        head[p] := [];
        p := p + 1;
      }
      links := map[];
    }

    // maybe_link(): 1 if the path now names an existing file, -1 if that failed, 0 otherwise.
    method LinkExisting(path: Path) returns (ml: int)
      requires Agrees(head[..], links)
      modifies head, `links, `fx
      ensures Agrees(head[..], links)
      ensures (Good(Idle), ml) == MaybeLink(env, old(Good(Idle)), h, path)
    {
      if h.nlink >= 2 {
        var first := FindLink(path);
        if first.Some? {
          fx := fx + [CleanPath(path, 0)] + [HardLink(first.value, path)];
          assert fx == old(fx) + [CleanPath(path, 0), HardLink(first.value, path)];
          return if env.links(fx) then 1 else -1;
        }
      }
      return 0;
    }

    // do_name() for a regular file: link it or open it.
    lemma StartsCopy()
      requires Whole() && state == CopyFile && nextState == Reset && thisHeader + bodyLen <= nextHeader && message.None?
      ensures Valid() && Abs() == StartBody(Good(Idle), h, bodyLen, nextHeader)
    {
    }

    lemma SkipsRest()
      requires Valid() && state == SkipIt && !irregular
      ensures Whole() && nextState == Reset && thisHeader <= nextHeader
    {
    }

    method NameFile(path: Path)
      requires Valid() && message.None? && state == SkipIt && !irregular && bodyLen == h.bodyLen
      requires thisHeader + bodyLen <= nextHeader
      modifies head, `links, `fx, `state
      ensures Valid() && (state == SkipIt || state == CopyFile)
      ensures Abs() == EndRegular(env, old(Good(Idle)), h, path, nextHeader)
    {
      hide Abs, Valid, Agrees, MaybeLink, Settle, StartBody;
      SkipsRest();
      var ml := LinkExisting(path);
      DoneWith();
      ghost var s := Good(Idle);
      if ml >= 0 {
        fx := fx + [Open(path, ml != 1, h.mode)];
        DoneWith();
        if !env.opens(fx) {
          return;
        }
        fx := fx + [Own(h.uid, h.gid, h.mode)];
        if bodyLen > 0 {
          fx := fx + [SetSize(bodyLen)];
        }
        state := CopyFile;
        assert fx == s.fx + [Open(path, ml != 1, h.mode)] + [Own(h.uid, h.gid, h.mode)] + if h.bodyLen > 0 then [SetSize(h.bodyLen)] else [];
        StartsCopy();
      }
    }

    method NameNode(path: Path)
      requires Valid() && message.None? && state == SkipIt && !irregular
      modifies head, `links, `fx
      ensures Valid() && Abs() == EndNode(env, old(Good(Idle)), h, path, nextHeader)
    {
      hide Agrees, MaybeLink, Past, EndHeader, EndName, EndLink, StartBody, AbsCollect;
      var ml := LinkExisting(path);
      if ml == 0 {
        fx := fx + [MakeNode(path, h.mode, h.rmajor, h.rminor, h.uid, h.gid, h.mtime)];
      }
    }

    lemma AtName()
      requires Valid() && state == GotName && message.None?
      ensures Whole() && NameReady() && Abs() == EndName(env, Good(Idle), h, collected, nextHeader)
    {
      hide EndName;
    }

    method DoName() returns (stop: bool)
      requires Valid() && state == GotName && message.None?
      modifies head, `links, `fx, `state, `nextState, `irregular
      ensures Valid() && !stop && Abs() == old(Abs()) && Rank() < old(Rank())
    {
      hide Abs, Valid, Agrees, Settle, EndRegular, EndNode, CStr, Ascii, Regular;
      AtName();
      state := SkipIt;
      nextState := Reset;
      irregular := false;
      DoneWith();
      var path := CStr(collected);
      if path == Ascii("TRAILER!!!") {
        FreeHash();
        DoneWith();
        return false;
      }
      fx := fx + [CleanPath(path, h.mode)];
      DoneWith();
      if IsReg(h.mode) {
        NameFile(path);
      } else if IsDir(h.mode) {
        fx := fx + [MakeDir(path, h.mode, h.uid, h.gid, h.mtime)];
        DoneWith();
      } else if IsNode(h.mode) {
        NameNode(path);
      }
      return false;
    }

    // xwrite() of the next n bytes.
    method WriteBytes(n: nat)
      requires n <= byteCount && victim + byteCount == |chunk|
      modifies `fx
      ensures n <= |Rest()| && fx == Written(old(fx), Rest()[..n])
    {
      fx := Written(fx, chunk[victim..victim + n]);
      assert chunk[victim..victim + n] == Rest()[..n];
    }

    // The body is complete: the rest of it is written, the file closed.
    method FinishBody()
      requires victim + byteCount == |chunk| && byteCount >= bodyLen
      modifies `fx, `victim, `thisHeader, `byteCount, `state, `irregular
      ensures victim + byteCount == |chunk| && byteCount == old(byteCount) - bodyLen
      ensures state == SkipIt && !irregular && thisHeader == old(thisHeader) + bodyLen
      ensures bodyLen <= |old(Rest())| && Rest() == old(Rest())[bodyLen..]
      ensures fx == Written(old(fx), old(Rest())[..bodyLen]) + [Close(h.mtime)]
    {
      hide Written;
      ghost var rest := Rest();
      irregular := false;
      WriteBytes(bodyLen);
      fx := fx + [Close(h.mtime)];
      Eat(bodyLen);
      assert Rest() == rest[bodyLen..];
      state := SkipIt;
    }

    lemma AtCopy()
      requires Valid() && state == CopyFile && message.None?
      ensures Whole() && nextState == Reset && thisHeader + bodyLen <= nextHeader
      ensures Abs() == StartBody(Good(Idle), h, bodyLen, nextHeader)
    {
    }

    // An entry that is done with: what is left of it is skipped.
    lemma DoneWith()
      requires Whole() && state == SkipIt && nextState == Reset && !irregular && thisHeader <= nextHeader && message.None?
      ensures Valid() && Abs() == Settle(Good(Idle), nextHeader)
    {
    }

    // The rest of the body is in the buffer.
    method CopyRest()
      requires Valid() && state == CopyFile && message.None? && byteCount >= bodyLen
      modifies `fx, `victim, `thisHeader, `byteCount, `state, `irregular
      ensures Valid() && state == SkipIt && Goal() == old(Goal()) && byteCount <= old(byteCount)
    {
      hide Abs, Valid, Agrees, FeedAll, Settle, Cut, StartBody, Written;
      AtCopy();
      ghost var s, data, rest := Good(Idle), Rest()[..bodyLen], Rest()[bodyLen..];
      Copied(env, s, data, rest, h, bodyLen, nextHeader);
      NoBodyLeft(Onward(s, data), h, nextHeader);
      assert Rest() == data + rest;
      FinishBody();
      DoneWith();
    }

    method CopySome()
      requires Valid() && state == CopyFile && message.None? && byteCount < bodyLen
      modifies `fx, `victim, `thisHeader, `byteCount, `bodyLen
      ensures Valid() && byteCount == 0 && Goal() == old(Goal()) && Cut(Abs()) == Abs()
    {
      hide Abs, Valid, Agrees, FeedAll, StartBody, Written;
      AtCopy();
      ghost var s, data := Good(Idle), Rest();
      Copied(env, s, data, [], h, bodyLen, nextHeader);
      assert data + [] == data;
      StartsBody(Onward(s, data), h, bodyLen - byteCount, nextHeader);
      WriteBytes(byteCount);
      bodyLen := bodyLen - byteCount;
      Eat(byteCount);
      assert Rest() == [] && data[..|data|] == data;
      StartsCopy();
      FedNothing(env, Abs());
    }

    method DoCopy() returns (stop: bool)
      requires Valid() && state == CopyFile && message.None?
      modifies `fx, `victim, `thisHeader, `byteCount, `bodyLen, `state, `irregular
      ensures Valid() && Goal() == old(Goal())
      ensures if stop then byteCount == 0 && Cut(Abs()) == Abs() else Further(old(byteCount), old(Rank()))
    {
      hide Abs, FeedAll, Agrees;
      if byteCount >= bodyLen {
        CopyRest();
        return false;
      } else {
        CopySome();
        return true;
      }
    }

    lemma AtSymlink()
      requires Valid() && state == GotSymlink && message.None?
      ensures Whole() && LinkReady() && Abs() == EndLink(Good(Idle), h, collected, nextHeader)
    {
      hide EndLink;
    }

    method DoSymlink() returns (stop: bool)
      requires Valid() && state == GotSymlink && message.None?
      modifies `fx, `state, `nextState, `irregular
      ensures Valid() && !stop && Abs() == old(Abs()) && Rank() < old(Rank())
    {
      hide Abs, Valid, Agrees, Settle, CStr, Regular, NAlign;
      AtSymlink();
      var path := CStr(collected);
      fx := fx + [CleanPath(path, 0)] + [MakeSymlink(CStr(collected[NAlign(h.nameLen)..]), path, h.uid, h.gid, h.mtime)];
      state := SkipIt;
      nextState := Reset;
      irregular := false;
      assert fx == old(fx) + [CleanPath(path, 0), MakeSymlink(CStr(collected[NAlign(h.nameLen)..]), path, h.uid, h.gid, h.mtime)];
      DoneWith();
      return false;
    }

    // In these states the next byte is certain to be eaten.
    predicate Hungry()
      requires victim + byteCount == |chunk|
      reads this
    {
      state == Start || state == Collect || (state == Reset && byteCount > 0 && chunk[victim] == 0)
    }

    // One entry of the table.
    method Act() returns (stop: bool)
      requires Valid() && (message.None? || state == Reset)
      modifies this, head
      ensures Valid() && unchanged(`chunk) && Goal() == old(Goal())
      ensures old(message).Some? ==> stop && message == old(message) && state == Reset
      ensures message.Some? && old(message).None? ==> stop
      ensures stop && message.None? ==>
        (byteCount == 0 && Cut(Abs()) == Abs()) || (state == Reset && byteCount > 0 && chunk[victim] != 0 && thisHeader % 4 == 0)
      ensures !stop ==> message.None? && Further(old(byteCount), old(Rank()))
      ensures byteCount <= old(byteCount)
      ensures old(state) == Start ==> !stop
      ensures old(Hungry()) && old(byteCount) > 0 ==> byteCount < old(byteCount) || Hungry()
    {
      hide Abs, Agrees, FeedAll;
      match state
      case Start => stop := DoStart();
      case Collect => stop := DoCollect();
      case GotHeader => stop := DoHeader();
      case SkipIt => stop := DoSkip();
      case GotName => stop := DoName();
      case CopyFile => stop := DoCopy();
      case GotSymlink => stop := DoSymlink();
      case Reset => stop := DoReset();
    }

    method Load(buf: seq<byte>)
      requires Valid()
      modifies `chunk, `victim, `byteCount
      ensures Valid() && Abs() == old(Abs()) && chunk == buf && victim == 0 && byteCount == |buf| && Rest() == buf
    {
      hide Agrees, EndHeader, EndName, EndLink, StartBody, Settle, Past;
      hide Regular, Kept, LeftOver, NAlign, Stale, NextOf;
      byteCount := |buf|;
      victim := 0;
      chunk := buf;
    }

    // write_buffer(): act until more bytes are needed.
    method WriteBuffer(buf: seq<byte>) returns (written: nat)
      requires Valid() && (message.None? || state == Reset)
      modifies this, head
      ensures Valid() && written <= |buf|
      ensures Cut(FeedAll(env, Abs(), buf[written..])) == Flush(env, old(Abs()), buf)
      ensures written == |buf| ==> Cut(Abs()) == Abs()
      ensures written < |buf| && message.None? ==> state == Reset && (buf[written] != 0 ==> thisHeader % 4 == 0)
      ensures old(message).Some? ==> message == old(message) && state == Reset
      ensures buf != [] && message.None? && (old(state) == Start || (old(state) == Reset && buf[0] == 0)) ==> written > 0
    {
      hide Abs, Agrees, InState, FeedAll;
      Load(buf);
      var stop := Act();
      while !stop
        invariant Valid() && chunk == buf && Goal() == Flush(env, old(Abs()), buf)
        invariant !stop ==> message.None?
        invariant stop && message.None? ==>
          (byteCount == 0 && Cut(Abs()) == Abs()) || (state == Reset && byteCount > 0 && chunk[victim] != 0 && thisHeader % 4 == 0)
        invariant old(message).Some? ==> message == old(message) && state == Reset
        invariant buf != [] && message.None? && (old(state) == Start || (old(state) == Reset && buf[0] == 0)) ==>
          byteCount < |buf| || (!stop && Hungry())
        decreases !stop, byteCount, Rank()
      {
        stop := Act();
      }
      written := victim;
      if message.Some? {
        AbsFailed();
      }
    }

    lemma AbsFailed()
      requires message.Some?
      ensures Abs().phase.Failed? && Cut(Abs()) == Abs()
    {
    }

    // An archive starts where a buffer has a '0' after the padding.
    method Begin(cur: seq<byte>)
      requires Valid() && message.None? && state == Reset && cur != [] && cur[0] == 48 && thisHeader % 4 == 0
      modifies `state
      ensures Valid() && state == Start && FeedAll(env, Abs(), cur) == FeedAll(env, old(Abs()), cur)
    {
      hide Agrees, EndHeader, EndName, EndLink, StartBody, Settle, Past, AbsCollect, AbsSkip;
      IdleStarts(env, Abs(), cur);
      state := Start;
    }

    // flush_buffer(): -1 once there was an error, and otherwise all of the buffer is used up. After a
    // piece of junk the loop runs write_buffer() once more on bytes it has seen already; by then the
    // error is noted and nothing comes of it.
    method FlushBuffer(buf: seq<byte>) returns (r: int)
      requires Valid()
      modifies this, head
      ensures Valid() && Abs() == Flush(env, old(Abs()), buf)
      ensures r == if old(message).Some? then -1 else |buf|
    {
      hide Agrees, EndHeader, EndName, EndLink, StartBody, Settle, Past, AbsCollect, AbsSkip, LinkReady, NameReady, SkipReady;
      if message.Some? {
        FeedFailed(env, Abs(), buf);
        return -1;
      }
      var cur := buf;
      var written: nat := WriteBuffer(cur);
      while written < |cur| && message.None?
        invariant Valid() && written <= |cur|
        invariant Cut(FeedAll(env, Abs(), cur[written..])) == Flush(env, old(Abs()), buf)
        invariant written == |cur| ==> Cut(Abs()) == Abs()
        invariant written < |cur| && message.None? ==> state == Reset && (cur[written] != 0 ==> thisHeader % 4 == 0)
        decreases message.None?, |cur| - written
      {
        var c := cur[written];
        if c == 48 {
          cur := cur[written..];
          Begin(cur);
        } else if c == 0 {
          cur := cur[written..];
          state := Reset;
        } else {
          IdleJunk(env, Abs(), cur[written..]);
          Error(Junk);
          FeedFailed(env, Abs(), cur);
        }
        written := WriteBuffer(cur);
      }
      if message.Some? {
        AbsFailed();
        FeedFailed(env, Abs(), cur[written..]);
      }
      return |buf|;
    }
  }

  // A header that is all there is read in one piece, and otherwise collected; both come to the same.
  lemma ReadHeader(env: Env, s: Spec, rest: seq<byte>)
    requires s.phase == Header([])
    ensures |rest| >= HEADER ==>
      FeedAll(env, s, rest) == FeedAll(env, EndHeader(Over(s, HEADER), rest[..HEADER]), rest[HEADER..])
    ensures |rest| < HEADER ==> Cut(FeedAll(env, s, rest)) == Cut(FeedAll(env, s.(next := ToHeader), rest))
  {
    hide EndHeader;
    if |rest| >= HEADER {
      assert rest == rest[..HEADER] + rest[HEADER..] && [] + rest[..HEADER] == rest[..HEADER];
      FeedSplits(env, s, rest[..HEADER], rest[HEADER..]);
      FeedHeader(env, s, [], rest[..HEADER]);
    } else {
      FeedHeader(env, s, [], rest);
      FeedHeader(env, s.(next := ToHeader), [], rest);
    }
  }

  // Bytes that go to the current phase of a collection, up to its end.
  function AfterGot(env: Env, s: Spec, n: nat, got: seq<byte>): Spec {
    match s.phase
    case Header(_) => OnHeader(Over(s, n), got)
    case Name(h, _, until) => OnName(env, Over(s, n), h, got, until)
    case Link(h, _, until) => OnLink(Over(s, n), h, got, until)
    case _ => s
  }

  predicate Wants(s: Spec, n: nat) {
    match s.phase
    case Header(got) => |got| < HEADER && |got| + n <= HEADER
    case Name(h, got, until) => |got| < NAlign(h.nameLen) && |got| + n <= NAlign(h.nameLen)
    case Link(h, got, until) => |got| < NAlign(h.nameLen) + h.bodyLen && |got| + n <= NAlign(h.nameLen) + h.bodyLen
    case _ => false
  }

  lemma FedNothing(env: Env, s: Spec)
    ensures FeedAll(env, s, []) == s
  {
  }

  lemma WantsLess(s: Spec, n: nat, m: nat)
    requires Wants(s, n) && m <= n
    ensures Wants(s, m)
  {
  }

  lemma Collected(env: Env, s: Spec, rest: seq<byte>, n: nat)
    requires n <= |rest| && Wants(s, n)
    ensures FeedAll(env, s, rest) == FeedAll(env, AfterGot(env, s, n, s.phase.got + rest[..n]), rest[n..])
  {
    hide EndHeader, EndName, EndLink;
    assert rest == rest[..n] + rest[n..];
    FeedSplits(env, s, rest[..n], rest[n..]);
    match s.phase
    case Header(got) => FeedHeader(env, s, got, rest[..n]);
    case Name(h, got, until) => FeedName(env, s, h, got, until, rest[..n]);
    case Link(h, got, until) => FeedLink(env, s, h, got, until, rest[..n]);
  }

  // An entry is being skipped; an irregular one has a next_state left over from before.
  function Skipping(s: Spec, irregular: bool, until: nat, then_: Then): Spec {
    if !irregular then Settle(s, until)
    else if s.offset < until then s.(phase := Bad(until, then_))
    else Past(s, then_)
  }

  lemma SkipSome(env: Env, s: Spec, irregular: bool, until: nat, then_: Then, rest: seq<byte>, n: nat)
    requires n <= |rest| && s.phase == Idle && s.offset + n < until
    ensures FeedAll(env, Skipping(s, irregular, until, then_), rest) ==
      FeedAll(env, Skipping(Over(s, n), irregular, until, then_), rest[n..])
    ensures Cut(Skipping(Over(s, n), irregular, until, then_)) == Skipping(Over(s, n), irregular, until, then_)
  {
    hide Feed, FeedAll, Past;
    var t := Skipping(s, irregular, until, then_);
    assert rest == rest[..n] + rest[n..];
    FeedSplits(env, t, rest[..n], rest[n..]);
    if irregular {
      FeedBad(env, t, until, then_, rest[..n]);
    } else {
      FeedSkip(env, t, until, rest[..n]);
    }
  }

  lemma SkipRest(env: Env, s: Spec, irregular: bool, until: nat, then_: Then, rest: seq<byte>, n: nat)
    requires n <= |rest| && s.phase == Idle && s.offset + n == until && (!irregular ==> then_ == ThenReset)
    ensures FeedAll(env, Skipping(s, irregular, until, then_), rest) == FeedAll(env, Past(Over(s, n), then_), rest[n..])
  {
    hide Feed, EndHeader;
    var t := Skipping(s, irregular, until, then_);
    if n == 0 {
      assert rest[n..] == rest && Over(s, n) == s;
    } else {
      assert rest == rest[..n] + rest[n..];
      FeedSplits(env, t, rest[..n], rest[n..]);
      hide FeedAll, Past;
      if irregular {
        FeedBad(env, t, until, then_, rest[..n]);
      } else {
        FeedSkip(env, t, until, rest[..n]);
        assert Settle(Over(t, n), until) == Past(Over(s, n), then_) by { SettledIdle(Over(s, n), until); }
      }
    }
  }

  lemma SettledIdle(s: Spec, until: nat)
    requires s.offset == until && s.phase == Idle
    ensures Settle(s, until) == s == Past(s, ThenReset)
  {
  }

  // A byte of padding is passed over, and nothing happens any more after an error.
  lemma FeedPadding(env: Env, s: Spec, rest: seq<byte>)
    requires rest != [] && rest[0] == 0 && (s.phase == Idle || s.phase.Failed?)
    ensures FeedAll(env, s, rest) == FeedAll(env, if s.phase.Failed? then s else s.(offset := s.offset + 1), rest[1..])
  {
  }

  lemma FeedBrokenPadding(env: Env, s: Spec, rest: seq<byte>)
    requires rest != [] && rest[0] != 0
    requires s.phase.Failed? || (s.phase == Idle && s.offset % 4 != 0)
    ensures FeedAll(env, s, rest) == if s.phase.Failed? then s else Fail(s, BrokenPadding)
  {
    FeedFailedIf(env, Feed(env, s, rest[0]), rest[1..]);
  }

  lemma FeedFailedIf(env: Env, s: Spec, bytes: seq<byte>)
    ensures s.phase.Failed? ==> FeedAll(env, s, bytes) == s
  {
    if s.phase.Failed? {
      FeedFailed(env, s, bytes);
    }
  }

  lemma NoBodyLeft(s: Spec, h: Hdr, until: nat)
    ensures StartBody(s, h, 0, until) == Settle(s.(fx := s.fx + [Close(h.mtime)]), until)
  {
  }

  lemma StartsBody(s: Spec, h: Hdr, left: nat, until: nat)
    requires left > 0
    ensures StartBody(s, h, left, until) == s.(phase := Body(h, left, until))
  {
  }

  // n bytes further on in the body.
  function Onward(s: Spec, data: seq<byte>): Spec {
    Over(s, |data|).(fx := Written(s.fx, data))
  }

  lemma OnwardFrom(s: Spec, s': Spec, data: seq<byte>)
    requires s' == s.(phase := s'.phase)
    ensures Onward(s', data) == Onward(s, data)
  {
  }

  lemma NothingWritten(s: Spec)
    requires s.phase == Idle
    ensures Onward(s, []) == s
  {
  }

  lemma FeedOnward(env: Env, s: Spec, h: Hdr, left: nat, until: nat, data: seq<byte>)
    requires s.phase == Body(h, left, until) && 0 < left && |data| <= left
    ensures FeedAll(env, s, data) == StartBody(Onward(s, data), h, left - |data|, until)
  {
    hide StartBody, Feed, FeedAll, Written;
    FeedBody(env, s, h, left, until, data);
  }

  lemma Copied(env: Env, s: Spec, data: seq<byte>, rest: seq<byte>, h: Hdr, left: nat, until: nat)
    requires |data| <= left && s.phase == Idle
    ensures FeedAll(env, StartBody(s, h, left, until), data + rest) ==
      FeedAll(env, StartBody(Onward(s, data), h, left - |data|, until), rest)
  {
    hide StartBody, Feed, FeedAll, Written, Onward;
    if left > 0 {
      StartsBody(s, h, left, until);
      var s' := StartBody(s, h, left, until);
      FeedSplits(env, s', data, rest);
      FeedOnward(env, s', h, left, until, data);
      OnwardFrom(s, s', data);
    } else {
      NothingWritten(s);
      assert data == [] && data + rest == rest;
    }
  }

  lemma IdleStarts(env: Env, s: Spec, r: seq<byte>)
    requires s.phase == Idle && r != [] && r[0] == 48 && s.offset % 4 == 0
    ensures FeedAll(env, s, r) == FeedAll(env, s.(phase := Header([])), r)
  {
    assert [] + [r[0]] == [r[0]];
  }

  lemma IdleJunk(env: Env, s: Spec, r: seq<byte>)
    requires s.phase == Idle && r != [] && r[0] != 48 && r[0] != 0 && s.offset % 4 == 0
    ensures FeedAll(env, s, r) == Fail(s, Junk)
  {
    FeedFailed(env, Fail(s, Junk), r[1..]);
  }
}
