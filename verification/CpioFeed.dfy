// Feeding a whole stretch of bytes that stays inside one phase.
module CpioFeed {
  import opened CpioSpec
  import opened CpioChunks

  // n bytes further on, between two phases.
  function Over(s: Spec, n: nat): Spec {
    s.(phase := Idle, offset := s.offset + n)
  }

  lemma {:induction false} FeedHeader(env: Env, s: Spec, got: seq<byte>, bytes: seq<byte>)
    requires s.phase == Header(got) && |got| < HEADER && |got| + |bytes| <= HEADER
    ensures |got| + |bytes| < HEADER ==>
      FeedAll(env, s, bytes) == Over(s, |bytes|).(phase := Header(got + bytes))
    ensures |got| + |bytes| == HEADER ==> FeedAll(env, s, bytes) == EndHeader(Over(s, |bytes|), got + bytes)
    decreases |bytes|
  {
    hide EndHeader;
    if bytes == [] {
      assert got + bytes == got;
    } else if |got| + 1 < HEADER {
      assert got + bytes == (got + [bytes[0]]) + bytes[1..];
      var s' := Feed(env, s, bytes[0]);
      FeedHeader(env, s', got + [bytes[0]], bytes[1..]);
      assert Over(s', |bytes| - 1) == Over(s, |bytes|);
    } else {
      assert bytes[1..] == [] && got + bytes == got + [bytes[0]];
      assert FeedAll(env, Feed(env, s, bytes[0]), []) == Feed(env, s, bytes[0]);
    }
  }

  lemma {:induction false} FeedName(env: Env, s: Spec, h: Hdr, got: seq<byte>, until: nat, bytes: seq<byte>)
    requires s.phase == Name(h, got, until) && |got| < NAlign(h.nameLen) && |got| + |bytes| <= NAlign(h.nameLen)
    ensures |got| + |bytes| < NAlign(h.nameLen) ==>
      FeedAll(env, s, bytes) == Over(s, |bytes|).(phase := Name(h, got + bytes, until))
    ensures |got| + |bytes| == NAlign(h.nameLen) ==> FeedAll(env, s, bytes) == EndName(env, Over(s, |bytes|), h, got + bytes, until)
    decreases |bytes|
  {
    hide EndName;
    if bytes == [] {
      assert got + bytes == got;
    } else if |got| + 1 < NAlign(h.nameLen) {
      assert got + bytes == (got + [bytes[0]]) + bytes[1..];
      var s' := Feed(env, s, bytes[0]);
      FeedName(env, s', h, got + [bytes[0]], until, bytes[1..]);
      assert Over(s', |bytes| - 1) == Over(s, |bytes|);
    } else {
      assert bytes[1..] == [] && got + bytes == got + [bytes[0]];
      assert FeedAll(env, Feed(env, s, bytes[0]), []) == Feed(env, s, bytes[0]);
    }
  }

  lemma {:induction false} FeedLink(env: Env, s: Spec, h: Hdr, got: seq<byte>, until: nat, bytes: seq<byte>)
    requires s.phase == Link(h, got, until) && |got| < NAlign(h.nameLen) + h.bodyLen && |got| + |bytes| <= NAlign(h.nameLen) + h.bodyLen
    ensures |got| + |bytes| < NAlign(h.nameLen) + h.bodyLen ==>
      FeedAll(env, s, bytes) == Over(s, |bytes|).(phase := Link(h, got + bytes, until))
    ensures |got| + |bytes| == NAlign(h.nameLen) + h.bodyLen ==> FeedAll(env, s, bytes) == EndLink(Over(s, |bytes|), h, got + bytes, until)
    decreases |bytes|
  {
    hide EndLink;
    if bytes == [] {
      assert got + bytes == got;
    } else if |got| + 1 < NAlign(h.nameLen) + h.bodyLen {
      assert got + bytes == (got + [bytes[0]]) + bytes[1..];
      var s' := Feed(env, s, bytes[0]);
      FeedLink(env, s', h, got + [bytes[0]], until, bytes[1..]);
      assert Over(s', |bytes| - 1) == Over(s, |bytes|);
    } else {
      assert bytes[1..] == [] && got + bytes == got + [bytes[0]];
      assert FeedAll(env, Feed(env, s, bytes[0]), []) == Feed(env, s, bytes[0]);
    }
  }

  lemma {:induction false} FeedBody(env: Env, s: Spec, h: Hdr, left: nat, until: nat, bytes: seq<byte>)
    requires s.phase == Body(h, left, until) && 0 < left && |bytes| <= left
    ensures FeedAll(env, s, bytes) ==
      StartBody(Over(s, |bytes|).(fx := Written(s.fx, bytes)), h, left - |bytes|, until)
    decreases |bytes|
  {
    if bytes != [] {
      WrittenTwice(s.fx, [bytes[0]], bytes[1..]);
      assert [bytes[0]] + bytes[1..] == bytes;
      if left > 1 {
        FeedBody(env, Feed(env, s, bytes[0]), h, left - 1, until, bytes[1..]);
      } else {
        assert bytes[1..] == [];
      }
    }
  }

  lemma {:induction false} FeedSkip(env: Env, s: Spec, until: nat, bytes: seq<byte>)
    requires s.phase == Skip(until) && s.offset + |bytes| <= until && s.offset < until
    ensures FeedAll(env, s, bytes) == Settle(Over(s, |bytes|), until)
    decreases |bytes|
  {
    if bytes != [] {
      if s.offset + 1 < until {
        FeedSkip(env, Feed(env, s, bytes[0]), until, bytes[1..]);
      } else {
        assert bytes[1..] == [];
      }
    }
  }

  lemma {:induction false} FeedBad(env: Env, s: Spec, until: nat, then_: Then, bytes: seq<byte>)
    requires s.phase == Bad(until, then_) && s.offset + |bytes| <= until && s.offset < until
    ensures FeedAll(env, s, bytes) ==
      if s.offset + |bytes| < until then s.(offset := s.offset + |bytes|)
      else Past(Over(s, |bytes|), then_)
    decreases |bytes|
  {
    hide Past;
    if bytes != [] {
      if s.offset + 1 < until {
        FeedBad(env, Feed(env, s, bytes[0]), until, then_, bytes[1..]);
      } else {
        assert bytes[1..] == [];
      }
    }
  }

  lemma {:induction false} FeedFailed(env: Env, s: Spec, bytes: seq<byte>)
    requires s.phase.Failed?
    ensures FeedAll(env, s, bytes) == s
    decreases |bytes|
  {
    if bytes != [] {
      FeedFailed(env, s, bytes[1..]);
    }
  }

  // ---- an archive on which cutting shows -----------------------------------------------------------

  // A header of zeros only: its name is empty.
  function Nameless(): HeaderBytes {
    Ascii("070701") + seq(104, _ => 48)
  }

  lemma {:induction false} ZerosAreZero(s: seq<byte>)
    requires forall i | 0 <= i < |s| :: s[i] == 48
    ensures Digits(s, 0) == 0
    decreases |s|
  {
    if s != [] {
      ZerosAreZero(s[1..]);
    }
  }

  lemma NamelessHasNoName()
    ensures Parse(Nameless()).nameLen == 0
  {
    var f := Nameless()[94..102];
    assert forall i | 0 <= i < |f| :: f[i] == 48;
    ZerosAreZero(f);
    assert Parse(Nameless()).nameLen == Field(Nameless(), 11) by {
      hide Field, Nameless;
    }
    hide Parse, Digits, Ascii;
  }

  lemma NamelessIsBad(s: Spec)
    ensures EndHeader(s, Nameless()).phase.Bad?
  {
    NamelessHasNoName();
    assert Nameless()[..6] == Ascii("070701");
    assert Ascii("070701")[5] == 49 && Ascii("070707")[5] == 55;
  }

  function Fresh(): Spec {
    Spec(Header([]), 0, ToStart, [], map[])
  }

  lemma NamelessShows(env: Env)
    ensures Meets(env, Fresh(), Nameless()) && !CutFree(env, Fresh(), Nameless())
  {
    assert [] + Nameless() == Nameless();
    FeedHeader(env, Fresh(), [], Nameless());
    NamelessIsBad(Over(Fresh(), HEADER));
    if !Meets(env, Fresh(), Nameless()) {
      FeedAllAlike(env, Fresh(), Fresh(), Nameless());
    }
    ChunkInvariantIff(env, Fresh(), Nameless());
  }

  // ---- what becomes of an irregular entry ---------------------------------------------------------

  // Skipped with GotHeader in next_state: the same header is handled over and over.
  predicate Stuck(s: Spec, again: HeaderBytes) {
    && s.phase.Bad? && s.phase.then_ == ThenHeader(again) && s.next.ToHeader?
    && again[..6] == Ascii("070701") && again[..6] != Ascii("070707") && !Regular(Parse(again))
  }

  lemma StuckStep(env: Env, s: Spec, again: HeaderBytes, b: byte)
    requires Stuck(s, again)
    ensures Stuck(Feed(env, s, b), again) && Feed(env, s, b).fx == s.fx
  {
    hide Regular, Parse, Ascii, Until, OnHeader, OnName, OnLink, OnIdle, StartBody, Settle;
  }

  lemma {:induction false} StaysStuck(env: Env, s: Spec, again: HeaderBytes, bytes: seq<byte>)
    requires Stuck(s, again)
    ensures Stuck(FeedAll(env, s, bytes), again) && FeedAll(env, s, bytes).fx == s.fx
    decreases |bytes|
  {
    if bytes != [] {
      StuckStep(env, s, again, bytes[0]);
      hide Stuck, Feed;
      StaysStuck(env, Feed(env, s, bytes[0]), again, bytes[1..]);
    }
  }

  function Zeros(n: nat): (z: seq<byte>)
    ensures |z| == n
  {
    seq(n, _ => 0)
  }

  // Up to the next header, then something that is neither padding nor a header.
  function Nonsense(n: nat): seq<byte> {
    Zeros(n) + ([1] + Zeros(HEADER - 1))
  }

  lemma NonsenseBytes()
    ensures |Nonsense(0)| == HEADER && Nonsense(0)[0] == 1
    ensures Nonsense(0)[..6] != Ascii("070701") && Nonsense(0)[..6] != Ascii("070707")
  {
    assert Nonsense(0)[..6][0] == 1;
    assert Ascii("070701")[0] == 48 && Ascii("070707")[0] == 48;
  }

  lemma OtherMagic(s: Spec, got: HeaderBytes)
    requires got[..6] != Ascii("070701") && got[..6] != Ascii("070707")
    ensures EndHeader(s, got).phase.Failed?
  {
  }

  lemma JunkFails(env: Env, s: Spec, bytes: seq<byte>)
    requires s.phase == Idle && s.offset % 4 == 0 && bytes != [] && bytes[0] == 1
    ensures FeedAll(env, s, bytes).phase.Failed?
  {
    FeedFailed(env, Feed(env, s, bytes[0]), bytes[1..]);
  }

  lemma NoHeaderFails(env: Env, s: Spec, bytes: seq<byte>)
    requires s.phase == Header([]) && |bytes| == HEADER
    requires bytes[..6] != Ascii("070701") && bytes[..6] != Ascii("070707")
    ensures FeedAll(env, s, bytes).phase.Failed?
  {
    hide Feed, FeedAll, EndHeader;
    FeedHeader(env, s, [], bytes);
    assert [] + bytes == bytes;
    OtherMagic(Over(s, |bytes|), bytes);
  }

  lemma NonsenseFails(env: Env, s: Spec)
    requires s.phase == Idle || s.phase == Header([])
    requires s.offset % 4 == 0
    ensures FeedAll(env, s, Nonsense(0)).phase.Failed?
  {
    NonsenseBytes();
    hide Nonsense, FeedAll, Ascii;
    if s.phase == Idle {
      JunkFails(env, s, Nonsense(0));
    } else {
      NoHeaderFails(env, s, Nonsense(0));
    }
  }

  lemma NextHeaderIsAhead(offset: nat, h: Hdr)
    ensures offset < Until(offset, h) && Until(offset, h) % 4 == 0
  {
  }

  lemma SkipThenNonsense(n: nat)
    ensures Nonsense(n) == Zeros(n) + Nonsense(0)
  {
    assert Zeros(0) == [];
  }

  lemma SkippedTo(env: Env, s: Spec, skip: seq<byte>)
    requires s.phase.Bad? && !s.phase.then_.ThenHeader? && s.offset < s.phase.until == s.offset + |skip|
    ensures var t := FeedAll(env, s, skip);
      t.offset == s.phase.until && (t.phase == Idle || t.phase == Header([]))
  {
    FeedBad(env, s, s.phase.until, s.phase.then_, skip);
    hide FeedAll;
  }

  // With another next_state the entry is skipped and what follows it is looked at.
  lemma SkippedThenFails(env: Env, s: Spec, h: Hdr, offset: nat)
    requires s.phase.Bad? && !s.phase.then_.ThenHeader? && s.offset == offset && s.phase.until == Until(offset, h)
    ensures FeedAll(env, s, Nonsense(s.phase.until - offset)).phase.Failed?
  {
    NextHeaderIsAhead(offset, h);
    var until := s.phase.until;
    var skip := Zeros(until - offset);
    SkipThenNonsense(until - offset);
    hide *;
    SkippedTo(env, s, skip);
    FeedSplits(env, s, skip, Nonsense(0));
    NonsenseFails(env, FeedAll(env, s, skip));
  }

  lemma FeedLast(env: Env, s: Spec, b: byte, got: HeaderBytes)
    requires s.phase.Header? && got == s.phase.got + [b]
    ensures Feed(env, s, b) == EndHeader(Over(s, 1), got)
  {
    hide EndHeader;
  }

  lemma BadHeader(s: Spec, t: Spec, got: HeaderBytes)
    requires EndHeader(s, got).phase.Bad? && t.next.ToHeader?
    ensures EndHeader(s, got) == s.(phase := Bad(Until(s.offset, Parse(got)), LeftOver(s.next, got)))
    ensures Stuck(EndHeader(t, got), got)
  {
    hide Regular, Parse, Ascii, Until;
  }

  lemma LastByteSticks(env: Env, before: Spec, b: byte, got: HeaderBytes)
    requires before.phase.Header? && got == before.phase.got + [b] && Feed(env, before, b).phase.Bad?
    ensures Stuck(Feed(env, Cut(before), b), got)
    ensures var s := Feed(env, before, b); s.phase.until == Until(s.offset, Parse(got)) && s.offset < s.phase.until
  {
    hide Feed, Regular, Parse, Ascii, Until, EndHeader, Stuck;
    NextHeaderIsAhead(before.offset + 1, Parse(got));
    FeedLast(env, before, b, got);
    FeedLast(env, Cut(before), b, got);
    BadHeader(Over(before, 1), Over(Cut(before), 1), got);
  }

  // The last byte of an irregular header, without and with a cut in front of it.
  lemma LastByteTells(env: Env, before: Spec, b: byte) returns (rest: seq<byte>)
    requires !before.phase.Bad? && Feed(env, before, b).phase.Bad? && !before.next.ToHeader?
    ensures FeedAll(env, Feed(env, before, b), rest).phase.Failed?
    ensures before.phase.Header? && !FeedAll(env, Feed(env, Cut(before), b), rest).phase.Failed?
  {
    BadAfterHeader(env, before, b);
    var got: HeaderBytes := before.phase.got + [b];
    var s, t := Feed(env, before, b), Feed(env, Cut(before), b);
    LastByteSticks(env, before, b, got);
    hide Feed, Stuck, Parse, Until, Nonsense;
    rest := Nonsense(s.phase.until - s.offset);
    SkippedThenFails(env, s, Parse(got), s.offset);
    StaysStuck(env, t, got, rest);
  }

  // With an irregular header in the stream, a continuation of it makes the unpacker give up with a
  // message, unless there was a cut just before the last byte of that header: then there is no message.
  lemma IrregularTells(env: Env, s: Spec, bytes: seq<byte>) returns (k: nat, rest: seq<byte>)
    requires Meets(env, s, bytes) && !s.phase.Bad? && !s.next.ToHeader?
    ensures k < |bytes|
    ensures FlushAll(env, s, [bytes[..k + 1], rest]).phase.Failed?
    ensures !FlushAll(env, s, [bytes[..k], [bytes[k]], rest]).phase.Failed?
  {
    hide Feed;
    k := FirstBad(env, s, bytes);
    var before, b := FeedAll(env, s, bytes[..k]), bytes[k];
    assert bytes[..k + 1] == bytes[..k] + [b];
    FeedSplits(env, s, bytes[..k], [b]);
    FeedOne(env, before, b);
    FeedOne(env, Cut(before), b);
    FeedAllAlike(env, s, s, bytes[..k]);
    NeverToHeader(env, s, bytes[..k]);
    rest := LastByteTells(env, before, b);
    LastByteShows(env, before, b);
    FlushTwo(env, s, bytes[..k + 1], rest);
    assert [bytes[..k], [b], rest][1..] == [[b], rest];
    FlushTwo(env, Cut(before), [b], rest);
  }
}
