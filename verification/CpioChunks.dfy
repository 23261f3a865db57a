// The result of unpacking does not depend on where the stream is cut into buffers, and exactly when.
module CpioChunks {
  import opened CpioSpec

  lemma {:induction false} FeedSplits(env: Env, s: Spec, a: seq<byte>, b: seq<byte>)
    ensures FeedAll(env, s, a + b) == FeedAll(env, FeedAll(env, s, a), b)
    decreases |a|
  {
    if a == [] {
      assert a + b == b;
    } else {
      assert (a + b)[0] == a[0] && (a + b)[1..] == a[1..] + b;
      FeedSplits(env, Feed(env, s, a[0]), a[1..], b);
    }
  }

  // ---- next_state is dead outside the skipping of an irregular entry ----------------------------

  // What is visible of a state: the stale next_state counts only where an entry is being skipped
  // that has none of its own.
  function View(s: Spec): Spec {
    s.(next := ToReset)
  }

  predicate Alike(s: Spec, t: Spec) {
    View(s) == View(t)
  }

  // Until an irregular entry turns up, equal views stay equal, byte by byte.
  ghost predicate Meets(env: Env, s: Spec, bytes: seq<byte>)
    decreases |bytes|
  {
    s.phase.Bad? || (bytes != [] && Meets(env, Feed(env, s, bytes[0]), bytes[1..]))
  }

  lemma StartBodyAlike(s: Spec, t: Spec, h: Hdr, left: nat, until: nat)
    requires Alike(s, t)
    ensures Alike(StartBody(s, h, left, until), StartBody(t, h, left, until))
    ensures !StartBody(s, h, left, until).phase.Bad? && !StartBody(t, h, left, until).phase.Bad?
  {
  }

  lemma EndRegularAlike(env: Env, s: Spec, t: Spec, h: Hdr, path: Path, until: nat)
    requires Alike(s, t)
    ensures Alike(EndRegular(env, s, h, path, until), EndRegular(env, t, h, path, until))
    ensures !EndRegular(env, s, h, path, until).phase.Bad? && !EndRegular(env, t, h, path, until).phase.Bad?
  {
    assert MaybeLink(env, s, h, path).1 == MaybeLink(env, t, h, path).1;
    assert Alike(MaybeLink(env, s, h, path).0, MaybeLink(env, t, h, path).0);
  }

  lemma OnNameAlike(env: Env, s: Spec, t: Spec, h: Hdr, got: seq<byte>, until: nat)
    requires Alike(s, t)
    ensures Alike(OnName(env, s, h, got, until), OnName(env, t, h, got, until))
    ensures !OnName(env, s, h, got, until).phase.Bad? && !OnName(env, t, h, got, until).phase.Bad?
  {
    var fx := s.fx + [CleanPath(CStr(got), h.mode)];
    EndRegularAlike(env, s.(fx := fx), t.(fx := fx), h, CStr(got), until);
  }

  lemma OnHeaderAlike(s: Spec, t: Spec, got: seq<byte>)
    requires Alike(s, t)
    ensures OnHeader(s, got).phase.Bad? <==> OnHeader(t, got).phase.Bad?
    ensures !OnHeader(s, got).phase.Bad? ==> Alike(OnHeader(s, got), OnHeader(t, got))
  {
  }

  lemma FeedAlike(env: Env, s: Spec, t: Spec, b: byte)
    requires Alike(s, t) && !s.phase.Bad?
    ensures Feed(env, s, b).phase.Bad? <==> Feed(env, t, b).phase.Bad?
    ensures !Feed(env, s, b).phase.Bad? ==> Alike(Feed(env, s, b), Feed(env, t, b))
  {
    hide OnHeader, OnName, StartBody;
    var s', t' := s.(phase := Idle, offset := s.offset + 1), t.(phase := Idle, offset := t.offset + 1);
    match s.phase
    case Header(got) => OnHeaderAlike(s', t', got + [b]);
    case Name(h, got, until) => OnNameAlike(env, s', t', h, got + [b], until);
    case Body(h, left, until) =>
      var fx := Written(s.fx, [b]);
      StartBodyAlike(s'.(fx := fx), t'.(fx := fx), h, if left == 0 then 0 else left - 1, until);
    case _ =>
  }

  lemma {:induction false} FeedAllAlike(env: Env, s: Spec, t: Spec, bytes: seq<byte>)
    requires Alike(s, t) && !Meets(env, s, bytes)
    ensures !Meets(env, t, bytes) && Alike(FeedAll(env, s, bytes), FeedAll(env, t, bytes))
    ensures !FeedAll(env, s, bytes).phase.Bad?
    decreases |bytes|
  {
    if bytes != [] {
      FeedAlike(env, s, t, bytes[0]);
      FeedAllAlike(env, Feed(env, s, bytes[0]), Feed(env, t, bytes[0]), bytes[1..]);
    }
  }

  lemma {:induction false} MeetsSplits(env: Env, s: Spec, a: seq<byte>, b: seq<byte>)
    ensures Meets(env, s, a + b) <==> Meets(env, s, a) || Meets(env, FeedAll(env, s, a), b)
    decreases |a|
  {
    if a == [] {
      assert a + b == b;
    } else {
      assert (a + b)[0] == a[0] && (a + b)[1..] == a[1..] + b;
      MeetsSplits(env, Feed(env, s, a[0]), a[1..], b);
    }
  }

  // Any way of cutting gives what feeding the whole stream gives.
  lemma {:induction false} CutsDoNotShow(env: Env, s: Spec, bufs: seq<seq<byte>>)
    requires !Meets(env, s, Joined(bufs))
    ensures Alike(FlushAll(env, s, bufs), FeedAll(env, s, Joined(bufs)))
    decreases |bufs|
  {
    if bufs != [] {
      var s1, rest := FeedAll(env, s, bufs[0]), Joined(bufs[1..]);
      FeedSplits(env, s, bufs[0], rest);
      MeetsSplits(env, s, bufs[0], rest);
      FeedAllAlike(env, s1, Cut(s1), rest);
      CutsDoNotShow(env, Cut(s1), bufs[1..]);
    }
  }

  // Chunk invariance: two ways of cutting the same stream have the same effects, the same message
  // and the same point of resumption.
  lemma ChunkInvariance(env: Env, s: Spec, a: seq<seq<byte>>, b: seq<seq<byte>>)
    requires Joined(a) == Joined(b) && !Meets(env, s, Joined(a))
    ensures Alike(FlushAll(env, s, a), FlushAll(env, s, b))
  {
    CutsDoNotShow(env, s, a);
    CutsDoNotShow(env, s, b);
  }

  // ---- and only then ------------------------------------------------------------------------------

  // The stretch up to and including the byte at which an irregular header is complete.
  lemma {:induction false} FirstBad(env: Env, s: Spec, bytes: seq<byte>) returns (k: nat)
    requires Meets(env, s, bytes) && !s.phase.Bad?
    ensures k < |bytes| && !Meets(env, s, bytes[..k]) && FeedAll(env, s, bytes[..k + 1]).phase.Bad?
    decreases |bytes|
  {
    if Feed(env, s, bytes[0]).phase.Bad? {
      k := 0;
      assert bytes[..1] == [bytes[0]];
      assert FeedAll(env, s, bytes[..1]) == FeedAll(env, Feed(env, s, bytes[0]), []);
    } else {
      var j := FirstBad(env, Feed(env, s, bytes[0]), bytes[1..]);
      k := j + 1;
      assert bytes[..k][1..] == bytes[1..][..j] && bytes[..k + 1][1..] == bytes[1..][..j + 1];
      assert bytes[..k][0] == bytes[0] && bytes[..k + 1][0] == bytes[0];
    }
  }

  // next_state holds GotHeader only after a cut inside a header.
  lemma {:induction false} NeverToHeader(env: Env, s: Spec, bytes: seq<byte>)
    requires !s.next.ToHeader?
    ensures !FeedAll(env, s, bytes).next.ToHeader?
    decreases |bytes|
  {
    if bytes != [] {
      NeverToHeader(env, Feed(env, s, bytes[0]), bytes[1..]);
    }
  }

  // Only the last byte of a header that is short of one byte ends in an irregular entry.
  lemma BadAfterHeader(env: Env, s: Spec, b: byte)
    requires !s.phase.Bad? && Feed(env, s, b).phase.Bad?
    ensures s.phase.Header? && Feed(env, s, b).phase.then_ == LeftOver(s.next, s.phase.got + [b])
  {
  }

  lemma FeedOne(env: Env, s: Spec, b: byte)
    ensures FeedAll(env, s, [b]) == Feed(env, s, b)
  {
    assert [b][1..] == [];
  }

  lemma FlushOne(env: Env, s: Spec, a: seq<byte>)
    ensures FlushAll(env, s, [a]) == Flush(env, s, a)
  {
    assert [a][1..] == [];
  }

  lemma FlushTwo(env: Env, s: Spec, a: seq<byte>, b: seq<byte>)
    ensures FlushAll(env, s, [a, b]) == Flush(env, Flush(env, s, a), b)
  {
    assert [a, b][1..] == [b];
    FlushOne(env, Flush(env, s, a), b);
  }

  lemma LastByteShows(env: Env, before: Spec, b: byte)
    requires !before.phase.Bad? && Feed(env, before, b).phase.Bad? && !before.next.ToHeader?
    ensures before.phase.Header? && !Alike(Feed(env, before, b), Feed(env, Cut(before), b))
    ensures Feed(env, Cut(before), b).phase.Bad?
  {
    BadAfterHeader(env, before, b);
    OnHeaderAlike(before.(phase := Idle, offset := before.offset + 1),
                  Cut(before).(phase := Idle, offset := before.offset + 1), before.phase.got + [b]);
    BadAfterHeader(env, Cut(before), b);
  }

  // With an irregular header in the stream, cutting just before its last byte shows.
  lemma IrregularShows(env: Env, s: Spec, bytes: seq<byte>) returns (k: nat)
    requires Meets(env, s, bytes) && !s.phase.Bad? && !s.next.ToHeader?
    ensures k < |bytes|
    ensures !Alike(FlushAll(env, s, [bytes[..k + 1]]), FlushAll(env, s, [bytes[..k], [bytes[k]]]))
  {
    hide Feed;
    k := FirstBad(env, s, bytes);
    var before, b := FeedAll(env, s, bytes[..k]), bytes[k];
    assert bytes[..k + 1] == bytes[..k] + [b];
    FeedSplits(env, s, bytes[..k], [b]);
    FeedOne(env, before, b);
    FeedOne(env, Cut(before), b);
    FeedAllAlike(env, s, s, bytes[..k]);
    NeverToHeader(env, s, bytes[..k]);
    LastByteShows(env, before, b);
    FlushOne(env, s, bytes[..k + 1]);
    FlushTwo(env, s, bytes[..k], [b]);
  }

  // No cutting of any beginning of the stream shows.
  ghost predicate CutFree(env: Env, s: Spec, stream: seq<byte>) {
    forall a, b | Joined(a) == Joined(b) && Joined(a) <= stream :: Alike(FlushAll(env, s, a), FlushAll(env, s, b))
  }

  // Cutting never shows, at any point of the stream, if and only if no header of an irregular entry
  // is completed in it: a name length out of range, a link target longer than PATH_MAX, or a body on
  // something that is neither a regular file nor a link.
  lemma ChunkInvariantIff(env: Env, s: Spec, stream: seq<byte>)
    requires !s.phase.Bad? && !s.next.ToHeader?
    ensures CutFree(env, s, stream) <==> !Meets(env, s, stream)
  {
    if Meets(env, s, stream) {
      var k := IrregularShows(env, s, stream);
      var a, b := [stream[..k + 1]], [stream[..k], [stream[k]]];
      assert Joined(a) == stream[..k + 1] + Joined([]);
      assert b[1..] == [[stream[k]]];
      assert Joined(b) == stream[..k] + Joined([[stream[k]]]);
      assert Joined([[stream[k]]]) == [stream[k]] + Joined([]);
      assert stream[..k + 1] == stream[..k] + [stream[k]];
      assert Joined(a) == Joined(b) && Joined(a) <= stream;
    } else {
      forall a, b | Joined(a) == Joined(b) && Joined(a) <= stream
        ensures Alike(FlushAll(env, s, a), FlushAll(env, s, b))
      {
        assert stream == Joined(a) + stream[|Joined(a)|..];
        MeetsSplits(env, s, Joined(a), stream[|Joined(a)|..]);
        ChunkInvariance(env, s, a, b);
      }
    }
  }
}
