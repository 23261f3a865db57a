// An archive as a list of well-formed entries, and what unpacking it does to the file system.
module CpioArchive {
  import opened CpioSpec
  import opened CpioChunks
  import opened CpioFeed
  import opened CpioHeader

  // ---- entries --------------------------------------------------------------------------------

  // The bytes of an entry: header, name with its zero, padding, body, padding, and words of zeros behind it.
  datatype Entry = Entry(
    head: HeaderBytes, h: Hdr, name: Path, namePad: seq<byte>, body: seq<byte>, pad: seq<byte>, fill: seq<byte>,
    target: Path) // of a link

  function NameField(e: Entry): seq<byte> {
    e.name + [0] + e.namePad
  }

  function Bytes(e: Entry): seq<byte> {
    e.head + (NameField(e) + (e.body + (e.pad + e.fill)))
  }

  function Stream(es: seq<Entry>): seq<byte> {
    if es == [] then [] else Stream(es[..|es| - 1]) + Bytes(es[|es| - 1])
  }

  // The type of the file in the mode.
  const FIFO := 1
  const CHR := 2
  const DIR := 4
  const BLK := 6
  const REG := 8
  const LNK := 10
  const SOCK := 12

  function Type(e: Entry): nat {
    e.h.mode / 4096
  }

  // s up to a zero, if there is one.
  predicate Ends(s: seq<byte>, path: Path) {
    path <= s && 0 !in path && (|path| < |s| ==> s[|path|] == 0)
  }

  // What cpio writes: the lengths in the header are those of the name with its zero and of the body, name and
  // body are padded to words of four bytes, and only files and links have a body.
  predicate WellFormed(e: Entry) {
    && Encodes(e.head, e.h) && e.h.nameLen == |e.name| + 1 <= 4096 && e.h.bodyLen == |e.body|
    && 0 !in e.name && |e.namePad| < 4 && (110 + |e.name| + 1 + |e.namePad|) % 4 == 0
    && |e.pad| < 4 && (|e.body| + |e.pad|) % 4 == 0
    && (Type(e) != REG ==> if Type(e) == LNK then |e.body| <= 4096 else e.body == [])
    && (Type(e) == LNK ==> Ends(e.body, e.target))
    && |e.fill| % 4 == 0 && forall i | 0 <= i < |e.fill| :: e.fill[i] == 0
  }

  ghost predicate AllWellFormed(es: seq<Entry>) {
    forall i | 0 <= i < |es| :: WellFormed(es[i])
  }

  // ---- what they are for --------------------------------------------------------------------------

  // The end of an archive: the names seen so far are forgotten.
  predicate IsTrailer(e: Entry) {
    Type(e) != LNK && e.name == Ascii("TRAILER!!!")
  }

  // Two entries are names of one file: several names are announced, and device, inode and type agree.
  predicate SameFile(d: Entry, e: Entry) {
    && d.h.nlink >= 2 && e.h.nlink >= 2 && Type(d) == Type(e)
    && d.h.major == e.h.major && d.h.minor == e.h.minor && d.h.ino == e.h.ino
  }

  // Under which name the file of e came first since the last trailer, if it came before.
  function Earlier(before: seq<Entry>, e: Entry): Option<Path> {
    if before == [] || IsTrailer(before[|before| - 1]) then None
    else
      var last := before[|before| - 1];
      match Earlier(before[..|before| - 1], e)
      case Some(name) => Some(name)
      case None => if SameFile(last, e) then Some(last.name) else None
  }

  // ---- what unpacking does, entry by entry ---------------------------------------------------------

  // A file that is opened gets its owner, its size and its contents, and is closed.
  function Filled(env: Env, fx: seq<Effect>, e: Entry, truncate: bool): seq<Effect> {
    var asked := fx + [Open(e.name, truncate, e.h.mode)];
    if !env.opens(asked) then asked
    else if e.body == [] then asked + [Own(e.h.uid, e.h.gid, e.h.mode), Close(e.h.mtime)]
    else asked + [Own(e.h.uid, e.h.gid, e.h.mode), SetSize(|e.body|), Write(e.body), Close(e.h.mtime)]
  }

  // The file system after entry e, with what was done before. A further name of a file that came before
  // becomes a hard link to its first name; a regular file is then opened again without being truncated, as
  // its contents may come with any of its names. A trailer does nothing.
  function After(env: Env, fx: seq<Effect>, before: seq<Entry>, e: Entry): seq<Effect> {
    var cleaned := fx + [CleanPath(e.name, e.h.mode)];
    var first := Earlier(before, e);
    if Type(e) == LNK then
      fx + [CleanPath(e.name, 0), MakeSymlink(e.target, e.name, e.h.uid, e.h.gid, e.h.mtime)]
    else if IsTrailer(e) then fx
    else if Type(e) == DIR then
      cleaned + [MakeDir(e.name, e.h.mode, e.h.uid, e.h.gid, e.h.mtime)]
    else if Type(e) == REG && first.Some? then
      var linked := cleaned + [CleanPath(e.name, 0), HardLink(first.value, e.name)];
      if env.links(linked) then Filled(env, linked, e, false) else linked
    else if Type(e) == REG then Filled(env, cleaned, e, true)
    else if Type(e) in {FIFO, CHR, BLK, SOCK} then
      if first.Some? then cleaned + [CleanPath(e.name, 0), HardLink(first.value, e.name)]
      else cleaned + [MakeNode(e.name, e.h.mode, e.h.rmajor, e.h.rminor, e.h.uid, e.h.gid, e.h.mtime)]
    else cleaned
  }

  function AfterAll(env: Env, es: seq<Entry>): seq<Effect> {
    if es == [] then []
    else After(env, AfterAll(env, es[..|es| - 1]), es[..|es| - 1], es[|es| - 1])
  }

  // ---- the table of names ---------------------------------------------------------------------------

  predicate Linkable(e: Entry) {
    Type(e) in {FIFO, CHR, BLK, REG, SOCK}
  }

  // The table of the unpacker holds the first names of the files that may be linked to.
  ghost predicate Knows(links: map<Key, Path>, before: seq<Entry>) {
    forall e: Entry | Linkable(e) && e.h.nlink >= 2 ::
      Earlier(before, e) == if KeyOf(e.h) in links then Some(links[KeyOf(e.h)]) else None
  }

  lemma KnowsMore(links: map<Key, Path>, before: seq<Entry>, e: Entry)
    requires Knows(links, before) && Type(e) < 16
    ensures IsTrailer(e) ==> Knows(map[], before + [e])
    ensures !IsTrailer(e) && !(Linkable(e) && e.h.nlink >= 2 && KeyOf(e.h) !in links) ==> Knows(links, before + [e])
    ensures !IsTrailer(e) && Linkable(e) && e.h.nlink >= 2 && KeyOf(e.h) !in links ==>
      Knows(links[KeyOf(e.h) := e.name], before + [e])
  {
    var all := before + [e];
    assert all[..|before|] == before && all[|before|] == e;
    hide IsTrailer;
    forall d: Entry | Linkable(d) && d.h.nlink >= 2
      ensures Earlier(all, d) ==
        if IsTrailer(e) then None
        else match Earlier(before, d)
          case Some(name) => Some(name)
          case None => if SameFile(e, d) then Some(e.name) else None
    {
    }
  }

  // ---- one entry ---------------------------------------------------------------------------------------

  // Between two entries.
  predicate Between(s: Spec) {
    s.offset % 4 == 0 && (s.phase == Idle || s.phase == Header([]))
  }

  // Where the entry ends, but for the zeros behind it.
  function End(offset: nat, e: Entry): nat {
    offset + 110 + |NameField(e)| + |e.body| + |e.pad|
  }

  lemma NameLength(len: nat, pad: nat)
    requires pad < 4 && (110 + len + pad) % 4 == 0
    ensures NAlign(len) == len + pad
  {
  }

  lemma BodyLength(start: nat, len: nat, pad: nat)
    requires start % 4 == 0 && pad < 4 && (len + pad) % 4 == 0
    ensures Round4(start + len) == start + len + pad
  {
  }

  lemma Types(e: Entry)
    requires WellFormed(e)
    ensures Type(e) < 16 && Kind(e.h.mode) == Type(e)
  {
    hide Spells;
  }

  lemma Lengths(offset: nat, e: Entry)
    requires WellFormed(e) && offset % 4 == 0
    ensures NAlign(e.h.nameLen) == |NameField(e)| && Until(offset + 110, e.h) == End(offset, e)
    ensures Regular(e.h) && (IsLnk(e.h.mode) <==> Type(e) == LNK)
  {
    hide Spells, NAlign, Round4, Type, Kind;
    Types(e);
    NameLength(e.h.nameLen, |e.namePad|);
    assert (offset + 110 + |NameField(e)|) % 4 == 0;
    BodyLength(offset + 110 + |NameField(e)|, |e.body|, |e.pad|);
  }

  lemma HeaderBytesFed(env: Env, s: Spec, bytes: HeaderBytes)
    requires Between(s) && (s.phase == Idle ==> bytes[0] == 48)
    ensures FeedAll(env, s, bytes) == EndHeader(Over(s, 110), bytes)
  {
    hide EndHeader;
    if s.phase == Idle {
      var t := Feed(env, s, 48);
      assert t == Over(s, 1).(phase := Header([48]));
      FeedHeader(env, t, [48], bytes[1..]);
      assert [48] + bytes[1..] == bytes;
      assert Over(t, 109) == Over(s, 110);
    } else {
      FeedHeader(env, s, [], bytes);
      assert [] + bytes == bytes;
    }
  }

  lemma Magic()
    ensures Ascii("070701") == [48, 55, 48, 55, 48, 49] && Ascii("070707") != [48, 55, 48, 55, 48, 49]
  {
    assert Ascii("070707")[5] == 55;
  }

  lemma HeaderFed(env: Env, s: Spec, e: Entry)
    requires Between(s) && WellFormed(e)
    ensures FeedAll(env, s, e.head) == Over(s, 110).(next := ToReset,
      phase := if Type(e) == LNK then Link(e.h, [], End(s.offset, e)) else Name(e.h, [], End(s.offset, e)))
  {
    hide FeedAll, Parse, Regular, Until, End, NameField, Spells;
    Lengths(s.offset, e);
    ParseReads(e.head, e.h);
    assert e.head[0] == e.head[..6][0];
    HeaderBytesFed(env, s, e.head);
    Magic();
    hide Ascii;
  }

  lemma {:induction false} CStrEnds(s: seq<byte>, path: Path)
    requires Ends(s, path)
    ensures CStr(s) == path
    decreases |s|
  {
    if path != [] {
      assert s[0] == path[0] && path == [path[0]] + path[1..];
      assert forall b | b in path[1..] :: b in path;
      CStrEnds(s[1..], path[1..]);
    }
  }

  lemma NameEnds(e: Entry)
    requires WellFormed(e)
    ensures CStr(NameField(e)) == e.name
  {
    CStrEnds(NameField(e), e.name);
  }

  // What is left to do once the name is there: a body that is to be written, or nothing. The file system
  // is to be as in fx in the end.
  ghost predicate Leaves(fx: seq<Effect>, e: Entry, until: nat, u: Spec) {
    if u.phase.Body? then
      && u.phase == Body(e.h, |e.body|, until) && e.body != []
      && u.fx != [] && !u.fx[|u.fx| - 1].Write? && fx == u.fx + [Write(e.body), Close(e.h.mtime)]
    else u == Settle(u, until) && u.fx == fx
  }

  lemma OpenedLeaves(env: Env, s: Spec, e: Entry, until: nat, truncate: bool)
    requires e.h.bodyLen == |e.body|
    ensures var asked := s.fx + [Open(e.name, truncate, e.h.mode)];
      var u := if !env.opens(asked) then Settle(s.(fx := asked), until)
        else StartBody(s.(fx := asked + [Own(e.h.uid, e.h.gid, e.h.mode)]
                                + if e.h.bodyLen > 0 then [SetSize(e.h.bodyLen)] else []), e.h, e.h.bodyLen, until);
      u.offset == s.offset && u.next == s.next && u.links == s.links && Leaves(Filled(env, s.fx, e, truncate), e, until, u)
  {
    var asked := s.fx + [Open(e.name, truncate, e.h.mode)];
    var own := Own(e.h.uid, e.h.gid, e.h.mode);
    if e.body == [] {
      assert asked + [own] + [] + [Close(e.h.mtime)] == asked + [own, Close(e.h.mtime)];
    } else {
      assert asked + [own] + [SetSize(|e.body|)] + [Write(e.body), Close(e.h.mtime)]
          == asked + [own, SetSize(|e.body|), Write(e.body), Close(e.h.mtime)];
    }
  }

  lemma SettledLeaves(s: Spec, e: Entry, until: nat)
    ensures Leaves(s.fx, e, until, Settle(s, until))
  {
  }

  lemma RegularLeaves(env: Env, s: Spec, before: seq<Entry>, e: Entry, until: nat)
    requires WellFormed(e) && Type(e) == REG && !IsTrailer(e) && Knows(s.links, before)
    ensures var u := EndRegular(env, s.(fx := s.fx + [CleanPath(e.name, e.h.mode)]), e.h, e.name, until);
      && u.offset == s.offset && u.next == s.next && Knows(u.links, before + [e])
      && Leaves(After(env, s.fx, before, e), e, until, u)
  {
    hide Encodes, Filled, Leaves, StartBody;
    Types(e);
    KnowsMore(s.links, before, e);
    var s1 := s.(fx := s.fx + [CleanPath(e.name, e.h.mode)]);
    var (s2, ml) := MaybeLink(env, s1, e.h, e.name);
    OpenedLeaves(env, s2, e, until, ml != 1);
    if e.h.nlink >= 2 {
      assert Earlier(before, e) == if KeyOf(e.h) in s.links then Some(s.links[KeyOf(e.h)]) else None;
    } else {
      NeverEarlier(before, e);
    }
    SettledLeaves(s2, e, until);
    hide Knows, WellFormed, IsTrailer, Settle, Earlier, SameFile;
  }

  lemma {:induction false} NeverEarlier(before: seq<Entry>, e: Entry)
    requires e.h.nlink < 2
    ensures Earlier(before, e) == None
    decreases |before|
  {
    if before != [] {
      NeverEarlier(before[..|before| - 1], e);
    }
  }

  lemma NodeLeaves(env: Env, s: Spec, before: seq<Entry>, e: Entry, until: nat)
    requires WellFormed(e) && Type(e) in {FIFO, CHR, BLK, SOCK} && !IsTrailer(e) && Knows(s.links, before)
    ensures var u := EndNode(env, s.(fx := s.fx + [CleanPath(e.name, e.h.mode)]), e.h, e.name, until);
      && u.offset == s.offset && u.next == s.next && Knows(u.links, before + [e])
      && Leaves(After(env, s.fx, before, e), e, until, u)
  {
    hide Encodes, Filled;
    Types(e);
    KnowsMore(s.links, before, e);
    if e.h.nlink >= 2 {
      assert Earlier(before, e) == if KeyOf(e.h) in s.links then Some(s.links[KeyOf(e.h)]) else None;
    } else {
      NeverEarlier(before, e);
    }
    hide Knows, WellFormed, IsTrailer, Earlier, SameFile;
  }

  lemma NameLeaves(env: Env, s: Spec, before: seq<Entry>, e: Entry, until: nat)
    requires WellFormed(e) && Type(e) != LNK && Knows(s.links, before)
    ensures var u := EndName(env, s, e.h, NameField(e), until);
      && u.offset == s.offset && u.next == s.next && Knows(u.links, before + [e])
      && Leaves(After(env, s.fx, before, e), e, until, u)
  {
    hide EndRegular, EndNode, Encodes, NameField, MaybeLink, Filled;
    Types(e);
    NameEnds(e);
    KnowsMore(s.links, before, e);
    if Type(e) == REG && !IsTrailer(e) {
      RegularLeaves(env, s, before, e, until);
    } else if Type(e) in {FIFO, CHR, BLK, SOCK} && !IsTrailer(e) {
      NodeLeaves(env, s, before, e, until);
    }
    hide Knows, WellFormed, Earlier, SameFile, Ascii, Digit;
  }

  lemma LinkEnds(s: Spec, e: Entry, until: nat)
    requires WellFormed(e) && Type(e) == LNK
    ensures |NameField(e) + e.body| == NAlign(e.h.nameLen) + e.h.bodyLen
    ensures EndLink(s, e.h, NameField(e) + e.body, until) ==
      Settle(s.(fx := s.fx + [CleanPath(e.name, 0), MakeSymlink(e.target, e.name, e.h.uid, e.h.gid, e.h.mtime)]), until)
  {
    hide Encodes, Settle;
    Lengths(0, e);
    var got := NameField(e) + e.body;
    assert Ends(got, e.name);
    CStrEnds(got, e.name);
    assert got[|NameField(e)|..] == e.body;
    CStrEnds(e.body, e.target);
  }

  // ---- the rest of an entry --------------------------------------------------------------------------------

  // Between the end of an entry and the next one, only the place counts.
  lemma SkippedOver(env: Env, s: Spec, until: nat, bytes: seq<byte>)
    requires s == Settle(s, until) && s.offset + |bytes| == until
    ensures FeedAll(env, s, bytes) == Over(s, |bytes|)
  {
    if bytes == [] {
      assert s.phase == Idle;
    } else {
      FeedSkip(env, s, until, bytes);
    }
  }

  lemma {:induction false} ZerosFed(env: Env, s: Spec, zeros: seq<byte>)
    requires s.phase == Idle && forall i | 0 <= i < |zeros| :: zeros[i] == 0
    ensures FeedAll(env, s, zeros) == Over(s, |zeros|)
    decreases |zeros|
  {
    if zeros != [] {
      ZerosFed(env, Feed(env, s, zeros[0]), zeros[1..]);
    }
  }

  // A body that is to be written, its padding and the zeros behind it.
  lemma BodyFed(env: Env, s: Spec, fx: seq<Effect>, e: Entry, until: nat)
    requires WellFormed(e) && Leaves(fx, e, until, s) && s.offset + |e.body| + |e.pad| == until
    ensures FeedAll(env, s, e.body + (e.pad + e.fill)) == Over(s, |e.body| + |e.pad| + |e.fill|).(fx := fx)
  {
    hide Encodes, Settle, FeedAll;
    var rest := e.pad + e.fill;
    FeedSplits(env, s, e.body, rest);
    var t := FeedAll(env, s, e.body);
    if s.phase.Body? {
      FeedBody(env, s, e.h, |e.body|, until, e.body);
      WholeBody(s, fx, e, until, t);
      FeedSplits(env, t, e.pad, e.fill);
      SkippedOver(env, t, until, e.pad);
      ZerosFed(env, Over(t, |e.pad|), e.fill);
    } else {
      assert e.body + rest == (e.body + e.pad) + e.fill;
      FeedSplits(env, s, e.body + e.pad, e.fill);
      SkippedOver(env, s, until, e.body + e.pad);
      ZerosFed(env, Over(s, |e.body + e.pad|), e.fill);
    }
  }

  lemma WholeBody(s: Spec, fx: seq<Effect>, e: Entry, until: nat, t: Spec)
    requires Leaves(fx, e, until, s) && s.phase.Body?
    requires t == StartBody(Over(s, |e.body|).(fx := Written(s.fx, e.body)), e.h, 0, until)
    ensures t == Settle(t, until) && t == Over(s, |e.body|).(fx := fx, phase := t.phase)
  {
    assert s.fx + [Write(e.body)] + [Close(e.h.mtime)] == s.fx + [Write(e.body), Close(e.h.mtime)];
  }

  // From one entry to the next: what has been done, the names known, and the place.
  lemma EntryFed(env: Env, s: Spec, before: seq<Entry>, e: Entry)
    requires Between(s) && WellFormed(e) && Knows(s.links, before)
    ensures var u := FeedAll(env, s, Bytes(e));
      && u.phase == Idle && u.offset == s.offset + |Bytes(e)| && u.offset % 4 == 0
      && u.fx == After(env, s.fx, before, e) && Knows(u.links, before + [e])
  {
    hide FeedAll, Encodes, Knows, After, NAlign;
    var rest := NameField(e) + (e.body + (e.pad + e.fill));
    var until := End(s.offset, e);
    FeedSplits(env, s, e.head, rest);
    HeaderFed(env, s, e);
    var t := FeedAll(env, s, e.head);
    if Type(e) == LNK {
      LinkFed(env, t, before, e, until);
    } else {
      NameFed(env, t, before, e, until);
    }
  }

  lemma NameFed(env: Env, s: Spec, before: seq<Entry>, e: Entry, until: nat)
    requires WellFormed(e) && Type(e) != LNK && Knows(s.links, before) && s.phase == Name(e.h, [], until)
    requires s.offset + |NameField(e)| + |e.body| + |e.pad| == until
    ensures var rest := NameField(e) + (e.body + (e.pad + e.fill));
      var u := FeedAll(env, s, rest);
      && u.phase == Idle && u.offset == s.offset + |rest|
      && u.fx == After(env, s.fx, before, e) && Knows(u.links, before + [e])
  {
    hide FeedAll, Encodes, Knows, After, Leaves, EndName, NAlign;
    Lengths(0, e);
    FeedSplits(env, s, NameField(e), e.body + (e.pad + e.fill));
    FeedName(env, s, e.h, [], until, NameField(e));
    assert [] + NameField(e) == NameField(e);
    NameLeaves(env, Over(s, |NameField(e)|), before, e, until);
    BodyFed(env, FeedAll(env, s, NameField(e)), After(env, s.fx, before, e), e, until);
  }

  lemma LinkFed(env: Env, s: Spec, before: seq<Entry>, e: Entry, until: nat)
    requires WellFormed(e) && Type(e) == LNK && Knows(s.links, before) && s.phase == Link(e.h, [], until)
    requires s.offset + |NameField(e)| + |e.body| + |e.pad| == until
    ensures var rest := NameField(e) + (e.body + (e.pad + e.fill));
      var u := FeedAll(env, s, rest);
      && u.phase == Idle && u.offset == s.offset + |rest|
      && u.fx == After(env, s.fx, before, e) && Knows(u.links, before + [e])
  {
    hide FeedAll, Encodes, Knows, Settle, NAlign;
    var field := NameField(e) + e.body;
    var done := s.fx + [CleanPath(e.name, 0), MakeSymlink(e.target, e.name, e.h.uid, e.h.gid, e.h.mtime)];
    assert NameField(e) + (e.body + (e.pad + e.fill)) == field + (e.pad + e.fill);
    FeedSplits(env, s, field, e.pad + e.fill);
    LinkEnds(Over(s, |field|), e, until);
    FeedLink(env, s, e.h, [], until, field);
    assert [] + field == field;
    var t := FeedAll(env, s, field);
    FeedSplits(env, t, e.pad, e.fill);
    SettledTwice(Over(s, |field|).(fx := done), until);
    SkippedOver(env, t, until, e.pad);
    ZerosFed(env, Over(t, |e.pad|), e.fill);
    Types(e);
    KnowsMore(s.links, before, e);
  }

  lemma SettledTwice(s: Spec, until: nat)
    ensures Settle(Settle(s, until), until) == Settle(s, until)
    ensures Settle(s, until).fx == s.fx && Settle(s, until).offset == s.offset && Settle(s, until).links == s.links
  {
  }

  // ---- the archive ------------------------------------------------------------------------------------------

  lemma NothingYet(env: Env)
    ensures FeedAll(env, Fresh(), []) == Fresh() && Stream([]) == [] && AfterAll(env, []) == [] && Knows(map[], [])
  {
  }

  lemma OneMore(env: Env, es: seq<Entry>)
    requires es != []
    ensures var before, e := es[..|es| - 1], es[|es| - 1];
      && Stream(es) == Stream(before) + Bytes(e) && es == before + [e]
      && AfterAll(env, es) == After(env, AfterAll(env, before), before, e)
  {
    hide Bytes, After;
  }

  // Unpacking an archive of well-formed entries does what they say, one after the other.
  lemma {:induction false} ArchiveUnpacks(env: Env, es: seq<Entry>)
    requires AllWellFormed(es)
    ensures var u := FeedAll(env, Fresh(), Stream(es));
      u.fx == AfterAll(env, es) && Between(u) && u.offset == |Stream(es)| && Knows(u.links, es)
    decreases |es|
  {
    hide FeedAll, Stream, Bytes, WellFormed, Knows, AfterAll, After;
    if es == [] {
      NothingYet(env);
    } else {
      var before, e := es[..|es| - 1], es[|es| - 1];
      ArchiveUnpacks(env, before);
      OneMore(env, es);
      FeedSplits(env, Fresh(), Stream(before), Bytes(e));
      EntryFed(env, FeedAll(env, Fresh(), Stream(before)), before, e);
    }
  }

  // ---- what is no entry -----------------------------------------------------------------------------------------

  // The magic number of the old format, and any other.
  lemma WrongMagic(env: Env, s: Spec, bytes: HeaderBytes)
    requires Between(s) && (s.phase == Idle ==> bytes[0] == 48)
    ensures var u := FeedAll(env, s, bytes);
      && (bytes[..6] == [48, 55, 48, 55, 48, 55] ==> u.phase == Failed(OldFormat) && u.fx == s.fx)
      && (bytes[..6] != [48, 55, 48, 55, 48, 55] && bytes[..6] != [48, 55, 48, 55, 48, 49] ==>
            u.phase == Failed(NoMagic) && u.fx == s.fx)
  {
    hide FeedAll, Regular, Parse, Until;
    HeaderBytesFed(env, s, bytes);
    Magic();
    assert Ascii("070707") == [48, 55, 48, 55, 48, 55];
    hide Ascii;
  }

  // Between two entries only zeros may stand, and a header only at a whole word.
  lemma WrongByte(env: Env, s: Spec, b: byte)
    requires s.phase == Idle
    ensures var u := Feed(env, s, b);
      && u.fx == s.fx && (b == 0 ==> u == s.(offset := s.offset + 1))
      && (b != 0 && s.offset % 4 != 0 ==> u.phase == Failed(BrokenPadding))
      && (b != 0 && b != 48 && s.offset % 4 == 0 ==> u.phase == Failed(Junk))
      && (b == 48 && s.offset % 4 == 0 ==> u.phase == Header([b]))
  {
  }

  // An entry without a name, with a name or a link target that is too long, or with a body on something that
  // is neither a file nor a link is passed over, name, body and padding, unless a cut fell into its header.
  lemma PassedOver(env: Env, s: Spec, bytes: HeaderBytes, h: Hdr, namePad: nat, bodyPad: nat, rest: seq<byte>)
    requires Between(s) && !s.next.ToHeader? && Encodes(bytes, h)
    requires var kind := h.mode / 4096;
      h.nameLen == 0 || h.nameLen > 4096 || (if kind == LNK then h.bodyLen > 4096 else kind != REG && h.bodyLen > 0)
    requires namePad < 4 && (110 + h.nameLen + namePad) % 4 == 0 && bodyPad < 4 && (h.bodyLen + bodyPad) % 4 == 0
    requires |rest| == h.nameLen + namePad + h.bodyLen + bodyPad
    ensures var u := FeedAll(env, s, bytes + rest);
      && Between(u) && u.offset == s.offset + 110 + |rest| && u.fx == s.fx && u.links == s.links
  {
    hide FeedAll, Spells, Parse, NAlign, Round4;
    ParseReads(bytes, h);
    assert bytes[0] == bytes[..6][0];
    HeaderBytesFed(env, s, bytes);
    Magic();
    NameLength(h.nameLen, namePad);
    BodyLength(s.offset + 110 + h.nameLen + namePad, h.bodyLen, bodyPad);
    hide Ascii;
    FeedSplits(env, s, bytes, rest);
    var t := FeedAll(env, s, bytes);
    assert Kind(h.mode) == h.mode / 4096;
    assert t.phase.Bad? && t.phase.until == t.offset + |rest|;
    FeedBad(env, t, t.phase.until, t.phase.then_, rest);
  }

  // ---- however it is cut ---------------------------------------------------------------------------------------

  lemma {:induction false} HeaderIsRegular(env: Env, s: Spec, got: seq<byte>, bytes: seq<byte>)
    requires s.phase == Header(got) && |got| < HEADER && |got| + |bytes| == HEADER
    requires !EndHeader(Over(s, |bytes|), got + bytes).phase.Bad?
    ensures !Meets(env, s, bytes)
    decreases |bytes|
  {
    hide EndHeader;
    var t := Feed(env, s, bytes[0]);
    if |got| + 1 < HEADER {
      assert (got + [bytes[0]]) + bytes[1..] == got + bytes;
      assert Over(t, |bytes| - 1) == Over(s, |bytes|);
      HeaderIsRegular(env, t, got + [bytes[0]], bytes[1..]);
    } else {
      assert bytes[1..] == [] && got + bytes == got + [bytes[0]];
    }
  }

  // Behind the header of an entry that ends at until; from there on there are zeros only.
  ghost predicate Inside(s: Spec, until: nat, bytes: seq<byte>) {
    && (if s.phase == Idle then s.offset >= until
        else (s.phase.Name? || s.phase.Link? || s.phase.Body? || s.phase.Skip?) && s.phase.until == until)
    && forall i | 0 <= i < |bytes| && s.offset + i >= until :: bytes[i] == 0
  }

  lemma StaysInside(env: Env, s: Spec, until: nat, bytes: seq<byte>)
    requires Inside(s, until, bytes) && bytes != []
    ensures Inside(Feed(env, s, bytes[0]), until, bytes[1..])
  {
    hide CStr, Ascii, Written;
    var t := Feed(env, s, bytes[0]);
    assert t.offset == s.offset + 1;
    assert forall i | 0 <= i < |bytes| - 1 :: bytes[1..][i] == bytes[i + 1];
  }

  lemma {:induction false} InsideIsRegular(env: Env, s: Spec, until: nat, bytes: seq<byte>)
    requires Inside(s, until, bytes)
    ensures !Meets(env, s, bytes)
    decreases |bytes|
  {
    hide Feed;
    if bytes != [] {
      StaysInside(env, s, until, bytes);
      InsideIsRegular(env, Feed(env, s, bytes[0]), until, bytes[1..]);
    }
  }

  lemma EntryIsRegular(env: Env, s: Spec, e: Entry)
    requires Between(s) && WellFormed(e)
    ensures !Meets(env, s, Bytes(e))
  {
    hide FeedAll, EndHeader, Meets, Inside, WellFormed;
    var until, rest := End(s.offset, e), NameField(e) + (e.body + (e.pad + e.fill));
    HeaderFed(env, s, e);
    StartsWithZero(e);
    HeaderBytesFed(env, s, e.head);
    WholeHeader(env, s, e.head);
    var t := FeedAll(env, s, e.head);
    RestInside(t, e, until);
    InsideIsRegular(env, t, until, rest);
    MeetsSplits(env, s, e.head, rest);
  }

  lemma StartsWithZero(e: Entry)
    requires WellFormed(e)
    ensures e.head[0] == 48
  {
    hide Spells;
    assert e.head[0] == e.head[..6][0];
  }

  lemma RestInside(s: Spec, e: Entry, until: nat)
    requires WellFormed(e) && (s.phase.Name? || s.phase.Link?) && s.phase.until == until
    requires s.offset + |NameField(e)| + |e.body| + |e.pad| == until
    ensures Inside(s, until, NameField(e) + (e.body + (e.pad + e.fill)))
  {
    hide Encodes;
    var rest := NameField(e) + (e.body + (e.pad + e.fill));
    forall i | 0 <= i < |rest| && s.offset + i >= until ensures rest[i] == 0 {
      assert rest[i] == e.fill[i - (until - s.offset)];
    }
  }

  lemma WholeHeader(env: Env, s: Spec, bytes: HeaderBytes)
    requires Between(s) && bytes[0] == 48 && !EndHeader(Over(s, HEADER), bytes).phase.Bad?
    ensures !Meets(env, s, bytes)
  {
    hide EndHeader;
    if s.phase == Idle {
      var t := Feed(env, s, 48);
      assert t == Over(s, 1).(phase := Header([48]));
      assert Over(t, 109) == Over(s, HEADER) && [48] + bytes[1..] == bytes;
      HeaderIsRegular(env, t, [48], bytes[1..]);
    } else {
      assert [] + bytes == bytes;
      HeaderIsRegular(env, s, [], bytes);
    }
  }

  lemma {:induction false} ArchiveIsRegular(env: Env, es: seq<Entry>)
    requires AllWellFormed(es)
    ensures !Meets(env, Fresh(), Stream(es))
    decreases |es|
  {
    hide FeedAll, Stream, Bytes, WellFormed, Knows, AfterAll, After;
    if es == [] {
      NothingYet(env);
    } else {
      var before, e := es[..|es| - 1], es[|es| - 1];
      ArchiveIsRegular(env, before);
      ArchiveUnpacks(env, before);
      OneMore(env, es);
      EntryIsRegular(env, FeedAll(env, Fresh(), Stream(before)), e);
      MeetsSplits(env, Fresh(), Stream(before), Bytes(e));
    }
  }

  // However the archive comes in pieces, that is what is done, and there is no error.
  lemma ArchiveInPieces(env: Env, es: seq<Entry>, bufs: seq<seq<byte>>)
    requires AllWellFormed(es) && Joined(bufs) == Stream(es)
    ensures var u := FlushAll(env, Fresh(), bufs);
      u.fx == AfterAll(env, es) && Between(u) && u.offset == |Stream(es)|
  {
    hide FeedAll, FlushAll, Joined, Stream, Meets, AllWellFormed, Knows, AfterAll;
    ArchiveUnpacks(env, es);
    ArchiveIsRegular(env, es);
    CutsDoNotShow(env, Fresh(), bufs);
  }
}
