// Unpacking a newc archive, as an automaton that looks at one byte at a time.
module CpioSpec {

  const PATH_MAX := 4096
  const HEADER := 110

  type byte = b: int | 0 <= b < 256

  type HeaderBytes = s: seq<byte> | |s| == HEADER witness seq(HEADER, _ => 0)

  type Path = seq<byte>

  datatype Option<T> = None | Some(value: T)

  function NAlign(len: nat): nat {
    (len + 1) / 4 * 4 + 2
  }

  function Round4(x: nat): nat {
    (x + 3) / 4 * 4
  }

  function Ascii(s: string): seq<byte> {
    seq(|s|, i requires 0 <= i < |s| => (s[i] as int) % 256)
  }

  // ---- the header --------------------------------------------------------------------------

  datatype Hdr = Hdr(
    ino: nat, mode: nat, uid: nat, gid: nat, nlink: nat, mtime: nat, bodyLen: nat,
    major: nat, minor: nat, rmajor: nat, rminor: nat, nameLen: nat)

  function Digit(b: byte): Option<nat> {
    if 48 <= b <= 57 then Some(b - 48)
    else if 65 <= b <= 70 then Some(b - 55)
    else if 97 <= b <= 102 then Some(b - 87)
    else None
  }

  function Digits(s: seq<byte>, acc: nat): nat {
    if s == [] || Digit(s[0]).None? then acc else Digits(s[1..], acc * 16 + Digit(s[0]).value)
  }

  // simple_strtoul(s, NULL, 16).
  function Hex(s: seq<byte>): nat {
    if |s| >= 2 && s[0] == 48 && (s[1] == 120 || s[1] == 88) then Digits(s[2..], 0) else Digits(s, 0)
  }

  function Field(s: HeaderBytes, i: nat): nat
    requires i < 12
  {
    Hex(s[6 + 8 * i..14 + 8 * i])
  }

  function Parse(s: HeaderBytes): Hdr {
    Hdr(Field(s, 0), Field(s, 1) % 0x10000, Field(s, 2), Field(s, 3), Field(s, 4), Field(s, 5), Field(s, 6),
        Field(s, 7), Field(s, 8), Field(s, 9), Field(s, 10), Field(s, 11))
  }

  // mode & S_IFMT.
  function Kind(mode: nat): nat {
    mode / 0x1000 % 16
  }

  predicate IsReg(mode: nat) { Kind(mode) == 8 }
  predicate IsDir(mode: nat) { Kind(mode) == 4 }
  predicate IsLnk(mode: nat) { Kind(mode) == 10 }
  predicate IsNode(mode: nat) { Kind(mode) == 6 || Kind(mode) == 2 || Kind(mode) == 1 || Kind(mode) == 12 }

  // ---- effects ------------------------------------------------------------------------------

  datatype Effect =
    | CleanPath(path: Path, fmode: nat)
    | HardLink(existing: Path, path: Path)
    | Open(path: Path, truncate: bool, mode: nat)
    | Own(uid: nat, gid: nat, mode: nat)
    | SetSize(len: nat)
    | Write(data: seq<byte>)
    | Close(mtime: nat)
    | MakeDir(path: Path, mode: nat, uid: nat, gid: nat, mtime: nat)
    | MakeNode(path: Path, mode: nat, rmajor: nat, rminor: nat, uid: nat, gid: nat, mtime: nat)
    | MakeSymlink(target: Path, path: Path, uid: nat, gid: nat, mtime: nat)

  // Writes to the open file that follow one another are one write.
  function Written(fx: seq<Effect>, data: seq<byte>): seq<Effect> {
    if data == [] then fx
    else if fx != [] && fx[|fx| - 1].Write? then fx[..|fx| - 1] + [Write(fx[|fx| - 1].data + data)]
    else fx + [Write(data)]
  }

  lemma WrittenTwice(fx: seq<Effect>, a: seq<byte>, b: seq<byte>)
    ensures Written(Written(fx, a), b) == Written(fx, a + b)
  {
    if a == [] {
      assert a + b == b;
    } else if b == [] {
      assert a + b == a;
    } else if fx != [] && fx[|fx| - 1].Write? {
      var d := fx[|fx| - 1].data;
      assert (d + a) + b == d + (a + b);
    }
  }

  // What the file system answers, given everything that was done to it so far.
  datatype Env = Env(opens: seq<Effect> -> bool, links: seq<Effect> -> bool)

  datatype Key = Key(major: nat, minor: nat, ino: nat, kind: nat)

  function KeyOf(h: Hdr): Key {
    Key(h.major, h.minor, h.ino, Kind(h.mode))
  }

  // ---- the automaton -----------------------------------------------------------------------

  datatype Message = OldFormat | NoMagic | BrokenPadding | Junk

  // next_state as a value left over from before: zero-initialised, from a header that was collected
  // in pieces, or from the last complete entry.
  datatype Next = ToStart | ToHeader | ToReset

  datatype Then = ThenStart | ThenHeader(again: HeaderBytes) | ThenReset

  datatype Phase =
    | Idle
    | Header(got: seq<byte>)
    | Name(h: Hdr, got: seq<byte>, until: nat)
    | Link(h: Hdr, got: seq<byte>, until: nat)
    | Body(h: Hdr, left: nat, until: nat)
    | Skip(until: nat)
    | Bad(until: nat, then_: Then)  // an entry that is skipped with a stale next_state
    | Failed(why: Message)

  datatype Spec = Spec(phase: Phase, offset: nat, next: Next, fx: seq<Effect>, links: map<Key, Path>)

  function Fail(s: Spec, why: Message): Spec {
    s.(phase := Failed(why), offset := 0, next := ToReset)
  }

  function Settle(s: Spec, until: nat): Spec {
    s.(phase := if s.offset < until then Skip(until) else Idle)
  }

  function LeftOver(next: Next, got: HeaderBytes): Then {
    match next
    case ToStart => ThenStart
    case ToHeader => ThenHeader(got)
    case ToReset => ThenReset
  }

  function Until(offset: nat, h: Hdr): nat {
    Round4(offset + NAlign(h.nameLen) + h.bodyLen)
  }

  // The entries do_header() goes on with. The others reach SkipIt without a next_state of their own.
  predicate Regular(h: Hdr) {
    && 0 < h.nameLen <= PATH_MAX
    && (if IsLnk(h.mode) then h.bodyLen <= PATH_MAX else IsReg(h.mode) || h.bodyLen == 0)
  }

  function EndHeader(s: Spec, got: HeaderBytes): Spec {
    if got[..6] == Ascii("070707") then Fail(s, OldFormat)
    else if got[..6] != Ascii("070701") then Fail(s, NoMagic)
    else
      var h := Parse(got);
      var until := Until(s.offset, h);
      if !Regular(h) then s.(phase := Bad(until, LeftOver(s.next, got)))
      else s.(phase := if IsLnk(h.mode) then Link(h, [], until) else Name(h, [], until), next := ToReset)
  }

  function CStr(s: seq<byte>): Path {
    if s == [] || s[0] == 0 then [] else [s[0]] + CStr(s[1..])
  }

  // maybe_link(): -1, 0 or 1.
  function MaybeLink(env: Env, s: Spec, h: Hdr, path: Path): (Spec, int) {
    if h.nlink < 2 then (s, 0)
    else if KeyOf(h) in s.links then
      var fx := s.fx + [CleanPath(path, 0), HardLink(s.links[KeyOf(h)], path)];
      (s.(fx := fx), if env.links(fx) then 1 else -1)
    else (s.(links := s.links[KeyOf(h) := path]), 0)
  }

  function EndBody(s: Spec, h: Hdr, until: nat): Spec {
    Settle(s.(fx := s.fx + [Close(h.mtime)]), until)
  }

  function StartBody(s: Spec, h: Hdr, left: nat, until: nat): Spec {
    if left == 0 then EndBody(s, h, until) else s.(phase := Body(h, left, until))
  }

  function EndRegular(env: Env, s: Spec, h: Hdr, path: Path, until: nat): Spec {
    var (s', ml) := MaybeLink(env, s, h, path);
    var fx := s'.fx + [Open(path, ml != 1, h.mode)];
    if ml < 0 then Settle(s', until)
    else if !env.opens(fx) then Settle(s'.(fx := fx), until)
    else StartBody(s'.(fx := fx + [Own(h.uid, h.gid, h.mode)] + if h.bodyLen > 0 then [SetSize(h.bodyLen)] else []), h, h.bodyLen, until)
  }

  function EndNode(env: Env, s: Spec, h: Hdr, path: Path, until: nat): Spec {
    var (s', ml) := MaybeLink(env, s, h, path);
    if ml != 0 then Settle(s', until)
    else Settle(s'.(fx := s'.fx + [MakeNode(path, h.mode, h.rmajor, h.rminor, h.uid, h.gid, h.mtime)]), until)
  }

  function EndName(env: Env, s: Spec, h: Hdr, got: seq<byte>, until: nat): Spec {
    var path := CStr(got);
    var s' := s.(fx := s.fx + [CleanPath(path, h.mode)]);
    if path == Ascii("TRAILER!!!") then Settle(s.(links := map[]), until)
    else if IsReg(h.mode) then EndRegular(env, s', h, path, until)
    else if IsDir(h.mode) then Settle(s'.(fx := s'.fx + [MakeDir(path, h.mode, h.uid, h.gid, h.mtime)]), until)
    else if IsNode(h.mode) then EndNode(env, s', h, path, until)
    else Settle(s', until)
  }

  function EndLink(s: Spec, h: Hdr, got: seq<byte>, until: nat): Spec
    requires |got| == NAlign(h.nameLen) + h.bodyLen
  {
    var path := CStr(got);
    Settle(s.(fx := s.fx + [CleanPath(path, 0), MakeSymlink(CStr(got[NAlign(h.nameLen)..]), path, h.uid, h.gid, h.mtime)]), until)
  }

  function Past(s: Spec, then_: Then): Spec {
    match then_
    case ThenStart => s.(phase := Header([]))
    case ThenHeader(again) => EndHeader(s, again)
    case ThenReset => s.(phase := Idle)
  }

  function OnHeader(t: Spec, got: seq<byte>): Spec {
    if |got| == HEADER then EndHeader(t, got) else t.(phase := Header(got))
  }

  function OnName(env: Env, t: Spec, h: Hdr, got: seq<byte>, until: nat): Spec {
    if |got| == NAlign(h.nameLen) then EndName(env, t, h, got, until) else t.(phase := Name(h, got, until))
  }

  function OnLink(t: Spec, h: Hdr, got: seq<byte>, until: nat): Spec {
    if |got| == NAlign(h.nameLen) + h.bodyLen then EndLink(t, h, got, until) else t.(phase := Link(h, got, until))
  }

  function OnIdle(s: Spec, t: Spec, b: byte): Spec {
    if b == 0 then t
    else if s.offset % 4 != 0 then Fail(s, BrokenPadding)
    else if b == 48 then t.(phase := Header([b]))
    else Fail(s, Junk)
  }

  // One byte.
  function Feed(env: Env, s: Spec, b: byte): Spec {
    var t := s.(phase := Idle, offset := s.offset + 1);
    match s.phase
    case Failed(_) => s
    case Idle => OnIdle(s, t, b)
    case Header(got) => OnHeader(t, got + [b])
    case Name(h, got, until) => OnName(env, t, h, got + [b], until)
    case Link(h, got, until) => OnLink(t, h, got + [b], until)
    case Body(h, left, until) =>
      StartBody(t.(fx := Written(s.fx, [b])), h, if left == 0 then 0 else left - 1, until)
    case Skip(until) => Settle(t, until)
    case Bad(until, then_) => if t.offset < until then s.(offset := s.offset + 1) else Past(t, then_)
  }

  function FeedAll(env: Env, s: Spec, bytes: seq<byte>): Spec
    decreases |bytes|
  {
    if bytes == [] then s else FeedAll(env, Feed(env, s, bytes[0]), bytes[1..])
  }

  // The end of a buffer inside a header makes do_collect() finish that header.
  function Cut(s: Spec): Spec {
    if s.phase.Header? then s.(next := ToHeader) else s
  }

  // flush_buffer() on one buffer.
  function Flush(env: Env, s: Spec, bytes: seq<byte>): Spec {
    Cut(FeedAll(env, s, bytes))
  }

  function FlushAll(env: Env, s: Spec, bufs: seq<seq<byte>>): Spec
    decreases |bufs|
  {
    if bufs == [] then s else FlushAll(env, Flush(env, s, bufs[0]), bufs[1..])
  }

  function Joined(bufs: seq<seq<byte>>): seq<byte> {
    if bufs == [] then [] else bufs[0] + Joined(bufs[1..])
  }
}
