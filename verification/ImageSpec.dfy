// The resource image: a header block, one index block for each file, and the contents, each from a
// block of its own on. What is packed comes out again.
module ImageSpec {
  import opened Numbers
  import Sha1

  const BLOCK := 512
  const PATH := 220
  const W32 := 0x1_0000_0000
  const INT_LIMIT := 0x8000_0000

  type byte = b: int | 0 <= b < 256

  type Path = seq<byte>

  datatype File = File(path: Path, data: seq<byte>)

  datatype Option<T> = None | Some(value: T)

  function FixBlocks(size: nat): nat {
    (size + BLOCK - 1) / BLOCK
  }

  function Filled(n: nat): (s: seq<byte>)
    ensures |s| == n
  {
    seq(n, _ => 0)
  }

  // ---- an image file ---------------------------------------------------------------------------

  // Writing behind the end leaves zeros in between.
  function WriteAt(img: seq<byte>, off: nat, data: seq<byte>): seq<byte> {
    var grown := if |img| < off + |data| then img + Filled(off + |data| - |img|) else img;
    grown[..off] + data + grown[off + |data|..]
  }

  // A 32-bit int holding n, which wraps around when n is too large for it.
  function ToInt(n: nat): int {
    var m := n % W32;
    if m < INT_LIMIT then m else m - W32
  }

  // StorageWriteLba() gets to the block: its place in bytes is not negative as an int.
  predicate Seekable(block: nat) {
    ToInt(block * BLOCK) >= 0
  }

  // What is left of a content whose size is kept in 32 bits.
  function Kept(data: seq<byte>): (k: seq<byte>)
    ensures |k| == |data| % W32 && k <= data
  {
    Splits(|data|, W32);
    data[..|data| % W32]
  }

  // write_data() gets through: the number of whole blocks is zero as an int, or their bytes are a
  // positive int and the first place is reached; and for the rest of the data, the second place.
  predicate Reaches(block: nat, data: seq<byte>) {
    var blocks := |data| / BLOCK;
    && (ToInt(blocks) != 0 ==> Seekable(block) && ToInt(blocks * BLOCK) > 0)
    && (|data| % BLOCK > 0 ==> Seekable(block + blocks))
  }

  // The whole blocks of so many bytes do not vanish on the way from an int that counts blocks to one
  // that counts bytes.
  predicate SizeTaken(size: nat) {
    size / BLOCK % W32 == 0 || size % W32 >= BLOCK
  }

  // Every block of the data starts below 2 GiB, and there are fewer bytes than that.
  predicate Below(block: nat, data: seq<byte>) {
    && |data| < INT_LIMIT
    && (|data| >= BLOCK ==> block * BLOCK < INT_LIMIT)
    && (|data| % BLOCK > 0 ==> (block + |data| / BLOCK) * BLOCK < INT_LIMIT)
  }

  // 2^32 bytes are 2^23 blocks.
  lemma LowWord(size: nat)
    ensures size / BLOCK == size / W32 * 0x80_0000 + size % W32 / BLOCK
    ensures size % BLOCK == size % W32 % BLOCK
    ensures FixBlocks(size) == size / W32 * 0x80_0000 + FixBlocks(size % W32)
  {
  }

  lemma SameInt(x: nat, y: nat, q: nat)
    requires x == y + q * W32
    ensures ToInt(x) == ToInt(y)
  {
    Splits(y, W32);
    Remainder(x, W32, q + y / W32, y % W32);
  }

  // The three ints of write_data() are those for the low words.
  lemma WrappedInts(block: nat, size: nat, at: nat, q: nat)
    requires block * BLOCK == at * BLOCK + q * W32
    ensures ToInt(block * BLOCK) == ToInt(at * BLOCK)
    ensures ToInt(size / BLOCK * BLOCK) == ToInt(size % W32 / BLOCK * BLOCK)
    ensures ToInt((block + size / BLOCK) * BLOCK) == ToInt((at + size % W32 / BLOCK) * BLOCK)
  {
    hide ToInt;
    var p, m := size / W32, size % W32;
    LowWord(size);
    SameInt(block * BLOCK, at * BLOCK, q);
    SameInt(size / BLOCK * BLOCK, m / BLOCK * BLOCK, p);
    assert (block + size / BLOCK) * BLOCK == (at + m / BLOCK) * BLOCK + (q + p) * W32;
    SameInt((block + size / BLOCK) * BLOCK, (at + m / BLOCK) * BLOCK, q + p);
  }

  lemma NoBlocks(size: nat)
    ensures ToInt(size / BLOCK) == 0 <==> size / BLOCK % W32 == 0
    ensures size / BLOCK % W32 == 0 ==> size % W32 < BLOCK
  {
    var p, m := size / W32, size % W32;
    LowWord(size);
    Remainder(size / BLOCK, 0x80_0000, p, m / BLOCK);
    Coarser(size / BLOCK, W32, 0x200, 0x80_0000);
  }

  // write_data() with a block that wraps around is write_data() of what is kept.
  lemma ReachesIff(block: nat, data: seq<byte>, at: nat, q: nat)
    requires block * BLOCK == at * BLOCK + q * W32 && at * BLOCK < W32
    ensures Reaches(block, data) <==> SizeTaken(|data|) && Below(at, Kept(data))
    ensures Kept(data) != [] && Reaches(block, data) ==> ToInt(block * BLOCK) == at * BLOCK < INT_LIMIT
  {
    hide ToInt;
    var size := |data|;
    LowWord(size);
    WrappedInts(block, size, at, q);
    NoBlocks(size);
    ReachesInBytes(at, size % W32);
  }

  lemma ReachesInBytes(at: nat, m: nat)
    requires at * BLOCK < W32 && m < W32
    ensures m >= BLOCK ==> (ToInt(at * BLOCK) >= 0 && ToInt(m / BLOCK * BLOCK) > 0 <==> at * BLOCK < INT_LIMIT && m < INT_LIMIT)
    ensures m < BLOCK ==> ToInt(m / BLOCK * BLOCK) == 0
    ensures at * BLOCK < INT_LIMIT && m < INT_LIMIT && m % BLOCK > 0 ==>
      (ToInt((at + m / BLOCK) * BLOCK) >= 0 <==> (at + m / BLOCK) * BLOCK < INT_LIMIT)
    ensures m < BLOCK ==> (ToInt((at + m / BLOCK) * BLOCK) >= 0 <==> (at + m / BLOCK) * BLOCK < INT_LIMIT)
    ensures ToInt(at * BLOCK) >= 0 ==> ToInt(at * BLOCK) == at * BLOCK
  {
    assert (at + m / BLOCK) * BLOCK == at * BLOCK + m / BLOCK * BLOCK;
  }

  // A content that is written leaves the next one within one round of the int.
  lemma NextBlock(block: nat, data: seq<byte>)
    requires Below(block, data) && block * BLOCK < W32
    ensures (block + FixBlocks(|data|)) * BLOCK < W32
  {
  }

  // write_data(): whole blocks, the last one filled up with zeros.
  function Rounded(data: seq<byte>): seq<byte> {
    data + Filled(FixBlocks(|data|) * BLOCK - |data|)
  }

  predicate Has(img: seq<byte>, off: nat, data: seq<byte>) {
    off + |data| <= |img| && img[off..off + |data|] == data
  }

  lemma WriteHas(img: seq<byte>, off: nat, data: seq<byte>)
    ensures Has(WriteAt(img, off, data), off, data)
    ensures |WriteAt(img, off, data)| >= |img|
  {
  }

  // A write next to a region leaves it alone.
  lemma WriteLeaves(img: seq<byte>, off: nat, data: seq<byte>, at: nat, kept: seq<byte>)
    requires Has(img, at, kept) && (off + |data| <= at || at + |kept| <= off)
    ensures Has(WriteAt(img, off, data), at, kept)
  {
    var out := WriteAt(img, off, data);
    forall i | 0 <= i < |kept| ensures out[at + i] == kept[i] {
      assert img[at..at + |kept|][i] == kept[i];
    }
    assert out[at..at + |kept|] == kept;
  }

  lemma HasPart(img: seq<byte>, off: nat, data: seq<byte>, n: nat)
    requires Has(img, off, data) && n <= |data|
    ensures Has(img, off, data[..n]) && Has(img, off + n, data[n..])
  {
    assert img[off..off + n] == img[off..off + |data|][..n];
    assert img[off + n..off + |data|] == img[off..off + |data|][n..];
  }

  lemma RoundedSize(data: seq<byte>)
    ensures |data| <= FixBlocks(|data|) * BLOCK == |Rounded(data)|
    ensures data <= Rounded(data) && (data != [] ==> FixBlocks(|data|) >= 1)
  {
  }

  // ---- numbers ------------------------------------------------------------------------------------

  function Byte(n: nat): byte {
    n % 256
  }

  // switch_short() and switch_int() make the bytes of a number little-endian on any host.
  function Le16(n: nat): seq<byte> {
    [Byte(n), Byte(n / 0x100)]
  }

  function Le32(n: nat): seq<byte> {
    [Byte(n), Byte(n / 0x100), Byte(n / 0x1_0000), Byte(n / 0x100_0000)]
  }

  // hash_size is the one number of an entry that stays as the host has it.
  function Host32(big: bool, n: nat): seq<byte> {
    if big then [Byte(n / 0x100_0000), Byte(n / 0x1_0000), Byte(n / 0x100), Byte(n)] else Le32(n)
  }

  function Get16(b: seq<byte>): nat
    requires |b| == 2
  {
    b[0] as int + 0x100 * (b[1] as int)
  }

  function Get32(b: seq<byte>): nat
    requires |b| == 4
  {
    b[0] as int + 0x100 * (b[1] as int) + 0x1_0000 * (b[2] as int) + 0x100_0000 * (b[3] as int)
  }

  lemma Get32OfLe(n: nat)
    requires n < W32
    ensures Get32(Le32(n)) == n
  {
    assert n / 0x100 == n / 0x1_0000 * 0x100 + n / 0x100 % 256;
    assert n / 0x1_0000 == n / 0x100_0000 * 0x100 + n / 0x1_0000 % 256;
  }

  lemma SameByte(a: nat, b: nat, q: nat)
    requires a == b + q * 256
    ensures Byte(a) == Byte(b)
  {
    Splits(b, 256);
    Remainder(a, 256, q + b / 256, b % 256);
  }

  // Four bytes keep the low word.
  lemma Le32Wraps(n: nat)
    ensures Get32(Le32(n)) == n % W32
  {
    hide Byte;
    var q, r := n / W32, n % W32;
    assert n / 0x100 == r / 0x100 + (q * 0x1_0000) * 256;
    assert n / 0x1_0000 == r / 0x1_0000 + (q * 0x100) * 256;
    assert n / 0x100_0000 == r / 0x100_0000 + q * 256;
    SameByte(n, r, q * 0x100_0000);
    SameByte(n / 0x100, r / 0x100, q * 0x1_0000);
    SameByte(n / 0x1_0000, r / 0x1_0000, q * 0x100);
    SameByte(n / 0x100_0000, r / 0x100_0000, q);
    Get32OfLe(r);
  }

  lemma Get16OfLe(n: nat)
    requires n < 0x1_0000
    ensures Get16(Le16(n)) == n
  {
  }

  // ---- header and index entries -----------------------------------------------------------------

  function Text(s: string): seq<byte> {
    seq(|s|, i requires 0 <= i < |s| => Byte(s[i] as int))
  }

  // resource_ptn_header; one byte of padding before the number of entries.
  datatype Header = Header(version: nat, tableVersion: nat, size: nat, tableOffset: nat, entrySize: nat, entries: nat)

  function HeaderBytes(n: nat, pad: byte): seq<byte> {
    Text("RSCE") + Le16(0) + Le16(0) + [1, 1, 1, pad] + Le32(n)
  }

  function ReadHeader(b: seq<byte>): Option<Header>
    requires |b| == BLOCK
  {
    if b[..4] != Text("RSCE") then None
    else Some(Header(Get16(b[4..6]), Get16(b[6..8]), b[8], b[9], b[10], Get32(b[12..16])))
  }

  predicate Supported(h: Header) {
    h.version == 0 && h.size == 1 && h.tableVersion == 0 && h.entrySize == 1
  }

  // snprintf() into the path of an entry, which is all zeros before.
  function PathBytes(path: Path): seq<byte> {
    if |path| < PATH then path + Filled(PATH - |path|) else path[..PATH - 1] + [0]
  }

  // The SHA-1 digest of the content, the length of which is an unsigned int.
  function Hash(data: seq<byte>): (h: seq<byte>)
    ensures |h| == 20
  {
    var d := Sha1.HashOf(Bits(Kept(data)));
    HashLength(Kept(data));
    seq(20, i requires 0 <= i < 20 => d[i] as int)
  }

  lemma HashLength(data: seq<byte>)
    ensures |Sha1.HashOf(Bits(data))| == 20
  {
  }

  function Bits(data: seq<byte>): seq<bv8> {
    seq(|data|, i requires 0 <= i < |data| => data[i] as bv8)
  }

  datatype Entry = Entry(path: Path, offset: nat, size: nat)

  // index_tbl_entry; rest is what the tool leaves in the unused part of the hash.
  function EntryBytes(big: bool, path: Path, data: seq<byte>, offset: nat, rest: seq<byte>): seq<byte> {
    Text("ENTR") + PathBytes(path) + (Hash(data) + rest) + Host32(big, 20) + Le32(offset) + Le32(|data|)
  }

  function CStr(b: seq<byte>): Path {
    if b == [] || b[0] == 0 then [] else [b[0]] + CStr(b[1..])
  }

  function ReadEntry(b: seq<byte>): Option<Entry>
    requires |b| == BLOCK
  {
    if b[..4] != Text("ENTR") then None
    else Some(Entry(CStr(b[4..224]), Get32(b[260..264]), Get32(b[264..268])))
  }

  lemma {:induction false} CStrOfPath(path: Path, n: nat)
    requires forall i | 0 <= i < |path| :: path[i] != 0
    ensures CStr(path + Filled(n)) == path
    decreases |path|
  {
    if path != [] {
      CStrOfPath(path[1..], n);
      assert (path + Filled(n))[1..] == path[1..] + Filled(n);
    } else {
      assert path + Filled(n) == Filled(n);
    }
  }

  lemma Fields(tag: seq<byte>, path: seq<byte>, hash: seq<byte>, size: seq<byte>, offset: seq<byte>, len: seq<byte>, end: seq<byte>)
    requires |tag| == 4 && |path| == 220 && |hash| == 32 && |size| == 4 && |offset| == 4 && |len| == 4
    ensures var b := tag + path + hash + size + offset + len + end;
      |b| == 268 + |end| && b[..4] == tag && b[4..224] == path && b[260..264] == offset && b[264..268] == len
  {
  }

  // The path of an entry as it is read.
  function ReadPath(path: Path): Path {
    CStr(PathBytes(path))
  }

  predicate PathFits(path: Path) {
    |path| < PATH && forall i | 0 <= i < |path| :: path[i] != 0
  }

  lemma {:induction false} CStrIsShort(b: seq<byte>, n: nat)
    requires n < |b| && b[n] == 0
    ensures |CStr(b)| <= n && forall i | 0 <= i < |CStr(b)| :: CStr(b)[i] != 0
    decreases n
  {
    if b[0] != 0 {
      CStrIsShort(b[1..], n - 1);
    }
  }

  // It is the path exactly if that fits.
  lemma ReadPathIff(path: Path)
    ensures ReadPath(path) == path <==> PathFits(path)
  {
    if PathFits(path) {
      CStrOfPath(path, PATH - |path|);
    } else {
      var n := if |path| < PATH then |path| else PATH - 1;
      assert PathBytes(path)[n] == 0 by {
        assert Filled(PATH)[0] == 0;
      }
      CStrIsShort(PathBytes(path), n);
    }
  }

  // An entry that was written is read back, but for what does not fit: the end of a long path, and all
  // but the low words of offset and size.
  lemma EntryRoundTrip(big: bool, path: Path, data: seq<byte>, offset: nat, rest: seq<byte>)
    requires |rest| == 12
    ensures |EntryBytes(big, path, data, offset, rest)| == 268
    ensures |Rounded(EntryBytes(big, path, data, offset, rest))| == BLOCK
    ensures ReadEntry(Rounded(EntryBytes(big, path, data, offset, rest))) == Some(Entry(ReadPath(path), offset % W32, |data| % W32))
  {
    hide Le32, Get32, CStr, Byte, Hash, PathBytes, Filled;
    assert |Host32(big, 20)| == 4 by { LeSizes(20); }
    LeSizes(offset);
    LeSizes(|data|);
    PathSize(path);
    var hash := Hash(data) + rest;
    Fields(Text("ENTR"), PathBytes(path), hash, Host32(big, 20), Le32(offset), Le32(|data|), Filled(BLOCK - 268));
    Le32Wraps(offset);
    Le32Wraps(|data|);
  }

  lemma PathSize(path: Path)
    ensures |PathBytes(path)| == PATH
  {
  }

  lemma LeSizes(n: nat)
    ensures |Le32(n)| == 4 && |Le16(n)| == 2
  {
  }

  lemma HeaderRoundTrip(n: nat, pad: byte)
    requires n < W32
    ensures |HeaderBytes(n, pad)| == 16
    ensures ReadHeader(Rounded(HeaderBytes(n, pad))) == Some(Header(0, 0, 1, 1, 1, n))
  {
    hide Le32, Le16, Get32, Get16, Byte;
    LeSizes(n);
    LeSizes(0);
    var e := HeaderBytes(n, pad);
    var b := Rounded(e);
    RoundedSize(e);
    assert b[..4] == Text("RSCE") && b[4..6] == Le16(0) && b[6..8] == Le16(0) && b[12..16] == Le32(n);
    assert b[8] == 1 && b[9] == 1 && b[10] == 1;
    Get16OfLe(0);
    Get32OfLe(n);
  }

  // ---- the names under which files are packed -------------------------------------------------------

  function FixPath(path: Path): Path {
    if |path| >= 2 && path[..2] == Text("./") then path[2..] else path
  }

  predicate EndsIn(s: Path, tail: Path) {
    |tail| <= |s| && s[|s| - |tail|..] == tail
  }

  function InRoot(path: Path, root: Path): Path {
    if root != [] && root <= path then
      var p := path[|root|..];
      if p != [] && p[0] == 47 then p[1..] else p
    else path
  }

  // The name in the index. The first device tree gets a fixed one.
  function Named(path: Path, root: Path, found: bool): Path {
    if EndsIn(path, Text(".dtb")) && !found then Text("rk-kernel.dtb") else FixPath(InRoot(path, root))
  }

  function Names(files: seq<File>, root: Path, found: bool): seq<File>
    decreases |files|
  {
    if files == [] then []
    else
      [File(Named(files[0].path, root, found), files[0].data)]
      + Names(files[1..], root, found || EndsIn(files[0].path, Text(".dtb")))
  }

  // ---- the layout --------------------------------------------------------------------------------

  // The block that write_index_tbl() works out for the content of the i-th file.
  function Start(files: seq<File>, i: nat): nat
    requires i <= |files|
  {
    if i == 0 then 1 + |files| else Start(files, i - 1) + FixBlocks(|files[i - 1].data|)
  }

  // The block where it is: the same, with sizes of 32 bits.
  function Block(files: seq<File>, i: nat): nat
    requires i <= |files|
  {
    if i == 0 then 1 + |files| else Block(files, i - 1) + FixBlocks(|Kept(files[i - 1].data)|)
  }

  // The two are whole rounds of 2^32 bytes apart.
  lemma {:induction false} SamePlace(files: seq<File>, i: nat) returns (q: nat)
    requires i <= |files|
    ensures Start(files, i) * BLOCK == Block(files, i) * BLOCK + q * W32
    decreases i
  {
    if i == 0 {
      q := 0;
    } else {
      q := SamePlace(files, i - 1);
      LowWord(|files[i - 1].data|);
      q := q + |files[i - 1].data| / W32;
    }
  }

  lemma {:induction false} BlockGrows(files: seq<File>, i: nat, j: nat)
    requires i <= j <= |files|
    ensures Block(files, i) <= Block(files, j)
    ensures i < j ==> Block(files, i) + FixBlocks(|Kept(files[i].data)|) <= Block(files, j)
    decreases j
  {
    if i < j {
      BlockGrows(files, i, j - 1);
    }
  }

  lemma ContentsBehindIndex(files: seq<File>, i: nat)
    requires i <= |files|
    ensures Block(files, i) >= 1 + |files|
  {
    BlockGrows(files, 0, i);
  }

  // The i-th file is in the image: its entry, and its content with zeros up to a whole block.
  predicate Placed(big: bool, img: seq<byte>, files: seq<File>, rests: seq<seq<byte>>, i: nat)
    requires i < |files| && |rests| == |files|
  {
    var f := files[i];
    && (Kept(f.data) != [] ==> Has(img, Block(files, i) * BLOCK, Rounded(Kept(f.data))))
    && Has(img, (1 + i) * BLOCK, Rounded(EntryBytes(big, f.path, f.data, Start(files, i), rests[i])))
  }

  // The i-th file is not empty, its size is taken for more than zero blocks if it has any, and every
  // block that is written for it starts below 2 GiB.
  predicate Storable(files: seq<File>, i: nat)
    requires i < |files|
  {
    var f := files[i];
    f.data != [] && SizeTaken(|f.data|) && Below(Block(files, i), Kept(f.data)) && (1 + i) * BLOCK < INT_LIMIT
  }

  predicate AllStorable(files: seq<File>) {
    forall i | 0 <= i < |files| :: Storable(files, i)
  }

  predicate AllShort(files: seq<File>) {
    forall i | 0 <= i < |files| :: |files[i].data| < W32
  }

  lemma {:induction false} ShortBlocks(files: seq<File>, i: nat)
    requires AllShort(files) && i <= |files|
    ensures Block(files, i) == Start(files, i)
    decreases i
  {
    if i > 0 {
      ShortBlocks(files, i - 1);
    }
  }

  lemma ShortIsKept(data: seq<byte>)
    requires |data| < W32
    ensures Kept(data) == data && SizeTaken(|data|)
  {
    Remainder(|data|, W32, 0, |data|);
    if |data| < BLOCK {
      assert |data| / BLOCK == 0;
    }
  }

  lemma BelowStarts(block: nat, data: seq<byte>)
    ensures data != [] && Below(block, data) ==> block * BLOCK < INT_LIMIT
  {
  }

  // Below 4 GiB that leaves: not empty, shorter than 2 GiB, and every block below 2 GiB.
  lemma StorableWhenShort(files: seq<File>, i: nat)
    requires AllShort(files) && i < |files|
    ensures Storable(files, i) <==> files[i].data != [] && Below(Start(files, i), files[i].data)
  {
    hide Below, Kept, Block, Start;
    ShortBlocks(files, i);
    ContentsBehindIndex(files, i);
    ShortIsKept(files[i].data);
    BelowStarts(Block(files, i), files[i].data);
  }

  // Header, index blocks and contents do not overlap.
  lemma NoOverlap(files: seq<File>, i: nat, j: nat)
    requires i < j < |files|
    ensures 0 < 1 + i < 1 + j < Block(files, i)
    ensures Block(files, i) + FixBlocks(|Kept(files[i].data)|) <= Block(files, j)
  {
    ContentsBehindIndex(files, i);
    BlockGrows(files, i, j);
  }

  // ---- unpacking ----------------------------------------------------------------------------------

  predicate PathsFit(files: seq<File>) {
    forall i | 0 <= i < |files| :: PathFits(files[i].path)
  }

  // What becomes of files that are packed and unpacked: no long paths, no sizes over 32 bits.
  function ReadBack(files: seq<File>): seq<File> {
    seq(|files|, i requires 0 <= i < |files| => File(ReadPath(files[i].path), Kept(files[i].data)))
  }

  lemma ReadBackStep(files: seq<File>, i: nat)
    requires i < |files|
    ensures ReadBack(files)[i..] == [File(ReadPath(files[i].path), Kept(files[i].data))] + ReadBack(files)[i + 1..]
  {
  }

  lemma ReadBackIff(files: seq<File>)
    ensures ReadBack(files) == files <==> PathsFit(files) && AllShort(files)
  {
    hide ReadPath, PathFits;
    forall i | 0 <= i < |files| ensures ReadPath(files[i].path) == files[i].path <==> PathFits(files[i].path) {
      ReadPathIff(files[i].path);
    }
    if ReadBack(files) == files {
      forall i | 0 <= i < |files| ensures PathFits(files[i].path) && |files[i].data| < W32 {
        assert ReadBack(files)[i] == files[i];
      }
    } else if PathsFit(files) && AllShort(files) {
      assert forall i | 0 <= i < |files| :: ReadBack(files)[i] == files[i];
    }
  }

  // A file of 4 GiB and one block: all goes well, and one block comes back.
  lemma WrappedSize() returns (f: File)
    ensures |f.data| == W32 + BLOCK && PathsFit([f]) && AllStorable([f]) && |ReadBack([f])[0].data| == BLOCK
  {
    f := File([97], Filled(W32 + BLOCK));
    assert Block([f], 0) == 2;
    assert Storable([f], 0);
  }

  // dump_file(): the place is worked out in 32 bits, and a size that is no int counts as nothing.
  function Content(img: seq<byte>, e: Entry): Option<seq<byte>> {
    var from := e.offset * BLOCK % W32;
    if e.size == 0 || e.size >= INT_LIMIT then Some([])
    else if from + e.size > |img| then None
    else Some(img[from..from + e.size])
  }

  // unpack_image() from entry i on; None if something is not as it should be.
  function UnpackFrom(img: seq<byte>, n: nat, i: nat): Option<seq<File>>
    requires i <= n
    decreases n - i
  {
    if i == n then Some([])
    else if (2 + i) * BLOCK > |img| then None
    else
      match ReadEntry(img[(1 + i) * BLOCK..(2 + i) * BLOCK])
      case None => None
      case Some(e) =>
        match Content(img, e)
        case None => None
        case Some(data) =>
          match UnpackFrom(img, n, i + 1)
          case None => None
          case Some(rest) => Some([File(e.path, data)] + rest)
  }

  function Unpack(img: seq<byte>): Option<seq<File>> {
    if BLOCK > |img| then None
    else
      match ReadHeader(img[..BLOCK])
      case None => None
      case Some(h) => if Supported(h) then UnpackFrom(img, h.entries, 0) else None
  }

  ghost predicate AllPlaced(big: bool, img: seq<byte>, files: seq<File>, rests: seq<seq<byte>>, n: nat)
    requires |rests| == |files|
  {
    n <= |files| && forall i | 0 <= i < n :: Placed(big, img, files, rests, i)
  }

  lemma ContentIsData(img: seq<byte>, start: nat, at: nat, q: nat, data: seq<byte>, path: Path)
    requires start * BLOCK == at * BLOCK + q * W32 && at * BLOCK < W32 && Below(at, Kept(data))
    requires Kept(data) != [] ==> Has(img, at * BLOCK, Rounded(Kept(data)))
    ensures Content(img, Entry(path, start % W32, |data| % W32)) == Some(Kept(data))
  {
    hide Rounded, FixBlocks;
    var k := Kept(data);
    Splits(start, W32);
    Remainder(start * BLOCK, W32, q, at * BLOCK);
    SameRemainder(start % W32 * BLOCK, start * BLOCK, W32);
    Exact(start / W32 * BLOCK, W32);
    assert start * BLOCK - start % W32 * BLOCK == start / W32 * BLOCK * W32;
    if k != [] {
      RoundedStarts(k);
      HasPart(img, at * BLOCK, Rounded(k), |k|);
    }
  }

  lemma RoundedStarts(data: seq<byte>)
    ensures |data| <= |Rounded(data)| && Rounded(data)[..|data|] == data
  {
    RoundedSize(data);
  }

  lemma EntryIsRead(big: bool, img: seq<byte>, at: nat, f: File, start: nat, rest: seq<byte>)
    requires |rest| == 12 && Has(img, at, Rounded(EntryBytes(big, f.path, f.data, start, rest)))
    ensures at + BLOCK <= |img|
    ensures ReadEntry(img[at..at + BLOCK]) == Some(Entry(ReadPath(f.path), start % W32, |f.data| % W32))
  {
    hide EntryBytes, ReadEntry, Rounded;
    EntryRoundTrip(big, f.path, f.data, start, rest);
  }

  lemma PlacedIsRead(big: bool, img: seq<byte>, files: seq<File>, rests: seq<seq<byte>>, i: nat)
    requires |rests| == |files| && i < |files| && |rests[i]| == 12
    requires Storable(files, i) && Block(files, i) * BLOCK < W32 && Placed(big, img, files, rests, i)
    ensures var e := Entry(ReadPath(files[i].path), Start(files, i) % W32, |files[i].data| % W32);
      && (2 + i) * BLOCK <= |img| && ReadEntry(img[(1 + i) * BLOCK..(2 + i) * BLOCK]) == Some(e)
      && Content(img, e) == Some(Kept(files[i].data))
  {
    hide EntryBytes, ReadEntry, Rounded, Content, Has, Start, Block, Below, Kept, ReadPath;
    var f := files[i];
    var q := SamePlace(files, i);
    ContentIsData(img, Start(files, i), Block(files, i), q, f.data, ReadPath(f.path));
    EntryIsRead(big, img, (1 + i) * BLOCK, f, Start(files, i), rests[i]);
  }

  lemma {:induction false} UnpackFromPlaced(big: bool, img: seq<byte>, files: seq<File>, rests: seq<seq<byte>>, i: nat)
    requires |rests| == |files| && i <= |files| && AllStorable(files) && AllPlaced(big, img, files, rests, |files|)
    requires forall k | 0 <= k < |rests| :: |rests[k]| == 12
    requires Block(files, i) * BLOCK < W32
    ensures UnpackFrom(img, |files|, i) == Some(ReadBack(files)[i..])
    decreases |files| - i
  {
    hide Placed, ReadEntry, Block, ReadPath, Kept, Content;
    if i < |files| {
      assert Placed(big, img, files, rests, i);
      assert Storable(files, i);
      BlockStep(files, i);
      hide Storable;
      PlacedIsRead(big, img, files, rests, i);
      UnpackFromPlaced(big, img, files, rests, i + 1);
      ReadBackStep(files, i);
      var e := Entry(ReadPath(files[i].path), Start(files, i) % W32, |files[i].data| % W32);
      UnpackStep(img, |files|, i, e, Kept(files[i].data), ReadBack(files)[i + 1..]);
    }
  }

  lemma UnpackStep(img: seq<byte>, n: nat, i: nat, e: Entry, data: seq<byte>, rest: seq<File>)
    requires i < n && (2 + i) * BLOCK <= |img| && ReadEntry(img[(1 + i) * BLOCK..(2 + i) * BLOCK]) == Some(e)
    requires Content(img, e) == Some(data) && UnpackFrom(img, n, i + 1) == Some(rest)
    ensures UnpackFrom(img, n, i) == Some([File(e.path, data)] + rest)
  {
    hide ReadEntry, Content;
  }

  lemma BlockStep(files: seq<File>, i: nat)
    requires i < |files| && Storable(files, i) && Block(files, i) * BLOCK < W32
    ensures Block(files, i + 1) * BLOCK < W32
  {
    NextBlock(Block(files, i), Kept(files[i].data));
  }

  // So many files fit into the index that their contents start in the first round.
  lemma FewFiles(files: seq<File>)
    requires AllStorable(files)
    ensures Block(files, 0) * BLOCK < W32 && |files| < W32
  {
    if files != [] {
      assert Storable(files, |files| - 1);
    }
  }

  // What files in their places are unpacked to.
  lemma UnpackPacked(big: bool, img: seq<byte>, files: seq<File>, rests: seq<seq<byte>>, pad: byte)
    requires |rests| == |files| && AllStorable(files) && AllPlaced(big, img, files, rests, |files|)
    requires forall k | 0 <= k < |rests| :: |rests[k]| == 12
    requires Has(img, 0, Rounded(HeaderBytes(|files|, pad)))
    ensures Unpack(img) == Some(ReadBack(files))
  {
    hide AllPlaced, HeaderBytes, ReadHeader, UnpackFrom, ReadBack, AllStorable;
    FewFiles(files);
    HeaderRoundTrip(|files|, pad);
    RoundedSize(HeaderBytes(|files|, pad));
    UnpackFromPlaced(big, img, files, rests, 0);
    assert ReadBack(files)[0..] == ReadBack(files);
  }
}
