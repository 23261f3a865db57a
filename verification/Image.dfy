// The resource tool at work on its image file, block by block, proved against ImageSpec.
module Image {
  import opened ImageSpec
  import opened Numbers
  import Sha1

  lemma WriteTwice(img: seq<byte>, off: nat, a: seq<byte>, b: seq<byte>)
    ensures WriteAt(WriteAt(img, off, a), off + |a|, b) == WriteAt(img, off, a + b)
  {
    var x, y := WriteAt(WriteAt(img, off, a), off + |a|, b), WriteAt(img, off, a + b);
    assert |x| == |y|;
    assert forall i | 0 <= i < |x| :: x[i] == y[i];
  }

  // A write leaves alone a file that is in the image, if it is away from the content and the entry.
  lemma StillPlaced(big: bool, img: seq<byte>, files: seq<File>, rests: seq<seq<byte>>, i: nat, off: nat, data: seq<byte>)
    requires |rests| == |files| && i < |files| && Placed(big, img, files, rests, i)
    requires |Rounded(EntryBytes(big, files[i].path, files[i].data, Start(files, i), rests[i]))| == BLOCK
    requires Apart(off, |data|, Block(files, i) * BLOCK, |Rounded(Kept(files[i].data))|)
    requires Apart(off, |data|, (1 + i) * BLOCK, BLOCK)
    ensures Placed(big, WriteAt(img, off, data), files, rests, i)
  {
    var f := files[i];
    hide EntryBytes, WriteAt, Has, Start, Block, Rounded, Kept;
    if Kept(f.data) != [] {
      WriteLeaves(img, off, data, Block(files, i) * BLOCK, Rounded(Kept(f.data)));
    }
    WriteLeaves(img, off, data, (1 + i) * BLOCK, Rounded(EntryBytes(big, f.path, f.data, Start(files, i), rests[i])));
  }

  predicate Apart(a: nat, n: nat, b: nat, m: nat) {
    a + n <= b || b + m <= a
  }

  lemma EntrySize(big: bool, path: Path, data: seq<byte>, offset: nat, rest: seq<byte>)
    requires |rest| == 12
    ensures |EntryBytes(big, path, data, offset, rest)| == 268
    ensures |Rounded(EntryBytes(big, path, data, offset, rest))| == BLOCK
  {
    hide Hash, Le32;
    assert |Host32(big, 20)| == 4 by { LeSizes(20); }
    LeSizes(offset);
    LeSizes(|data|);
  }

  lemma AllStillPlaced(big: bool, img: seq<byte>, files: seq<File>, rests: seq<seq<byte>>, i: nat, block: nat, data: seq<byte>)
    requires |rests| == |files| && i < |files| && AllPlaced(big, img, files, rests, i)
    requires forall k | 0 <= k < |rests| :: |rests[k]| == 12
    requires block == Block(files, i) || (block == 1 + i && |data| == BLOCK)
    ensures AllPlaced(big, WriteAt(img, block * BLOCK, data), files, rests, i)
  {
    forall j | 0 <= j < i ensures Placed(big, WriteAt(img, block * BLOCK, data), files, rests, j) {
      hide Placed, WriteAt, EntryBytes, Block, Start, Kept, FixBlocks;
      assert Placed(big, img, files, rests, j);
      NoOverlap(files, j, i);
      ContentsBehindIndex(files, j);
      EntrySize(big, files[j].path, files[j].data, Start(files, j), rests[j]);
      RoundedSize(Kept(files[j].data));
      StillPlaced(big, img, files, rests, j, block * BLOCK, data);
    }
  }

  // The header and the first n files are in the image.
  ghost predicate InPlace(big: bool, img: seq<byte>, files: seq<File>, rests: seq<seq<byte>>, n: nat, head: seq<byte>) {
    |rests| == |files| && AllPlaced(big, img, files, rests, n) && Has(img, 0, head)
  }

  lemma NothingInPlace(big: bool, img: seq<byte>, files: seq<File>, rests: seq<seq<byte>>, head: seq<byte>)
    requires |rests| == |files| && Has(img, 0, head)
    ensures InPlace(big, img, files, rests, 0, head)
  {
  }

  lemma OneMoreInPlace(big: bool, img: seq<byte>, files: seq<File>, rests: seq<seq<byte>>, i: nat, head: seq<byte>)
    requires |rests| == |files| && i < |files| && (forall k | 0 <= k < |rests| :: |rests[k]| == 12) && |head| <= BLOCK
    requires InPlace(big, img, files, rests, i, head)
    ensures var f, data := files[i], Kept(files[i].data);
      var img' := if data == [] then img else WriteAt(img, Block(files, i) * BLOCK, Rounded(data));
      InPlace(big, WriteAt(img', (1 + i) * BLOCK, Rounded(EntryBytes(big, f.path, f.data, Start(files, i), rests[i]))), files,
              rests, i + 1, head)
  {
    hide WriteAt, EntryBytes, Has, Rounded, Placed, Block, Start, Kept;
    var f, data := files[i], Rounded(Kept(files[i].data));
    var at, entry := Block(files, i) * BLOCK, Rounded(EntryBytes(big, f.path, f.data, Start(files, i), rests[i]));
    ContentsBehindIndex(files, i);
    EntrySize(big, f.path, f.data, Start(files, i), rests[i]);
    var img' := if Kept(f.data) == [] then img else WriteAt(img, at, data);
    if Kept(f.data) != [] {
      AllStillPlaced(big, img, files, rests, i, Block(files, i), data);
      WriteLeaves(img, at, data, 0, head);
      WriteHas(img, at, data);
      WriteLeaves(img', (1 + i) * BLOCK, entry, at, data);
    }
    AllStillPlaced(big, img', files, rests, i, 1 + i, entry);
    WriteLeaves(img', (1 + i) * BLOCK, entry, 0, head);
    WriteHas(img', (1 + i) * BLOCK, entry);
    IsPlaced(big, WriteAt(img', (1 + i) * BLOCK, entry), files, rests, i);
  }

  lemma IsPlaced(big: bool, img: seq<byte>, files: seq<File>, rests: seq<seq<byte>>, i: nat)
    requires |rests| == |files| && i < |files|
    requires var f := files[i];
      && (Kept(f.data) != [] ==> Has(img, Block(files, i) * BLOCK, Rounded(Kept(f.data))))
      && Has(img, (1 + i) * BLOCK, Rounded(EntryBytes(big, f.path, f.data, Start(files, i), rests[i])))
    ensures Placed(big, img, files, rests, i)
  {
  }

  // The second place, if both are reached, is where the first write ended.
  lemma SecondPlace(block: nat, blocks: nat)
    requires ToInt(blocks * BLOCK) >= 0 && (ToInt(blocks * BLOCK) > 0 ==> Seekable(block)) && Seekable(block + blocks)
    ensures Seekable(block) && ToInt((block + blocks) * BLOCK) == ToInt(block * BLOCK) + ToInt(blocks * BLOCK)
  {
    var x, y := block * BLOCK, blocks * BLOCK;
    assert (block + blocks) * BLOCK == x + y;
    SumsWrap(x, y);
  }

  lemma SumsWrap(x: nat, y: nat)
    ensures (x + y) % W32 == if x % W32 + y % W32 < W32 then x % W32 + y % W32 else x % W32 + y % W32 - W32
  {
    Splits(x, W32);
    Splits(y, W32);
    var p, q, r := x / W32, y / W32, x % W32 + y % W32;
    if r < W32 {
      Remainder(x + y, W32, p + q, r);
    } else {
      Remainder(x + y, W32, p + q + 1, r - W32);
    }
  }

  // The whole blocks that write_data() writes, and the rest, are what is kept of the data.
  lemma KeptParts(data: seq<byte>)
    ensures var at, left := ToInt(|data| / BLOCK * BLOCK), |data| % BLOCK;
      && (at >= 0 ==> at + left == |Kept(data)| && at + left <= |data| && at % BLOCK == 0)
      && (ToInt(|data| / BLOCK) == 0 ==> at == 0)
      && (ToInt(|data|) < 0 <==> at < 0)
  {
    hide Kept;
    var m := |data| % W32;
    WrappedInts(0, |data|, 0, 0);
    LowWord(|data|);
    NoBlocks(|data|);
    Splits(m, BLOCK);
    Splits(|data|, W32);
  }

  // buf is the rest of the data, filled up.
  lemma WrittenInTwo(img: seq<byte>, off: nat, data: seq<byte>, at: nat, buf: seq<byte>)
    requires at <= |data| && 0 < |data| - at < BLOCK && at % BLOCK == 0
    requires buf == data[at..] + Filled(BLOCK - (|data| - at))
    ensures WriteAt(if at > 0 then WriteAt(img, off, data[..at]) else img, off + at, buf) == WriteAt(img, off, Rounded(data))
  {
    hide WriteAt;
    assert FixBlocks(|data|) * BLOCK == at + BLOCK;
    assert data[..at] + buf == Rounded(data);
    if at > 0 {
      WriteTwice(img, off, data[..at], buf);
    } else {
      assert data[..0] + buf == buf;
    }
  }

  lemma WrittenInOne(data: seq<byte>)
    requires |data| % BLOCK == 0
    ensures data[..|data|] == data == Rounded(data)
  {
  }

  lemma OneBlock()
    ensures ToInt(BLOCK) == BLOCK
  {
  }

  // An entry is shorter than a block.
  lemma EntryReaches(block: nat, entry: seq<byte>)
    requires 0 < |entry| < BLOCK
    ensures (Reaches(block, entry) <==> Seekable(block)) && Kept(entry) == entry
  {
    ShortIsKept(entry);
  }

  lemma FirstStart(files: seq<File>)
    ensures Start(files, 0) == Block(files, 0) == 1 + |files|
  {
  }

  lemma StartStep(files: seq<File>, i: nat)
    requires i < |files|
    ensures Start(files, i + 1) == Start(files, i) + FixBlocks(|files[i].data|)
    ensures Block(files, i + 1) == Block(files, i) + FixBlocks(|Kept(files[i].data)|)
  {
  }

  lemma NoWrap(block: nat)
    requires block * BLOCK < W32
    ensures Seekable(block) <==> block * BLOCK < INT_LIMIT
    ensures Seekable(block) ==> ToInt(block * BLOCK) == block * BLOCK
  {
  }

  lemma StorableIff(files: seq<File>, i: nat)
    requires i < |files| && Block(files, i) * BLOCK < W32
    ensures Storable(files, i) <==> files[i].data != [] && Reaches(Start(files, i), files[i].data) && Seekable(1 + i)
    ensures Storable(files, i) ==> Block(files, i + 1) * BLOCK < W32
    ensures Storable(files, i) && Kept(files[i].data) != [] ==>
      Seekable(Start(files, i)) && ToInt(Start(files, i) * BLOCK) == Block(files, i) * BLOCK
  {
    hide Reaches, Below, Start, Block, SizeTaken, ToInt, Kept;
    var q := SamePlace(files, i);
    ReachesIff(Start(files, i), files[i].data, Block(files, i), q);
    ContentsBehindIndex(files, i);
    NoWrap(1 + i);
    if Storable(files, i) {
      BlockStep(files, i);
    }
  }

  // With so many files it is an index block that cannot be reached.
  lemma NoSuchBlock(files: seq<File>)
    requires (1 + |files|) * BLOCK >= W32
    ensures !Seekable(0x40_0000) && 1 <= 0x40_0000 <= |files| && !AllStorable(files)
  {
    assert !Storable(files, 0x40_0000 - 1);
  }

  class ImageFile {
    var bytes: seq<byte>

    constructor ()
      ensures bytes == []
    {
      bytes := [];
    }

    // fwrite() of no bytes fails, and of a negative number of them as well.
    method StorageWriteLba(block: nat, data: seq<byte>) returns (ok: bool)
      modifies this
      ensures ok <==> Seekable(block) && ToInt(|data|) > 0
      ensures bytes == if ok then WriteAt(old(bytes), ToInt(block * BLOCK), data[..ToInt(|data|)]) else old(bytes)
    {
      var offset := ToInt(block * BLOCK);
      if offset < 0 {
        return false;
      }
      var n := ToInt(|data|);
      if n <= 0 {
        return false;
      }
      bytes := WriteAt(bytes, offset, data[..n]);
      return true;
    }

    // write_data(): the whole blocks first, then the rest in a block of zeros. When the second write
    // fails the first one stays.
    method WriteData(block: nat, data: seq<byte>) returns (ok: bool)
      modifies this
      ensures ok <==> Reaches(block, data)
      ensures ok && Kept(data) != [] ==>
        Seekable(block) && bytes == WriteAt(old(bytes), ToInt(block * BLOCK), Rounded(Kept(data)))
      ensures ok && Kept(data) == [] ==> bytes == old(bytes)
      ensures !ok ==>
        bytes == old(bytes)
        || (Seekable(block) && bytes == WriteAt(old(bytes), ToInt(block * BLOCK), Kept(data)[..|Kept(data)| / BLOCK * BLOCK]))
    {
      hide WriteAt, Rounded, ToInt, Kept;
      var blocks := |data| / BLOCK;
      var left := |data| % BLOCK;
      KeptParts(data);
      var at := ToInt(blocks * BLOCK);
      if ToInt(blocks) != 0 {
        ok := StorageWriteLba(block, data[..blocks * BLOCK]);
        if !ok {
          return;
        }
        FirstPart(data, at);
      }
      if left > 0 {
        var buf := data[at..at + left] + Filled(BLOCK - left);
        RestPart(data, at, left);
        OneBlock();
        assert buf[..BLOCK] == buf;
        ok := StorageWriteLba(block + blocks, buf);
        if ok {
          SecondPlace(block, blocks);
          WrittenInTwo(old(bytes), ToInt(block * BLOCK), Kept(data), at, buf);
        }
        return;
      }
      WrittenInOne(Kept(data));
      return true;
    }

    method WriteHeader(files: nat, pad: byte) returns (ok: bool)
      modifies this
      ensures ok && bytes == WriteAt(old(bytes), 0, Rounded(HeaderBytes(files, pad)))
    {
      hide WriteAt, Rounded;
      LeSizes(files);
      LeSizes(0);
      ShortIsKept(HeaderBytes(files, pad));
      ok := WriteData(0, HeaderBytes(files, pad));
    }

    method Digest(data: seq<byte>) returns (hash: seq<byte>)
      ensures hash == Hash(data)
    {
      hide Sha1.HashOf;
      var d := Sha1.Csum(Bits(Kept(data)));
      HashLength(Kept(data));
      hash := seq(20, i requires 0 <= i < 20 => d[i] as int);
    }

    // write_file(): the size as an int, or -1. An empty file cannot be read.
    method WriteFile(block: nat, data: seq<byte>) returns (ret: int, hash: seq<byte>)
      modifies this
      ensures ret >= 0 <==> data != [] && Reaches(block, data)
      ensures ret >= 0 ==> ret == |Kept(data)| && hash == Hash(data)
      ensures ret >= 0 && Kept(data) != [] ==>
        Seekable(block) && bytes == WriteAt(old(bytes), ToInt(block * BLOCK), Rounded(Kept(data)))
      ensures ret >= 0 && Kept(data) == [] ==> bytes == old(bytes)
    {
      hide Hash, WriteAt, Rounded, ToInt, Kept;
      if |data| == 0 {
        return -1, [];
      }
      var ok := WriteData(block, data);
      if !ok {
        return -1, [];
      }
      hash := Digest(data);
      SizeIsInt(data);
      return ToInt(|data|), hash;
    }

    // The body of the loop of write_index_tbl(): content first, then the entry.
    method WriteOne(big: bool, ghost files: seq<File>, ghost rests: seq<seq<byte>>, i: nat, offset: nat, f: File,
                    rest: seq<byte>, ghost head: seq<byte>)
      returns (ok: bool)
      requires |rests| == |files| && i < |files| && f == files[i] && rest == rests[i] && offset == Start(files, i)
      requires (forall k | 0 <= k < |rests| :: |rests[k]| == 12) && |head| <= BLOCK
      modifies this
      ensures ok <==> f.data != [] && Reaches(offset, f.data) && Seekable(1 + i)
      ensures ok && Block(files, i) * BLOCK < W32 && InPlace(big, old(bytes), files, rests, i, head) ==>
        InPlace(big, bytes, files, rests, i + 1, head)
    {
      hide Hash, WriteAt, EntryBytes, Rounded, InPlace, ToInt, Start, Block, Reaches, PathBytes, Kept, Storable;
      var ret, hash := WriteFile(offset, f.data);
      if ret < 0 {
        return false;
      }
      var entry := Text("ENTR") + PathBytes(f.path) + (hash + rest) + Host32(big, 20) + Le32(offset) + Le32(|f.data|);
      EntryIs(big, f, offset, rest, hash, entry);
      EntrySize(big, f.path, f.data, offset, rest);
      EntryReaches(1 + i, entry);
      ok := WriteData(1 + i, entry);
      if ok && Block(files, i) * BLOCK < W32 && InPlace(big, old(bytes), files, rests, i, head) {
        StorableIff(files, i);
        ContentsBehindIndex(files, i);
        NoWrap(1 + i);
        OneMoreInPlace(big, old(bytes), files, rests, i, head);
      }
    }

    // write_index_tbl(). It gets through exactly if no file is empty, no size loses its blocks, and every
    // block written starts below 2 GiB, which is as far as an int offset goes.
    method WriteIndexTbl(big: bool, files: seq<File>, root: Path, rests: seq<seq<byte>>, ghost head: seq<byte>)
      returns (ok: bool)
      requires |rests| == |files| && (forall k | 0 <= k < |rests| :: |rests[k]| == 12) && |head| <= BLOCK
      requires Has(bytes, 0, head)
      modifies this
      ensures ok <==> AllStorable(files)
      ensures |Names(files, root, false)| == |files|
      ensures ok ==> InPlace(big, bytes, Names(files, root, false), rests, |files|, head)
    {
      hide Has, Named, Names, EndsIn, InPlace, Storable, Seekable, Reaches, Start, Block, FixBlocks, Kept;
      NamesData(files, root, false);
      ghost var names := Names(files, root, false);
      ghost var small := (1 + |files|) * BLOCK < W32;
      var foundFdt := false;
      var offset := 1 + |files|;
      var i := 0;
      NothingInPlace(big, bytes, names, rests, head);
      FirstStart(names);
      NamesDone(files, root, names);
      SameStarts(files, names);
      while i < |files|
        invariant 0 <= i <= |files| && offset == Start(names, i)
        invariant Names(files[i..], root, foundFdt) == names[i..]
        invariant small ==> Block(names, i) * BLOCK < W32 && InPlace(big, bytes, names, rests, i, head)
        invariant small ==> forall k | 0 <= k < i :: Storable(names, k)
        invariant forall k | 1 <= k <= i :: Seekable(k)
      {
        NamesStep(files, root, i, foundFdt, names);
        StartStep(names, i);
        var f := File(Named(files[i].path, root, foundFdt), files[i].data);
        if small {
          StorableIff(names, i);
        }
        ok := WriteOne(big, names, rests, i, offset, f, rests[i], head);
        if !ok {
          if !small {
            NoSuchBlock(files);
          }
          return false;
        }
        if EndsIn(files[i].path, Text(".dtb")) {
          foundFdt := true;
        }
        offset := offset + FixBlocks(|f.data|);
        i := i + 1;
      }
      if !small {
        NoSuchBlock(files);
      }
      return true;
    }

    // Header and index of a new image; big: the host is big-endian.
    method Pack(big: bool, files: seq<File>, root: Path, rests: seq<seq<byte>>, pad: byte) returns (ok: bool)
      requires |rests| == |files| && (forall k | 0 <= k < |rests| :: |rests[k]| == 12)
      modifies this
      ensures ok <==> AllStorable(files)
      ensures ok ==> Unpack(bytes) == Some(ReadBack(Names(files, root, false)))
      ensures ok ==> (Unpack(bytes) == Some(Names(files, root, false)) <==> PathsFit(Names(files, root, false)) && AllShort(files))
    {
      hide Has, Placed, PathsFit, Unpack, Names, Storable, Rounded, HeaderBytes, ReadBack;
      bytes := [];
      ok := WriteHeader(|files|, pad);
      ghost var h := HeaderBytes(|files|, pad);
      WriteHas([], 0, Rounded(h));
      HeaderFits(|files|, pad);
      ok := WriteIndexTbl(big, files, root, rests, Rounded(h));
      if ok {
        NamesData(files, root, false);
        SameStarts(files, Names(files, root, false));
        UnpackPacked(big, bytes, Names(files, root, false), rests, pad);
        ReadBackIff(Names(files, root, false));
      }
    }

    // dump_file(): the content, in pieces of a block at most.
    method DumpFile(e: Entry) returns (data: Option<seq<byte>>)
      ensures data == Content(bytes, e)
    {
      var from := e.offset * BLOCK % W32;
      var size := if e.size < INT_LIMIT then e.size else 0;
      var out, len := [], size;
      while len > 0
        invariant 0 <= len <= size && |out| == size - len
        invariant out != [] ==> from + |out| <= |bytes| && out == bytes[from..from + |out|]
      {
        var n := if len > BLOCK then BLOCK else len;
        var at := from + |out|;
        if at + n > |bytes| {
          return None;
        }
        out := out + bytes[at..at + n];
        len := len - n;
      }
      return Some(out);
    }

    // unpack_image(); None if the image is not one or is cut short.
    method UnpackImage() returns (files: Option<seq<File>>)
      ensures files == Unpack(bytes)
    {
      hide ReadHeader, ReadEntry;
      if BLOCK > |bytes| {
        return None;
      }
      var h := ReadHeader(bytes[..BLOCK]);
      if h.None? || !Supported(h.value) {
        return None;
      }
      var i, out := 0, [];
      assert forall rest: seq<File> :: [] + rest == rest;
      while i < h.value.entries
        invariant 0 <= i <= h.value.entries
        invariant match UnpackFrom(bytes, h.value.entries, i)
          case None => Unpack(bytes) == None
          case Some(rest) => Unpack(bytes) == Some(out + rest)
      {
        if (2 + i) * BLOCK > |bytes| {
          return None;
        }
        var e := ReadEntry(bytes[(1 + i) * BLOCK..(2 + i) * BLOCK]);
        if e.None? {
          return None;
        }
        var data := DumpFile(e.value);
        if data.None? {
          return None;
        }
        var f := File(e.value.path, data.value);
        assert forall rest: seq<File> :: out + ([f] + rest) == (out + [f]) + rest;
        out := out + [f];
        i := i + 1;
      }
      assert out + [] == out;
      return Some(out);
    }
  }

  lemma EntryIs(big: bool, f: File, offset: nat, rest: seq<byte>, hash: seq<byte>, entry: seq<byte>)
    requires hash == Hash(f.data)
    requires entry == Text("ENTR") + PathBytes(f.path) + (hash + rest) + Host32(big, 20) + Le32(offset) + Le32(|f.data|)
    ensures entry == EntryBytes(big, f.path, f.data, offset, rest)
  {
  }

  lemma NamesDone(files: seq<File>, root: Path, names: seq<File>)
    requires names == Names(files, root, false)
    ensures Names(files[0..], root, false) == names[0..]
  {
    assert files[0..] == files && names[0..] == names;
  }

  lemma NamesStep(files: seq<File>, root: Path, i: nat, found: bool, names: seq<File>)
    requires |names| == |files| && i < |files| && Names(files[i..], root, found) == names[i..]
    ensures names[i] == File(Named(files[i].path, root, found), files[i].data)
    ensures Names(files[i + 1..], root, found || EndsIn(files[i].path, Text(".dtb"))) == names[i + 1..]
  {
    var l := files[i..];
    assert l[0] == files[i] && l[1..] == files[i + 1..];
    assert names[i..][0] == names[i] && names[i..][1..] == names[i + 1..];
  }

  // Other names change nothing about the layout.
  lemma {:induction false} NamesData(files: seq<File>, root: Path, found: bool)
    ensures |Names(files, root, found)| == |files|
    ensures forall k | 0 <= k < |files| :: Names(files, root, found)[k].data == files[k].data
    decreases |files|
  {
    if files != [] {
      NamesData(files[1..], root, found || EndsIn(files[0].path, Text(".dtb")));
    }
  }

  lemma {:induction false} SameBlock(a: seq<File>, b: seq<File>, i: nat)
    requires |a| == |b| && i <= |a| && forall k | 0 <= k < |a| :: a[k].data == b[k].data
    ensures Block(a, i) == Block(b, i)
    decreases i
  {
    if i > 0 {
      SameBlock(a, b, i - 1);
    }
  }

  lemma SameStarts(a: seq<File>, b: seq<File>)
    requires |a| == |b| && forall k | 0 <= k < |a| :: a[k].data == b[k].data
    ensures forall i | 0 <= i < |a| :: Storable(a, i) == Storable(b, i)
    ensures AllStorable(a) == AllStorable(b) && AllShort(a) == AllShort(b)
  {
    forall i | 0 <= i < |a| ensures Storable(a, i) == Storable(b, i) {
      SameBlock(a, b, i);
    }
  }

  lemma HeaderFits(n: nat, pad: byte)
    ensures |Rounded(HeaderBytes(n, pad))| == BLOCK
  {
    LeSizes(n);
    LeSizes(0);
  }

  lemma FirstPart(data: seq<byte>, at: int)
    requires 0 < at <= |Kept(data)| && at == ToInt(|data| / BLOCK * BLOCK)
    ensures at <= |data| / BLOCK * BLOCK <= |data| && data[..|data| / BLOCK * BLOCK][..at] == Kept(data)[..at]
  {
    Splits(|data|, BLOCK);
    IntIsLess(|data| / BLOCK * BLOCK);
  }

  lemma IntIsLess(n: nat)
    ensures ToInt(n) <= n
  {
  }

  lemma RestPart(data: seq<byte>, at: int, left: nat)
    requires 0 <= at && at + left == |Kept(data)|
    ensures data[at..at + left] == Kept(data)[at..]
  {
  }

  // What was written has a size that is an int.
  lemma SizeIsInt(data: seq<byte>)
    requires ToInt(|data| / BLOCK) != 0 ==> ToInt(|data| / BLOCK * BLOCK) > 0
    ensures ToInt(|data|) == |Kept(data)|
  {
    KeptParts(data);
  }
}
