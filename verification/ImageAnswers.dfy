// The image by its bytes and its blocks.
module ImageAnswers {
  import opened Numbers
  import opened ImageSpec

  // ---- numbers -------------------------------------------------------------------------------------

  // fix_blocks(): the fewest blocks of 512 bytes that hold so many.
  lemma FewestBlocks(size: nat)
    ensures FixBlocks(size) * 512 >= size
    ensures (size > 0 ==> (FixBlocks(size) - 1) * 512 < size) && (size == 0 ==> FixBlocks(size) == 0)
  {
  }

  // A 32-bit int is the number in its range that is some rounds of 2^32 away.
  lemma ToIntIs(n: nat)
    ensures -0x8000_0000 <= ToInt(n) < 0x8000_0000
    ensures (n - ToInt(n)) % 0x1_0000_0000 == 0
  {
    var q, m := n / W32, n % W32;
    Splits(n, W32);
    if m < INT_LIMIT {
      Exact(q, W32);
    } else {
      Distributes(q, 1, W32);
      Exact(q + 1, W32);
    }
  }

  // The lowest byte first.
  predicate LowFirst(b: seq<byte>, n: nat) {
    && |b| == 4 && b[0] as int == n % 256 && b[1] as int == n / 0x100 % 256
    && b[2] as int == n / 0x1_0000 % 256 && b[3] as int == n / 0x100_0000 % 256
  }

  function Number(b: seq<byte>): nat
    requires |b| == 4
  {
    b[0] as int + 256 * (b[1] as int) + 65536 * (b[2] as int) + 16777216 * (b[3] as int)
  }

  // ---- writing ---------------------------------------------------------------------------------------

  // A write changes its own bytes only; in front of it, behind the old end, there are zeros.
  lemma WrittenAt(img: seq<byte>, off: nat, data: seq<byte>, i: nat)
    ensures var out := WriteAt(img, off, data);
      && |out| == (if |img| < off + |data| then off + |data| else |img|)
      && (i < |out| ==>
            out[i] == if off <= i < off + |data| then data[i - off] else if i < |img| then img[i] else 0)
  {
  }

  // ---- header and entries by their bytes -----------------------------------------------------------------

  lemma HeaderPlaces(n: nat, pad: byte)
    ensures var b := HeaderBytes(n, pad);
      && |b| == 16 && b[..4] == [82, 83, 67, 69] && b[4..8] == [0, 0, 0, 0]
      && b[8] == 1 && b[9] == 1 && b[10] == 1 && b[11] == pad && LowFirst(b[12..16], n)
  {
    TagIs();
    LowFirstIs(n);
    assert Byte(0) == 0;
    hide Byte, Text;
    var b := HeaderBytes(n, pad);
    assert b[12..16] == Le32(n);
  }

  lemma EntryPlaces(big: bool, path: Path, data: seq<byte>, offset: nat, rest: seq<byte>)
    requires |rest| == 12
    ensures var b := EntryBytes(big, path, data, offset, rest);
      && |b| == 268 && b[..4] == [69, 78, 84, 82]
      && (forall i | 0 <= i < 220 :: b[4 + i] == if i < |path| && i < 219 then path[i] else 0)
      && b[224..244] == Hash(data) && b[244..256] == rest
      && b[256..260] == (if big then [0, 0, 0, 20] else [20, 0, 0, 0])
      && LowFirst(b[260..264], offset) && LowFirst(b[264..268], |data|)
  {
    hide Byte, Hash, PathBytes, Host32, Text;
    TwentyIs(big);
    PathBytesAre(path);
    TagIs();
    LowFirstIs(offset);
    LowFirstIs(|data|);
    var b := EntryBytes(big, path, data, offset, rest);
    assert b[..4] == Text("ENTR");
    assert b[4..224] == PathBytes(path);
    assert b[224..244] == Hash(data);
    assert b[244..256] == rest;
    assert b[256..260] == Host32(big, 20);
    assert b[260..264] == Le32(offset);
    assert b[264..268] == Le32(|data|);
    forall i | 0 <= i < 220 ensures b[4 + i] == if i < |path| && i < 219 then path[i] else 0 {
      assert b[4 + i] == b[4..224][i];
    }
  }

  lemma TwentyIs(big: bool)
    ensures Host32(big, 20) == if big then [0, 0, 0, 20] else [20, 0, 0, 0]
  {
  }

  lemma TagIs()
    ensures Text("ENTR") == [69, 78, 84, 82] && Text("RSCE") == [82, 83, 67, 69]
  {
  }

  lemma LowFirstIs(n: nat)
    ensures LowFirst(Le32(n), n)
  {
  }

  lemma PathBytesAre(path: Path)
    ensures |PathBytes(path)| == 220
    ensures forall i | 0 <= i < 220 :: PathBytes(path)[i] == if i < |path| && i < 219 then path[i] else 0
  {
  }

  // An entry is read from these places, whatever the rest of its block holds.
  lemma EntryReads(b: seq<byte>)
    requires |b| == 512
    ensures var e := ReadEntry(b);
      && (e.Some? <==> b[..4] == [69, 78, 84, 82])
      && (e.Some? ==>
            && e.value.offset == Number(b[260..264]) && e.value.size == Number(b[264..268])
            && |e.value.path| <= 220 && e.value.path == b[4..4 + |e.value.path|] && 0 !in e.value.path
            && (|e.value.path| < 220 ==> b[4 + |e.value.path|] == 0))
  {
    TagIs();
    hide Text, CStr;
    UpToZero(b[4..224]);
  }

  lemma {:induction false} UpToZero(s: seq<byte>)
    ensures CStr(s) <= s && 0 !in CStr(s) && (|CStr(s)| < |s| ==> s[|CStr(s)|] == 0)
    decreases |s|
  {
    if s != [] && s[0] != 0 {
      UpToZero(s[1..]);
    }
  }

  // An image is supported if its header block says so in these places.
  lemma HeaderReads(b: seq<byte>)
    requires |b| == 512
    ensures var h := ReadHeader(b);
      && (h.Some? && Supported(h.value) <==>
            b[..4] == [82, 83, 67, 69] && b[4..8] == [0, 0, 0, 0] && b[8] == 1 && b[10] == 1)
      && (h.Some? ==> h.value.entries == Number(b[12..16]))
  {
    TagIs();
    hide Text;
    assert b[4..8] == [b[4], b[5], b[6], b[7]];
    assert b[4..6] == [b[4], b[5]] && b[6..8] == [b[6], b[7]];
  }

  // ---- the blocks --------------------------------------------------------------------------------------------

  // The header, a block for each entry, and the contents one behind the other.
  lemma StartIs(files: seq<File>, i: nat)
    requires i < |files|
    ensures Start(files, 0) == 1 + |files|
    ensures Start(files, i + 1) == Start(files, i) + (|files[i].data| + 511) / 512
  {
  }

  // What unpacking takes for the content of an entry: from its block on, places in 32 bits; none if the
  // size is zero or is no positive int.
  lemma ContentIs(img: seq<byte>, e: Entry)
    ensures var from := e.offset * 512 % 0x1_0000_0000;
      Content(img, e) ==
        if e.size == 0 || e.size >= 0x8000_0000 then Some([])
        else if from + e.size <= |img| then Some(img[from..from + e.size])
        else None
  {
  }

  // The i-th file of an image, if its entry can be read.
  ghost predicate FileAt(img: seq<byte>, i: nat, f: File) {
    var at := (1 + i) * 512;
    && at + 512 <= |img| && ReadEntry(img[at..at + 512]).Some?
    && var e := ReadEntry(img[at..at + 512]).value; Content(img, e) == Some(f.data) && e.path == f.path
  }

  lemma {:induction false} UnpackFromIff(img: seq<byte>, n: nat, i: nat, files: seq<File>)
    requires i <= n && |files| == n - i
    ensures UnpackFrom(img, n, i) == Some(files) <==> forall k | 0 <= k < |files| :: FileAt(img, i + k, files[k])
    decreases n - i
  {
    hide ReadEntry, Content;
    if i < n {
      UnpackFromIff(img, n, i + 1, files[1..]);
      assert files == [files[0]] + files[1..];
      if UnpackFrom(img, n, i) == Some(files) {
        forall k | 0 <= k < |files| ensures FileAt(img, i + k, files[k]) {
          if k > 0 {
            assert files[k] == files[1..][k - 1] && i + k == i + 1 + (k - 1);
          }
        }
      }
      if forall k | 0 <= k < |files| :: FileAt(img, i + k, files[k]) {
        assert FileAt(img, i + 0, files[0]);
        forall k | 0 <= k < |files| - 1 ensures FileAt(img, i + 1 + k, files[1..][k]) {
          assert FileAt(img, i + (k + 1), files[k + 1]);
        }
      }
    }
  }

  lemma {:induction false} UnpackFromCounts(img: seq<byte>, n: nat, i: nat)
    requires i <= n
    ensures UnpackFrom(img, n, i).Some? ==> |UnpackFrom(img, n, i).value| == n - i
    decreases n - i
  {
    if i < n {
      UnpackFromCounts(img, n, i + 1);
    }
  }

  // Unpacking any image gives these files exactly if its header is supported and announces as many, and the
  // i-th entry and its content are there for each.
  lemma UnpackIff(img: seq<byte>, files: seq<File>)
    ensures Unpack(img) == Some(files) <==>
      && |img| >= 512 && ReadHeader(img[..512]).Some? && Supported(ReadHeader(img[..512]).value)
      && ReadHeader(img[..512]).value.entries == |files|
      && forall i | 0 <= i < |files| :: FileAt(img, i, files[i])
  {
    hide ReadHeader, Supported, FileAt, UnpackFrom;
    if |img| >= 512 && ReadHeader(img[..512]).Some? {
      var n := ReadHeader(img[..512]).value.entries;
      UnpackFromCounts(img, n, 0);
      if n == |files| {
        UnpackFromIff(img, n, 0, files);
        assert forall k | 0 <= k < |files| :: FileAt(img, 0 + k, files[k]) == FileAt(img, k, files[k]);
      }
    }
  }

  // ---- names ---------------------------------------------------------------------------------------------------

  // path is root and a rest, and a slash between them is dropped.
  predicate Under(path: Path, root: Path, rest: Path) {
    root != [] && (path == root + [47] + rest || (path == root + rest && (rest == [] || rest[0] != 47)))
  }

  function Stripped(path: Path): Path {
    if |path| >= 2 && path[0] == 46 && path[1] == 47 then path[2..] else path
  }

  // The first device tree is packed as rk-kernel.dtb; of other names the root is taken off, and then a
  // leading "./".
  lemma NamedIs(path: Path, root: Path, rest: Path, found: bool)
    ensures var dtb := |path| >= 4 && path[|path| - 4..] == [46, 100, 116, 98];
      && (dtb && !found ==> Named(path, root, found) == [114, 107, 45, 107, 101, 114, 110, 101, 108, 46, 100, 116, 98])
      && (!dtb || found ==>
            && (Under(path, root, rest) ==> Named(path, root, found) == Stripped(rest))
            && (root == [] || !(root <= path) ==> Named(path, root, found) == Stripped(path)))
  {
    DtbIs();
    FixIs(rest);
    FixIs(path);
    hide Text, FixPath;
    if Under(path, root, rest) {
      if path == root + [47] + rest {
        assert path[|root|..] == [47] + rest && root <= path;
      } else {
        assert path[|root|..] == rest && root <= path;
      }
    }
  }

  lemma DtbIs()
    ensures Text(".dtb") == [46, 100, 116, 98]
    ensures Text("rk-kernel.dtb") == [114, 107, 45, 107, 101, 114, 110, 101, 108, 46, 100, 116, 98]
  {
  }

  lemma FixIs(path: Path)
    ensures FixPath(path) == Stripped(path)
  {
    assert Text("./") == [46, 47];
    if |path| >= 2 {
      assert path[..2] == [path[0], path[1]];
    }
  }

  lemma {:induction false} NamesAre(files: seq<File>, root: Path, found: bool, i: nat)
    requires i < |files|
    ensures |Names(files, root, found)| == |files|
    ensures Names(files, root, found)[i].data == files[i].data
    ensures Names(files, root, found)[i].path ==
      Named(files[i].path, root, found || exists j | 0 <= j < i :: EndsIn(files[j].path, Text(".dtb")))
    decreases |files|
  {
    hide Named, EndsIn, Text;
    var now := found || EndsIn(files[0].path, Text(".dtb"));
    if i > 0 {
      NamesAre(files[1..], root, now, i - 1);
      assert forall j | 0 < j < |files| :: files[1..][j - 1] == files[j];
      assert (exists j | 0 <= j < i :: EndsIn(files[j].path, Text(".dtb"))) <==>
        (EndsIn(files[0].path, Text(".dtb")) || exists j | 0 <= j < i - 1 :: EndsIn(files[1..][j].path, Text(".dtb"))) by {
        if j :| 0 <= j < i && EndsIn(files[j].path, Text(".dtb")) {
          if j > 0 {
            assert EndsIn(files[1..][j - 1].path, Text(".dtb"));
          }
        }
        if j :| 0 <= j < i - 1 && EndsIn(files[1..][j].path, Text(".dtb")) {
          assert EndsIn(files[j + 1].path, Text(".dtb"));
        }
      }
    } else if |files| > 1 {
      NamesAre(files[1..], root, now, 0);
    }
  }
}
