/** Where everything lies on the device, byte by byte: the little-endian words and the bits that other programs which
  * read the image rely on. */
module OnDisk {
  import opened Bytes
  import opened IndexTree
  import opened Bitmap
  import opened DiskFormat
  import opened Directory

  /** The little-endian 32-bit word at byte `at`. */
  function U32At(s: seq<byte>, at: nat): (v: nat)
    requires at + 4 <= |s|
  {
    s[at] as int + 256 * s[at + 1] as int + 65536 * s[at + 2] as int + 16777216 * s[at + 3] as int
  }

  lemma FromLE4(s: seq<byte>)
    requires |s| == 4
    ensures FromLE(s) == U32At(s, 0)
  {
    assert FromLE(s[1..]) == s[1] as int + 256 * FromLE(s[2..]) by { assert s[1..][1..] == s[2..]; }
    assert FromLE(s[2..]) == s[2] as int + 256 * FromLE(s[3..]) by { assert s[2..][1..] == s[3..]; }
    assert FromLE(s[3..]) == s[3] as int by { assert s[3..][1..] == []; }
  }

  /** Entry `k` of an index block is the word at byte `4 * k`. */
  lemma IndexEntryAt(b: Block, k: nat)
    requires k < 128
    ensures Word(b, k) == U32At(b, 4 * k)
  {
    FromLE4(b[4 * k..4 * k + 4]);
  }

  /** Data block `k` of a file: direct, through the indirect block, or through a row of the double-indirect block. */
  lemma DataBlockAt(ino: Inode, d: Disk, k: nat)
    ensures k < 28 ==> BlockId(ino, d, k) == ino.direct[k]
    ensures 28 <= k < 156 && ino.indirect1 < |d| ==> BlockId(ino, d, k) == U32At(d[ino.indirect1], 4 * (k - 28))
    ensures 156 <= k < 16540 && ino.indirect2 < |d| ==>
              var row := U32At(d[ino.indirect2], 4 * ((k - 156) / 128));
              row < |d| ==> BlockId(ino, d, k) == U32At(d[row], 4 * ((k - 156) % 128))
  {
    hide Word, U32At;
    if 28 <= k < 156 && ino.indirect1 < |d| { IndexEntryAt(d[ino.indirect1], k - 28); }
    if 156 <= k < 16540 && ino.indirect2 < |d| {
      IndexEntryAt(d[ino.indirect2], (k - 156) / 128);
      var row := Word(d[ino.indirect2], (k - 156) / 128);
      if row < |d| { IndexEntryAt(d[row], (k - 156) % 128); }
    }
  }

  lemma WordInAt(s: seq<byte>, t: nat)
    requires 4 * t + 4 <= |s|
    ensures WordIn(s, t) == U32At(s, 4 * t)
  {
    FromLE4(s[4 * t..4 * t + 4]);
  }

  /** An inode has its size first, then 28 direct ids, the indirect and the double-indirect id, and its type at byte
    * 124. */
  lemma InodeBytesAt(s: seq<byte>)
    requires |s| == INODE_SIZE
    ensures var ino := DecodeInode(s);
            && ino.size == U32At(s, 0) && (forall k: nat | k < 28 :: ino.direct[k] == U32At(s, 4 + 4 * k))
            && ino.indirect1 == U32At(s, 116) && ino.indirect2 == U32At(s, 120)
            && (ino.kind == File <==> s[124] == 0)
  {
    hide WordIn, U32At;
    forall t: nat | t < 31 ensures WordIn(s, t) == U32At(s, 4 * t) { WordInAt(s, t); }
    forall k: nat | k < 28 ensures DecodeInode(s).direct[k] == U32At(s, 4 + 4 * k) { WordInAt(s, 1 + k); }
  }

  /** Inode `i` is the quarter `i % 4` of block `i / 4` of the inode area. */
  lemma InodePlace(g: Geometry, d: Disk, i: nat)
    requires g.Fits(d) && i < g.inodeBitmap.Maximum()
    ensures g.inodeAreaStart + i / 4 < |d|
    ensures g.InodeAt(d, i) == DecodeInode(d[g.inodeAreaStart + i / 4][128 * (i % 4)..128 * (i % 4) + 128])
    ensures g.GetDiskInodePos(i) == (1 + g.inodeBitmap.blocks + i / 4, 128 * (i % 4))
  {
    g.InodeBlockInArea(d, i);
  }

  /** The super block is six words, the magic number first. */
  lemma SuperBytesAt(b: Block)
    ensures var sb := DecodeSuper(b);
            && sb.magic == U32At(b, 0) && sb.totalBlocks == U32At(b, 4) && sb.inodeBitmapBlocks == U32At(b, 8)
            && sb.inodeAreaBlocks == U32At(b, 12) && sb.dataBitmapBlocks == U32At(b, 16)
            && sb.dataAreaBlocks == U32At(b, 20)
  {
    hide WordIn, U32At;
    forall t: nat | t < 6 ensures WordIn(b, t) == U32At(b, 4 * t) { WordInAt(b, t); }
  }

  /** A directory entry is its name, ended by a NUL, and at byte 28 its inode number. */
  lemma EntryBytesAt(s: seq<byte>)
    requires |s| == DIRENT_SZ
    ensures EntryId(s) == U32At(s, 28)
    ensures EntryName(s).Some? ==>
              var name := EntryName(s).value;
              |name| <= 27 && 0 !in name && s[..|name|] == name && s[|name|] == 0
    ensures EntryName(s).None? ==> 0 !in s[..28]
  {
    FromLE4(s[28..32]);
    if FirstNul(s, 0).Some? {
      assert s[..FirstNul(s, 0).value] == s[0..FirstNul(s, 0).value];
    } else {
      assert s[..28] == s[0..NAME_LENGTH_LIMIT + 1];
    }
  }

  // ---------------------------------------------------------------- bitmaps

  lemma {:induction false} BitIsQuotient(v: nat, j: nat)
    ensures BitOf(v, j) <==> v / Pow2(j) % 2 == 1
  {
    if j > 0 {
      BitIsQuotient(v / 2, j - 1);
      HalveTwice(v, Pow2(j - 1));
    }
  }

  lemma HalveTwice(v: nat, q: nat)
    requires q > 0
    ensures v / 2 / q == v / (2 * q)
  {
    var a, r := v / (2 * q), v % (2 * q);
    assert v == a * (2 * q) + r;
    assert v / 2 == a * q + r / 2;
    assert r / 2 < q;
    QuotientIs(v / 2, q, a, r / 2);
  }

  lemma {:induction false} LowBits(x: byte, rest: nat, j: nat)
    ensures j < 8 ==> (BitOf(x as int + 256 * rest, j) <==> BitOf(x as int, j))
    ensures j >= 8 ==> (BitOf(x as int + 256 * rest, j) <==> BitOf(rest, j - 8))
  {
    Halves(x as int, 8, rest, j);
  }

  lemma {:induction false} Halves(x: nat, n: nat, rest: nat, j: nat)
    requires x < Pow2(n)
    ensures BitOf(x + Pow2(n) * rest, j) <==> if j < n then BitOf(x, j) else BitOf(rest, j - n)
    decreases n
  {
    if n > 0 {
      assert (x + Pow2(n) * rest) / 2 == x / 2 + Pow2(n - 1) * rest && (x + Pow2(n) * rest) % 2 == x % 2;
      if j > 0 { Halves(x / 2, n - 1, rest, j - 1); }
    }
  }

  /** Bit `j` of a little-endian number is bit `j % 8` of its byte `j / 8`. */
  lemma {:induction false} BitOfByte(s: seq<byte>, j: nat)
    requires j < 8 * |s|
    ensures BitOf(FromLE(s), j) <==> BitOf(s[j / 8] as int, j % 8)
  {
    LowBits(s[0], FromLE(s[1..]), j);
    if j >= 8 {
      BitOfByte(s[1..], j - 8);
    }
  }

  /** Bit `k` of a bitmap block is bit `k % 8` of byte `k / 8`, counted from the lowest. */
  lemma BitAt(b: Block, k: nat)
    requires k < BLOCK_BITS
    ensures Bit(b, k) <==> b[k / 8] as int / Pow2(k % 8) % 2 == 1
  {
    var w := k / 64;
    BitOfByte(b[8 * w..8 * w + 8], k % 64);
    assert 8 * w + k % 64 / 8 == k / 8 && k % 64 % 8 == k % 8;
    BitIsQuotient(b[k / 8] as int, k % 8);
  }
}
