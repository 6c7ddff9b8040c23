/** Where things are on the device and how inodes and the super block are stored in blocks. */
module DiskFormat {
  import opened Bytes
  import opened IndexTree
  import opened Bitmap

  const EFS_MAGIC: u32 := 0x3b800001
  const INODE_SIZE: nat := 128
  const INODES_PER_BLOCK: nat := BLOCK_SZ / INODE_SIZE

  // ---------------------------------------------------------------- words in blocks

  function EncodeWords(ws: seq<u32>): (s: seq<byte>)
    ensures |s| == 4 * |ws|
  {
    if ws == [] then [] else ToLE(ws[0], 4) + EncodeWords(ws[1..])
  }

  lemma {:induction false} EncodeWordsAt(ws: seq<u32>, t: nat)
    requires t < |ws|
    ensures EncodeWords(ws)[4 * t..4 * t + 4] == ToLE(ws[t], 4)
  {
    var rest := EncodeWords(ws[1..]);
    assert EncodeWords(ws) == ToLE(ws[0], 4) + rest;
    if t > 0 {
      EncodeWordsAt(ws[1..], t - 1);
      assert EncodeWords(ws)[4 * t..4 * t + 4] == rest[4 * t - 4..4 * t];
    }
  }

  function WordIn(s: seq<byte>, t: nat): (w: u32)
    requires 4 * t + 4 <= |s|
  {
    FromLEBound(s[4 * t..4 * t + 4]);
    Pow256At4();
    FromLE(s[4 * t..4 * t + 4])
  }

  function DecodeWords(s: seq<byte>, n: nat): (ws: seq<u32>)
    requires 4 * n <= |s|
    ensures |ws| == n
    ensures forall t: nat | t < n :: ws[t] == WordIn(s, t)
  {
    if n == 0 then [] else DecodeWords(s, n - 1) + [WordIn(s, n - 1)]
  }

  /** Words written at the front of some bytes are read back. */
  lemma DecodeEncodeWords(ws: seq<u32>, s: seq<byte>)
    requires 4 * |ws| <= |s| && s[..4 * |ws|] == EncodeWords(ws)
    ensures DecodeWords(s, |ws|) == ws
  {
    hide EncodeWords, WordIn;
    forall t: nat | t < |ws|
      ensures WordIn(s, t) == ws[t]
    {
      WordInEncoded(ws, s, t);
    }
  }

  lemma WordInEncoded(ws: seq<u32>, s: seq<byte>, t: nat)
    requires 4 * |ws| <= |s| && s[..4 * |ws|] == EncodeWords(ws) && t < |ws|
    ensures WordIn(s, t) == ws[t]
  {
    hide EncodeWords, ToLE, FromLE, Pow256;
    EncodeWordsAt(ws, t);
    Pow256At4();
    FromToLE(ws[t], 4);
    SliceOfPrefix(s, 4 * |ws|, 4 * t, 4 * t + 4);
  }

  lemma SliceOfPrefix(s: seq<byte>, n: nat, a: nat, b: nat)
    requires a <= b <= n <= |s|
    ensures s[..n][a..b] == s[a..b]
  {
  }

  // ---------------------------------------------------------------- inodes

  function InodeWords(ino: Inode): (ws: seq<u32>)
    ensures |ws| == 31
  {
    [ino.size] + ino.direct + [ino.indirect1, ino.indirect2]
  }

  /** The fields of an inode in their `repr(C)` order; the padding behind the type byte is not written. */
  function InodeBytes(ino: Inode): (s: seq<byte>)
    ensures |s| == 125
  {
    EncodeWords(InodeWords(ino)) + [if ino.kind == File then 0 else 1]
  }

  function DecodeInode(s: seq<byte>): (ino: Inode)
    requires |s| == INODE_SIZE
  {
    var ws := DecodeWords(s, 31);
    InodeRec(ws[0], ws[1..29], ws[29], ws[30], if s[124] == 0 then File else Directory)
  }

  /** The bytes of the inode in quarter `q` of an inode block. */
  function Quarter(b: Block, q: nat): (s: seq<byte>)
    requires q < INODES_PER_BLOCK
    ensures |s| == INODE_SIZE
  {
    b[INODE_SIZE * q..INODE_SIZE * q + INODE_SIZE]
  }

  function StoreInode(b: Block, q: nat, ino: Inode): (r: Block)
    requires q < INODES_PER_BLOCK
  {
    Splice(b, INODE_SIZE * q, InodeBytes(ino))
  }

  /** Storing an inode and reading it back is the identity. */
  lemma InodeRoundTrip(b: Block, q: nat, ino: Inode)
    requires q < INODES_PER_BLOCK
    ensures DecodeInode(Quarter(StoreInode(b, q, ino), q)) == ino
  {
    var s := Quarter(StoreInode(b, q, ino), q);
    assert s[..125] == InodeBytes(ino);
    assert s[..124] == InodeBytes(ino)[..124];
    DecodeEncodeWords(InodeWords(ino), s);
    assert InodeWords(ino)[1..29] == ino.direct;
    assert s[124] == s[..125][124] == InodeBytes(ino)[124];
  }

  /** The other inodes of the block are not touched. */
  lemma InodeFrame(b: Block, q: nat, ino: Inode, q': nat)
    requires q < INODES_PER_BLOCK && q' < INODES_PER_BLOCK && q' != q
    ensures Quarter(StoreInode(b, q, ino), q') == Quarter(b, q')
  {
    hide InodeBytes;
  }

  // ---------------------------------------------------------------- the super block

  datatype SuperBlock = SuperBlock(magic: u32, totalBlocks: u32, inodeBitmapBlocks: u32,
                                   inodeAreaBlocks: u32, dataBitmapBlocks: u32, dataAreaBlocks: u32)

  function SuperWords(sb: SuperBlock): (ws: seq<u32>)
  {
    [sb.magic, sb.totalBlocks, sb.inodeBitmapBlocks, sb.inodeAreaBlocks, sb.dataBitmapBlocks, sb.dataAreaBlocks]
  }

  function StoreSuper(b: Block, sb: SuperBlock): (r: Block)
  {
    Splice(b, 0, EncodeWords(SuperWords(sb)))
  }

  function DecodeSuper(b: Block): (sb: SuperBlock)
  {
    var ws := DecodeWords(b, 6);
    SuperBlock(ws[0], ws[1], ws[2], ws[3], ws[4], ws[5])
  }

  lemma SuperRoundTrip(b: Block, sb: SuperBlock)
    ensures DecodeSuper(StoreSuper(b, sb)) == sb
  {
    var r := StoreSuper(b, sb);
    assert r[..24] == EncodeWords(SuperWords(sb));
    DecodeEncodeWords(SuperWords(sb), r);
  }

  // ---------------------------------------------------------------- areas

  /** The areas `create` computes for a device of `totalBlocks` blocks. */
  function Plan(totalBlocks: u32, inodeBitmapBlocks: u32): (sb: SuperBlock)
    requires PlanFits(totalBlocks, inodeBitmapBlocks)
  {
    InodeArea(inodeBitmapBlocks);
    var inodeNum := inodeBitmapBlocks * BLOCK_BITS;
    var inodeAreaBlocks := (inodeNum * INODE_SIZE + BLOCK_SZ - 1) / BLOCK_SZ;
    var inodeTotalBlocks := inodeBitmapBlocks + inodeAreaBlocks;
    var dataTotalBlocks := totalBlocks - 1 - inodeTotalBlocks;
    var dataBitmapBlocks := (dataTotalBlocks + 4096) / 4097;
    var dataAreaBlocks := dataTotalBlocks - dataBitmapBlocks;
    SuperBlock(EFS_MAGIC, totalBlocks, inodeBitmapBlocks, inodeAreaBlocks, dataBitmapBlocks, dataAreaBlocks)
  }

  /** The device is large enough for the subtractions of `create` not to underflow. */
  predicate PlanFits(totalBlocks: u32, inodeBitmapBlocks: u32)
  {
    1 <= inodeBitmapBlocks && 1 + 1025 * inodeBitmapBlocks <= totalBlocks
  }

  lemma FourToABlock(i: nat, n: nat)
    requires i < 4096 * n
    ensures i / INODES_PER_BLOCK < 1024 * n
  {
  }

  /** The fields of an open file system. */
  datatype Geometry = Geometry(inodeBitmap: Bitmap, dataBitmap: Bitmap, inodeAreaStart: nat, dataAreaStart: nat) {

    /** The areas lie behind one another and fill the device; every inode and data block has a bit. */
    ghost predicate Fits(d: Disk)
    {
      && inodeBitmap.startBlockId == 1 && inodeBitmap.blocks >= 1
      && inodeAreaStart == 1 + inodeBitmap.blocks
      && dataBitmap.startBlockId == inodeAreaStart + 1024 * inodeBitmap.blocks
      && dataAreaStart == dataBitmap.startBlockId + dataBitmap.blocks
      && dataAreaStart <= |d| <= U32_LIMIT
      && |d| - dataAreaStart <= dataBitmap.Maximum()
    }

    /** Block and byte offset of inode `i`. */
    function GetDiskInodePos(i: nat): (pos: (nat, nat))
    {
      (inodeAreaStart + i / INODES_PER_BLOCK, i % INODES_PER_BLOCK * INODE_SIZE)
    }

    function InodeBlock(i: nat): (b: nat)
    {
      inodeAreaStart + i / INODES_PER_BLOCK
    }

    lemma InodeBlockInArea(d: Disk, i: nat)
      requires Fits(d) && i < inodeBitmap.Maximum()
      ensures inodeAreaStart <= InodeBlock(i) < dataBitmap.startBlockId <= |d|
    {
      FourToABlock(i, inodeBitmap.blocks);
    }

    /** Inode `i` as stored on the device. */
    ghost function InodeAt(d: Disk, i: nat): (ino: Inode)
      requires Fits(d) && i < inodeBitmap.Maximum()
    {
      InodeBlockInArea(d, i);
      DecodeInode(Quarter(d[InodeBlock(i)], i % INODES_PER_BLOCK))
    }

    /** `d'` is `d` with inode `i` overwritten by `ino`. */
    ghost predicate Stored(d: Disk, d': Disk, i: nat, ino: Inode)
      requires Fits(d) && i < inodeBitmap.Maximum()
    {
      && |d'| == |d|
      && (forall b: nat | b < |d| && b != InodeBlock(i) :: d'[b] == d[b])
      && (forall j: nat | j < inodeBitmap.Maximum() :: InodeAt(d', j) == if j == i then ino else InodeAt(d, j))
    }

    /** Writing an inode in place changes that inode, no other inode and no other block. */
    lemma StoreInodeStores(d: Disk, i: nat, ino: Inode)
      requires Fits(d) && i < inodeBitmap.Maximum()
      ensures InodeBlock(i) < dataBitmap.startBlockId
      ensures Stored(d, d[InodeBlock(i) := StoreInode(d[InodeBlock(i)], i % INODES_PER_BLOCK, ino)], i, ino)
    {
      hide DecodeInode, StoreInode, Quarter;
      InodeBlockInArea(d, i);
      var d' := d[InodeBlock(i) := StoreInode(d[InodeBlock(i)], i % INODES_PER_BLOCK, ino)];
      forall j: nat | j < inodeBitmap.Maximum()
        ensures InodeAt(d', j) == if j == i then ino else InodeAt(d, j)
      {
        StoredInodeAt(d, i, ino, j);
      }
    }

    lemma StoredInodeAt(d: Disk, i: nat, ino: Inode, j: nat)
      requires Fits(d) && i < inodeBitmap.Maximum() && j < inodeBitmap.Maximum()
      requires InodeBlock(i) < |d|
      ensures var d' := d[InodeBlock(i) := StoreInode(d[InodeBlock(i)], i % INODES_PER_BLOCK, ino)];
              Fits(d') && InodeAt(d', j) == if j == i then ino else InodeAt(d, j)
    {
      hide DecodeInode, StoreInode, Quarter;
      var b, q := InodeBlock(i), i % INODES_PER_BLOCK;
      if j == i {
        InodeRoundTrip(d[b], q, ino);
      } else if j / INODES_PER_BLOCK == i / INODES_PER_BLOCK {
        InodeFrame(d[b], q, ino, j % INODES_PER_BLOCK);
      }
    }
  }

  function FieldsOf(sb: SuperBlock): (g: Geometry)
  {
    var inodeTotalBlocks := sb.inodeBitmapBlocks as nat + sb.inodeAreaBlocks;
    Geometry(Bitmap(1, sb.inodeBitmapBlocks), Bitmap(1 + inodeTotalBlocks, sb.dataBitmapBlocks),
             1 + sb.inodeBitmapBlocks as nat, 1 + inodeTotalBlocks + sb.dataBitmapBlocks)
  }

  /** The planned areas partition the device, and the data bitmap covers the data area with less than a block to
    * spare. */
  lemma PlanPartitions(totalBlocks: u32, inodeBitmapBlocks: u32, d: Disk)
    requires PlanFits(totalBlocks, inodeBitmapBlocks) && |d| == totalBlocks
    ensures var sb := Plan(totalBlocks, inodeBitmapBlocks); var g := FieldsOf(sb);
            && g.Fits(d)
            && g.dataAreaStart + sb.dataAreaBlocks == totalBlocks
            && sb.inodeAreaBlocks * INODES_PER_BLOCK == g.inodeBitmap.Maximum()
            && sb.dataAreaBlocks <= g.dataBitmap.Maximum() <= sb.dataAreaBlocks + BLOCK_BITS
  {
    PlanFields(totalBlocks, inodeBitmapBlocks);
    hide Plan, FieldsOf, PlanFits;
    FieldsFit(Plan(totalBlocks, inodeBitmapBlocks), d);
  }

  lemma FieldsFit(sb: SuperBlock, d: Disk)
    requires sb.inodeBitmapBlocks >= 1 && sb.inodeAreaBlocks == 1024 * sb.inodeBitmapBlocks
    requires 1 + sb.inodeBitmapBlocks + sb.inodeAreaBlocks + sb.dataBitmapBlocks + sb.dataAreaBlocks == |d| <= U32_LIMIT
    requires sb.dataAreaBlocks <= 4096 * sb.dataBitmapBlocks <= sb.dataAreaBlocks + 4096
    ensures var g := FieldsOf(sb);
            && g.Fits(d) && g.dataAreaStart + sb.dataAreaBlocks == |d| <= U32_LIMIT
            && sb.inodeAreaBlocks * INODES_PER_BLOCK == g.inodeBitmap.Maximum()
            && sb.dataAreaBlocks <= g.dataBitmap.Maximum() <= sb.dataAreaBlocks + BLOCK_BITS
  {
  }

  lemma PlanFields(totalBlocks: u32, inodeBitmapBlocks: u32)
    requires PlanFits(totalBlocks, inodeBitmapBlocks)
    ensures var sb := Plan(totalBlocks, inodeBitmapBlocks); var n := totalBlocks - 1 - 1025 * inodeBitmapBlocks;
            && sb.totalBlocks == totalBlocks && sb.inodeBitmapBlocks == inodeBitmapBlocks
            && sb.inodeAreaBlocks == 1024 * inodeBitmapBlocks
            && sb.dataBitmapBlocks + sb.dataAreaBlocks == n
            && sb.dataAreaBlocks <= 4096 * sb.dataBitmapBlocks <= sb.dataAreaBlocks + 4096
  {
    InodeArea(inodeBitmapBlocks);
    DataSplit(totalBlocks - 1 - 1025 * inodeBitmapBlocks);
  }

  lemma InodeArea(inodeBitmapBlocks: nat)
    ensures (inodeBitmapBlocks * BLOCK_BITS * INODE_SIZE + BLOCK_SZ - 1) / BLOCK_SZ == 1024 * inodeBitmapBlocks
  {
  }

  /** Of `n` blocks, one in 4097 goes to the bitmap: it covers the rest with at most a block of bits to spare. */
  lemma DataSplit(n: nat)
    ensures var bitmap := (n + 4096) / 4097;
            0 <= n - bitmap <= 4096 * bitmap <= n - bitmap + 4096
  {
    var bitmap := (n + 4096) / 4097;
    assert 4097 * bitmap <= n + 4096 < 4097 * bitmap + 4097;
  }
}
