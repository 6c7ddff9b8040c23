/** The mounted file system and the operations on its inodes. */
module Vfs {
  import opened Wrappers
  import opened Bytes
  import opened IndexTree
  import opened FileData
  import opened Layout
  import opened Bitmap
  import opened DiskFormat
  import opened FsState
  import opened FsSteps
  import opened Directory
  import opened FsSpec
  import opened Paths
  import opened Mount

  /** Everything in front of the data bitmap and everything in the data area is as it was. */
  ghost predicate OnlyBitmap(g: Geometry, d: Disk, d': Disk)
  {
    SameFront(g, d, d') && SameData(g, d, d')
  }

  /** With fewer blocks in use than the data area has, some block of the data area is free. */
  lemma FreeBlockExists(g: Geometry, d: Disk, used: set<u32>) returns (k: nat)
    requires g.Fits(d) && g.dataAreaStart + |used| < |d|
    ensures k <= |used| && g.dataAreaStart + k < |d| && g.dataAreaStart + k !in used
  {
    k := 0;
    while k <= |used| && g.dataAreaStart + k in used
      invariant k <= |used| + 1
      invariant Range(g.dataAreaStart, k) <= used
    {
      k := k + 1;
    }
    if k > |used| {
      CardMonotone(Range(g.dataAreaStart, k), used);
    }
  }

  ghost function Range(lo: nat, k: nat): (s: set<int>)
    ensures forall x :: x in s <==> lo <= x < lo + k
    ensures |s| == k
  {
    if k == 0 then {} else Range(lo, k - 1) + {lo + k - 1}
  }

  lemma CardMonotone(a: set<int>, b: set<u32>)
    requires a <= b
    ensures |a| <= |b|
  {
    var rest := b - a;
    assert b == a + rest;
  }

  /** `alloc` takes the lowest clear bit, so its block is on the device exactly when the data area is not full. */
  lemma AllocOnDevice(g: Geometry, d: Disk, used: set<u32>, k: nat)
    requires g.Fits(d) && BitsAre(g, d, used) && (forall b | b in used :: g.dataAreaStart <= b < |d|)
    requires k < g.dataBitmap.Maximum() && !g.dataBitmap.IsSet(d, k)
    requires forall j: nat | j < k :: g.dataBitmap.IsSet(d, j)
    ensures g.dataAreaStart + k < |d| <==> g.dataAreaStart + |used| < |d|
  {
    hide Bit;
    if g.dataAreaStart + |used| < |d| {
      var free := FreeBlockExists(g, d, used);
      assert !g.dataBitmap.IsSet(d, free);
    } else {
      var area := Range(g.dataAreaStart, |d| - g.dataAreaStart);
      if g.dataAreaStart + k < |d| {
        assert g.dataAreaStart + k !in used;
        CardMonotone(used, area - {g.dataAreaStart + k});
      }
    }
  }

  lemma UnionCard(keys: set<u32>, ids: seq<u32>)
    requires Distinct(ids) && forall k | 0 <= k < |ids| :: ids[k] !in keys
    ensures |keys + Elems(ids)| == |keys| + |ids|
  {
    DistinctCard(ids);
    assert keys !! Elems(ids);
  }

  lemma OnlyBitmapRefl(g: Geometry, d: Disk)
    ensures OnlyBitmap(g, d, d)
  {
  }

  lemma OnlyBitmapTrans(g: Geometry, d: Disk, d1: Disk, d2: Disk)
    requires OnlyBitmap(g, d, d1) && OnlyBitmap(g, d1, d2)
    ensures OnlyBitmap(g, d, d2)
  {
  }

  lemma NoneMore(keys: set<u32>)
    ensures keys + Elems([]) == keys
  {
  }

  lemma EmptyDistinct()
    ensures Distinct([])
  {
  }

  lemma AppendFresh(keys: set<u32>, ids: seq<u32>, id: u32)
    requires Distinct(ids) && id !in keys + Elems(ids)
    ensures Distinct(ids + [id]) && keys + Elems(ids) + {id} == keys + Elems(ids + [id]) && id !in keys
  {
    assert id !in ids;
  }

  ghost predicate FreshBlocks(v: View, ids: seq<u32>)
  {
    Distinct(ids) && forall k | 0 <= k < |ids| :: ids[k] !in v.owner && InData(v, ids[k])
  }

  lemma GrowPrepare(v: View, cs: seq<seq<byte>>)
    requires FsOk(v, cs)
    ensures v.g.Fits(v.d) && BitsAre(v.g, v.d, v.owner.Keys) && |v.owner.Keys| == Used(cs)
  {
    assert |v.owner.Keys| == |v.owner|;
  }

  /** Blocks fresh from the allocator may be appended to the blocks of a file. */
  lemma GrowReady(v: View, cs: seq<seq<byte>>, i: nat, d1: Disk, ids: seq<u32>)
    requires FsOk(v, cs) && i < |v.inos| && OnlyBitmap(v.g, v.d, d1) && FreshBlocks(v, ids)
    ensures Distinct(Owned(v.inos[i], d1) + ids) && InDevice(Owned(v.inos[i], d1) + ids, d1)
    ensures SpareZero(v.inos[i], d1) && AllZero(d1, ids)
  {
    hide NodeAt, TotalBlocks, BitsAre, Used, Content, TailZero, SpareZero;
    SameDataKeeps(v, d1);
    SoundFile(v.(d := d1), i);
  }

  /** The grown tree and the bitmap together keep the invariant. */
  lemma GrowDone(v: View, cs: seq<seq<byte>>, i: nat, d1: Disk, ino: Inode, d2: Disk, ids: seq<u32>)
    returns (v': View)
    requires FsOk(v, cs) && i < |v.inos| && OnlyBitmap(v.g, v.d, d1) && FreshBlocks(v, ids)
    requires v.g.Fits(d1) && BitsAre(v.g, d1, v.owner.Keys + Elems(ids))
    requires v.inos[i].size <= ino.size <= MAX_SIZE && |d2| == |d1|
    requires Owned(ino, d2) == Owned(v.inos[i], d1) + ids && SpareZero(ino, d2)
    requires forall b: nat | b < |d2| && b !in IndexBlocks(Owned(ino, d2)) :: d2[b] == d1[b]
    ensures v'.d == d2 && v'.g == v.g && v'.inos == v.inos[i := ino]
    ensures FsOk(v', cs[i := cs[i] + Zeros(ino.size - |cs[i]|)])
    ensures SameFront(v.g, v.d, d2)
  {
    v' := AfterGrowth(v, i, ino, d2, ids);
    hide NodeAt, TotalBlocks, Reads, BitsAre, Zeroed, Used, IndexBlocks, SpareZero;
    SameDataKeeps(v, d1);
    GrowStep(v, cs, i, d1, ino, d2, ids);
    GrowFront(v.(d := d1), i, ino, d2, ids);
  }

  class EasyFileSystem {
    const dev: Device
    const g: Geometry
    ghost var owner: map<u32, (nat, nat)>
    ghost var table: Table

    constructor (dev: Device, g: Geometry, ghost owner: map<u32, (nat, nat)>, ghost table: Table)
      requires Mounted(g, dev.blocks, owner, table)
      ensures Valid() && this.dev == dev && this.g == g && this.owner == owner && this.table == table
    {
      this.dev, this.g, this.owner, this.table := dev, g, owner, table;
    }

    /** The file system value `create` works with while it formats the device. */
    constructor Blank(dev: Device, g: Geometry)
      ensures this.dev == dev && this.g == g
    {
      this.dev, this.g, this.owner, this.table := dev, g, map[], [];
    }

    ghost predicate Valid()
      reads this, dev
    {
      Mounted(g, dev.blocks, owner, table)
    }

    /** Takes the lowest free data block; the code panics when the bitmap is full. */
    method AllocData(ghost used: set<u32>) returns (id: u32)
      requires g.Fits(dev.blocks) && BitsAre(g, dev.blocks, used)
      requires g.dataAreaStart + |used| < |dev.blocks|
      modifies dev
      ensures g.Fits(dev.blocks) && OnlyBitmap(g, old(dev.blocks), dev.blocks)
      ensures g.dataAreaStart <= id < |dev.blocks| == |old(dev.blocks)| && id !in used
      ensures BitsAre(g, dev.blocks, used + {id})
      ensures forall b: u32 | g.dataAreaStart <= b < id :: b in used
    {
      hide Bit;
      ghost var free := FreeBlockExists(g, dev.blocks, used);
      assert !g.dataBitmap.IsSet(dev.blocks, free);
      var r := g.dataBitmap.Alloc(dev);
      BitBlockInArea(g, old(dev.blocks), r.value);
      id := g.dataAreaStart + r.value;
      forall b: u32 | g.dataAreaStart <= b < id
        ensures b in used
      {
        assert g.dataBitmap.IsSet(old(dev.blocks), b - g.dataAreaStart);
      }
    }

    /** Allocates `n` data blocks, one by one. */
    method AllocMany(n: nat, ghost keys: set<u32>) returns (ids: seq<u32>)
      requires g.Fits(dev.blocks) && BitsAre(g, dev.blocks, keys)
      requires g.dataAreaStart + |keys| + n <= |dev.blocks|
      modifies dev
      ensures g.Fits(dev.blocks) && OnlyBitmap(g, old(dev.blocks), dev.blocks)
      ensures |ids| == n && Distinct(ids) && BitsAre(g, dev.blocks, keys + Elems(ids))
      ensures |dev.blocks| == |old(dev.blocks)|
      ensures forall k | 0 <= k < |ids| :: ids[k] !in keys && g.dataAreaStart <= ids[k] < |dev.blocks|
    {
      hide BitsAre, Distinct, Elems, OnlyBitmap, Geometry.Fits;
      NoneMore(keys);
      OnlyBitmapRefl(g, dev.blocks);
      EmptyDistinct();
      ids := [];
      for k := 0 to n
        invariant g.Fits(dev.blocks) && OnlyBitmap(g, old(dev.blocks), dev.blocks)
        invariant |dev.blocks| == |old(dev.blocks)|
        invariant |ids| == k && Distinct(ids) && BitsAre(g, dev.blocks, keys + Elems(ids))
        invariant forall k | 0 <= k < |ids| :: ids[k] !in keys && g.dataAreaStart <= ids[k] < |dev.blocks|
      {
        UnionCard(keys, ids);
        ghost var d := dev.blocks;
        var id := AllocData(keys + Elems(ids));
        AppendFresh(keys, ids, id);
        OnlyBitmapTrans(g, old(dev.blocks), d, dev.blocks);
        ids := ids + [id];
      }
    }

    /** Grows the inode to `newSize`, allocating the blocks that takes; a smaller size changes nothing. */
    method IncreaseSize(newSize: nat, ino: DiskInode, ghost v: View, ghost cs: seq<seq<byte>>, ghost i: nat)
      returns (ghost v': View)
      requires ino.Valid() && FsOk(v, cs) && v.d == dev.blocks && v.g == g
      requires i < |v.inos| && v.inos[i] == ino.Rec() && newSize <= MAX_SIZE
      requires newSize >= ino.size ==>
                 g.dataAreaStart + Used(cs) + BlocksNumNeeded(ino.size, newSize) <= |dev.blocks|
      modifies ino, dev
      ensures ino.Valid() && ino.kind == old(ino.kind) && ino.size == Max(old(ino.size), newSize)
      ensures v'.d == dev.blocks && v'.g == g && v'.inos == v.inos[i := ino.Rec()]
      ensures FsOk(v', cs[i := cs[i] + Zeros(ino.size - |cs[i]|)])
      ensures SameFront(g, old(dev.blocks), dev.blocks)
    {
      hide FsOk, SlotCount;
      SizeIsLength(v, cs, i);
      if newSize < ino.size {
        v' := v;
        assert cs[i] + Zeros(0) == cs[i];
        assert v.inos[i := ino.Rec()] == v.inos && cs[i := cs[i] + Zeros(0)] == cs;
      } else {
        v' := Grow(newSize, ino, v, cs, i);
      }
    }

    method Grow(newSize: nat, ino: DiskInode, ghost v: View, ghost cs: seq<seq<byte>>, ghost i: nat)
      returns (ghost v': View)
      requires ino.Valid() && FsOk(v, cs) && v.d == dev.blocks && v.g == g
      requires i < |v.inos| && v.inos[i] == ino.Rec() && ino.size <= newSize <= MAX_SIZE
      requires g.dataAreaStart + Used(cs) + BlocksNumNeeded(ino.size, newSize) <= |dev.blocks|
      modifies ino, dev
      ensures ino.Valid() && ino.kind == old(ino.kind) && ino.size == newSize
      ensures v'.d == dev.blocks && v'.g == g && v'.inos == v.inos[i := ino.Rec()]
      ensures FsOk(v', cs[i := cs[i] + Zeros(ino.size - |cs[i]|)])
      ensures SameFront(g, old(dev.blocks), dev.blocks)
    {
      hide FsOk, BitsAre, SlotCount, IndexBlocks, Distinct, InDevice, NodeAt, OnlyBitmap, SameFront, SpareZero, AllZero;
      GrowPrepare(v, cs);
      var needed := BlocksNumNeeded(ino.size, newSize);
      var ids := AllocMany(needed, v.owner.Keys);
      ghost var d1 := dev.blocks;
      GrowReady(v, cs, i, d1, ids);
      ino.IncreaseSize(newSize, ids, dev);
      assert ids[..needed] == ids;
      v' := GrowDone(v, cs, i, d1, ino.Rec(), dev.blocks, ids);
    }

    /** The inode as `read_disk_inode` hands it to its closure. */
    method ReadDiskInode(i: nat) returns (ino: DiskInode)
      requires g.Fits(dev.blocks) && i < g.inodeBitmap.Maximum()
      ensures fresh(ino) && ino.Valid() && ino.Rec() == g.InodeAt(dev.blocks, i)
    {
      var (block, offset) := g.GetDiskInodePos(i);
      g.InodeBlockInArea(dev.blocks, i);
      ino := new DiskInode(DecodeInode(dev.blocks[block][offset..offset + INODE_SIZE]));
    }

    /** The inode back in its place when the closure of `modify_disk_inode` returns. */
    method WriteBack(i: nat, ino: DiskInode)
      requires g.Fits(dev.blocks) && i < g.inodeBitmap.Maximum() && ino.Valid()
      modifies dev
      ensures g.Stored(old(dev.blocks), dev.blocks, i, ino.Rec())
    {
      hide DecodeInode, StoreInode, Quarter;
      var block := g.InodeBlock(i);
      g.InodeBlockInArea(dev.blocks, i);
      g.StoreInodeStores(dev.blocks, i, ino.Rec());
      dev.blocks := dev.blocks[block := StoreInode(dev.blocks[block], i % INODES_PER_BLOCK, ino.Rec())];
    }

    /** Reads up to `buf.Length` bytes at `offset`, clipped at the end of the file. */
    method ReadAt(i: nat, offset: nat, buf: array<byte>) returns (n: nat)
      requires Valid() && i < |table|
      modifies buf
      ensures Valid() && table == old(table)
      ensures n == (if offset >= |NodeBytes(table[i])| then 0 else Min(buf.Length, |NodeBytes(table[i])| - offset))
      ensures forall k | 0 <= k < n :: offset + k < |NodeBytes(table[i])| && buf[k] == NodeBytes(table[i])[offset + k]
      ensures n <= buf.Length && buf[..n] == ReadOf(NodeBytes(table[i]), offset, buf.Length)
      ensures buf[n..] == old(buf[n..])
    {
      hide Content, Owns, BitsAre, Zeroed, Used, IsTree, SuperOk, InodeBitsAre, DirBytes;
      var ino := ReadDiskInode(i);
      MountedFile(g, dev.blocks, owner, table, i);
      n := ino.ReadAt(offset, buf, dev);
    }

    /** `increase_size` then `write_at` on an inode in hand. */
    method GrowAndWrite(ino: DiskInode, offset: nat, buf: seq<byte>, ghost v: View, ghost cs: seq<seq<byte>>,
                        ghost i: nat)
      returns (n: nat, ghost v': View)
      requires ino.Valid() && FsOk(v, cs) && v.d == dev.blocks && v.g == g
      requires i < |v.inos| == |cs| && v.inos[i] == ino.Rec() && |cs[i]| == ino.size
      requires offset + |buf| <= MAX_SIZE && WriteOk(|cs[i]|, offset, |buf|)
      requires offset + |buf| >= |cs[i]| ==>
                 g.dataAreaStart + Used(cs) + BlocksNumNeeded(|cs[i]|, offset + |buf|) <= |dev.blocks|
      modifies ino, dev
      ensures ino.Valid() && ino.kind == old(ino.kind) && n == |buf|
      ensures v'.d == dev.blocks && v'.g == g && v'.inos == v.inos[i := ino.Rec()]
      ensures FsOk(v', cs[i := Overwrite(cs[i], offset, buf)])
      ensures SameFront(g, old(dev.blocks), dev.blocks) && g.Fits(dev.blocks) && |dev.blocks| == |old(dev.blocks)|
    {
      hide FsOk, Rewritten, Sound, SlotCount, SameFront, Content, Overwrite, Used, WriteOk, CanWrite;
      ghost var d0 := dev.blocks;
      ghost var v1 := IncreaseSize(offset + |buf|, ino, v, cs, i);
      ghost var c1 := cs[i] + Zeros(ino.size - |cs[i]|);
      FileIsSound(v1, cs[i := c1], i);
      WriteOkSuffices(ino.Rec(), dev.blocks, |cs[i]|, offset, |buf|);
      var written := ino.WriteAt(offset, buf, dev);
      assert buf[..written] == buf;
      WriteFinish(v1, cs, i, c1, d0, dev.blocks, offset, buf);
      n, v' := written, v1.(d := dev.blocks);
    }

    /** Writes `buf` at `offset`, growing the file as needed. */
    method WriteAt(i: nat, offset: nat, buf: seq<byte>) returns (n: nat)
      requires Valid() && i < |table| && table[i].FileNode?
      requires offset + |buf| <= MAX_SIZE && WriteOk(|table[i].bytes|, offset, |buf|)
      requires Room(g, |dev.blocks|, table, i, Max(|table[i].bytes|, offset + |buf|))
      modifies this, dev
      ensures Valid() && n == |buf| && |dev.blocks| == |old(dev.blocks)|
      ensures table == old(table)[i := FileNode(Overwrite(old(table)[i].bytes, offset, buf))]
      ensures |table[i].bytes| == Max(|old(table)[i].bytes|, offset + |buf|)
      ensures forall p | 0 <= p < |table[i].bytes| ::
                table[i].bytes[p] == if offset <= p < offset + |buf| then buf[p - offset]
                                     else if p < |old(table)[i].bytes| then old(table)[i].bytes[p] else 0
    {
      hide Mounted, FsOk, IsTree, Room, Rewritten, Sound, SlotCount, SameFront, Content, Overwrite, Used;
      MountedFile(g, dev.blocks, owner, table, i);
      ghost var v, cs, d0 := ViewOf(g, dev.blocks, owner, |table|), BytesOf(table), dev.blocks;
      RoomToGrow(g, d0, owner, table, i, offset + |buf|);
      var ino := ReadDiskInode(i);
      ghost var v1;
      n, v1 := GrowAndWrite(ino, offset, buf, v, cs, i);
      ghost var d2 := dev.blocks;
      WriteBack(i, ino);
      FileDone(g, d0, owner, table, i, ino.Rec(), d2, v1.owner, Overwrite(cs[i], offset, buf), dev.blocks);
      owner, table := v1.owner, table[i := FileNode(Overwrite(table[i].bytes, offset, buf))];
      forall p: nat | p < |table[i].bytes|
        ensures table[i].bytes[p] == if offset <= p < offset + |buf| then buf[p - offset]
                                     else if p < |old(table)[i].bytes| then old(table)[i].bytes[p] else 0
      {
        OverwriteBytes(old(table)[i].bytes, offset, buf, p);
      }
    }

    /** Zeroes a data block and clears its bit, which the code asserts to be set. */
    method DeallocData(id: u32, ghost used: set<u32>)
      requires g.Fits(dev.blocks) && BitsAre(g, dev.blocks, used)
      requires id in used && g.dataAreaStart <= id < |dev.blocks|
      modifies dev
      ensures g.Fits(dev.blocks) && SameFront(g, old(dev.blocks), dev.blocks)
      ensures BitsAre(g, dev.blocks, used - {id})
      ensures forall b: nat | g.dataAreaStart <= b < |dev.blocks| ::
                dev.blocks[b] == if b == id then ZeroBlock() else old(dev.blocks)[b]
    {
      hide Bit, ZeroBlock;
      dev.blocks := dev.blocks[id := ZeroBlock()];
      BitsFrame(g, old(dev.blocks), dev.blocks, used);
      BitBlockInArea(g, dev.blocks, id - g.dataAreaStart);
      g.dataBitmap.Dealloc(dev, id - g.dataAreaStart);
    }

    method DeallocAll(ids: seq<u32>, ghost used: set<u32>)
      requires g.Fits(dev.blocks) && BitsAre(g, dev.blocks, used) && Distinct(ids)
      requires forall k | 0 <= k < |ids| :: ids[k] in used && g.dataAreaStart <= ids[k] < |dev.blocks|
      modifies dev
      ensures g.Fits(dev.blocks) && SameFront(g, old(dev.blocks), dev.blocks)
      ensures BitsAre(g, dev.blocks, used - Elems(ids)) && |dev.blocks| == |old(dev.blocks)|
      ensures forall b: nat | g.dataAreaStart <= b < |dev.blocks| ::
                dev.blocks[b] == if b in ids then ZeroBlock() else old(dev.blocks)[b]
    {
      hide BitsAre, ZeroBlock;
      assert used - Elems(ids[..0]) == used;
      for k := 0 to |ids|
        invariant g.Fits(dev.blocks) && SameFront(g, old(dev.blocks), dev.blocks)
        invariant BitsAre(g, dev.blocks, used - Elems(ids[..k]))
        invariant forall b: nat | g.dataAreaStart <= b < |dev.blocks| ::
                    dev.blocks[b] == if b in ids[..k] then ZeroBlock() else old(dev.blocks)[b]
      {
        assert ids[k] !in ids[..k];
        assert ids[..k + 1] == ids[..k] + [ids[k]];
        assert used - Elems(ids[..k]) - {ids[k]} == used - Elems(ids[..k + 1]);
        DeallocData(ids[k], used - Elems(ids[..k]));
      }
      assert ids[..|ids|] == ids;
    }

    /** Empties the file and returns all its blocks. */
    method Clear(i: nat)
      requires Valid() && i < |table| && table[i].FileNode?
      modifies this, dev
      ensures Valid() && table == old(table)[i := FileNode([])] && |dev.blocks| == |old(dev.blocks)|
    {
      hide Mounted, FsOk, IsTree, SameFront, Content, Used, Distinct, BitsAre, SlotCount, SpareZero, EmptyInode;
      MountedFile(g, dev.blocks, owner, table, i);
      ghost var v, cs, d0 := ViewOf(g, dev.blocks, owner, |table|), BytesOf(table), dev.blocks;
      var ino := ReadDiskInode(i);
      var ids := ino.ClearSize(dev);
      ClearPrepare(v, cs, i);
      ClearedIsEmpty(v.inos[i], d0, ino.Rec());
      assert |ids| == TotalBlocks(g.InodeAt(d0, i).size);
      DeallocAll(ids, v.owner.Keys);
      ghost var d2 := dev.blocks;
      ghost var owner2 := ClearFinish(v, cs, i, ino.Rec(), d2);
      WriteBack(i, ino);
      FileDone(g, d0, owner, table, i, ino.Rec(), d2, owner2, [], dev.blocks);
      owner, table := owner2, table[i := FileNode([])];
    }

    /** Entry `k` of a directory, through a 32-byte read. */
    method ReadEntry(ino: DiskInode, k: nat, ghost es: seq<DirEntry>) returns (name: Name, id: u32)
      requires ino.Valid() && Sound(ino.Rec(), dev.blocks) && ValidNames(es) && k < |es|
      requires Content(ino.Rec(), dev.blocks) == DirBytes(es)
      ensures name == es[k].name && id == es[k].id
    {
      hide Sound, Content, DirBytes, EntryBytes, EntryName;
      var buf := new byte[DIRENT_SZ](_ => 0);
      var n := ino.ReadAt(DIRENT_SZ * k, buf, dev);
      assert n == DIRENT_SZ;
      DirBytesAt(es, k);
      assert buf[..] == DirBytes(es)[DIRENT_SZ * k..DIRENT_SZ * k + DIRENT_SZ];
      EntryNameRoundTrip(es[k]);
      EntryIdRoundTrip(es[k]);
      name := EntryName(buf[..]).value;
      id := EntryId(buf[..]);
    }

    /** Scans a directory for `name`: the first entry that has it. */
    method FindInodeId(name: Name, ino: DiskInode, ghost es: seq<DirEntry>) returns (r: Option<u32>)
      requires ino.Valid() && Sound(ino.Rec(), dev.blocks) && ValidNames(es)
      requires Content(ino.Rec(), dev.blocks) == DirBytes(es)
      ensures r == Lookup(es, name)
      ensures r.None? ==> forall k | 0 <= k < |es| :: es[k].name != name
      ensures r.Some? ==> exists k: nat :: IsFirst(es, name, k) && r == Some(es[k].id)
    {
      hide Sound, Content, DirBytes, ValidNames;
      var fileCount := ino.size / DIRENT_SZ;
      assert fileCount == |es|;
      for k := 0 to fileCount
        invariant forall j | 0 <= j < k :: es[j].name != name
      {
        var entryName, id := ReadEntry(ino, k, es);
        if entryName == name {
          LookupFirst(es, k, name);
          assert IsFirst(es, name, k);
          return Some(id);
        }
      }
      r := None;
    }

    /** Follows a slash-separated path down from inode `i`: whatever names the path spells, in order. */
    method Find(i: nat, path: Name) returns (r: Option<nat>)
      requires Valid() && i < |table|
      ensures r == Walk(table, i, Components(path))
      ensures forall cs, gaps, x: nat | Spells(path, cs, gaps) :: r == Some(x) <==> Reaches(table, i, cs, x)
    {
      hide Mounted, Spells, Reaches, Components, Walk;
      r := FollowNames(i, Components(path));
      FindsSpelled(g, dev.blocks, owner, table, i, path);
    }

    method FollowNames(i: nat, names: seq<Name>) returns (r: Option<nat>)
      requires Valid() && i < |table|
      ensures r == Walk(table, i, names)
    {
      hide Mounted, Sound, Content, DirBytes, ValidNames, FsOk, IsTree;
      var id: nat := i;
      for k := 0 to |names|
        invariant id < |table| && Walk(table, i, names) == Walk(table, id, names[k..])
      {
        MountedFile(g, dev.blocks, owner, table, id);
        var ino := ReadDiskInode(id);
        if ino.kind == File {
          return None;
        }
        var inodeId := FindInodeId(names[k], ino, table[id].entries);
        if inodeId == None {
          return None;
        }
        EntryInTable(g, dev.blocks, owner, table, id, names[k]);
        id := inodeId.value;
      }
      r := Some(id);
    }

    /** The names in a directory, in the order of its entries; none for a file. */
    method Ls(i: nat) returns (names: seq<Name>)
      requires Valid() && i < |table|
      ensures table[i].FileNode? ==> names == []
      ensures table[i].DirNode? ==> |names| == |table[i].entries|
      ensures table[i].DirNode? ==> forall k | 0 <= k < |names| :: names[k] == table[i].entries[k].name
    {
      hide Mounted, Sound, Content, DirBytes, ValidNames, FsOk, IsTree;
      MountedFile(g, dev.blocks, owner, table, i);
      var ino := ReadDiskInode(i);
      if ino.kind == File {
        names := [];
      } else {
        names := ListNames(ino, table[i].entries);
      }
    }

    method ListNames(ino: DiskInode, ghost es: seq<DirEntry>) returns (names: seq<Name>)
      requires ino.Valid() && Sound(ino.Rec(), dev.blocks) && ValidNames(es)
      requires Content(ino.Rec(), dev.blocks) == DirBytes(es)
      ensures |names| == |es| && forall k | 0 <= k < |names| :: names[k] == es[k].name
    {
      hide Sound, Content, DirBytes, ValidNames;
      names := [];
      var fileCount := ino.size / DIRENT_SZ;
      assert fileCount == |es|;
      for k := 0 to fileCount
        invariant |names| == k && forall j | 0 <= j < k :: names[j] == es[j].name
      {
        var name, _ := ReadEntry(ino, k, es);
        names := names + [name];
      }
    }

    /** Takes the lowest free inode number; inodes are never freed, so that is the number of inodes in use. */
    method AllocInode(ghost n: nat) returns (id: nat)
      requires g.Fits(dev.blocks) && InodeBitsAre(g, dev.blocks, n) && n < g.inodeBitmap.Maximum()
      modifies dev
      ensures id == n && g.Fits(dev.blocks) && InodeBitsAre(g, dev.blocks, n + 1)
      ensures |dev.blocks| == |old(dev.blocks)|
      ensures forall b: nat | b < |dev.blocks| && !(1 <= b < g.inodeAreaStart) :: dev.blocks[b] == old(dev.blocks)[b]
    {
      hide Bit;
      assert !g.inodeBitmap.IsSet(dev.blocks, n);
      var r := g.inodeBitmap.Alloc(dev);
      id := r.value;
      InodeBitInArea(g, old(dev.blocks), id);
    }

    /** Allocates and initializes an inode. */
    method NewInode(kind: Kind, ghost n: nat) returns (id: nat)
      requires g.Fits(dev.blocks) && SuperOk(g, dev.blocks) && InodeBitsAre(g, dev.blocks, n)
      requires n < g.inodeBitmap.Maximum()
      modifies dev
      ensures id == n && g.Fits(dev.blocks) && SuperOk(g, dev.blocks) && InodeBitsAre(g, dev.blocks, n + 1)
      ensures Inos(g, dev.blocks, n + 1)
           == old(Inos(g, dev.blocks, n)) + [InodeRec(0, seq(INODE_DIRECT_COUNT, _ => 0), 0, 0, kind)]
      ensures |dev.blocks| == |old(dev.blocks)|
      ensures forall b: nat | g.dataBitmap.startBlockId <= b < |dev.blocks| :: dev.blocks[b] == old(dev.blocks)[b]
    {
      hide Bit, DecodeSuper, DecodeInode, Quarter, InodeBitsAre, FieldsOf;
      id := AllocInode(n);
      InodesFrame(g, old(dev.blocks), dev.blocks, n);
      var ino := ReadDiskInode(id);
      ino.Initialize(kind);
      ghost var d1 := dev.blocks;
      WriteBack(id, ino);
      StoredFrame(g, d1, dev.blocks, id, ino.Rec(), n + 1);
    }

    /** Appends an entry to directory `dir`. */
    method AppendEntry(dir: nat, e: DirEntry, ghost v: View, ghost cs: seq<seq<byte>>, ghost es: seq<DirEntry>)
      returns (ghost v': View)
      requires v.g == g && v.d == dev.blocks && FsOk(v, cs) && g.Fits(dev.blocks)
      requires dir < |v.inos| <= g.inodeBitmap.Maximum() && v.inos == Inos(g, dev.blocks, |v.inos|)
      requires ValidNames(es) && ValidName(e.name) && |cs| == |v.inos| && cs[dir] == DirBytes(es)
      requires SuperOk(g, dev.blocks) && InodeBitsAre(g, dev.blocks, |v.inos|)
      requires |cs[dir]| + DIRENT_SZ <= MAX_SIZE
      requires g.dataAreaStart + Used(cs) + BlocksNumNeeded(|cs[dir]|, |cs[dir]| + DIRENT_SZ) <= |dev.blocks|
      modifies dev
      ensures g.Fits(dev.blocks) && SuperOk(g, dev.blocks) && InodeBitsAre(g, dev.blocks, |v.inos|)
      ensures |dev.blocks| == |old(dev.blocks)|
      ensures v'.g == g && v'.d == dev.blocks && v'.inos == Inos(g, dev.blocks, |v.inos|)
      ensures |v'.inos| == |v.inos| && forall i: nat | i < |v.inos| :: v'.inos[i].kind == v.inos[i].kind
      ensures ValidNames(es + [e]) && FsOk(v', cs[dir := DirBytes(es + [e])])
    {
      hide FsOk, SlotCount, SameFront, Overwrite, Used, DirBytes, SuperOk, InodeBitsAre, ValidNames, EntryBytes;
      SizeIsLength(v, cs, dir);
      var ino := ReadDiskInode(dir);
      ghost var d0 := dev.blocks;
      var fileCount := ino.size / DIRENT_SZ;
      assert fileCount == |es|;
      var _, v1 := GrowAndWrite(ino, fileCount * DIRENT_SZ, EntryBytes(e), v, cs, dir);
      ghost var d2 := dev.blocks;
      AppendIsOverwrite(es, e);
      WriteBack(dir, ino);
      ghost var cs' := cs[dir := DirBytes(es + [e])];
      v' := v1.(d := dev.blocks);
      Remount(g, d0, |v.inos|, dir, ino.Rec(), d2, v1, cs', dev.blocks);
    }

    /** Adds `name` to directory `dir` with a new, empty node, unless the name is taken. */
    method CreateInode(dir: nat, name: Name, kind: Kind) returns (r: Option<nat>)
      requires Valid() && dir < |table| && table[dir].DirNode? && ValidName(name)
      requires Lookup(table[dir].entries, name).None? ==>
                 && |table| < g.inodeBitmap.Maximum() && |table| < U32_LIMIT
                 && |NodeBytes(table[dir])| + DIRENT_SZ <= MAX_SIZE
                 && Room(g, |dev.blocks|, table, dir, |NodeBytes(table[dir])| + DIRENT_SZ)
      modifies this, dev
      ensures Valid() && |dev.blocks| == |old(dev.blocks)|
      ensures Lookup(old(table)[dir].entries, name).Some? ==>
                r == None && table == old(table) && dev.blocks == old(dev.blocks)
      ensures Lookup(old(table)[dir].entries, name).None? ==>
                |old(table)| < U32_LIMIT && r == Some(|old(table)|) && table == Create(old(table), dir, name, kind)
      ensures r.Some? ==>
                && |old(table)| < U32_LIMIT && |table| == |old(table)| + 1
                && table[dir] == DirNode(old(table)[dir].entries + [DirEntry(name, |old(table)|)])
                && table[|old(table)|] == (if kind == Directory then DirNode([]) else FileNode([]))
                && forall k: nat | k < |old(table)| && k != dir :: table[k] == old(table)[k]
      ensures r.None? <==> exists k :: 0 <= k < |old(table)[dir].entries| && old(table)[dir].entries[k].name == name
    {
      hide Mounted, FsOk, IsTree, Room, Sound, SlotCount, Content, Used, DirBytes, SuperOk, InodeBitsAre, ValidNames;
      MountedFile(g, dev.blocks, owner, table, dir);
      var ino := ReadDiskInode(dir);
      var found := FindInodeId(name, ino, table[dir].entries);
      if found.Some? {
        return None;
      }
      ghost var es, t, d0 := table[dir].entries, table, dev.blocks;
      CreatePrepare(g, d0, owner, t, dir);
      var id := NewInode(kind, |t|);
      ghost var v, cs := NewInodeView(g, d0, owner, t, kind, dev.blocks);
      var e := DirEntry(name, id);
      ghost var v' := AppendEntry(dir, e, v, cs, es);
      CreateFinish(g, d0, owner, t, dir, name, kind, v, v', dev.blocks);
      owner, table := v'.owner, Create(t, dir, name, kind);
      r := Some(id);
    }
  }

  lemma InodesFrame(g: Geometry, d: Disk, d': Disk, n: nat)
    requires g.Fits(d) && n <= g.inodeBitmap.Maximum() && |d'| == |d|
    requires forall b: nat | b < |d| && !(1 <= b < g.inodeAreaStart) :: d'[b] == d[b]
    ensures g.Fits(d') && Inos(g, d', n) == Inos(g, d, n) && (SuperOk(g, d) ==> SuperOk(g, d'))
  {
    hide DecodeInode, Quarter, DecodeSuper, FieldsOf;
    forall i: nat | i < n ensures g.InodeAt(d', i) == g.InodeAt(d, i) { g.InodeBlockInArea(d, i); }
  }

  /** Storing an inode changed on the side makes the inodes on the device match the view again. */
  lemma Remount(g: Geometry, d0: Disk, n: nat, i: nat, ino: Inode, d2: Disk, v: View, cs: seq<seq<byte>>, d3: Disk)
    requires g.Fits(d0) && n <= g.inodeBitmap.Maximum() && i < n && SameFront(g, d0, d2) && g.Fits(d2)
    requires v.g == g && v.d == d2 && v.inos == Inos(g, d0, n)[i := ino] && FsOk(v, cs)
    requires SuperOk(g, d0) && InodeBitsAre(g, d0, n) && g.Stored(d2, d3, i, ino)
    ensures g.Fits(d3) && SuperOk(g, d3) && InodeBitsAre(g, d3, n)
    ensures v.inos == Inos(g, d3, n) && FsOk(v.(d := d3), cs)
  {
    hide FsOk, InodeBitsAre, SuperOk;
    FrontFrame(g, d0, d2, n);
    StoredFrame(g, d2, d3, i, ino, n);
    InodeStep(v, cs, d3);
  }

  lemma AppendIsOverwrite(es: seq<DirEntry>, e: DirEntry)
    requires ValidNames(es) && ValidName(e.name)
    ensures ValidNames(es + [e])
    ensures Overwrite(DirBytes(es), |DirBytes(es)|, EntryBytes(e)) == DirBytes(es + [e])
  {
    hide DirBytes;
    DirBytesAppend(es, e);
  }

  lemma CreatePrepare(g: Geometry, d: Disk, owner: map<u32, (nat, nat)>, t: Table, dir: nat)
    requires Mounted(g, d, owner, t) && dir < |t|
    requires |NodeBytes(t[dir])| + DIRENT_SZ <= MAX_SIZE && Room(g, |d|, t, dir, |NodeBytes(t[dir])| + DIRENT_SZ)
    ensures g.Fits(d) && SuperOk(g, d) && InodeBitsAre(g, d, |t|)
    ensures var size := |NodeBytes(t[dir])|;
            g.dataAreaStart + Used(BytesOf(t)) + BlocksNumNeeded(size, size + DIRENT_SZ) <= |d|
  {
  }

  /** After an inode was added the view has one more, empty file. */
  lemma NewInodeView(g: Geometry, d0: Disk, owner: map<u32, (nat, nat)>, t: Table, kind: Kind, d: Disk)
    returns (v: View, cs: seq<seq<byte>>)
    requires Mounted(g, d0, owner, t) && g.Fits(d) && |t| < g.inodeBitmap.Maximum() && |d| == |d0|
    requires Inos(g, d, |t| + 1)
          == Inos(g, d0, |t|) + [InodeRec(0, seq(INODE_DIRECT_COUNT, _ => 0), 0, 0, kind)]
    requires forall b: nat | g.dataBitmap.startBlockId <= b < |d| :: d[b] == d0[b]
    ensures v == View(g, d, Inos(g, d, |t| + 1), owner) && cs == BytesOf(t) + [[]]
    ensures FsOk(v, cs) && Used(cs) == Used(BytesOf(t))
  {
    hide FsOk, IsTree;
    v, cs := View(g, d, Inos(g, d, |t| + 1), owner), BytesOf(t) + [[]];
    InodeStep(ViewOf(g, d0, owner, |t|), BytesOf(t), d);
    NewInodeStep(View(g, d, Inos(g, d0, |t|), owner), BytesOf(t), v.inos[|t|]);
    EmptyFile();
    assert cs[..|t|] == BytesOf(t);
  }

  lemma CreateFinish(g: Geometry, d0: Disk, owner: map<u32, (nat, nat)>, t: Table, dir: nat, name: Name, kind: Kind,
                     v: View, v': View, d: Disk)
    requires Mounted(g, d0, owner, t) && dir < |t| < U32_LIMIT && |t| < g.inodeBitmap.Maximum()
    requires t[dir].DirNode? && ValidName(name) && Lookup(t[dir].entries, name).None?
    requires v.inos == Inos(g, d0, |t|) + [InodeRec(0, seq(INODE_DIRECT_COUNT, _ => 0), 0, 0, kind)]
    requires g.Fits(d) && SuperOk(g, d) && InodeBitsAre(g, d, |t| + 1)
    requires v'.g == g && v'.d == d && v'.inos == Inos(g, d, |t| + 1)
    requires forall i: nat | i < |v.inos| :: v'.inos[i].kind == v.inos[i].kind
    requires ValidNames(t[dir].entries + [DirEntry(name, |t|)])
    requires FsOk(v', (BytesOf(t) + [[]])[dir := DirBytes(t[dir].entries + [DirEntry(name, |t|)])])
    ensures Mounted(g, d, v'.owner, Create(t, dir, name, kind))
  {
    hide FsOk, SuperOk, InodeBitsAre, DirBytes;
    var t' := Create(t, dir, name, kind);
    CreateKeepsTree(t, dir, name, kind);
    CreateBytes(t, dir, name, kind);
    assert KindsAre(v'.inos, t');
  }

  lemma CreateBytes(t: Table, dir: nat, name: Name, kind: Kind)
    requires IsTree(t) && dir < |t| < U32_LIMIT && t[dir].DirNode?
    requires ValidNames(t[dir].entries + [DirEntry(name, |t|)]) && IsTree(Create(t, dir, name, kind))
    ensures BytesOf(Create(t, dir, name, kind))
         == (BytesOf(t) + [[]])[dir := DirBytes(t[dir].entries + [DirEntry(name, |t|)])]
  {
    var t' := Create(t, dir, name, kind);
    assert DirBytes([]) == [];
    hide DirBytes, IsTree;
    forall i: nat | i < |t'|
      ensures BytesOf(t')[i] == (BytesOf(t) + [[]])[dir := DirBytes(t[dir].entries + [DirEntry(name, |t|)])][i]
    {
    }
  }

  /** Entry `k` is the first called `name`. */
  ghost predicate IsFirst(es: seq<DirEntry>, name: Name, k: nat)
  {
    k < |es| && es[k].name == name && forall j | 0 <= j < k :: es[j].name != name
  }

  lemma {:induction false} LookupFirst(es: seq<DirEntry>, k: nat, name: Name)
    requires k < |es| && es[k].name == name && forall j | 0 <= j < k :: es[j].name != name
    ensures Lookup(es, name) == Some(es[k].id)
  {
    if k > 0 {
      LookupFirst(es[1..], k - 1, name);
    }
  }

  lemma FindsSpelled(g: Geometry, d: Disk, owner: map<u32, (nat, nat)>, t: Table, i: nat, path: Name)
    requires Mounted(g, d, owner, t)
    ensures forall cs, gaps, x: nat | Spells(path, cs, gaps) ::
              Walk(t, i, Components(path)) == Some(x) <==> Reaches(t, i, cs, x)
  {
    hide FsOk, IsTree, Spells, Reaches, Components, Walk;
    forall cs, gaps, x: nat | Spells(path, cs, gaps)
      ensures Walk(t, i, Components(path)) == Some(x) <==> Reaches(t, i, cs, x)
    {
      SplitSpelling(path, cs, gaps);
      WalkExactly(t, i, cs);
    }
  }

  lemma EntryInTable(g: Geometry, d: Disk, owner: map<u32, (nat, nat)>, t: Table, i: nat, name: Name)
    requires Mounted(g, d, owner, t) && i < |t| && t[i].DirNode? && Lookup(t[i].entries, name).Some?
    ensures Lookup(t[i].entries, name).value < |t|
  {
    hide FsOk;
    var k := LookupIndex(t[i].entries, name);
    assert Points(t, i, k, t[i].entries[k].id);
  }

  lemma ClearPrepare(v: View, cs: seq<seq<byte>>, i: nat)
    requires FsOk(v, cs) && i < |v.inos|
    ensures v.g.Fits(v.d) && BitsAre(v.g, v.d, v.owner.Keys) && Distinct(Owned(v.inos[i], v.d))
    ensures v.inos[i].size <= MAX_SIZE && SpareZero(v.inos[i], v.d)
    ensures forall k | 0 <= k < |Owned(v.inos[i], v.d)| ::
              && Owned(v.inos[i], v.d)[k] in v.owner.Keys
              && v.g.dataAreaStart <= Owned(v.inos[i], v.d)[k] < |v.d|
  {
    hide NodeAt, TotalBlocks, SpareZero;
    SoundFile(v, i);
    var all := Owned(v.inos[i], v.d);
    forall k | 0 <= k < |all|
      ensures all[k] in v.owner.Keys && v.g.dataAreaStart <= all[k] < |v.d|
    {
      assert all[k] in all;
      assert BlockPlaced(v, all[k]);
    }
  }

  lemma ClearFinish(v: View, cs: seq<seq<byte>>, i: nat, ino: Inode, d: Disk) returns (owner: map<u32, (nat, nat)>)
    requires FsOk(v, cs) && i < |v.inos| && EmptyInode(ino) && |d| == |v.d| && v.g.Fits(d)
    requires BitsAre(v.g, d, v.owner.Keys - Elems(Owned(v.inos[i], v.d)))
    requires forall b: nat | v.g.dataAreaStart <= b < |d| ::
               d[b] == if b in Owned(v.inos[i], v.d) then ZeroBlock() else v.d[b]
    ensures FsOk(View(v.g, d, v.inos[i := ino], owner), cs[i := []])
  {
    hide NodeAt, TotalBlocks, BitsAre, Used, Reads, ZeroBlock;
    SoundFile(v, i);
    var all := Owned(v.inos[i], v.d);
    forall b | b in v.owner && v.owner[b].0 == i
      ensures b in all
    {
      assert BlockPlaced(v, b);
      assert all[v.owner[b].1] == b;
    }
    assert Freed(v, i, d);
    ClearStep(v, cs, i, ino, d);
    owner := AfterClear(v, i, ino, d).owner;
  }

  /** On a device of `blocks` blocks there are enough free ones for node `i` to have `size` bytes. */
  ghost predicate Room(g: Geometry, blocks: nat, t: Table, i: nat, size: nat)
    requires IsTree(t) && i < |t|
  {
    var c := NodeBytes(t[i]);
    size >= |c| ==> g.dataAreaStart + Used(BytesOf(t)) + BlocksNumNeeded(|c|, size) <= blocks
  }

  lemma RoomToGrow(g: Geometry, d: Disk, owner: map<u32, (nat, nat)>, t: Table, i: nat, size: nat)
    requires Mounted(g, d, owner, t) && i < |t| && Room(g, |d|, t, i, Max(|NodeBytes(t[i])|, size))
    ensures size >= |NodeBytes(t[i])| ==>
              g.dataAreaStart + Used(BytesOf(t)) + BlocksNumNeeded(|NodeBytes(t[i])|, size) <= |d|
  {
  }

  /** The stored inode of a mounted file reads as the node's bytes. */
  lemma MountedFile(g: Geometry, d: Disk, owner: map<u32, (nat, nat)>, t: Table, i: nat)
    requires Mounted(g, d, owner, t) && i < |t|
    ensures g.Fits(d) && i < |t| <= g.inodeBitmap.Maximum() && IsTree(t)
    ensures t[i].DirNode? ==> ValidNames(t[i].entries)
    ensures FsOk(ViewOf(g, d, owner, |t|), BytesOf(t))
    ensures var ino := g.InodeAt(d, i);
            && Sound(ino, d) && Content(ino, d) == NodeBytes(t[i]) == BytesOf(t)[i]
            && ino.size == |NodeBytes(t[i])| && (ino.kind == Directory <==> t[i].DirNode?)
  {
    SoundFile(ViewOf(g, d, owner, |t|), i);
  }

  lemma FileIsSound(v: View, cs: seq<seq<byte>>, i: nat)
    requires FsOk(v, cs) && i < |v.inos|
    ensures Sound(v.inos[i], v.d) && |cs[i]| == v.inos[i].size && SpareZero(v.inos[i], v.d) && 0 < |v.d|
  {
    SoundFile(v, i);
  }

  /** Storing the inode of a changed file mounts the changed table. */
  lemma FileDone(g: Geometry, d0: Disk, owner: map<u32, (nat, nat)>, t: Table, i: nat, ino: Inode,
                 d2: Disk, owner2: map<u32, (nat, nat)>, bytes: seq<byte>, d3: Disk)
    requires Mounted(g, d0, owner, t) && i < |t| && t[i].FileNode? && ino.kind == File
    requires SameFront(g, d0, d2) && g.Fits(d2) && g.Stored(d2, d3, i, ino)
    requires FsOk(View(g, d2, Inos(g, d0, |t|)[i := ino], owner2), BytesOf(t)[i := bytes])
    ensures Mounted(g, d3, owner2, t[i := FileNode(bytes)])
  {
    hide FsOk;
    FileChangeKeepsTree(t, i, bytes);
    StoreFinish(g, d0, owner, t, i, ino, d2, owner2, FileNode(bytes), d3);
  }

  lemma FrontAfterWrite(g: Geometry, d0: Disk, d1: Disk, d2: Disk)
    requires g.Fits(d1) && SameFront(g, d0, d1) && |d2| == |d1|
    requires forall b: nat | b < g.dataAreaStart :: d2[b] == d1[b]
    ensures SameFront(g, d0, d2) && g.Fits(d2) && |d2| == |d0|
  {
  }

  /** What a write of `length` bytes to a file of `size` bytes demands: an empty one, at or past the end, must
    * not be where an index block starts. */
  predicate WriteOk(size: nat, offset: nat, length: nat)
  {
    length > 0 || offset < size || offset % BLOCK_SZ != 0 || !StartsIndex(offset / BLOCK_SZ)
  }

  lemma WriteOkSuffices(ino: Inode, d: Disk, size: nat, offset: nat, length: nat)
    requires Sound(ino, d) && SpareZero(ino, d) && 0 < |d|
    requires ino.size == Max(size, offset + length) && WriteOk(size, offset, length)
    ensures CanWrite(ino, d, offset, length)
  {
    hide Sound, SpareZero, StartsIndex, Found;
    if !Writable(offset, ino.size) {
      NextIsFound(ino, d);
    }
  }

  /** On a formatted device of at most `EFS_MAGIC` blocks, a write fails to find its block in no other case. */
  lemma WriteExactly(g: Geometry, ino: Inode, d: Disk, size: nat, offset: nat, length: nat)
    requires SuperOk(g, d) && |d| <= EFS_MAGIC && Sound(ino, d) && SpareZero(ino, d)
    requires ino.size == Max(size, offset + length)
    ensures CanWrite(ino, d, offset, length) <==> WriteOk(size, offset, length)
  {
    hide Sound, SpareZero, StartsIndex, Found, FieldsOf;
    if WriteOk(size, offset, length) {
      WriteOkSuffices(ino, d, size, offset, length);
    } else {
      assert WordIn(d[0], 0) == EFS_MAGIC;
      NextIsLost(ino, d);
    }
  }

  lemma WriteFinish(v1: View, cs: seq<seq<byte>>, i: nat, c1: seq<byte>, d0: Disk, d2: Disk, offset: nat,
                    buf: seq<byte>)
    requires i < |v1.inos| == |cs| && FsOk(v1, cs[i := c1]) && SameFront(v1.g, d0, v1.d)
    requires Rewritten(v1.inos[i], v1.d, d2, offset, buf)
    requires |c1| == Max(|cs[i]|, offset + |buf|) && c1 == cs[i] + Zeros(|c1| - |cs[i]|)
    ensures SameFront(v1.g, d0, d2) && v1.g.Fits(d2) && |d2| == |d0|
    ensures FsOk(v1.(d := d2), cs[i := Overwrite(cs[i], offset, buf)])
  {
    hide FsOk, Rewritten, SameFront;
    WriteStep(v1, cs[i := c1], i, d2, offset, buf);
    OverwriteIs(cs, i, c1, offset, buf);
    FrontAfterWrite(v1.g, d0, v1.d, d2);
  }

  lemma OverwriteIs(cs: seq<seq<byte>>, i: nat, c1: seq<byte>, offset: nat, buf: seq<byte>)
    requires i < |cs| && |c1| == Max(|cs[i]|, offset + |buf|) && c1 == cs[i] + Zeros(|c1| - |cs[i]|)
    ensures cs[i := c1][i := Splice(c1, offset, buf)] == cs[i := Overwrite(cs[i], offset, buf)]
  {
  }

  lemma SizeIsLength(v: View, cs: seq<seq<byte>>, i: nat)
    requires FsOk(v, cs) && i < |v.inos|
    ensures |cs| == |v.inos| && |cs[i]| == v.inos[i].size <= MAX_SIZE
  {
  }

  lemma GrowFront(v: View, i: nat, ino: Inode, d: Disk, ids: seq<u32>)
    requires v.g.Fits(v.d) && Owns(v) && i < |v.inos| && Grown(v, i, ino, d, ids)
    ensures SameFront(v.g, v.d, d)
  {
    hide NodeAt, TotalBlocks;
    SoundFile(v, i);
    var was, all := Owned(v.inos[i], v.d), Owned(ino, d);
    forall b: u32 | b in IndexBlocks(all)
      ensures b >= v.g.dataAreaStart
    {
      IndexBlocksOwned(all, b);
      assert b in was || b in ids;
      if b in was { assert BlockPlaced(v, b); }
    }
  }
}
