/** The in-memory disk inode and its operations, over the logical contents of the device. */
module Layout {
  import opened Bytes
  import opened IndexTree
  import opened FileData

  /** The block device as the block cache presents it: every read sees the last write. */
  class Device {
    var blocks: Disk

    constructor (blocks: Disk)
      ensures this.blocks == blocks
    {
      this.blocks := blocks;
    }
  }

  ghost predicate AllZero(d: Disk, ids: seq<u32>)
  {
    forall b | b in ids && b < |d| :: d[b] == ZeroBlock()
  }

  /** The slot position once `r` blocks past the direct ones are in and the indirect block is allocated. */
  function Slot1(r: nat): (p: nat)
  {
    if r <= 128 then 29 + r else SlotCount(28 + r)
  }

  lemma Slot1Facts(r: nat)
    requires r > 0
    ensures SlotCount(28 + r) >= 29 + r && (r <= 128 ==> SlotCount(28 + r) == 29 + r)
  {
  }

  /** The slot position at row `a`, column `b` of the double-indirect area. */
  function Slot2(a: nat, b: nat): (p: nat)
  {
    158 + 129 * a + (if b == 0 then 0 else b + 1)
  }

  lemma Slot2IsSlotCount(r: nat)
    requires r > 0
    ensures Slot2(r / 128, r % 128) == SlotCount(156 + r)
  {
    var a, b := r / 128, r % 128;
    assert (128 * a + b + 127) / 128 == a + (if b == 0 then 0 else 1);
  }

  class DiskInode {
    var size: u32
    var direct: seq<u32>
    var indirect1: u32
    var indirect2: u32
    var kind: Kind

    constructor (r: Inode)
      ensures Valid() && Rec() == r
    {
      size, direct, indirect1, indirect2, kind := r.size, r.direct, r.indirect1, r.indirect2, r.kind;
    }

    predicate Valid()
      reads this
    {
      |direct| == INODE_DIRECT_COUNT
    }

    function Rec(): (r: Inode)
      requires Valid()
      reads this
    {
      InodeRec(size, direct, indirect1, indirect2, kind)
    }

    method Initialize(kind: Kind)
      modifies this
      ensures Valid() && Rec() == InodeRec(0, seq(INODE_DIRECT_COUNT, _ => 0), 0, 0, kind)
    {
      size := 0;
      direct := seq(INODE_DIRECT_COUNT, _ => 0);
      indirect1 := 0;
      indirect2 := 0;
      this.kind := kind;
    }

    /** `fill direct`: slots up to 28, then the indirect block if more is to come. */
    method FillDirect(current0: nat, total: nat, newBlocks: seq<u32>, dev: Device, ghost d0: Disk, ghost all: seq<u32>,
                      ghost blank: bool)
      returns (current: nat, next: nat)
      requires Valid() && current0 <= total && SlotCount(total) == |all| == SlotCount(current0) + |newBlocks|
      requires all[SlotCount(current0)..] == newBlocks
      requires Growing(Rec(), dev.blocks, d0, all, SlotCount(current0), blank)
      modifies this
      ensures Valid() && size == old(size) && kind == old(kind)
      ensures current == if current0 < 28 then Min(total, 28) else current0
      ensures total > 28 ==> SlotCount(current0) + next == Slot1(current - 28)
      ensures total <= 28 ==> next == |newBlocks|
      ensures Growing(Rec(), dev.blocks, d0, all, SlotCount(current0) + next, blank)
    {
      hide Growing;
      current, next := current0, 0;
      while current < Min(total, INODE_DIRECT_COUNT)
        invariant Valid() && size == old(size) && kind == old(kind)
        invariant current0 <= current <= total && next == SlotCount(current) - SlotCount(current0)
        invariant current0 < 28 ==> current <= 28
        invariant current0 >= 28 ==> current == current0
        invariant Growing(Rec(), dev.blocks, d0, all, SlotCount(current), blank)
      {
        GrowOne(Rec(), dev.blocks, d0, all, current, blank);
        direct := direct[current := newBlocks[next]];
        next := next + 1;
        current := current + 1;
      }
      if total > INODE_DIRECT_COUNT && current == INODE_DIRECT_COUNT {
        GrowOne(Rec(), dev.blocks, d0, all, 28, blank);
        indirect1 := newBlocks[next];
        next := next + 1;
      }
    }

    /** `fill indirect1`: slots up to 157, then the double-indirect block if more is to come. */
    method FillIndirect1(current0: nat, total: nat, newBlocks: seq<u32>, next0: nat, dev: Device,
                         ghost p0: nat, ghost d0: Disk, ghost all: seq<u32>, ghost blank: bool)
      returns (current: nat, next: nat)
      requires Valid() && current0 <= total && total > 0 && SlotCount(28 + total) == |all| == p0 + |newBlocks|
      requires all[p0..] == newBlocks && p0 + next0 == Slot1(current0)
      requires Growing(Rec(), dev.blocks, d0, all, p0 + next0, blank)
      modifies this, dev
      ensures Valid() && size == old(size) && kind == old(kind)
      ensures current == if current0 < 128 then Min(total, 128) else current0
      ensures total > 128 ==> p0 + next == Slot2((current - 128) / 128, (current - 128) % 128)
      ensures total <= 128 ==> next == |newBlocks|
      ensures next0 <= next && Growing(Rec(), dev.blocks, d0, all, p0 + next, blank)
    {
      hide Growing, SetEntry, SlotCount;
      Slot1Facts(total);
      current, next := current0, next0;
      while current < Min(total, INODE_INDIRECT1_COUNT)
        invariant Valid() && Rec() == old(Rec())
        invariant current0 <= current <= total && next0 <= next && p0 + next == Slot1(current)
        invariant current0 < 128 ==> current <= 128
        invariant current0 >= 128 ==> current == current0
        invariant Growing(Rec(), dev.blocks, d0, all, p0 + next, blank)
      {
        GrowIndirect1(Rec(), dev.blocks, d0, all, current, blank);
        dev.blocks := SetEntry(dev.blocks, indirect1, current, newBlocks[next]);
        next := next + 1;
        current := current + 1;
      }
      if total > INODE_INDIRECT1_COUNT {
        if current == INODE_INDIRECT1_COUNT {
          GrowOne(Rec(), dev.blocks, d0, all, 157, blank);
          indirect2 := newBlocks[next];
          next := next + 1;
        } else {
          Slot2IsSlotCount(current - 128);
        }
      }
    }

    /** `fill indirect2`: walks the rows from (a0, b0) to (a1, b1). */
    method FillIndirect2(current: nat, total: nat, newBlocks: seq<u32>, next0: nat, dev: Device,
                         ghost p0: nat, ghost d0: Disk, ghost all: seq<u32>, ghost blank: bool)
      requires Valid() && current <= total && total > 0 && SlotCount(156 + total) == |all| == p0 + |newBlocks|
      requires all[p0..] == newBlocks && p0 + next0 == Slot2(current / 128, current % 128)
      requires Growing(Rec(), dev.blocks, d0, all, p0 + next0, blank)
      modifies dev
      ensures Growing(Rec(), dev.blocks, d0, all, |all|, blank)
    {
      hide Growing;
      var a0: nat, b0: nat := current / INODE_INDIRECT1_COUNT, current % INODE_INDIRECT1_COUNT;
      var a1, b1 := total / INODE_INDIRECT1_COUNT, total % INODE_INDIRECT1_COUNT;
      var next := next0;
      Slot2IsSlotCount(total);
      while a0 < a1 || (a0 == a1 && b0 < b1)
        invariant b0 < 128 && (a0 < a1 || (a0 == a1 && b0 <= b1))
        invariant next0 <= next && p0 + next == Slot2(a0, b0) <= |all|
        invariant Growing(Rec(), dev.blocks, d0, all, p0 + next, blank)
        decreases a1 - a0, 128 - b0
      {
        next := FillCell(a0, b0, newBlocks, next, dev, p0, d0, all, blank);
        b0 := b0 + 1;
        if b0 == INODE_INDIRECT1_COUNT {
          b0 := 0;
          a0 := a0 + 1;
        }
      }
    }

    /** One cell of the double-indirect area; the first cell of a row allocates the row's index block. */
    method FillCell(a0: nat, b0: nat, newBlocks: seq<u32>, next0: nat, dev: Device,
                    ghost p0: nat, ghost d0: Disk, ghost all: seq<u32>, ghost blank: bool)
      returns (next: nat)
      requires Valid() && b0 < 128 && Slot2(a0, b0 + 1) <= |all| == p0 + |newBlocks|
      requires all[p0..] == newBlocks && p0 + next0 == Slot2(a0, b0)
      requires Growing(Rec(), dev.blocks, d0, all, p0 + next0, blank)
      modifies dev
      ensures p0 + next == Slot2(a0, b0 + 1) && Growing(Rec(), dev.blocks, d0, all, p0 + next, blank)
    {
      hide Growing, SetEntry;
      var at := next0;
      if b0 == 0 {
        GrowRow(Rec(), dev.blocks, d0, all, a0, blank);
        dev.blocks := SetEntry(dev.blocks, indirect2, a0, newBlocks[at]);
        at := at + 1;
      }
      GrowCell(Rec(), dev.blocks, d0, all, a0, b0, blank);
      dev.blocks := SetEntry(dev.blocks, Entry(dev.blocks, indirect2, a0), b0, newBlocks[at]);
      next := at + 1;
    }

    /** The three stages in turn, from `current0` to `total0` data blocks. */
    method Fill(current0: nat, total0: nat, newBlocks: seq<u32>, dev: Device,
                ghost d0: Disk, ghost all: seq<u32>, ghost blank: bool)
      requires Valid() && current0 <= total0 && SlotCount(total0) == |all| == SlotCount(current0) + |newBlocks|
      requires all[SlotCount(current0)..] == newBlocks
      requires Growing(Rec(), dev.blocks, d0, all, SlotCount(current0), blank)
      modifies this, dev
      ensures Valid() && size == old(size) && kind == old(kind)
      ensures Growing(Rec(), dev.blocks, d0, all, |all|, blank)
    {
      hide Growing;
      ghost var p0 := SlotCount(current0);
      var total := total0;
      var current, next := FillDirect(current0, total, newBlocks, dev, d0, all, blank);
      if total > INODE_DIRECT_COUNT {
        current, total := current - INODE_DIRECT_COUNT, total - INODE_DIRECT_COUNT;
        current, next := FillIndirect1(current, total, newBlocks, next, dev, p0, d0, all, blank);
        if total > INODE_INDIRECT1_COUNT {
          current, total := current - INODE_INDIRECT1_COUNT, total - INODE_INDIRECT1_COUNT;
          FillIndirect2(current, total, newBlocks, next, dev, p0, d0, all, blank);
        }
      }
    }

    /** Grows the file to `newSize`, hanging the blocks it needs into the tree in order. */
    method IncreaseSize(newSize: nat, newBlocks: seq<u32>, dev: Device)
      requires Valid() && size <= newSize <= MAX_SIZE
      requires BlocksNumNeeded(size, newSize) <= |newBlocks|
      requires Distinct(Owned(Rec(), dev.blocks) + newBlocks)
      requires InDevice(Owned(Rec(), dev.blocks) + newBlocks, dev.blocks)
      modifies this, dev
      ensures Valid() && size == newSize && kind == old(kind)
      ensures Owned(Rec(), dev.blocks)
           == old(Owned(Rec(), dev.blocks)) + newBlocks[..BlocksNumNeeded(old(size), newSize)]
      ensures |dev.blocks| == |old(dev.blocks)|
      ensures forall b: nat | b < |dev.blocks| && b !in IndexBlocks(Owned(Rec(), dev.blocks)) ::
                dev.blocks[b] == old(dev.blocks)[b]
      ensures old(SpareZero(Rec(), dev.blocks) && AllZero(dev.blocks, newBlocks)) ==> SpareZero(Rec(), dev.blocks)
    {
      hide Growing, SpareZero, AllZero, Distinct, InDevice, IndexBlocks, SlotCount;
      var current := DataBlocks(size);
      var taken := newBlocks[..BlocksNumNeeded(size, newSize)];
      ghost var d0, all := dev.blocks, Owned(Rec(), dev.blocks) + taken;
      ghost var blank := SpareZero(Rec(), d0) && AllZero(d0, newBlocks);
      GrowStart(Rec(), newSize, d0, newBlocks, blank);
      size := newSize;
      Fill(current, DataBlocks(size), taken, dev, d0, all, blank);
      GrowEnd(Rec(), dev.blocks, d0, all, blank);
    }

    /** Empties the file and returns every block it owned, in allocation order. */
    method ClearSize(dev: Device) returns (v: seq<u32>)
      requires Valid() && size <= MAX_SIZE
      modifies this
      ensures Valid() && v == old(Owned(Rec(), dev.blocks))
      ensures size == 0 && kind == old(kind)
      ensures forall i | 0 <= i < INODE_DIRECT_COUNT ::
                direct[i] == if i < DataBlocks(old(size)) then 0 else old(direct)[i]
      ensures indirect1 == if DataBlocks(old(size)) > INODE_DIRECT_COUNT then 0 else old(indirect1)
      ensures indirect2 == if DataBlocks(old(size)) > INDIRECT1_BOUND then 0 else old(indirect2)
    {
      ghost var ino, d := Rec(), dev.blocks;
      v := [];
      var dataBlocks := DataBlocks(size);
      size := 0;
      var current := 0;
      while current < Min(dataBlocks, INODE_DIRECT_COUNT)
        invariant current <= Min(dataBlocks, 28) && v == Nodes(ino, d, current)
        invariant Valid() && Rec() == InodeRec(0, direct, ino.indirect1, ino.indirect2, ino.kind)
        invariant forall i | 0 <= i < 28 :: direct[i] == if i < current then 0 else ino.direct[i]
      {
        v := v + [direct[current]];
        direct := direct[current := 0];
        current := current + 1;
      }
      if dataBlocks > INODE_DIRECT_COUNT {
        v := v + [indirect1];
        dataBlocks := dataBlocks - INODE_DIRECT_COUNT;
        current := 0;
        while current < Min(dataBlocks, INODE_INDIRECT1_COUNT)
          invariant current <= Min(dataBlocks, 128) && v == Nodes(ino, d, 29 + current)
        {
          v := v + [Entry(dev.blocks, indirect1, current)];
          current := current + 1;
        }
        indirect1 := 0;
        if dataBlocks > INODE_INDIRECT1_COUNT {
          v := v + [indirect2];
          dataBlocks := dataBlocks - INODE_INDIRECT1_COUNT;
          Slot2IsSlotCount(dataBlocks);
          v := CollectRows(dataBlocks, v, dev, ino);
          indirect2 := 0;
        }
      }
    }

    /** The rows of the double-indirect area: every full row, then the first `b1` columns of the last. */
    method CollectRows(dataBlocks: nat, v0: seq<u32>, dev: Device, ghost ino: Inode) returns (v: seq<u32>)
      requires indirect2 == ino.indirect2 && 0 < dataBlocks <= INODE_INDIRECT2_COUNT
      requires v0 == Nodes(ino, dev.blocks, 158)
      ensures v == Nodes(ino, dev.blocks, Slot2(dataBlocks / 128, dataBlocks % 128))
    {
      v := v0;
      var a1, b1 := dataBlocks / INODE_INDIRECT1_COUNT, dataBlocks % INODE_INDIRECT1_COUNT;
      for a := 0 to a1
        invariant v == Nodes(ino, dev.blocks, 158 + 129 * a)
      {
        v := CollectRow(a, INODE_INDIRECT1_COUNT, v, dev, ino);
      }
      if b1 > 0 {
        v := CollectRow(a1, b1, v, dev, ino);
      }
    }

    /** One row's index block and its first `columns` data blocks. */
    method CollectRow(a: nat, columns: nat, v0: seq<u32>, dev: Device, ghost ino: Inode) returns (v: seq<u32>)
      requires indirect2 == ino.indirect2 && columns <= 128
      requires v0 == Nodes(ino, dev.blocks, 158 + 129 * a)
      ensures v == Nodes(ino, dev.blocks, 159 + 129 * a + columns)
    {
      var row := Entry(dev.blocks, indirect2, a);
      v := v0 + [row];
      RowNode(ino, dev.blocks, a);
      for b := 0 to columns
        invariant v == Nodes(ino, dev.blocks, 159 + 129 * a + b)
      {
        v := v + [Entry(dev.blocks, row, b)];
        CellNode(ino, dev.blocks, a, b);
      }
    }

    /** `n` bytes of one block, from position `start` of the file, to position `to` of `buf`. */
    method ReadOneBlock(start: nat, n: nat, to: nat, buf: array<byte>, dev: Device)
      requires Valid() && Sound(Rec(), dev.blocks) && start < size && start % BLOCK_SZ + n <= BLOCK_SZ
               && to + n <= buf.Length
      modifies buf
      ensures forall k | 0 <= k < buf.Length ::
                buf[k] == if to <= k < to + n then ByteAt(Rec(), dev.blocks, start + (k - to)) else old(buf[k])
    {
      hide BlockId, ByteAt, Sound;
      BytesInBlock(Rec(), dev.blocks, start, n);
      var src := dev.blocks[BlockId(Rec(), dev.blocks, start / BLOCK_SZ)];
      var at := start % BLOCK_SZ;
      forall k | to <= k < to + n {
        buf[k] := src[at + (k - to)];
      }
    }

    /** Fills `buf` from `offset` on, block by block, stopping at the end of the file. */
    method ReadAt(offset: nat, buf: array<byte>, dev: Device) returns (readSize: nat)
      requires Valid() && Sound(Rec(), dev.blocks)
      modifies buf
      ensures readSize == if offset >= size then 0 else Min(offset + buf.Length, size) - offset
      ensures forall k | 0 <= k < buf.Length ::
                buf[k] == if k < readSize then Content(Rec(), dev.blocks)[offset + k] else old(buf[k])
    {
      hide BlockId, ByteAt, Sound, BlockEnd;
      var start, end := offset, Min(offset + buf.Length, size);
      if start >= end {
        return 0;
      }
      readSize := 0;
      while true
        invariant start == offset + readSize < end
        invariant forall k | 0 <= k < readSize :: buf[k] == ByteAt(Rec(), dev.blocks, offset + k)
        invariant forall k | readSize <= k < buf.Length :: buf[k] == old(buf[k])
        decreases end - start
      {
        var endCurrentBlock := BlockEnd(start, end);
        var blockReadSize := endCurrentBlock - start;
        ReadOneBlock(start, blockReadSize, readSize, buf, dev);
        readSize := readSize + blockReadSize;
        if endCurrentBlock == end {
          break;
        }
        start := endCurrentBlock;
      }
    }

    method WriteOneBlock(start: nat, src: seq<byte>, dev: Device)
      requires Valid() && Sound(Rec(), dev.blocks) && CanWrite(Rec(), dev.blocks, start, |src|)
      requires start % BLOCK_SZ + |src| <= BLOCK_SZ
      modifies dev
      ensures Sound(Rec(), dev.blocks) && Rewritten(Rec(), old(dev.blocks), dev.blocks, start, src)
    {
      hide Rewritten, Sound, CanWrite, BlockId;
      WriteBlockRewrites(Rec(), dev.blocks, start, src);
      var id := BlockId(Rec(), dev.blocks, start / BLOCK_SZ);
      dev.blocks := dev.blocks[id := Splice(dev.blocks[id], start % BLOCK_SZ, src)];
    }

    /** Writes `buf` from `offset` on, block by block, stopping at the end of the file. */
    method WriteAt(offset: nat, buf: seq<byte>, dev: Device) returns (writeSize: nat)
      requires Valid() && Sound(Rec(), dev.blocks) && CanWrite(Rec(), dev.blocks, offset, |buf|)
      modifies dev
      ensures writeSize == Min(offset + |buf|, size) - offset
      ensures Rewritten(Rec(), old(dev.blocks), dev.blocks, offset, buf[..writeSize])
    {
      hide Rewritten, Sound, BlockEnd, CanWrite;
      CanWriteBelow(Rec(), dev.blocks, offset, |buf|);
      var start, end := offset, Min(offset + |buf|, size);
      ghost var ino, d0 := Rec(), dev.blocks;
      var written := 0;
      RewrittenNothing(ino, d0, offset);
      while true
        invariant start == offset + written <= end && CanWrite(ino, dev.blocks, start, |buf|)
        invariant written == 0 || start < end
        invariant Sound(ino, dev.blocks) && Rewritten(ino, d0, dev.blocks, offset, buf[..written])
        decreases end - start
      {
        var endCurrentBlock := BlockEnd(start, end);
        var blockWriteSize := endCurrentBlock - start;
        ghost var d := dev.blocks;
        CanWriteLess(ino, d, start, |buf|, blockWriteSize);
        WriteOneBlock(start, buf[written..written + blockWriteSize], dev);
        RewrittenMore(ino, d0, d, dev.blocks, offset, buf, written, blockWriteSize);
        written := written + blockWriteSize;
        if endCurrentBlock == end {
          break;
        }
        start := endCurrentBlock;
        BeforeEnd(ino, dev.blocks, start, |buf|);
      }
      writeSize := written;
    }
  }

  lemma CellNode(ino: Inode, d: Disk, a: nat, b: nat)
    requires b < 128
    ensures NodeAt(ino, d, 159 + 129 * a + b) == Entry(d, Entry(d, ino.indirect2, a), b)
  {
    assert (129 * a + (b + 1)) / 129 == a && (129 * a + (b + 1)) % 129 == b + 1;
  }

  lemma SameTree(ino: Inode, d: Disk, size: u32, s: nat)
    ensures NodeAt(ino.(size := size), d, s) == NodeAt(ino, d, s)
  {
  }

  lemma GrowStart(ino: Inode, newSize: nat, d: Disk, newBlocks: seq<u32>, blank: bool)
    requires ino.size <= newSize <= MAX_SIZE
    requires BlocksNumNeeded(ino.size, newSize) <= |newBlocks|
    requires Distinct(Owned(ino, d) + newBlocks) && InDevice(Owned(ino, d) + newBlocks, d)
    requires blank ==> SpareZero(ino, d) && AllZero(d, newBlocks)
    ensures var taken := newBlocks[..BlocksNumNeeded(ino.size, newSize)];
            var all := Owned(ino, d) + taken;
            && |all| == TotalBlocks(newSize) && all[TotalBlocks(ino.size)..] == taken
            && Growing(ino.(size := newSize), d, d, all, TotalBlocks(ino.size), blank)
  {
    TotalBlocksBound(newSize);
    hide SlotCount, NodeAt;
    var taken := newBlocks[..BlocksNumNeeded(ino.size, newSize)];
    var all, more := Owned(ino, d) + taken, Owned(ino, d) + newBlocks;
    assert forall i | 0 <= i < |all| :: all[i] == more[i];
    assert Distinct(all) && InDevice(all, d);
    forall s: nat | s < TotalBlocks(ino.size)
      ensures NodeAt(ino.(size := newSize), d, s) == all[s]
    {
      SameTree(ino, d, newSize, s);
    }
    if blank { BlankStart(ino, newSize, d, all, newBlocks); }
  }

  lemma GrowEnd(ino: Inode, d: Disk, d0: Disk, all: seq<u32>, blank: bool)
    requires Growing(ino, d, d0, all, |all|, blank) && |all| == TotalBlocks(ino.size)
    ensures Owned(ino, d) == all && |d| == |d0| && (blank ==> SpareZero(ino, d))
    ensures forall b: nat | b < |d| && b !in IndexBlocks(Owned(ino, d)) :: d[b] == d0[b]
  {
    hide NodeAt, SlotCount;
    assert Owned(ino, d) == all;
  }

  lemma BlankStart(ino: Inode, newSize: u32, d: Disk, all: seq<u32>, newBlocks: seq<u32>)
    requires SpareZero(ino, d) && AllZero(d, newBlocks)
    requires forall k | TotalBlocks(ino.size) <= k < |all| :: all[k] in newBlocks
    ensures Unfilled(ino.(size := newSize), d, TotalBlocks(ino.size)) && BlankFrom(d, all, TotalBlocks(ino.size))
  {
    hide SlotCount, NodeAt;
    forall s: nat | TotalBlocks(ino.size) <= s < MAX_SLOTS && HasPlace(s, TotalBlocks(ino.size))
      ensures NodeAt(ino.(size := newSize), d, s) == 0
    {
      SameTree(ino, d, newSize, s);
    }
  }
}
