/** What holds of a file system's blocks between operations, and what each kind of write keeps. */
module FsState {
  import opened Bytes
  import opened IndexTree
  import opened FileData
  import opened DiskFormat

  /** The inodes in use, the device, and for every block in use the inode and slot that own it. */
  datatype View = View(g: Geometry, d: Disk, inos: seq<Inode>, owner: map<u32, (nat, nat)>)

  function Elems(ids: seq<u32>): (s: set<u32>)
  {
    set b | b in ids
  }

  ghost predicate InData(v: View, b: nat)
  {
    v.g.dataAreaStart <= b < |v.d|
  }

  /** Slot `s` of inode `i` holds a block that it owns. */
  ghost predicate SlotOwned(v: View, i: nat, s: nat)
    requires i < |v.inos|
  {
    var b := NodeAt(v.inos[i], v.d, s);
    b in v.owner && v.owner[b] == (i, s)
  }

  /** Block `b` is a data-area block and is found in the slot that owns it. */
  ghost predicate BlockPlaced(v: View, b: u32)
    requires b in v.owner
  {
    var i, s := v.owner[b].0, v.owner[b].1;
    && InData(v, b)
    && i < |v.inos| && s < TotalBlocks(v.inos[i].size) && NodeAt(v.inos[i], v.d, s) == b
  }

  /** Every slot of every file holds a data-area block of its own: no block is shared and none is lost. */
  ghost predicate Owns(v: View)
  {
    && (forall i: nat, s: nat | i < |v.inos| && s < TotalBlocks(v.inos[i].size) :: SlotOwned(v, i, s))
    && (forall b | b in v.owner :: BlockPlaced(v, b))
    && (forall i: nat | i < |v.inos| :: v.inos[i].size <= MAX_SIZE)
  }

  /** The data bitmap marks exactly the blocks `used`. */
  ghost predicate BitsAre(g: Geometry, d: Disk, used: set<u32>)
    requires g.Fits(d)
  {
    forall k: nat | k < g.dataBitmap.Maximum() ::
      g.dataBitmap.IsSet(d, k) <==> g.dataAreaStart + k < |d| && g.dataAreaStart + k in used
  }

  /** Data blocks not in use are all zero. */
  ghost predicate Zeroed(g: Geometry, d: Disk, used: set<u32>)
  {
    forall b: nat | g.dataAreaStart <= b < |d| && b !in used :: d[b] == ZeroBlock()
  }

  /** The last block of a file is zero past the end of the file. */
  ghost predicate TailZero(ino: Inode, d: Disk)
  {
    forall p: nat | ino.size <= p < BLOCK_SZ * DataBlocks(ino.size) :: ByteAt(ino, d, p) == 0
  }

  /** Nothing is left in a file past its end: neither bytes nor block ids. */
  ghost predicate Tidy(ino: Inode, d: Disk)
  {
    TailZero(ino, d) && SpareZero(ino, d)
  }

  lemma SoundFile(v: View, i: nat)
    requires Owns(v) && i < |v.inos|
    ensures Sound(v.inos[i], v.d)
    ensures forall b | b in Owned(v.inos[i], v.d) :: b in v.owner && v.owner[b].0 == i
  {
    var all := Owned(v.inos[i], v.d);
    forall s: nat | s < |all|
      ensures all[s] in v.owner && v.owner[all[s]] == (i, s) && all[s] < |v.d|
    {
      assert SlotOwned(v, i, s);
      assert BlockPlaced(v, all[s]);
    }
  }

  /** A write that spares the blocks of file `j` leaves its tree and its bytes alone. */
  lemma OtherFile(v: View, d': Disk, j: nat)
    requires Owns(v) && j < |v.inos| && |d'| == |v.d|
    requires forall b | b in v.owner && v.owner[b].0 == j :: d'[b] == v.d[b]
    ensures Owned(v.inos[j], d') == Owned(v.inos[j], v.d)
    ensures forall s: nat | s < TotalBlocks(v.inos[j].size) :: NodeAt(v.inos[j], d', s) == NodeAt(v.inos[j], v.d, s)
    ensures Content(v.inos[j], d') == Content(v.inos[j], v.d)
    ensures Tidy(v.inos[j], v.d) ==> Tidy(v.inos[j], d')
  {
    hide NodeAt, TotalBlocks, SpareZero;
    SoundFile(v, j);
    FileFrame(v.inos[j], v.d, d');
    if SpareZero(v.inos[j], v.d) { SpareFrame(v.inos[j], v.d, d'); }
    forall s: nat | s < TotalBlocks(v.inos[j].size)
      ensures NodeAt(v.inos[j], d', s) == NodeAt(v.inos[j], v.d, s)
    {
      assert Owned(v.inos[j], d')[s] == NodeAt(v.inos[j], d', s);
    }
  }

  // ---------------------------------------------------------------- writes to other areas

  ghost predicate SameData(g: Geometry, d: Disk, d': Disk)
  {
    |d'| == |d| && forall b: nat | g.dataAreaStart <= b < |d| :: d'[b] == d[b]
  }

  /** Bitmap and inode writes do not disturb the files. */
  lemma SameDataKeeps(v: View, d': Disk)
    requires Owns(v) && SameData(v.g, v.d, d')
    ensures Owns(v.(d := d'))
    ensures forall i: nat | i < |v.inos| ::
              && Owned(v.inos[i], d') == Owned(v.inos[i], v.d)
              && Content(v.inos[i], d') == Content(v.inos[i], v.d)
              && (Tidy(v.inos[i], v.d) ==> Tidy(v.inos[i], d'))
  {
    hide NodeAt, TotalBlocks, Owned, Content, Tidy;
    forall i: nat | i < |v.inos|
      ensures && Owned(v.inos[i], d') == Owned(v.inos[i], v.d)
              && Content(v.inos[i], d') == Content(v.inos[i], v.d)
              && (Tidy(v.inos[i], v.d) ==> Tidy(v.inos[i], d'))
    {
      OtherFile(v, d', i);
    }
    var v' := v.(d := d');
    forall i: nat, s: nat | i < |v.inos| && s < TotalBlocks(v.inos[i].size)
      ensures SlotOwned(v', i, s)
    {
      OtherFile(v, d', i);
      assert SlotOwned(v, i, s);
    }
    forall b | b in v.owner
      ensures BlockPlaced(v', b)
    {
      assert BlockPlaced(v, b);
      OtherFile(v, d', v.owner[b].0);
    }
  }

  // ---------------------------------------------------------------- growing a file

  /** The blocks `ids` become slots `p`, `p + 1`, ... of inode `i`. */
  ghost function Assign(owner: map<u32, (nat, nat)>, i: nat, p: nat, ids: seq<u32>): (r: map<u32, (nat, nat)>)
    requires Distinct(ids)
    ensures r.Keys == owner.Keys + Elems(ids)
    ensures forall k: nat | k < |ids| :: r[ids[k]] == (i, p + k)
    ensures forall b | b in owner && b !in ids :: r[b] == owner[b]
  {
    map b | b in owner.Keys + Elems(ids) :: if b in ids then (i, p + IndexOf(ids, b)) else owner[b]
  }

  ghost function IndexOf(ids: seq<u32>, b: u32): (k: nat)
    requires b in ids
    ensures k < |ids| && ids[k] == b
  {
    var k: nat :| k < |ids| && ids[k] == b;
    k
  }

  /** File `i` grown by the blocks `ids` from tree `v.inos[i]` on `v.d` to tree `ino` on `d`. */
  ghost predicate Grown(v: View, i: nat, ino: Inode, d: Disk, ids: seq<u32>)
    requires i < |v.inos|
  {
    && SpareZero(ino, d)
    && v.inos[i].size <= ino.size <= MAX_SIZE && |d| == |v.d|
    && Owned(ino, d) == Owned(v.inos[i], v.d) + ids && Distinct(ids)
    && (forall k | 0 <= k < |ids| :: ids[k] !in v.owner && InData(v, ids[k]))
    && (forall b: nat | b < |d| && b !in IndexBlocks(Owned(ino, d)) :: d[b] == v.d[b])
  }

  ghost function AfterGrowth(v: View, i: nat, ino: Inode, d: Disk, ids: seq<u32>): (v': View)
    requires i < |v.inos| && Distinct(ids)
  {
    View(v.g, d, v.inos[i := ino], Assign(v.owner, i, TotalBlocks(v.inos[i].size), ids))
  }

  lemma IndexBlocksOwned(all: seq<u32>, b: u32)
    requires b in IndexBlocks(all)
    ensures b in all
  {
  }

  /** Growing one file writes to no block of another. */
  lemma GrowthSpares(v: View, i: nat, ino: Inode, d: Disk, ids: seq<u32>, b: u32)
    requires Owns(v) && i < |v.inos| && Grown(v, i, ino, d, ids)
    requires b in v.owner && v.owner[b].0 != i
    ensures d[b] == v.d[b]
  {
    SoundFile(v, i);
    var old', all := Owned(v.inos[i], v.d), Owned(ino, d);
    forall k | 0 <= k < |all|
      ensures all[k] != b
    {
      if k < |old'| { assert all[k] == old'[k]; } else { assert all[k] == ids[k - |old'|]; }
    }
  }

  lemma NodeAfter(v: View, i: nat, ino: Inode, d: Disk, ids: seq<u32>, j: nat, s: nat)
    requires Owns(v) && i < |v.inos| && Grown(v, i, ino, d, ids) && j < |v.inos|
    ensures j != i && s < TotalBlocks(v.inos[j].size) ==> NodeAt(v.inos[j], d, s) == NodeAt(v.inos[j], v.d, s)
    ensures j == i && s < TotalBlocks(v.inos[i].size) ==> NodeAt(ino, d, s) == NodeAt(v.inos[i], v.d, s)
    ensures TotalBlocks(ino.size) == TotalBlocks(v.inos[i].size) + |ids|
    ensures j == i && TotalBlocks(v.inos[i].size) <= s < TotalBlocks(ino.size) ==>
              NodeAt(ino, d, s) == ids[s - TotalBlocks(v.inos[i].size)]
  {
    hide NodeAt, TotalBlocks, IndexBlocks;
    if j != i {
      forall b | b in v.owner && v.owner[b].0 == j ensures d[b] == v.d[b] { GrowthSpares(v, i, ino, d, ids, b); }
      OtherFile(v, d, j);
    } else {
      var old', all := Owned(v.inos[i], v.d), Owned(ino, d);
      if s < |all| { assert all[s] == NodeAt(ino, d, s); }
      if s < |old'| { assert all[s] == old'[s] == NodeAt(v.inos[i], v.d, s); }
    }
  }

  /** Growth keeps the ownership of all blocks: the new ones go to the file that grew. */
  lemma GrowthKeeps(v: View, i: nat, ino: Inode, d: Disk, ids: seq<u32>)
    requires Owns(v) && i < |v.inos| && Grown(v, i, ino, d, ids)
    ensures Owns(AfterGrowth(v, i, ino, d, ids))
  {
    var v' := AfterGrowth(v, i, ino, d, ids);
    var n := TotalBlocks(v.inos[i].size);
    hide NodeAt, TotalBlocks, IndexBlocks, Owned;
    forall j: nat, s: nat | j < |v'.inos| && s < TotalBlocks(v'.inos[j].size)
      ensures SlotOwned(v', j, s)
    {
      NodeAfter(v, i, ino, d, ids, j, s);
      if j == i && s >= n {
        assert v'.owner[ids[s - n]] == (i, n + (s - n));
      } else {
        assert SlotOwned(v, j, s);
      }
    }
    forall b | b in v'.owner
      ensures BlockPlaced(v', b)
    {
      if b in ids {
        var k := IndexOf(ids, b);
        NodeAfter(v, i, ino, d, ids, i, n + k);
      } else {
        assert BlockPlaced(v, b);
        NodeAfter(v, i, ino, d, ids, v.owner[b].0, v.owner[b].1);
      }
    }
  }

  lemma GrownIs(v: View, i: nat, ino: Inode, d: Disk, ids: seq<u32>)
    requires i < |v.inos| && Distinct(ids)
    ensures var v' := AfterGrowth(v, i, ino, d, ids); v'.d == d && |v'.inos| == |v.inos| && v'.inos[i] == ino
  {
  }

  /** The bytes of the grown file: the old blocks as they were, the new ones zero. */
  lemma GrowthByte(v: View, i: nat, ino: Inode, d: Disk, ids: seq<u32>, p: nat)
    requires Owns(v) && i < |v.inos| && Grown(v, i, ino, d, ids) && Zeroed(v.g, v.d, v.owner.Keys)
    requires p < BLOCK_SZ * DataBlocks(ino.size)
    ensures ByteAt(ino, d, p)
         == if p < BLOCK_SZ * DataBlocks(v.inos[i].size) then ByteAt(v.inos[i], v.d, p) else 0
  {
    hide BlockId, NodeAt, DataSlot, SlotCount, Owns, Sound, AfterGrowth, SpareZero;
    GrownIs(v, i, ino, d, ids);
    GrowthKeeps(v, i, ino, d, ids);
    SoundFile(AfterGrowth(v, i, ino, d, ids), i);
    var k, n, was := p / BLOCK_SZ, DataBlocks(v.inos[i].size), Owned(v.inos[i], v.d);
    BlockIsOwned(ino, d, k);
    BlockIsNotIndex(ino, d, k);
    if k < n {
      BlockIsOwned(v.inos[i], v.d, k);
      assert Owned(ino, d)[DataSlot(k)] == was[DataSlot(k)];
    } else {
      DataSlotPast(n, k);
      assert Owned(ino, d)[DataSlot(k)] == ids[DataSlot(k) - |was|];
    }
  }

  /** A grown file reads as before, followed by zeros. */
  lemma GrowthContent(v: View, i: nat, ino: Inode, d: Disk, ids: seq<u32>)
    requires Owns(v) && i < |v.inos| && Grown(v, i, ino, d, ids) && Zeroed(v.g, v.d, v.owner.Keys)
    requires Tidy(v.inos[i], v.d)
    ensures Content(ino, d) == Content(v.inos[i], v.d) + Zeros(ino.size - v.inos[i].size)
    ensures Tidy(ino, d)
  {
    hide ByteAt;
    forall p: nat | p < BLOCK_SZ * DataBlocks(ino.size)
      ensures ByteAt(ino, d, p) == if p < v.inos[i].size then ByteAt(v.inos[i], v.d, p) else 0
    {
      GrowthByte(v, i, ino, d, ids, p);
    }
  }

  // ---------------------------------------------------------------- writing and clearing a file

  /** Writing bytes of one file keeps ownership and every other file. */
  lemma WriteKeeps(v: View, i: nat, d: Disk, start: nat, src: seq<byte>)
    requires Owns(v) && i < |v.inos| && Rewritten(v.inos[i], v.d, d, start, src)
    requires start + |src| <= v.inos[i].size
    ensures Owns(v.(d := d))
    ensures Content(v.inos[i], d) == Splice(Content(v.inos[i], v.d), start, src)
    ensures Tidy(v.inos[i], v.d) ==> Tidy(v.inos[i], d)
    ensures forall b: nat | b < |d| && b !in v.owner :: d[b] == v.d[b]
    ensures forall b | b in v.owner && v.owner[b].0 != i :: d[b] == v.d[b]
  {
    SoundFile(v, i);
    hide ByteAt, TotalBlocks, NodeAt, SpareZero;
    if SpareZero(v.inos[i], v.d) { SpareFrame(v.inos[i], v.d, d); }
    assert forall b | b in v.owner && v.owner[b].0 != i :: d[b] == v.d[b];
    var v' := v.(d := d);
    forall j: nat, s: nat | j < |v.inos| && s < TotalBlocks(v.inos[j].size)
      ensures SlotOwned(v', j, s)
    {
      assert SlotOwned(v, j, s);
      WriteNode(v, i, d, start, src, j, s);
    }
    forall b | b in v.owner
      ensures BlockPlaced(v', b)
    {
      assert BlockPlaced(v, b);
      WriteNode(v, i, d, start, src, v.owner[b].0, v.owner[b].1);
    }
  }

  lemma WriteNode(v: View, i: nat, d: Disk, start: nat, src: seq<byte>, j: nat, s: nat)
    requires Owns(v) && i < |v.inos| && Rewritten(v.inos[i], v.d, d, start, src)
    requires j < |v.inos| && s < TotalBlocks(v.inos[j].size)
    ensures NodeAt(v.inos[j], d, s) == NodeAt(v.inos[j], v.d, s)
  {
    SoundFile(v, i);
    hide ByteAt, TotalBlocks, NodeAt;
    if j == i {
      assert Owned(v.inos[i], d)[s] == Owned(v.inos[i], v.d)[s];
    } else {
      OtherFile(v, d, j);
    }
  }

  ghost function AfterClear(v: View, i: nat, ino: Inode, d: Disk): (v': View)
    requires i < |v.inos|
  {
    View(v.g, d, v.inos[i := ino], map b | b in v.owner && v.owner[b].0 != i :: v.owner[b])
  }

  /** Emptying one file keeps ownership, whatever becomes of the blocks it owned. */
  lemma ClearKeeps(v: View, i: nat, ino: Inode, d: Disk)
    requires Owns(v) && i < |v.inos| && ino.size == 0 && |d| == |v.d|
    requires forall b | b in v.owner && v.owner[b].0 != i :: d[b] == v.d[b]
    ensures Owns(AfterClear(v, i, ino, d))
  {
    var v' := AfterClear(v, i, ino, d);
    assert TotalBlocks(0) == 0;
    hide TotalBlocks, NodeAt;
    forall j: nat, s: nat | j < |v'.inos| && s < TotalBlocks(v'.inos[j].size)
      ensures SlotOwned(v', j, s)
    {
      assert SlotOwned(v, j, s);
      OtherFile(v, d, j);
    }
    forall b | b in v'.owner
      ensures BlockPlaced(v', b)
    {
      assert BlockPlaced(v, b);
      OtherFile(v, d, v.owner[b].0);
    }
  }
}
