/** The file system invariant with its file contents, and the steps that operations are made of. */
module FsSteps {
  import opened Bytes
  import opened IndexTree
  import opened FileData
  import opened Bitmap
  import opened DiskFormat
  import opened FsState

  /** The files read as `cs`, and nothing is left in them past their end. */
  ghost predicate Reads(v: View, cs: seq<seq<byte>>)
  {
    && |cs| == |v.inos|
    && forall i: nat | i < |cs| :: Content(v.inos[i], v.d) == cs[i] && Tidy(v.inos[i], v.d)
  }

  /** Blocks needed by files with these contents. */
  function Used(cs: seq<seq<byte>>): (n: nat)
  {
    if cs == [] then 0 else Used(cs[..|cs| - 1]) + TotalBlocks(|cs[|cs| - 1]|)
  }

  lemma {:induction false} UsedUpdate(cs: seq<seq<byte>>, i: nat, c: seq<byte>)
    requires i < |cs|
    ensures Used(cs[i := c]) == Used(cs) - TotalBlocks(|cs[i]|) + TotalBlocks(|c|)
  {
    hide TotalBlocks;
    var n := |cs| - 1;
    if i < n {
      UsedUpdate(cs[..n], i, c);
      assert cs[i := c][..n] == cs[..n][i := c];
    } else {
      assert cs[i := c][..n] == cs[..n];
    }
  }

  /** The invariant every operation keeps. */
  ghost predicate FsOk(v: View, cs: seq<seq<byte>>)
  {
    && v.g.Fits(v.d) && Owns(v)
    && BitsAre(v.g, v.d, v.owner.Keys) && Zeroed(v.g, v.d, v.owner.Keys)
    && Reads(v, cs) && |v.owner| == Used(cs)
  }

  lemma {:induction false} DistinctCard(ids: seq<u32>)
    requires Distinct(ids)
    ensures |Elems(ids)| == |ids|
  {
    if ids != [] {
      var n := |ids| - 1;
      var rest := Elems(ids[..n]);
      DistinctCard(ids[..n]);
      assert ids == ids[..n] + [ids[n]];
      assert Elems(ids) == rest + {ids[n]};
      assert ids[n] !in rest;
    } else {
      assert Elems(ids) == {};
    }
  }

  lemma AssignCard(owner: map<u32, (nat, nat)>, i: nat, p: nat, ids: seq<u32>)
    requires Distinct(ids) && forall k | 0 <= k < |ids| :: ids[k] !in owner
    ensures |Assign(owner, i, p, ids)| == |owner| + |ids|
  {
    hide Assign;
    var r, new' := Assign(owner, i, p, ids), Elems(ids);
    DistinctCard(ids);
    assert |r.Keys| == |owner.Keys + new'| == |owner.Keys| + |new'|;
  }

  /** The data bitmap is read from its own blocks. */
  lemma BitsFrame(g: Geometry, d: Disk, d': Disk, used: set<u32>)
    requires g.Fits(d) && |d'| == |d| && BitsAre(g, d, used)
    requires forall b: nat | g.dataBitmap.startBlockId <= b < g.dataAreaStart :: d'[b] == d[b]
    ensures BitsAre(g, d', used)
  {
    hide Bit;
    forall k: nat | k < g.dataBitmap.Maximum()
      ensures g.dataBitmap.IsSet(d', k) == g.dataBitmap.IsSet(d, k)
    {
      BitBlockInArea(g, d, k);
    }
  }

  lemma BitBlockInArea(g: Geometry, d: Disk, k: nat)
    requires g.Fits(d) && k < g.dataBitmap.Maximum()
    ensures g.dataBitmap.startBlockId <= g.dataBitmap.startBlockId + k / BLOCK_BITS < g.dataAreaStart
  {
    assert BLOCK_BITS * (k / BLOCK_BITS) <= k < BLOCK_BITS * g.dataBitmap.blocks;
  }

  // ---------------------------------------------------------------- growing

  /** After the bitmap has reserved `ids` (disk `d1`) and the tree has taken them (disk `d2`). */
  lemma GrowStep(v: View, cs: seq<seq<byte>>, i: nat, d1: Disk, ino: Inode, d2: Disk, ids: seq<u32>)
    requires FsOk(v, cs) && i < |v.inos| && SameData(v.g, v.d, d1)
    requires v.g.Fits(d1) && BitsAre(v.g, d1, v.owner.Keys + Elems(ids))
    requires Grown(v.(d := d1), i, ino, d2, ids)
    ensures FsOk(AfterGrowth(v, i, ino, d2, ids), cs[i := cs[i] + Zeros(ino.size - |cs[i]|)])
  {
    hide Owns, BitsAre, Content, Tidy, TotalBlocks, IndexBlocks, Assign, Owned, Used;
    var v1, c := v.(d := d1), cs[i] + Zeros(ino.size - |cs[i]|);
    SameDataKeeps(v, d1);
    GrowthKeeps(v1, i, ino, d2, ids);
    GrowStepReads(v1, cs, i, ino, d2, ids);
    GrowStepBlocks(v1, i, ino, d2, ids);
    NodeAfter(v1, i, ino, d2, ids, i, 0);
    AssignCard(v.owner, i, TotalBlocks(v.inos[i].size), ids);
    UsedUpdate(cs, i, c);
  }

  lemma GrowStepReads(v: View, cs: seq<seq<byte>>, i: nat, ino: Inode, d: Disk, ids: seq<u32>)
    requires Owns(v) && Zeroed(v.g, v.d, v.owner.Keys) && Reads(v, cs)
    requires i < |v.inos| && Grown(v, i, ino, d, ids)
    ensures Reads(AfterGrowth(v, i, ino, d, ids), cs[i := cs[i] + Zeros(ino.size - |cs[i]|)])
  {
    hide Content, Tidy, NodeAt, TotalBlocks, IndexBlocks;
    GrowthContent(v, i, ino, d, ids);
    forall j: nat | j < |cs| && j != i
      ensures Content(v.inos[j], d) == cs[j] && Tidy(v.inos[j], d)
    {
      forall b | b in v.owner && v.owner[b].0 == j ensures d[b] == v.d[b] { GrowthSpares(v, i, ino, d, ids, b); }
      OtherFile(v, d, j);
    }
  }

  /** Growth writes to the data area only, and to no block that stays free. */
  lemma GrowStepBlocks(v: View, i: nat, ino: Inode, d: Disk, ids: seq<u32>)
    requires v.g.Fits(v.d) && BitsAre(v.g, v.d, v.owner.Keys + Elems(ids))
    requires Owns(v) && Zeroed(v.g, v.d, v.owner.Keys) && i < |v.inos| && Grown(v, i, ino, d, ids)
    ensures BitsAre(v.g, d, v.owner.Keys + Elems(ids))
    ensures Zeroed(v.g, d, v.owner.Keys + Elems(ids))
    ensures forall b: nat | b < v.g.dataAreaStart :: d[b] == v.d[b]
  {
    hide NodeAt, TotalBlocks, BitsAre;
    SoundFile(v, i);
    var was, all := Owned(v.inos[i], v.d), Owned(ino, d);
    forall b: u32 | b in IndexBlocks(all)
      ensures b >= v.g.dataAreaStart && (b in v.owner || b in ids)
    {
      IndexBlocksOwned(all, b);
      assert b in was || b in ids;
      if b in was { assert BlockPlaced(v, b); }
    }
    BitsFrame(v.g, v.d, d, v.owner.Keys + Elems(ids));
  }

  // ---------------------------------------------------------------- writing

  lemma WriteStep(v: View, cs: seq<seq<byte>>, i: nat, d: Disk, start: nat, src: seq<byte>)
    requires FsOk(v, cs) && i < |v.inos| && start + |src| <= |cs[i]|
    requires Rewritten(v.inos[i], v.d, d, start, src)
    ensures FsOk(v.(d := d), cs[i := Splice(cs[i], start, src)])
    ensures v.g.Fits(v.d) && |d| == |v.d| && forall b: nat | b < v.g.dataAreaStart :: d[b] == v.d[b]
  {
    hide Owns, BitsAre, Content, Tidy, TotalBlocks, Used, Rewritten, Zeroed;
    WriteStepBlocks(v, i, d, start, src);
    WriteKeeps(v, i, d, start, src);
    UsedUpdate(cs, i, Splice(cs[i], start, src));
    forall j: nat | j < |cs| && j != i
      ensures Content(v.inos[j], d) == cs[j] && Tidy(v.inos[j], d)
    {
      OtherFile(v, d, j);
    }
  }

  lemma WriteStepBlocks(v: View, i: nat, d: Disk, start: nat, src: seq<byte>)
    requires v.g.Fits(v.d) && Owns(v) && BitsAre(v.g, v.d, v.owner.Keys) && Zeroed(v.g, v.d, v.owner.Keys)
    requires i < |v.inos| && Rewritten(v.inos[i], v.d, d, start, src)
    ensures |d| == |v.d| && BitsAre(v.g, d, v.owner.Keys) && Zeroed(v.g, d, v.owner.Keys)
    ensures forall b: nat | b < v.g.dataAreaStart :: d[b] == v.d[b]
  {
    hide NodeAt, TotalBlocks, BitsAre, ByteAt;
    SoundFile(v, i);
    forall b | b in v.owner ensures b >= v.g.dataAreaStart { assert BlockPlaced(v, b); }
    BitsFrame(v.g, v.d, d, v.owner.Keys);
  }

  // ---------------------------------------------------------------- clearing

  /** The blocks of file `i` have been zeroed and their bits cleared. */
  ghost predicate Freed(v: View, i: nat, d: Disk)
  {
    && |d| == |v.d|
    && forall b: nat | v.g.dataAreaStart <= b < |d| ::
         d[b] == if b in v.owner && v.owner[b].0 == i then ZeroBlock() else v.d[b]
  }

  lemma ClearStep(v: View, cs: seq<seq<byte>>, i: nat, ino: Inode, d: Disk)
    requires FsOk(v, cs) && i < |v.inos| && EmptyInode(ino) && Freed(v, i, d)
    requires v.g.Fits(d) && BitsAre(v.g, d, v.owner.Keys - Elems(Owned(v.inos[i], v.d)))
    ensures FsOk(AfterClear(v, i, ino, d), cs[i := []])
  {
    var v' := AfterClear(v, i, ino, d);
    ClearOwner(v, i, ino, d);
    hide Owns, BitsAre, Content, Tidy, TotalBlocks, Used, AfterClear;
    assert v'.owner.Keys == v.owner.Keys - Elems(Owned(v.inos[i], v.d));
    ClearSpares(v, i, d);
    ClearKeeps(v, i, ino, d);
    UsedUpdate(cs, i, []);
    ClearReads(v, cs, i, ino, d);
    assert TotalBlocks(0) == 0 by { EmptyFile(); }
  }

  lemma EmptyFile()
    ensures TotalBlocks(0) == 0
  {
  }

  lemma ClearSpares(v: View, i: nat, d: Disk)
    requires Owns(v) && Freed(v, i, d)
    ensures forall b | b in v.owner && v.owner[b].0 != i :: d[b] == v.d[b]
  {
    forall b | b in v.owner && v.owner[b].0 != i ensures d[b] == v.d[b] { assert BlockPlaced(v, b); }
  }

  lemma ClearReads(v: View, cs: seq<seq<byte>>, i: nat, ino: Inode, d: Disk)
    requires Owns(v) && Reads(v, cs) && i < |v.inos| && EmptyInode(ino) && Freed(v, i, d)
    ensures Reads(AfterClear(v, i, ino, d), cs[i := []])
  {
    ClearSpares(v, i, d);
    assert DataBlocks(0) == 0;
    EmptyIsSpare(ino, d);
    assert Content(ino, d) == [] && Tidy(ino, d);
    hide Content, Tidy;
    forall j: nat | j < |cs| && j != i
      ensures Content(v.inos[j], d) == cs[j] && Tidy(v.inos[j], d)
    {
      OtherFile(v, d, j);
    }
  }

  /** Clearing a file releases exactly the blocks it owned. */
  lemma ClearOwner(v: View, i: nat, ino: Inode, d: Disk)
    requires Owns(v) && i < |v.inos|
    ensures var v' := AfterClear(v, i, ino, d);
            && v'.owner.Keys == v.owner.Keys - Elems(Owned(v.inos[i], v.d))
            && |v'.owner| == |v.owner| - TotalBlocks(v.inos[i].size)
            && (Zeroed(v.g, v.d, v.owner.Keys) && Freed(v, i, d) ==> Zeroed(v.g, d, v'.owner.Keys))
  {
    hide NodeAt, TotalBlocks;
    var all, v' := Owned(v.inos[i], v.d), AfterClear(v, i, ino, d);
    SoundFile(v, i);
    forall b | b in v.owner && v.owner[b].0 == i
      ensures b in all
    {
      assert BlockPlaced(v, b);
      assert all[v.owner[b].1] == b;
    }
    assert v.owner.Keys == v'.owner.Keys + Elems(all) && v'.owner.Keys !! Elems(all);
    DistinctCard(all);
    assert |v.owner.Keys| == |v'.owner.Keys| + |Elems(all)|;
  }

  // ---------------------------------------------------------------- inodes

  /** Writes to the super block, the inode bitmap and the inode area do not disturb the files. */
  lemma InodeStep(v: View, cs: seq<seq<byte>>, d: Disk)
    requires FsOk(v, cs) && |d| == |v.d|
    requires forall b: nat | v.g.dataBitmap.startBlockId <= b < |d| :: d[b] == v.d[b]
    ensures FsOk(v.(d := d), cs)
  {
    hide Owns, BitsAre, Content, Tidy, Used;
    BitsFrame(v.g, v.d, d, v.owner.Keys);
    SameDataKeeps(v, d);
  }

  /** A fresh, empty inode joins the table. */
  lemma NewInodeStep(v: View, cs: seq<seq<byte>>, ino: Inode)
    requires FsOk(v, cs) && EmptyInode(ino)
    ensures FsOk(v.(inos := v.inos + [ino]), cs + [[]])
  {
    var v', cs' := v.(inos := v.inos + [ino]), cs + [[]];
    EmptyFile();
    assert DataBlocks(0) == 0;
    assert cs'[..|cs|] == cs;
    EmptyIsSpare(ino, v.d);
    assert Content(ino, v.d) == [] && Tidy(ino, v.d);
    hide NodeAt, TotalBlocks, BitsAre, Content, Tidy;
    forall j: nat, s: nat | j < |v'.inos| && s < TotalBlocks(v'.inos[j].size)
      ensures SlotOwned(v', j, s)
    {
      assert SlotOwned(v, j, s);
    }
    forall b | b in v.owner
      ensures BlockPlaced(v', b)
    {
      assert BlockPlaced(v, b);
    }
  }
}
