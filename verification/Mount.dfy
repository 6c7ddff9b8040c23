/** A formatted device holding a table of files and directories. */
module Mount {
  import opened Bytes
  import opened IndexTree
  import opened Bitmap
  import opened DiskFormat
  import opened FsState
  import opened FsSteps
  import opened Directory
  import opened FsSpec

  ghost function NodeBytes(n: Node): (c: seq<byte>)
    requires n.DirNode? ==> ValidNames(n.entries)
  {
    match n
    case FileNode(bytes) => bytes
    case DirNode(entries) => DirBytes(entries)
  }

  /** The bytes stored for each node. */
  ghost function BytesOf(t: Table): (cs: seq<seq<byte>>)
    requires IsTree(t)
    ensures |cs| == |t|
  {
    seq(|t|, i requires 0 <= i < |t| => NodeBytes(t[i]))
  }

  ghost function Inos(g: Geometry, d: Disk, n: nat): (inos: seq<Inode>)
    requires g.Fits(d) && n <= g.inodeBitmap.Maximum()
    ensures |inos| == n
  {
    seq(n, i requires 0 <= i < n => g.InodeAt(d, i))
  }

  ghost predicate InodeBitsAre(g: Geometry, d: Disk, n: nat)
    requires g.Fits(d)
  {
    forall k: nat | k < g.inodeBitmap.Maximum() :: g.inodeBitmap.IsSet(d, k) <==> k < n
  }

  ghost predicate KindsAre(inos: seq<Inode>, t: Table)
  {
    |inos| == |t| && forall i: nat | i < |t| :: inos[i].kind == Directory <==> t[i].DirNode?
  }

  ghost predicate SuperOk(g: Geometry, d: Disk)
  {
    |d| > 0 && DecodeSuper(d[0]).magic == EFS_MAGIC && FieldsOf(DecodeSuper(d[0])) == g
  }

  ghost function ViewOf(g: Geometry, d: Disk, owner: map<u32, (nat, nat)>, n: nat): (v: View)
    requires g.Fits(d) && n <= g.inodeBitmap.Maximum()
  {
    View(g, d, Inos(g, d, n), owner)
  }

  /** The device holds exactly the table `t`, block by block accounted for by `owner`. */
  ghost predicate Mounted(g: Geometry, d: Disk, owner: map<u32, (nat, nat)>, t: Table)
  {
    && g.Fits(d) && SuperOk(g, d) && IsTree(t) && |t| <= g.inodeBitmap.Maximum()
    && InodeBitsAre(g, d, |t|)
    && KindsAre(Inos(g, d, |t|), t)
    && FsOk(ViewOf(g, d, owner, |t|), BytesOf(t))
  }

  // ---------------------------------------------------------------- frames for the front of the device

  ghost predicate SameFront(g: Geometry, d: Disk, d': Disk)
  {
    |d'| == |d| && forall b: nat | b < g.dataBitmap.startBlockId && b < |d| :: d'[b] == d[b]
  }

  /** Super block, inode bitmap and inodes are read from the front of the device. */
  lemma FrontFrame(g: Geometry, d: Disk, d': Disk, n: nat)
    requires g.Fits(d) && SameFront(g, d, d') && n <= g.inodeBitmap.Maximum()
    ensures g.Fits(d') && Inos(g, d', n) == Inos(g, d, n)
    ensures SuperOk(g, d) ==> SuperOk(g, d')
    ensures InodeBitsAre(g, d, n) ==> InodeBitsAre(g, d', n)
  {
    hide DecodeInode, Quarter, Bit, DecodeSuper, FieldsOf;
    forall i: nat | i < n ensures g.InodeAt(d', i) == g.InodeAt(d, i) { g.InodeBlockInArea(d, i); }
    forall k: nat | k < g.inodeBitmap.Maximum()
      ensures g.inodeBitmap.IsSet(d', k) == g.inodeBitmap.IsSet(d, k)
    {
      InodeBitInArea(g, d, k);
    }
  }

  lemma InodeBitInArea(g: Geometry, d: Disk, k: nat)
    requires g.Fits(d) && k < g.inodeBitmap.Maximum()
    ensures 1 <= g.inodeBitmap.startBlockId + k / BLOCK_BITS < g.inodeAreaStart
  {
    assert BLOCK_BITS * (k / BLOCK_BITS) <= k < BLOCK_BITS * g.inodeBitmap.blocks;
  }

  /** Storing an inode leaves the super block and the inode bitmap alone. */
  lemma StoredFrame(g: Geometry, d: Disk, d': Disk, i: nat, ino: Inode, n: nat)
    requires g.Fits(d) && i < g.inodeBitmap.Maximum() && n <= g.inodeBitmap.Maximum() && g.Stored(d, d', i, ino)
    ensures g.Fits(d')
    ensures i < n ==> Inos(g, d', n) == Inos(g, d, n)[i := ino]
    ensures i >= n ==> Inos(g, d', n) == Inos(g, d, n)
    ensures SuperOk(g, d) ==> SuperOk(g, d')
    ensures InodeBitsAre(g, d, n) ==> InodeBitsAre(g, d', n)
    ensures forall b: nat | g.dataBitmap.startBlockId <= b < |d| :: d'[b] == d[b]
  {
    hide DecodeInode, Quarter, Bit, DecodeSuper, FieldsOf;
    g.InodeBlockInArea(d, i);
    forall k: nat | k < g.inodeBitmap.Maximum()
      ensures g.inodeBitmap.IsSet(d', k) == g.inodeBitmap.IsSet(d, k)
    {
      InodeBitInArea(g, d, k);
    }
    assert g.Fits(d');
    forall j: nat | j < n ensures g.InodeAt(d', j) == if j == i then ino else g.InodeAt(d, j) { }
  }

  // ---------------------------------------------------------------- finishing an operation

  /** An operation changed file `i` to inode `ino` and disk `d1`; storing the inode mounts the new table. */
  lemma StoreFinish(g: Geometry, d: Disk, owner: map<u32, (nat, nat)>, t: Table,
                    i: nat, ino: Inode, d1: Disk, owner1: map<u32, (nat, nat)>, node: Node, d2: Disk)
    requires Mounted(g, d, owner, t) && i < |t| && SameFront(g, d, d1) && g.Fits(d1)
    requires node.DirNode? ==> ValidNames(node.entries)
    requires IsTree(t[i := node]) && (ino.kind == Directory <==> node.DirNode?)
    requires FsOk(View(g, d1, Inos(g, d, |t|)[i := ino], owner1), BytesOf(t)[i := NodeBytes(node)])
    requires g.Stored(d1, d2, i, ino)
    ensures Mounted(g, d2, owner1, t[i := node])
  {
    hide FsOk, IsTree, InodeBitsAre, SuperOk;
    FrontFrame(g, d, d1, |t|);
    StoredFrame(g, d1, d2, i, ino, |t|);
    InodeStep(View(g, d1, Inos(g, d, |t|)[i := ino], owner1), BytesOf(t)[i := NodeBytes(node)], d2);
    assert BytesOf(t[i := node]) == BytesOf(t)[i := NodeBytes(node)];
  }
}
