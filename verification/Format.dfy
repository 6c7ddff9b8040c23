/** Formatting a device, opening one, and whole runs of operations. */
module Format {
  import opened Wrappers
  import opened Bytes
  import opened IndexTree
  import opened Layout
  import opened Bitmap
  import opened DiskFormat
  import opened FsState
  import opened FsSteps
  import opened Directory
  import opened FsSpec
  import opened Paths
  import opened Mount
  import opened Vfs

  lemma {:induction false} ZeroBits(j: nat)
    ensures !BitOf(0, j)
  {
    if j > 0 {
      ZeroBits(j - 1);
    }
  }

  lemma ZeroBlockBits(k: nat)
    requires k < BLOCK_BITS
    ensures !Bit(ZeroBlock(), k)
  {
    ZeroLE(ZeroBlock()[8 * (k / 64)..8 * (k / 64) + 8]);
    ZeroBits(k % 64);
  }

  /** All blocks but the super block are zero. */
  ghost predicate Blank(d: Disk)
  {
    forall b: nat | 1 <= b < |d| :: d[b] == ZeroBlock()
  }

  lemma BlankBitmap(bm: Bitmap, d: Disk, k: nat)
    requires bm.On(d) && 1 <= bm.startBlockId && k < bm.Maximum() && Blank(d)
    ensures !bm.IsSet(d, k)
  {
    hide Bit, ZeroBlock;
    assert BLOCK_BITS * (k / BLOCK_BITS) <= k < BLOCK_BITS * bm.blocks;
    ZeroBlockBits(k % BLOCK_BITS);
  }

  lemma BlankFsOk(g: Geometry, d: Disk)
    requires g.Fits(d) && Blank(d)
    ensures InodeBitsAre(g, d, 0) && FsOk(View(g, d, [], map[]), [])
  {
    hide Bit, ZeroBlock;
    forall k: nat | k < g.inodeBitmap.Maximum() ensures !g.inodeBitmap.IsSet(d, k) { BlankBitmap(g.inodeBitmap, d, k); }
    forall k: nat | k < g.dataBitmap.Maximum() ensures !g.dataBitmap.IsSet(d, k) { BlankBitmap(g.dataBitmap, d, k); }
    var v := View(g, d, [], map[]);
    assert |v.owner| == 0;
    assert Owns(v) && Reads(v, []);
  }

  lemma RootIsTree()
    ensures IsTree([DirNode([])]) && BytesOf([DirNode([])]) == [[]]
  {
    var t := [DirNode([])];
    assert IsTree(t);
    assert BytesOf(t)[0] == DirBytes([]) == [];
  }

  /** Formats the device: blank blocks, the super block, and an empty root directory as inode 0. */
  method CreateFs(dev: Device, totalBlocks: u32, inodeBitmapBlocks: u32) returns (fs: EasyFileSystem)
    requires |dev.blocks| == totalBlocks && PlanFits(totalBlocks, inodeBitmapBlocks)
    modifies dev
    ensures fresh(fs) && fs.dev == dev && fs.g == FieldsOf(Plan(totalBlocks, inodeBitmapBlocks))
    ensures fs.Valid() && fs.table == [DirNode([])] && |dev.blocks| == totalBlocks
  {
    var sb := Plan(totalBlocks, inodeBitmapBlocks);
    var g := FieldsOf(sb);
    for i := 0 to totalBlocks
      invariant |dev.blocks| == totalBlocks
      invariant forall b | 0 <= b < i :: dev.blocks[b] == ZeroBlock()
    {
      dev.blocks := dev.blocks[i := ZeroBlock()];
    }
    dev.blocks := dev.blocks[0 := StoreSuper(dev.blocks[0], sb)];
    fs := FormatRoot(dev, sb, g);
  }

  method FormatRoot(dev: Device, ghost sb: SuperBlock, g: Geometry) returns (fs: EasyFileSystem)
    requires |dev.blocks| == sb.totalBlocks && PlanFits(sb.totalBlocks, sb.inodeBitmapBlocks)
    requires sb == Plan(sb.totalBlocks, sb.inodeBitmapBlocks) && g == FieldsOf(sb)
    requires Blank(dev.blocks) && dev.blocks[0] == StoreSuper(ZeroBlock(), sb)
    modifies dev
    ensures fresh(fs) && fs.dev == dev && fs.g == g
    ensures fs.Valid() && fs.table == [DirNode([])] && |dev.blocks| == |old(dev.blocks)|
  {
    hide Blank, FsOk, InodeBitsAre, StoreSuper, FieldsOf, Plan, IsTree, SuperOk, Mounted, ZeroBlock;
    BlankSuper(sb, g, dev.blocks);
    var blank := new EasyFileSystem.Blank(dev, g);
    ghost var d0 := dev.blocks;
    BlankFsOk(g, d0);
    var id := blank.NewInode(Directory, 0);
    RootMounted(g, d0, dev.blocks);
    fs := new EasyFileSystem(dev, g, map[], [DirNode([])]);
  }

  lemma BlankSuper(sb: SuperBlock, g: Geometry, d: Disk)
    requires |d| == sb.totalBlocks && PlanFits(sb.totalBlocks, sb.inodeBitmapBlocks)
    requires sb == Plan(sb.totalBlocks, sb.inodeBitmapBlocks) && g == FieldsOf(sb)
    requires d[0] == StoreSuper(ZeroBlock(), sb)
    ensures g.Fits(d) && SuperOk(g, d)
  {
    PlanPartitions(sb.totalBlocks, sb.inodeBitmapBlocks, d);
    SuperRoundTrip(ZeroBlock(), sb);
  }

  /** The first inode, a directory, on a blank device is the root of an empty file system. */
  lemma RootMounted(g: Geometry, d0: Disk, d: Disk)
    requires g.Fits(d0) && g.Fits(d) && SuperOk(g, d) && InodeBitsAre(g, d, 1) && |d| == |d0|
    requires FsOk(View(g, d0, [], map[]), [])
    requires Inos(g, d, 1) == Inos(g, d0, 0) + [InodeRec(0, seq(INODE_DIRECT_COUNT, _ => 0), 0, 0, Directory)]
    requires forall b: nat | g.dataBitmap.startBlockId <= b < |d| :: d[b] == d0[b]
    ensures Mounted(g, d, map[], [DirNode([])])
  {
    hide FsOk, InodeBitsAre, IsTree, SuperOk;
    RootIsTree();
    var none: seq<seq<byte>> := [];
    InodeStep(View(g, d0, [], map[]), none, d);
    NewInodeStep(View(g, d, [], map[]), none, Inos(g, d, 1)[0]);
    assert none + [[]] == [[]];
    assert View(g, d, [] + [Inos(g, d, 1)[0]], map[]) == ViewOf(g, d, map[], 1);
  }

  /** Opens a formatted device: the super block gives back the areas it was formatted with. */
  method Open(dev: Device, ghost g: Geometry, ghost owner: map<u32, (nat, nat)>, ghost table: Table)
    returns (fs: EasyFileSystem)
    requires Mounted(g, dev.blocks, owner, table)
    ensures fresh(fs) && fs.dev == dev && fs.g == g && fs.Valid() && fs.table == table
  {
    hide FsOk, IsTree, InodeBitsAre;
    var sb := DecodeSuper(dev.blocks[0]);
    assert sb.magic == EFS_MAGIC;
    fs := new EasyFileSystem(dev, FieldsOf(sb), owner, table);
  }

  // ---------------------------------------------------------------- runs

  datatype Op =
    | Write(i: nat, offset: nat, buf: seq<byte>)
    | Clear(i: nat)
    | Make(i: nat, name: Name, kind: Kind)
    | Read(i: nat, offset: nat, len: nat)
    | Find(i: nat, path: Name)
    | List(i: nat)

  datatype Obs =
    | Wrote(n: nat)
    | Done
    | Got(bytes: seq<byte>)
    | Node(id: Option<nat>)
    | Names(names: seq<Name>)

  ghost function NamesOf(es: seq<DirEntry>): (names: seq<Name>)
  {
    seq(|es|, k requires 0 <= k < |es| => es[k].name)
  }

  /** What an operation demands of its caller: an inode in use, of the right kind, and room. */
  ghost predicate Admissible(g: Geometry, blocks: nat, t: Table, op: Op)
    requires IsTree(t)
  {
    op.i < |t| &&
    match op
    case Write(i, offset, buf) =>
      && t[i].FileNode? && offset + |buf| <= MAX_SIZE && WriteOk(|t[i].bytes|, offset, |buf|)
      && Room(g, blocks, t, i, Max(|t[i].bytes|, offset + |buf|))
    case Clear(i) => t[i].FileNode?
    case Make(i, name, kind) =>
      && t[i].DirNode? && ValidName(name)
      && (Lookup(t[i].entries, name).None? ==>
            && |t| < g.inodeBitmap.Maximum() && |t| < U32_LIMIT
            && |NodeBytes(t[i])| + DIRENT_SZ <= MAX_SIZE && Room(g, blocks, t, i, |NodeBytes(t[i])| + DIRENT_SZ))
    case _ => true
  }

  ghost function Next(g: Geometry, blocks: nat, t: Table, op: Op): (t': Table)
    requires IsTree(t) && Admissible(g, blocks, t, op)
  {
    match op
    case Write(i, offset, buf) => t[i := FileNode(Overwrite(t[i].bytes, offset, buf))]
    case Clear(i) => t[i := FileNode([])]
    case Make(i, name, kind) => if Lookup(t[i].entries, name).None? then Create(t, i, name, kind) else t
    case _ => t
  }

  ghost function Sees(g: Geometry, blocks: nat, t: Table, op: Op): (o: Obs)
    requires IsTree(t) && Admissible(g, blocks, t, op)
  {
    match op
    case Write(i, offset, buf) => Wrote(|buf|)
    case Clear(i) => Done
    case Make(i, name, kind) => Node(if Lookup(t[i].entries, name).None? then Some(|t|) else None)
    case Read(i, offset, len) => Got(ReadOf(NodeBytes(t[i]), offset, len))
    case Find(i, path) => Node(Walk(t, i, Components(path)))
    case List(i) => Names(if t[i].FileNode? then [] else NamesOf(t[i].entries))
  }

  /** What the caller is told, in terms of the nodes and their bytes, entries and paths. */
  ghost predicate Answers(t: Table, op: Op, o: Obs)
    requires IsTree(t)
  {
    op.i < |t| && (op.Make? ==> t[op.i].DirNode?) &&
    match op
    case Write(_, _, buf) => o == Wrote(|buf|)
    case Clear(_) => o == Done
    case Make(i, name, _) =>
      o == Node(if exists k :: 0 <= k < |t[i].entries| && t[i].entries[k].name == name then None else Some(|t|))
    case Read(i, offset, len) =>
      var c := NodeBytes(t[i]);
      && o.Got? && |o.bytes| == (if offset >= |c| then 0 else Min(len, |c| - offset))
      && forall k | 0 <= k < |o.bytes| :: o.bytes[k] == c[offset + k]
    case Find(i, path) =>
      o.Node? && forall cs, gaps, x: nat | Spells(path, cs, gaps) :: o.id == Some(x) <==> Reaches(t, i, cs, x)
    case List(i) =>
      && o.Names? && |o.names| == (if t[i].FileNode? then 0 else |t[i].entries|)
      && forall k | 0 <= k < |o.names| :: o.names[k] == t[i].entries[k].name
  }

  /** Performs one operation on the device. */
  method Perform(fs: EasyFileSystem, op: Op) returns (o: Obs)
    requires fs.Valid() && Admissible(fs.g, |fs.dev.blocks|, fs.table, op)
    modifies fs, fs.dev
    ensures fs.Valid() && |fs.dev.blocks| == |old(fs.dev.blocks)|
    ensures fs.table == old(Next(fs.g, |fs.dev.blocks|, fs.table, op))
    ensures o == old(Sees(fs.g, |fs.dev.blocks|, fs.table, op))
    ensures Answers(old(fs.table), op, o)
  {
    hide Mounted, Room, Overwrite, ReadOf, Walk, Components, Lookup, NodeBytes, IsTree, Spells, Reaches;
    match op {
      case Write(i, offset, buf) =>
        var n := fs.WriteAt(i, offset, buf);
        o := Wrote(n);
      case Clear(i) =>
        fs.Clear(i);
        o := Done;
      case Make(i, name, kind) =>
        var id := fs.CreateInode(i, name, kind);
        o := Node(id);
      case Read(i, offset, len) =>
        var buf := new byte[len](_ => 0);
        var n := fs.ReadAt(i, offset, buf);
        o := Got(buf[..n]);
      case Find(i, path) =>
        var id := fs.Find(i, path);
        o := Node(id);
      case List(i) =>
        var names := fs.Ls(i);
        o := Names(names);
    }
  }

  lemma NextIsTree(g: Geometry, blocks: nat, t: Table, op: Op)
    requires IsTree(t) && Admissible(g, blocks, t, op)
    ensures IsTree(Next(g, blocks, t, op))
  {
    hide IsTree, Overwrite, Room;
    match op {
      case Write(i, offset, buf) => FileChangeKeepsTree(t, i, Overwrite(t[i].bytes, offset, buf));
      case Clear(i) => FileChangeKeepsTree(t, i, []);
      case Make(i, name, kind) => if Lookup(t[i].entries, name).None? { CreateKeepsTree(t, i, name, kind); }
      case _ =>
    }
  }

  /** Each operation is admissible when its turn comes. */
  ghost predicate RunOk(g: Geometry, blocks: nat, t: Table, ops: seq<Op>)
    requires IsTree(t)
    decreases ops
  {
    ops == [] ||
    (&& Admissible(g, blocks, t, ops[0])
     && (NextIsTree(g, blocks, t, ops[0]); RunOk(g, blocks, Next(g, blocks, t, ops[0]), ops[1..])))
  }

  /** The table after a run and everything the caller saw during it. */
  ghost function RunOf(g: Geometry, blocks: nat, t: Table, ops: seq<Op>): (r: (Table, seq<Obs>))
    requires IsTree(t) && RunOk(g, blocks, t, ops)
    ensures IsTree(r.0)
    decreases ops
  {
    if ops == [] then (t, [])
    else
      NextIsTree(g, blocks, t, ops[0]);
      var rest := RunOf(g, blocks, Next(g, blocks, t, ops[0]), ops[1..]);
      (rest.0, [Sees(g, blocks, t, ops[0])] + rest.1)
  }

  /** Every run on the device shows the caller what the table predicts, and leaves the predicted table on it. */
  method Run(fs: EasyFileSystem, ops: seq<Op>) returns (obs: seq<Obs>)
    requires fs.Valid() && RunOk(fs.g, |fs.dev.blocks|, fs.table, ops)
    modifies fs, fs.dev
    ensures fs.Valid() && |fs.dev.blocks| == |old(fs.dev.blocks)|
    ensures (fs.table, obs) == old(RunOf(fs.g, |fs.dev.blocks|, fs.table, ops))
    decreases ops
  {
    hide Mounted, Admissible, Next, Sees;
    if ops == [] {
      obs := [];
    } else {
      var o := Perform(fs, ops[0]);
      var rest := Run(fs, ops[1..]);
      obs := [o] + rest;
    }
  }
}
