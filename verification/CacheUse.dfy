/** How the file system uses the block cache: which blocks an operation holds at the same time. */
module CacheUse {
  import opened Bytes
  import opened BlockCache
  import opened IndexTree
  import opened FileData
  import opened Bitmap
  import opened DiskFormat
  import opened FsState
  import opened FsSteps
  import C = CacheRun

  /** A block looked up, locked, and kept while a closure makes the uses `inner`. */
  datatype Use = Use(b: nat, inner: seq<Use>)

  /** The lookups and drops of some uses in turn, with `h` handles open already. */
  function Steps(us: seq<Use>, h: nat): (ops: seq<C.Op>)
  {
    if us == [] then []
    else [C.Get(us[0].b)] + Steps(us[0].inner, h + 1) + [C.Drop(h)] + Steps(us[1..], h)
  }

  /** Inside uses of the blocks `path`, the uses `us` stay on a device of `n` blocks, lock no block that is
    * locked already, and go at most `depth` deep. */
  ghost predicate Calm(us: seq<Use>, path: seq<nat>, n: nat, depth: nat)
    decreases us
  {
    forall i | 0 <= i < |us| :: CalmUse(us[i], path, n, depth)
  }

  ghost predicate CalmUse(u: Use, path: seq<nat>, n: nat, depth: nat)
    decreases u
  {
    u.b < n && u.b !in path && depth > 0 && Calm(u.inner, path + [u.b], n, depth - 1)
  }

  // ---------------------------------------------------------------- calm uses never exhaust the cache

  /** No block is looked up, and so locked, while a handle of it is open. */
  ghost predicate NoRelock(p: C.Plain, ops: seq<C.Op>)
    requires C.RunOk(p, ops)
    decreases ops
  {
    ops == [] || C.Panics(p, ops[0])
    || ((ops[0].Get? ==> ops[0].b !in p.held) && NoRelock(C.Next(p, ops[0]), ops[1..]))
  }

  /** A run that reads nothing, does not panic, locks no block twice, and ends in `q`. */
  ghost predicate Leads(p: C.Plain, ops: seq<C.Op>, q: C.Plain)
  {
    C.RunOk(p, ops) && C.RunOf(p, ops) == (q, [], false) && NoRelock(p, ops)
  }

  lemma {:induction false} LeadsThen(p: C.Plain, a: seq<C.Op>, q: C.Plain, b: seq<C.Op>, r: C.Plain)
    requires Leads(p, a, q) && Leads(q, b, r)
    ensures Leads(p, a + b, r)
    decreases a
  {
    hide C.Admissible, C.Panics, C.Next, C.Sees;
    if a == [] {
      assert a + b == b;
    } else {
      LeadsThen(C.Next(p, a[0]), a[1..], q, b, r);
      assert (a + b)[0] == a[0] && (a + b)[1..] == a[1..] + b;
    }
  }

  lemma LeadsOne(p: C.Plain, op: C.Op)
    requires C.Admissible(p, op) && !C.Panics(p, op) && C.Sees(p, op) == [] && (op.Get? ==> op.b !in p.held)
    ensures Leads(p, [op], C.Next(p, op))
  {
    hide C.Admissible, C.Panics, C.Next, C.Sees;
    var ops, q := [op], C.Next(p, op);
    assert ops[1..] == [] && ops[0] == op;
    assert C.RunOk(q, ops[1..]) && C.RunOf(q, ops[1..]) == (q, [], false);
    assert C.Sees(p, op) + [] == [] && NoRelock(q, ops[1..]);
  }

  lemma {:induction false} ElemsAtMost(s: seq<nat>)
    ensures |C.Elems(s)| <= |s|
  {
    if s != [] {
      var n := |s| - 1;
      ElemsAtMost(s[..n]);
      assert C.Elems(s) == C.Elems(s[..n]) + {s[n]};
    } else {
      assert C.Elems(s) == {};
    }
  }

  lemma OneUse(p: C.Plain, b: nat, inside: seq<C.Op>)
    requires b < |p.blocks| && b !in p.held && |p.held| < BLOCK_CACHE_SIZE
    requires Leads(p.(held := p.held + [b]), inside, p.(held := p.held + [b]))
    ensures Leads(p, [C.Get(b)] + inside + [C.Drop(|p.held|)], p)
  {
    hide Leads;
    var q := p.(held := p.held + [b]);
    ElemsAtMost(p.held);
    LeadsOne(p, C.Get(b));
    assert C.Next(q, C.Drop(|p.held|)).held == p.held;
    LeadsOne(q, C.Drop(|p.held|));
    LeadsThen(p, [C.Get(b)], q, inside, q);
    LeadsThen(p, [C.Get(b)] + inside, q, [C.Drop(|p.held|)], p);
  }

  /** Calm uses within the size of the cache: no lookup panics or waits for a lock of its own thread, and every
    * handle is given back. */
  lemma {:induction false} CalmIsHarmless(p: C.Plain, us: seq<Use>, depth: nat)
    requires Calm(us, p.held, |p.blocks|, depth) && |p.held| + depth <= BLOCK_CACHE_SIZE
    ensures Leads(p, Steps(us, |p.held|), p)
    decreases us
  {
    if us != [] {
      hide Leads;
      var u, h := us[0], |p.held|;
      CalmIsHarmless(p.(held := p.held + [u.b]), u.inner, depth - 1);
      CalmIsHarmless(p, us[1..], depth);
      OneUse(p, u.b, Steps(u.inner, h + 1));
      LeadsThen(p, [C.Get(u.b)] + Steps(u.inner, h + 1) + [C.Drop(h)], p, Steps(us[1..], h), p);
    }
  }

  // ---------------------------------------------------------------- what the operations use

  function Leaf(b: nat): (u: Use)
  {
    Use(b, [])
  }

  /** `get_block_id`. */
  function LookupUses(ino: Inode, d: Disk, k: nat): (us: seq<Use>)
  {
    if k < INODE_DIRECT_COUNT then []
    else if k < INDIRECT1_BOUND then [Leaf(ino.indirect1)]
    else [Leaf(ino.indirect2), Leaf(Entry(d, ino.indirect2, (k - INDIRECT1_BOUND) / INODE_INDIRECT1_COUNT))]
  }

  /** `read_at` and `write_at` on data blocks `k` up to `end`. */
  function RangeUses(ino: Inode, d: Disk, k: nat, end: nat): (us: seq<Use>)
    decreases end - k
  {
    if k >= end then [] else LookupUses(ino, d, k) + [Leaf(BlockId(ino, d, k))] + RangeUses(ino, d, k + 1, end)
  }

  /** The search through the first `n` blocks of a bitmap. */
  function ScanUses(bm: Bitmap, n: nat): (us: seq<Use>)
  {
    seq(n, j requires 0 <= j => Leaf(bm.startBlockId + j))
  }

  function AllocUses(bm: Bitmap, scans: seq<nat>): (us: seq<Use>)
  {
    if scans == [] then [] else ScanUses(bm, scans[0]) + AllocUses(bm, scans[1..])
  }

  /** The rows that data blocks `k` up to `end` are entered in, one use a block. */
  function RowUses(ino: Inode, d: Disk, k: nat, end: nat): (us: seq<Use>)
    requires k >= INDIRECT1_BOUND
    decreases end - k
  {
    if k >= end then []
    else [Leaf(Entry(d, ino.indirect2, (k - INDIRECT1_BOUND) / INODE_INDIRECT1_COUNT))] + RowUses(ino, d, k + 1, end)
  }

  /** `increase_size` on a tree of `n` data blocks; `rows` is what it does inside the double-indirect block. */
  function TreeUses(ino: Inode, n: nat, rows: seq<Use>): (us: seq<Use>)
  {
    (if n > INODE_DIRECT_COUNT then [Leaf(ino.indirect1)] else [])
    + (if n > INDIRECT1_BOUND then [Use(ino.indirect2, rows)] else [])
  }

  function FillUses(ino: Inode, d: Disk, n0: nat): (us: seq<Use>)
  {
    var n := DataBlocks(ino.size);
    TreeUses(ino, n, RowUses(ino, d, Max(n0, INDIRECT1_BOUND), n))
  }

  /** `clear_size`: every row once. */
  function EmptyUses(ino: Inode, d: Disk): (us: seq<Use>)
  {
    var n := DataBlocks(ino.size);
    TreeUses(ino, n, EachRow(ino, d, if n > INDIRECT1_BOUND then (n - INDIRECT1_BOUND + 127) / 128 else 0))
  }

  function EachRow(ino: Inode, d: Disk, rows: nat): (us: seq<Use>)
  {
    seq(rows, a requires 0 <= a => Leaf(Entry(d, ino.indirect2, a)))
  }

  /** Where the bit of block `id` of the data area is. */
  function BitBlock(g: Geometry, id: nat): (b: nat)
  {
    g.dataBitmap.startBlockId + (if id < g.dataAreaStart then 0 else (id - g.dataAreaStart) / BLOCK_BITS)
  }

  /** `dealloc_data` for each of `ids`. */
  function FreeUses(g: Geometry, ids: seq<u32>): (us: seq<Use>)
  {
    if ids == [] then []
    else
      [Leaf(ids[0])]
      + [Leaf(BitBlock(g, ids[0]))]
      + FreeUses(g, ids[1..])
  }

  /** What the file operations do between two moments without handles: read the data blocks `k` up to `end` of a file;
    * let a file grow from `n0` data blocks and write some; empty a file; take a new inode. */
  datatype Act =
    | Reading(i: nat, k: nat, end: nat)
    | Writing(i: nat, grows: bool, n0: nat, scans: seq<nat>, k: nat, end: nat)
    | Clearing(i: nat)
    | Making(i: nat, scan: nat)

  function UsesOf(v: View, a: Act): (us: seq<Use>)
    requires a.Making? || a.i < |v.inos|
  {
    var b := v.g.InodeBlock(a.i);
    match a
    case Reading(i, k, end) => [Use(b, RangeUses(v.inos[i], v.d, k, end))]
    case Writing(i, grows, n0, scans, k, end) =>
      var growth := if grows then AllocUses(v.g.dataBitmap, scans) + FillUses(v.inos[i], v.d, n0) else [];
      [Use(b, growth + RangeUses(v.inos[i], v.d, k, end))]
    case Clearing(i) => [Use(b, EmptyUses(v.inos[i], v.d) + FreeUses(v.g, Owned(v.inos[i], v.d)))]
    case Making(i, scan) => ScanUses(v.g.inodeBitmap, scan) + [Leaf(b)]
  }

  /** The blocks are the file's, or the one after its last where nothing is written; bitmaps are searched to their
    * end at most. */
  ghost predicate ActOk(v: View, a: Act)
  {
    a.i < v.g.inodeBitmap.Maximum() &&
    match a
    case Reading(i, k, end) => i < |v.inos| && end <= DataBlocks(v.inos[i].size)
    case Writing(i, _, _, scans, k, end) =>
      && i < |v.inos| && (forall j | 0 <= j < |scans| :: scans[j] <= v.g.dataBitmap.blocks)
      && (end <= DataBlocks(v.inos[i].size) || (end == k + 1 && InTree(v.inos[i], k)))
    case Clearing(i) => i < |v.inos|
    case Making(_, scan) => scan <= v.g.inodeBitmap.blocks
  }

  /** Data block `k` has all its index blocks. */
  predicate InTree(ino: Inode, k: nat)
  {
    k < DataBlocks(ino.size) || (k == DataBlocks(ino.size) && !StartsIndex(k))
  }

  // ---------------------------------------------------------------- they are calm

  /** Uses that hold one block at a time, and none of the inode area. */
  ghost predicate Flat(g: Geometry, n: nat, us: seq<Use>)
  {
    forall j | 0 <= j < |us| ::
      us[j].inner == [] && us[j].b < n && !(g.inodeAreaStart <= us[j].b < g.dataBitmap.startBlockId)
  }

  lemma FlatIsCalm(g: Geometry, n: nat, us: seq<Use>, b: nat, depth: nat)
    requires Flat(g, n, us) && depth > 0 && g.inodeAreaStart <= b < g.dataBitmap.startBlockId
    ensures Calm(us, [b], n, depth)
  {
    forall i | 0 <= i < |us|
      ensures CalmUse(us[i], [b], n, depth)
    {
      assert Calm([], [b] + [us[i].b], n, depth - 1);
    }
  }

  lemma CalmAppend(us: seq<Use>, ws: seq<Use>, path: seq<nat>, n: nat, depth: nat)
    requires Calm(us, path, n, depth) && Calm(ws, path, n, depth)
    ensures Calm(us + ws, path, n, depth)
  {
    hide CalmUse;
  }

  lemma IndexBelow(k: nat, n: nat)
    requires k < n || (k == n && !StartsIndex(n))
    ensures k >= INODE_DIRECT_COUNT ==> 28 < SlotCount(n)
    ensures k >= INDIRECT1_BOUND ==> 157 < SlotCount(n)
    ensures k >= INDIRECT1_BOUND ==> 158 + 129 * ((k - INDIRECT1_BOUND) / INODE_INDIRECT1_COUNT) < SlotCount(n)
  {
    hide SlotCount;
    if k < n {
      assert n - 1 >= k;
      DataSlotPastIndex(k);
      SlotCountMonotone(k + 1, n);
    } else {
      if k > DIRECT_BOUND { SlotCountAtLeast(n); }
      if k > INDIRECT1_BOUND { RowBelow(n); }
    }
  }

  lemma SlotCountAtLeast(n: nat)
    requires n > DIRECT_BOUND
    ensures SlotCount(n) > n && (n > INDIRECT1_BOUND ==> SlotCount(n) > n + 1)
  {
  }

  lemma DataSlotPastIndex(k: nat)
    ensures k >= INODE_DIRECT_COUNT ==> 28 < SlotCount(k + 1)
    ensures k >= INDIRECT1_BOUND ==> 157 < SlotCount(k + 1)
    ensures k >= INDIRECT1_BOUND ==> 158 + 129 * ((k - INDIRECT1_BOUND) / INODE_INDIRECT1_COUNT) < SlotCount(k + 1)
  {
    hide SlotCount;
    BlockIdIsDataSlot(InodeRec(0, seq(INODE_DIRECT_COUNT, _ => 0), 0, 0, File), [], k);
  }

  /** What is in a slot of a file is a block of the data area. */
  lemma SlotInData(v: View, i: nat, s: nat)
    requires Owns(v) && i < |v.inos| && s < TotalBlocks(v.inos[i].size)
    ensures v.g.dataAreaStart <= NodeAt(v.inos[i], v.d, s) < |v.d|
  {
    hide NodeAt, TotalBlocks;
    assert SlotOwned(v, i, s);
    assert BlockPlaced(v, NodeAt(v.inos[i], v.d, s));
  }

  /** The index blocks on the way to data block `k`. */
  lemma IndexInData(v: View, i: nat, k: nat)
    requires Owns(v) && i < |v.inos| && InTree(v.inos[i], k)
    ensures var ino := v.inos[i];
            && (k >= INODE_DIRECT_COUNT ==> v.g.dataAreaStart <= ino.indirect1 < |v.d|)
            && (k >= INDIRECT1_BOUND ==>
                  var row := Entry(v.d, ino.indirect2, (k - INDIRECT1_BOUND) / INODE_INDIRECT1_COUNT);
                  && v.g.dataAreaStart <= ino.indirect2 < |v.d| && v.g.dataAreaStart <= row < |v.d|
                  && row != ino.indirect2)
  {
    hide NodeAt, SlotCount, Owns, Entry, StartsIndex, DataBlocks;
    IndexBelow(k, DataBlocks(v.inos[i].size));
    if k >= INODE_DIRECT_COUNT { Indirect1InData(v, i); }
    if k >= INDIRECT1_BOUND { RowInData(v, i, (k - INDIRECT1_BOUND) / INODE_INDIRECT1_COUNT); }
  }

  lemma Indirect1InData(v: View, i: nat)
    requires Owns(v) && i < |v.inos| && 28 < TotalBlocks(v.inos[i].size)
    ensures v.g.dataAreaStart <= v.inos[i].indirect1 < |v.d|
  {
    hide NodeAt, TotalBlocks, Owns;
    IndexFields(v.inos[i], v.d, 0);
    SlotInData(v, i, 28);
  }

  lemma RowInData(v: View, i: nat, a: nat)
    requires Owns(v) && i < |v.inos| && 158 + 129 * a < TotalBlocks(v.inos[i].size)
    ensures var ino := v.inos[i];
            var row := Entry(v.d, ino.indirect2, a);
            && v.g.dataAreaStart <= ino.indirect2 < |v.d| && v.g.dataAreaStart <= row < |v.d|
            && row != ino.indirect2
  {
    hide NodeAt, TotalBlocks, Owns, Entry, Sound;
    var ino := v.inos[i];
    IndexFields(ino, v.d, 0);
    RowNode(ino, v.d, a);
    SlotInData(v, i, 157);
    SlotInData(v, i, 158 + 129 * a);
    SoundFile(v, i);
    SlotsDiffer(ino, v.d, 157, 158 + 129 * a);
  }

  lemma SlotsDiffer(ino: Inode, d: Disk, s: nat, t: nat)
    requires Sound(ino, d) && s < t < TotalBlocks(ino.size)
    ensures NodeAt(ino, d, s) != NodeAt(ino, d, t)
  {
    hide NodeAt, TotalBlocks;
    assert Owned(ino, d)[s] != Owned(ino, d)[t];
  }

  lemma BlockIsFlat(v: View, i: nat, k: nat)
    requires v.g.Fits(v.d) && Owns(v) && i < |v.inos| && SpareZero(v.inos[i], v.d) && InTree(v.inos[i], k)
    ensures Flat(v.g, |v.d|, LookupUses(v.inos[i], v.d, k) + [Leaf(BlockId(v.inos[i], v.d, k))])
  {
    hide Owns, SpareZero, BlockId, Entry, InTree;
    IndexInData(v, i, k);
    FoundBlock(v, i, k);
  }

  lemma FoundBlock(v: View, i: nat, k: nat)
    requires Owns(v) && i < |v.inos| && SpareZero(v.inos[i], v.d) && InTree(v.inos[i], k)
    ensures var b := BlockId(v.inos[i], v.d, k); b == 0 || v.g.dataAreaStart <= b < |v.d|
  {
    hide Owns, SpareZero, BlockId, StartsIndex, DataBlocks, Sound;
    if k < DataBlocks(v.inos[i].size) {
      DataInData(v, i, k);
    } else {
      SoundFile(v, i);
      SizeInBlocks(v.inos[i], v.d);
      BoundsStartIndex();
      NextIsUnfilled(v.inos[i], v.d, k);
    }
  }

  lemma DataInData(v: View, i: nat, k: nat)
    requires Owns(v) && i < |v.inos| && k < DataBlocks(v.inos[i].size)
    ensures v.g.dataAreaStart <= BlockId(v.inos[i], v.d, k) < |v.d|
  {
    hide Owns, BlockId, DataBlocks, NodeAt, SlotCount, DataSlot;
    BlockIsOwned(v.inos[i], v.d, k);
    SlotInData(v, i, DataSlot(k));
  }

  lemma {:induction false} RangeIsFlat(v: View, i: nat, k: nat, end: nat)
    requires v.g.Fits(v.d) && Owns(v) && i < |v.inos| && SpareZero(v.inos[i], v.d)
    requires end <= DataBlocks(v.inos[i].size) || (end == k + 1 && InTree(v.inos[i], k))
    ensures Flat(v.g, |v.d|, RangeUses(v.inos[i], v.d, k, end))
    decreases end - k
  {
    hide Owns, SpareZero, BlockId, StartsIndex, DataBlocks, LookupUses;
    if k < end {
      BlockIsFlat(v, i, k);
      if k + 1 < end { RangeIsFlat(v, i, k + 1, end); }
    }
  }

  lemma ScanIsFlat(g: Geometry, d: Disk, n: nat)
    requires g.Fits(d)
    ensures n <= g.dataBitmap.blocks ==> Flat(g, |d|, ScanUses(g.dataBitmap, n))
    ensures n <= g.inodeBitmap.blocks ==> Flat(g, |d|, ScanUses(g.inodeBitmap, n))
  {
    assert forall j | 0 <= j < n :: ScanUses(g.dataBitmap, n)[j] == Leaf(g.dataBitmap.startBlockId + j);
    assert forall j | 0 <= j < n :: ScanUses(g.inodeBitmap, n)[j] == Leaf(g.inodeBitmap.startBlockId + j);
  }

  lemma {:induction false} AllocIsFlat(g: Geometry, d: Disk, scans: seq<nat>)
    requires g.Fits(d) && forall j | 0 <= j < |scans| :: scans[j] <= g.dataBitmap.blocks
    ensures Flat(g, |d|, AllocUses(g.dataBitmap, scans))
  {
    hide ScanUses;
    if scans != [] {
      ScanIsFlat(g, d, scans[0]);
      AllocIsFlat(g, d, scans[1..]);
    }
  }

  lemma {:induction false} FreeIsFlat(g: Geometry, d: Disk, ids: seq<u32>)
    requires g.Fits(d) && forall j | 0 <= j < |ids| :: g.dataAreaStart <= ids[j] < |d|
    ensures Flat(g, |d|, FreeUses(g, ids))
  {
    if ids != [] {
      BitBlockInArea(g, d, ids[0] - g.dataAreaStart);
      FreeIsFlat(g, d, ids[1..]);
    }
  }

  /** Rows of file `i`: flat, and none is the double-indirect block they are used inside of. */
  ghost predicate RowsOk(v: View, i: nat, rows: seq<Use>)
    requires i < |v.inos|
  {
    Flat(v.g, |v.d|, rows) && forall j | 0 <= j < |rows| :: rows[j].b != v.inos[i].indirect2
  }

  lemma {:induction false} RowsAreOk(v: View, i: nat, k: nat, end: nat)
    requires v.g.Fits(v.d) && Owns(v) && i < |v.inos| && INDIRECT1_BOUND <= k && end <= DataBlocks(v.inos[i].size)
    ensures RowsOk(v, i, RowUses(v.inos[i], v.d, k, end))
    decreases end - k
  {
    hide Owns, Entry, DataBlocks;
    if k < end {
      IndexInData(v, i, k);
      RowsAreOk(v, i, k + 1, end);
    }
  }

  lemma EachRowIsOk(v: View, i: nat, rows: nat)
    requires v.g.Fits(v.d) && Owns(v) && i < |v.inos|
    requires rows > 0 ==> INDIRECT1_BOUND + 128 * (rows - 1) < DataBlocks(v.inos[i].size)
    ensures RowsOk(v, i, EachRow(v.inos[i], v.d, rows))
  {
    hide Owns, Entry, DataBlocks;
    forall a: nat | a < rows
      ensures var b := Entry(v.d, v.inos[i].indirect2, a);
              v.g.dataAreaStart <= b < |v.d| && b != v.inos[i].indirect2
    {
      IndexInData(v, i, INDIRECT1_BOUND + 128 * a);
      assert (128 * a) / INODE_INDIRECT1_COUNT == a;
    }
  }

  lemma TreeIsCalm(v: View, i: nat, rows: seq<Use>, b: nat)
    requires v.g.Fits(v.d) && Owns(v) && i < |v.inos| && RowsOk(v, i, rows)
    requires v.g.inodeAreaStart <= b < v.g.dataBitmap.startBlockId
    ensures Calm(TreeUses(v.inos[i], DataBlocks(v.inos[i].size), rows), [b], |v.d|, 2)
  {
    hide Owns, Entry, DataBlocks, RowsOk, Calm, CalmUse;
    var ino, n := v.inos[i], DataBlocks(v.inos[i].size);
    if n > INODE_DIRECT_COUNT {
      IndexInData(v, i, n - 1);
      LeafIsCalm(ino.indirect1, [b], |v.d|, 2);
    }
    if n > INDIRECT1_BOUND { RowsAreCalm(v, i, rows, b); }
    TwoAreCalm(ino, n, rows, b, |v.d|);
  }

  lemma LeafIsCalm(b: nat, path: seq<nat>, n: nat, depth: nat)
    requires b < n && b !in path && depth > 0
    ensures CalmUse(Leaf(b), path, n, depth)
  {
    assert Calm([], path + [b], n, depth - 1);
  }

  lemma RowsAreCalm(v: View, i: nat, rows: seq<Use>, b: nat)
    requires i < |v.inos| && RowsOk(v, i, rows) && v.g.inodeAreaStart <= b < v.g.dataBitmap.startBlockId
    requires v.g.dataBitmap.startBlockId <= v.inos[i].indirect2 < |v.d|
    ensures CalmUse(Use(v.inos[i].indirect2, rows), [b], |v.d|, 2)
  {
    var path := [b] + [v.inos[i].indirect2];
    forall j | 0 <= j < |rows|
      ensures CalmUse(rows[j], path, |v.d|, 1)
    {
      LeafIsCalm(rows[j].b, path, |v.d|, 1);
      assert rows[j] == Leaf(rows[j].b);
    }
    assert Calm(rows, path, |v.d|, 1);
  }

  lemma TwoAreCalm(ino: Inode, n: nat, rows: seq<Use>, b: nat, size: nat)
    requires n > INODE_DIRECT_COUNT ==> CalmUse(Leaf(ino.indirect1), [b], size, 2)
    requires n > INDIRECT1_BOUND ==> CalmUse(Use(ino.indirect2, rows), [b], size, 2)
    ensures Calm(TreeUses(ino, n, rows), [b], size, 2)
  {
    hide CalmUse;
  }

  lemma ClearIsCalm(v: View, i: nat, b: nat)
    requires v.g.Fits(v.d) && Owns(v) && i < |v.inos|
    requires v.g.inodeAreaStart <= b < v.g.dataBitmap.startBlockId
    ensures Calm(EmptyUses(v.inos[i], v.d) + FreeUses(v.g, Owned(v.inos[i], v.d)), [b], |v.d|, 2)
  {
    var ino, n := v.inos[i], DataBlocks(v.inos[i].size);
    hide Owns, Calm, NodeAt, SlotCount, FreeUses, TreeUses, EachRow, RowsOk;
    var rows := if n > INDIRECT1_BOUND then (n - INDIRECT1_BOUND + 127) / 128 else 0;
    EachRowIsOk(v, i, rows);
    TreeIsCalm(v, i, EachRow(ino, v.d, rows), b);
    forall s | 0 <= s < |Owned(ino, v.d)|
      ensures v.g.dataAreaStart <= Owned(ino, v.d)[s] < |v.d|
    {
      SlotInData(v, i, s);
    }
    FreeIsFlat(v.g, v.d, Owned(ino, v.d));
    FlatIsCalm(v.g, |v.d|, FreeUses(v.g, Owned(ino, v.d)), b, 2);
    CalmAppend(EmptyUses(ino, v.d), FreeUses(v.g, Owned(ino, v.d)), [b], |v.d|, 2);
  }

  lemma GrowthIsCalm(v: View, i: nat, n0: nat, scans: seq<nat>, b: nat)
    requires v.g.Fits(v.d) && Owns(v) && i < |v.inos|
    requires forall j | 0 <= j < |scans| :: scans[j] <= v.g.dataBitmap.blocks
    requires v.g.inodeAreaStart <= b < v.g.dataBitmap.startBlockId
    ensures Calm(AllocUses(v.g.dataBitmap, scans) + FillUses(v.inos[i], v.d, n0), [b], |v.d|, 2)
  {
    var ino, n := v.inos[i], DataBlocks(v.inos[i].size);
    hide Owns, Calm, AllocUses, TreeUses, RowUses, RowsOk, DataBlocks;
    AllocIsFlat(v.g, v.d, scans);
    FlatIsCalm(v.g, |v.d|, AllocUses(v.g.dataBitmap, scans), b, 2);
    RowsAreOk(v, i, Max(n0, INDIRECT1_BOUND), n);
    TreeIsCalm(v, i, RowUses(ino, v.d, Max(n0, INDIRECT1_BOUND), n), b);
    CalmAppend(AllocUses(v.g.dataBitmap, scans), FillUses(ino, v.d, n0), [b], |v.d|, 2);
  }

  /** A use of an inode's block around calm uses. */
  lemma InodeUseIsCalm(b: nat, us: seq<Use>, n: nat)
    requires b < n && Calm(us, [b], n, 2)
    ensures Calm([Use(b, us)], [], n, 3)
  {
    assert [] + [b] == [b];
  }

  /** Every file operation holds at most three blocks at a time, and never asks for one that it holds. */
  lemma ActIsCalm(v: View, cs: seq<seq<byte>>, a: Act)
    requires FsOk(v, cs) && ActOk(v, a)
    ensures Calm(UsesOf(v, a), [], |v.d|, 3)
  {
    var b := v.g.InodeBlock(a.i);
    v.g.InodeBlockInArea(v.d, a.i);
    hide Owns, Calm, RangeUses, AllocUses, FillUses, EmptyUses, FreeUses, Owned, Used, SpareZero, TailZero;
    match a {
      case Reading(i, k, end) =>
        RangeIsFlat(v, i, k, end);
        FlatIsCalm(v.g, |v.d|, RangeUses(v.inos[i], v.d, k, end), b, 2);
        InodeUseIsCalm(b, RangeUses(v.inos[i], v.d, k, end), |v.d|);
      case Writing(i, grows, n0, scans, k, end) =>
        RangeIsFlat(v, i, k, end);
        var range := RangeUses(v.inos[i], v.d, k, end);
        FlatIsCalm(v.g, |v.d|, range, b, 2);
        GrowthIsCalm(v, i, n0, scans, b);
        var growth := if grows then AllocUses(v.g.dataBitmap, scans) + FillUses(v.inos[i], v.d, n0) else [];
        FlatIsCalm(v.g, |v.d|, [], b, 2);
        CalmAppend(growth, range, [b], |v.d|, 2);
        InodeUseIsCalm(b, growth + range, |v.d|);
      case Clearing(i) =>
        ClearIsCalm(v, i, b);
        InodeUseIsCalm(b, EmptyUses(v.inos[i], v.d) + FreeUses(v.g, Owned(v.inos[i], v.d)), |v.d|);
      case Making(i, scan) =>
        ScanIsFlat(v.g, v.d, scan);
        MakingIsCalm(v.g, |v.d|, scan, b);
    }
  }

  lemma MakingIsCalm(g: Geometry, n: nat, scan: nat, b: nat)
    requires Flat(g, n, ScanUses(g.inodeBitmap, scan)) && b < n
    ensures Calm(ScanUses(g.inodeBitmap, scan) + [Leaf(b)], [], n, 3)
  {
  }

  /** An act, and the file system as it is when its index blocks are in place. */
  datatype Step = Step(v: View, cs: seq<seq<byte>>, act: Act)

  ghost predicate StepOk(n: nat, s: Step)
    ensures StepOk(n, s) ==> s.act.Making? || s.act.i < |s.v.inos|
  {
    |s.v.d| == n && FsOk(s.v, s.cs) && ActOk(s.v, s.act)
  }

  /** The device keeps its size, and every step finds the file system in order. */
  ghost predicate SessionOk(n: nat, steps: seq<Step>)
  {
    forall j | 0 <= j < |steps| :: StepOk(n, steps[j])
  }

  /** What an act does with the cache; acts that write end with `block_cache_sync_all`. */
  ghost function ActSteps(v: View, a: Act): (ops: seq<C.Op>)
    requires a.Making? || a.i < |v.inos|
  {
    Steps(UsesOf(v, a), 0) + (if a.Writing? || a.Clearing? then [C.SyncAll] else [])
  }

  ghost function SessionSteps(n: nat, steps: seq<Step>): (ops: seq<C.Op>)
    requires SessionOk(n, steps)
  {
    if steps == [] then [] else ActSteps(steps[0].v, steps[0].act) + SessionSteps(n, steps[1..])
  }

  lemma ActNeverPanics(p: C.Plain, v: View, cs: seq<seq<byte>>, a: Act)
    requires FsOk(v, cs) && ActOk(v, a) && |p.blocks| == |v.d| && p.held == []
    ensures Leads(p, ActSteps(v, a), p)
  {
    hide Leads, FsOk, UsesOf, Calm, Steps;
    ActIsCalm(v, cs, a);
    CalmIsHarmless(p, UsesOf(v, a), 3);
    LeadsOne(p, C.SyncAll);
    if a.Writing? || a.Clearing? {
      LeadsThen(p, Steps(UsesOf(v, a), 0), p, [C.SyncAll], p);
    } else {
      assert ActSteps(v, a) == Steps(UsesOf(v, a), 0);
    }
  }

  lemma StepNeverPanics(p: C.Plain, s: Step)
    requires StepOk(|p.blocks|, s) && p.held == []
    ensures Leads(p, ActSteps(s.v, s.act), p)
  {
    hide Leads, ActSteps, FsOk, ActOk;
    ActNeverPanics(p, s.v, s.cs, s.act);
  }

  /** However many file operations follow one another, none runs out of cached blocks, none locks a block twice, and
    * none leaves a handle behind. */
  lemma {:induction false} SessionNeverPanics(p: C.Plain, steps: seq<Step>)
    requires SessionOk(|p.blocks|, steps) && p.held == []
    ensures Leads(p, SessionSteps(|p.blocks|, steps), p)
  {
    if steps != [] {
      hide Leads, ActSteps, StepOk;
      StepNeverPanics(p, steps[0]);
      SessionNeverPanics(p, steps[1..]);
      LeadsThen(p, ActSteps(steps[0].v, steps[0].act), p, SessionSteps(|p.blocks|, steps[1..]), p);
    }
  }
}
