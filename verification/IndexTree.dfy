/** The block index tree of a disk inode: which blocks a file owns and in which order.
  *
  * The blocks a file owns are numbered by allocation *slots*. Slots 0..27 are the direct
  * blocks, slot 28 the indirect block, 29..156 the data blocks under it, slot 157 the
  * double-indirect block, and then rows of 129 slots: one second-level index block
  * followed by its 128 data blocks.
  */
module IndexTree {
  import opened Bytes

  const INODE_DIRECT_COUNT: nat := 28
  const INODE_INDIRECT1_COUNT: nat := BLOCK_SZ / 4
  const INODE_INDIRECT2_COUNT: nat := INODE_INDIRECT1_COUNT * INODE_INDIRECT1_COUNT
  const DIRECT_BOUND: nat := INODE_DIRECT_COUNT
  const INDIRECT1_BOUND: nat := DIRECT_BOUND + INODE_INDIRECT1_COUNT
  const INDIRECT2_BOUND: nat := INDIRECT1_BOUND + INODE_INDIRECT2_COUNT

  /** The largest file the tree can index, in bytes. */
  const MAX_SIZE: nat := INDIRECT2_BOUND * BLOCK_SZ

  datatype Kind = File | Directory

  datatype InodeRec = InodeRec(size: u32, direct: seq<u32>, indirect1: u32, indirect2: u32, kind: Kind)

  /** An on-disk inode. */
  type Inode = r: InodeRec | |r.direct| == INODE_DIRECT_COUNT
    witness InodeRec(0, seq(INODE_DIRECT_COUNT, _ => 0), 0, 0, File)

  function DataBlocks(size: nat): (n: nat)
  {
    (size + BLOCK_SZ - 1) / BLOCK_SZ
  }

  /** Data and index blocks of a file with `n` data blocks. */
  function SlotCount(n: nat): (total: nat)
  {
    n + (if n > INODE_DIRECT_COUNT then 1 else 0)
    + (if n > INDIRECT1_BOUND
       then 1 + (n - INDIRECT1_BOUND + INODE_INDIRECT1_COUNT - 1) / INODE_INDIRECT1_COUNT
       else 0)
  }

  function TotalBlocks(size: nat): (total: nat)
  {
    SlotCount(DataBlocks(size))
  }

  function BlocksNumNeeded(size: nat, newSize: nat): (n: nat)
    requires newSize >= size
  {
    SlotCountMonotone(DataBlocks(size), DataBlocks(newSize));
    TotalBlocks(newSize) - TotalBlocks(size)
  }

  /** Entry `k` of the index block `id`; 0 past the device or the block. */
  function Entry(d: Disk, id: nat, k: nat): (e: u32)
  {
    if id < |d| && k < 128 then Word(d[id], k) else 0
  }

  function SetEntry(d: Disk, id: nat, k: nat, v: u32): (r: Disk)
    requires id < |d| && k < 128
    ensures |r| == |d| && Entry(r, id, k) == v
    ensures forall b | 0 <= b < |d| && b != id :: r[b] == d[b]
  {
    d[id := SetWord(d[id], k, v)]
  }

  lemma SetEntryFrame(d: Disk, id: nat, k: nat, v: u32, id': nat, k': nat)
    requires id < |d| && k < 128
    requires id != id' || k != k'
    ensures Entry(SetEntry(d, id, k, v), id', k') == Entry(d, id', k')
  {
    if id == id' && k' < 128 {
      SetWordFrame(d[id], k, v, k');
    }
  }

  /** The id of data block `k` of the file: `get_block_id`. */
  function BlockId(ino: Inode, d: Disk, k: nat): (id: u32)
  {
    if k < INODE_DIRECT_COUNT then ino.direct[k]
    else if k < INDIRECT1_BOUND then Entry(d, ino.indirect1, k - INODE_DIRECT_COUNT)
    else
      var last := k - INDIRECT1_BOUND;
      Entry(d, Entry(d, ino.indirect2, last / INODE_INDIRECT1_COUNT), last % INODE_INDIRECT1_COUNT)
  }

  // ---------------------------------------------------------------- slots

  /** The block stored in allocation slot `s`. */
  function NodeAt(ino: Inode, d: Disk, s: nat): (id: u32)
  {
    if s < 28 then ino.direct[s]
    else if s == 28 then ino.indirect1
    else if s < 157 then Entry(d, ino.indirect1, s - 29)
    else if s == 157 then ino.indirect2
    else
      var row := Entry(d, ino.indirect2, (s - 158) / 129);
      if (s - 158) % 129 == 0 then row else Entry(d, row, (s - 158) % 129 - 1)
  }

  /** Whether slot `s` holds an index block rather than a data block. */
  predicate IndexSlot(s: nat)
  {
    s == 28 || s == 157 || (s >= 158 && (s - 158) % 129 == 0)
  }

  /** The slot of data block `k`. */
  function DataSlot(k: nat): (s: nat)
  {
    if k < 28 then k
    else if k < 156 then k + 1
    else 159 + 129 * ((k - 156) / 128) + (k - 156) % 128
  }

  /** `get_block_id` finds exactly the data slots, in increasing order, and none of the index slots. */
  lemma BlockIdIsDataSlot(ino: Inode, d: Disk, k: nat)
    ensures BlockId(ino, d, k) == NodeAt(ino, d, DataSlot(k))
    ensures !IndexSlot(DataSlot(k))
    ensures DataSlot(k) < SlotCount(k + 1) == DataSlot(k) + 1
  {
    if k >= 156 {
      var a, b := (k - 156) / 128, (k - 156) % 128;
      assert DataSlot(k) - 158 == 129 * a + (b + 1);
      assert (129 * a + (b + 1)) / 129 == a && (129 * a + (b + 1)) % 129 == b + 1;
    }
  }

  lemma DataSlotMonotone(j: nat, k: nat)
    requires j < k
    ensures DataSlot(j) < DataSlot(k)
  {
  }

  /** Data block `k` comes after every slot of a file of `k` blocks. */
  lemma DataSlotPast(n: nat, k: nat)
    requires n <= k
    ensures SlotCount(n) <= DataSlot(k)
  {
  }

  lemma SlotCountMonotone(m: nat, n: nat)
    requires m <= n
    ensures SlotCount(m) <= SlotCount(n)
  {
  }

  predicate Distinct(all: seq<u32>)
  {
    forall i, j | 0 <= i < j < |all| :: all[i] != all[j]
  }

  predicate InDevice(all: seq<u32>, d: Disk)
  {
    forall i | 0 <= i < |all| :: all[i] < |d|
  }

  /** The first `p` slots hold the blocks `all[..p]`. */
  ghost predicate Holds(ino: Inode, d: Disk, all: seq<u32>, p: nat)
  {
    p <= |all| && forall s: nat | s < p :: NodeAt(ino, d, s) == all[s]
  }

  /** The blocks in the first `p` slots, in allocation order. */
  function Nodes(ino: Inode, d: Disk, p: nat): (all: seq<u32>)
  {
    seq(p, s requires 0 <= s => NodeAt(ino, d, s))
  }

  /** The index blocks among `all`. */
  function IndexBlocks(all: seq<u32>): (ids: set<u32>)
  {
    set s | 0 <= s < |all| && IndexSlot(s) :: all[s]
  }

  // ---------------------------------------------------------------- writing one slot

  function PutNodeIno(ino: Inode, s: nat, id: u32): (r: Inode)
  {
    if s < 28 then ino.(direct := ino.direct[s := id])
    else if s == 28 then ino.(indirect1 := id)
    else if s == 157 then ino.(indirect2 := id)
    else ino
  }

  /** The index block whose entry slot `s` is, for a slot that is not a field of the inode. */
  function ParentSlot(s: nat): (p: nat)
    requires s > 28 && s != 157
    ensures p < s && IndexSlot(p)
  {
    if s < 157 then 28 else if (s - 158) % 129 == 0 then 157 else s - (s - 158) % 129
  }

  function ParentEntry(s: nat): (k: nat)
    requires s > 28 && s != 157
  {
    if s < 157 then s - 29
    else if (s - 158) % 129 == 0 then (s - 158) / 129 else (s - 158) % 129 - 1
  }

  lemma NodeAtParent(ino: Inode, d: Disk, s: nat)
    requires s > 28 && s != 157
    ensures NodeAt(ino, d, s) == Entry(d, NodeAt(ino, d, ParentSlot(s)), ParentEntry(s))
  {
    if s >= 158 && (s - 158) % 129 != 0 {
      var a, b := (s - 158) / 129, (s - 158) % 129;
      assert ParentSlot(s) - 158 == 129 * a;
      assert (129 * a) / 129 == a && (129 * a) % 129 == 0;
    }
  }

  lemma ParentInjective(s: nat, s': nat)
    requires s > 28 && s != 157 && s' > 28 && s' != 157 && s != s'
    ensures ParentSlot(s) != ParentSlot(s') || ParentEntry(s) != ParentEntry(s')
  {
  }

  /** Nodes are read through index blocks only: they survive any write that spares those. */
  lemma NodesFrame(ino: Inode, d: Disk, d': Disk, all: seq<u32>, s: nat)
    requires Holds(ino, d, all, |all|) && s < |all| && |d'| == |d|
    requires forall b: nat | b < |d| && b in IndexBlocks(all) :: d'[b] == d[b]
    ensures NodeAt(ino, d', s) == NodeAt(ino, d, s)
  {
    if s > 28 && s != 157 {
      var p := ParentSlot(s);
      assert all[p] in IndexBlocks(all);
      if p > 28 && p != 157 {
        assert all[ParentSlot(p)] in IndexBlocks(all);
        NodeAtParent(ino, d, p);
        NodeAtParent(ino, d', p);
        assert ParentSlot(p) == 157;
      }
      NodeAtParent(ino, d, s);
      NodeAtParent(ino, d', s);
    }
  }

  /** Number of slots of the largest tree. */
  const MAX_SLOTS: nat := 158 + 129 * 128

  function PutNodeDisk(ino: Inode, d: Disk, s: nat, id: u32): (r: Disk)
    requires s < MAX_SLOTS
    requires s > 28 && s != 157 ==> NodeAt(ino, d, ParentSlot(s)) < |d|
    ensures |r| == |d|
  {
    if s <= 28 || s == 157 then d
    else SetEntry(d, NodeAt(ino, d, ParentSlot(s)), ParentEntry(s), id)
  }

  /** An entry other than the one slot `p` lives in is not touched when slot `p` is written. */
  lemma PutNodeKeepsEntry(ino: Inode, d: Disk, all: seq<u32>, p: nat, s: nat)
    requires Holds(ino, d, all, p) && p < |all| && p < MAX_SLOTS && Distinct(all)
    requires InDevice(all, d)
    requires 28 < s < p && s != 157
    ensures Entry(PutNodeDisk(ino, d, p, all[p]), all[ParentSlot(s)], ParentEntry(s)) == all[s]
  {
    NodeAtParent(ino, d, s);
    if p > 28 && p != 157 {
      ParentInjective(s, p);
      var i, j := ParentSlot(s), ParentSlot(p);
      assert i != j ==> all[i] != all[j];
      SetEntryFrame(d, all[j], ParentEntry(p), all[p], all[i], ParentEntry(s));
    }
  }

  /** Writing slot `p` extends the tree by exactly that block and touches index blocks only. */
  lemma PutNodeExtends(ino: Inode, d: Disk, all: seq<u32>, p: nat)
    requires Holds(ino, d, all, p) && p < |all| && p < MAX_SLOTS && Distinct(all)
    requires InDevice(all, d)
    ensures Holds(PutNodeIno(ino, p, all[p]), PutNodeDisk(ino, d, p, all[p]), all, p + 1)
    ensures forall b: nat | b < |d| && b !in IndexBlocks(all) :: PutNodeDisk(ino, d, p, all[p])[b] == d[b]
  {
    var ino' := PutNodeIno(ino, p, all[p]);
    var d' := PutNodeDisk(ino, d, p, all[p]);
    if p > 28 && p != 157 {
      assert all[ParentSlot(p)] in IndexBlocks(all);
    }
    forall s: nat | s < p
      ensures NodeAt(ino', d', s) == all[s]
    {
      assert NodeAt(ino, d, s) == all[s];
      if s > 28 && s != 157 {
        PutNodeKeepsEntry(ino, d, all, p, s);
        var q := ParentSlot(s);
        assert NodeAt(ino, d, q) == all[q];
        if q > 28 && q != 157 {
          PutNodeKeepsEntry(ino, d, all, p, q);
          NodeAtParent(ino', d', q);
        }
        NodeAtParent(ino', d', s);
      }
    }
    if p > 28 && p != 157 {
      NodeAtParent(ino', d', p);
    }
  }

  // ---------------------------------------------------------------- slots not filled yet

  /** Slot `s` is a field of the inode, or an entry of an index block in one of the first `p` slots. */
  predicate HasPlace(s: nat, p: nat)
  {
    s <= 28 || s == 157 || ParentSlot(s) < p
  }

  /** Every place for a slot past the first `p` holds 0. */
  ghost predicate Unfilled(ino: Inode, d: Disk, p: nat)
  {
    forall s: nat | p <= s < MAX_SLOTS && HasPlace(s, p) :: NodeAt(ino, d, s) == 0
  }

  /** The index blocks among `all[p..]` are zero. */
  ghost predicate BlankFrom(d: Disk, all: seq<u32>, p: nat)
  {
    forall k: nat | p <= k < |all| && IndexSlot(k) && all[k] < |d| :: d[all[k]] == ZeroBlock()
  }

  /** Writing slot `p` fills no other place, and a fresh index block comes with empty places only. */
  lemma PutNodeLeavesRest(ino: Inode, d: Disk, all: seq<u32>, p: nat)
    requires Holds(ino, d, all, p) && p < |all| && p < MAX_SLOTS && Distinct(all)
    requires InDevice(all, d) && Unfilled(ino, d, p) && BlankFrom(d, all, p)
    ensures Unfilled(PutNodeIno(ino, p, all[p]), PutNodeDisk(ino, d, p, all[p]), p + 1)
    ensures BlankFrom(PutNodeDisk(ino, d, p, all[p]), all, p + 1)
  {
    PutNodeExtends(ino, d, all, p);
    var ino', d' := PutNodeIno(ino, p, all[p]), PutNodeDisk(ino, d, p, all[p]);
    forall s: nat | p + 1 <= s < MAX_SLOTS && HasPlace(s, p + 1)
      ensures NodeAt(ino', d', s) == 0
    {
      if s > 28 && s != 157 {
        PutNodeLeavesEntry(ino, d, all, p, s);
        NodeAtParent(ino', d', s);
      } else {
        assert NodeAt(ino, d, s) == 0;
      }
    }
    forall k: nat | p + 1 <= k < |all| && IndexSlot(k)
      ensures d'[all[k]] == ZeroBlock()
    {
      assert d[all[k]] == ZeroBlock();
      if p > 28 && p != 157 { assert all[ParentSlot(p)] != all[k]; }
    }
  }

  lemma PutNodeLeavesEntry(ino: Inode, d: Disk, all: seq<u32>, p: nat, s: nat)
    requires Holds(ino, d, all, p) && p < |all| && p < MAX_SLOTS && Distinct(all)
    requires InDevice(all, d) && Unfilled(ino, d, p) && BlankFrom(d, all, p)
    requires 28 < s < MAX_SLOTS && s != 157 && ParentSlot(s) <= p < s
    ensures Entry(PutNodeDisk(ino, d, p, all[p]), all[ParentSlot(s)], ParentEntry(s)) == 0
  {
    var i, k := ParentSlot(s), ParentEntry(s);
    if i == p {
      if k < 128 { ZeroWord(k); }
    } else {
      NodeAtParent(ino, d, s);
      assert NodeAt(ino, d, s) == 0;
    }
    if p > 28 && p != 157 {
      ParentInjective(s, p);
      var j := ParentSlot(p);
      assert i != j ==> all[i] != all[j];
      SetEntryFrame(d, all[j], ParentEntry(p), all[p], all[i], k);
    }
  }

  /** A tree being grown from the disk `d0` towards the blocks `all`, `p` slots in; with `blank`, no place
    * past those slots is filled. */
  ghost predicate Growing(ino: Inode, d: Disk, d0: Disk, all: seq<u32>, p: nat, blank: bool)
  {
    && Holds(ino, d, all, p) && Distinct(all) && InDevice(all, d)
    && |d| == |d0| && |all| <= MAX_SLOTS
    && (forall b: nat | b < |d| && b !in IndexBlocks(all) :: d[b] == d0[b])
    && (blank ==> Unfilled(ino, d, p) && BlankFrom(d, all, p))
  }

  lemma GrowOne(ino: Inode, d: Disk, d0: Disk, all: seq<u32>, p: nat, blank: bool)
    requires Growing(ino, d, d0, all, p, blank) && p < |all|
    ensures p > 28 && p != 157 ==> NodeAt(ino, d, ParentSlot(p)) == all[ParentSlot(p)] < |d|
    ensures Growing(PutNodeIno(ino, p, all[p]), PutNodeDisk(ino, d, p, all[p]), d0, all, p + 1, blank)
  {
    PutNodeExtends(ino, d, all, p);
    if blank { PutNodeLeavesRest(ino, d, all, p); }
  }

  /** Filling an entry of the indirect block. */
  lemma GrowIndirect1(ino: Inode, d: Disk, d0: Disk, all: seq<u32>, k: nat, blank: bool)
    requires Growing(ino, d, d0, all, 29 + k, blank) && 29 + k < |all| && k < 128
    ensures ino.indirect1 < |d|
    ensures Growing(ino, SetEntry(d, ino.indirect1, k, all[29 + k]), d0, all, 30 + k, blank)
  {
    GrowOne(ino, d, d0, all, 29 + k, blank);
  }

  /** Starting row `a` of the double-indirect area. */
  lemma GrowRow(ino: Inode, d: Disk, d0: Disk, all: seq<u32>, a: nat, blank: bool)
    requires Growing(ino, d, d0, all, 158 + 129 * a, blank) && 158 + 129 * a < |all|
    ensures ino.indirect2 < |d| && a < 128
    ensures Growing(ino, SetEntry(d, ino.indirect2, a, all[158 + 129 * a]), d0, all, 159 + 129 * a, blank)
  {
    hide NodeAt, Entry, SetEntry, ParentSlot, ParentEntry, IndexBlocks, Unfilled, BlankFrom, Holds;
    RowEntry(ino, d, a);
    GrowOne(ino, d, d0, all, 158 + 129 * a, blank);
  }

  lemma RowEntry(ino: Inode, d: Disk, a: nat)
    ensures ParentSlot(158 + 129 * a) == 157 && ParentEntry(158 + 129 * a) == a
    ensures NodeAt(ino, d, 157) == ino.indirect2
  {
    assert (129 * a) / 129 == a && (129 * a) % 129 == 0;
  }

  lemma RowNode(ino: Inode, d: Disk, a: nat)
    ensures NodeAt(ino, d, 158 + 129 * a) == Entry(d, ino.indirect2, a)
  {
    assert (129 * a) / 129 == a && (129 * a) % 129 == 0;
  }

  lemma CellPlace(a: nat, b: nat)
    requires b < 128
    ensures ParentSlot(159 + 129 * a + b) == 158 + 129 * a && ParentEntry(159 + 129 * a + b) == b
  {
    assert (129 * a + (b + 1)) / 129 == a && (129 * a + (b + 1)) % 129 == b + 1;
  }

  /** Filling column `b` of row `a`. */
  lemma GrowCell(ino: Inode, d: Disk, d0: Disk, all: seq<u32>, a: nat, b: nat, blank: bool)
    requires Growing(ino, d, d0, all, 159 + 129 * a + b, blank) && 159 + 129 * a + b < |all| && b < 128
    ensures Entry(d, ino.indirect2, a) < |d|
    ensures Growing(ino, SetEntry(d, Entry(d, ino.indirect2, a), b, all[159 + 129 * a + b]), d0, all, 160 + 129 * a + b,
            blank)
  {
    hide Growing, NodeAt, Entry, SetEntry, ParentSlot, ParentEntry;
    CellPlace(a, b);
    RowNode(ino, d, a);
    GrowOne(ino, d, d0, all, 159 + 129 * a + b, blank);
  }
}
