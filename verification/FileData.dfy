/** The bytes of a file as the index tree spreads them over data blocks. */
module FileData {
  import opened Bytes
  import opened IndexTree

  /** The blocks an inode owns, data and index, in allocation order. */
  function Owned(ino: Inode, d: Disk): (all: seq<u32>)
  {
    Nodes(ino, d, TotalBlocks(ino.size))
  }

  /** An inode whose blocks are distinct blocks of the device. */
  ghost predicate Sound(ino: Inode, d: Disk)
  {
    && ino.size <= MAX_SIZE
    && Distinct(Owned(ino, d)) && InDevice(Owned(ino, d), d)
  }

  /** Byte `p` of the file, counted through to the end of its last block; 0 past the device. */
  function ByteAt(ino: Inode, d: Disk, p: nat): (b: byte)
  {
    var id := BlockId(ino, d, p / BLOCK_SZ);
    if id < |d| then d[id][p % BLOCK_SZ] else 0
  }

  function Content(ino: Inode, d: Disk): (c: seq<byte>)
    ensures |c| == ino.size
  {
    seq(ino.size, p requires 0 <= p => ByteAt(ino, d, p))
  }

  lemma TotalBlocksBound(size: nat)
    requires size <= MAX_SIZE
    ensures TotalBlocks(size) <= MAX_SLOTS
  {
    SlotCountMonotone(DataBlocks(size), INDIRECT2_BOUND);
  }

  /** Every data block of a file is one of the blocks it owns, in a slot that is not an index slot. */
  lemma BlockIsOwned(ino: Inode, d: Disk, k: nat)
    requires k < DataBlocks(ino.size)
    ensures DataSlot(k) < |Owned(ino, d)| && !IndexSlot(DataSlot(k))
    ensures BlockId(ino, d, k) == Owned(ino, d)[DataSlot(k)]
  {
    BlockIdIsDataSlot(ino, d, k);
    SlotCountMonotone(k + 1, DataBlocks(ino.size));
  }

  /** Data blocks of one file are distinct from one another and from its index blocks. */
  lemma BlocksDiffer(ino: Inode, d: Disk, j: nat, k: nat)
    requires Sound(ino, d) && j < k < DataBlocks(ino.size)
    ensures BlockId(ino, d, j) != BlockId(ino, d, k)
  {
    BlockIsOwned(ino, d, j);
    BlockIsOwned(ino, d, k);
    DataSlotMonotone(j, k);
    var all := Owned(ino, d);
    assert all[DataSlot(j)] != all[DataSlot(k)];
  }

  lemma BlockIsNotIndex(ino: Inode, d: Disk, k: nat)
    requires Sound(ino, d) && k < DataBlocks(ino.size)
    ensures BlockId(ino, d, k) !in IndexBlocks(Owned(ino, d))
  {
    BlockIsOwned(ino, d, k);
    var all, t := Owned(ino, d), DataSlot(k);
    forall s | 0 <= s < |all| && IndexSlot(s)
      ensures all[s] != all[t]
    {
      if s < t { assert all[s] != all[t]; } else { assert all[t] != all[s]; }
    }
  }

  /** A file is unaffected by writes to blocks it does not own. */
  lemma FileFrame(ino: Inode, d: Disk, d': Disk)
    requires |d'| == |d| && forall b: nat | b < |d| && b in Owned(ino, d) :: d'[b] == d[b]
    ensures Owned(ino, d') == Owned(ino, d)
    ensures forall p: nat | p < BLOCK_SZ * DataBlocks(ino.size) :: ByteAt(ino, d', p) == ByteAt(ino, d, p)
    ensures Content(ino, d') == Content(ino, d)
  {
    TreeFrame(ino, d, d');
    forall p: nat | p < BLOCK_SZ * DataBlocks(ino.size)
      ensures ByteAt(ino, d', p) == ByteAt(ino, d, p)
    {
      BlockIsOwned(ino, d, p / BLOCK_SZ);
      BlockIsOwned(ino, d', p / BLOCK_SZ);
    }
  }

  /** The blocks a file owns are found through its index blocks only. */
  lemma TreeFrame(ino: Inode, d: Disk, d': Disk)
    requires |d'| == |d|
    requires forall b: nat | b < |d| && b in IndexBlocks(Owned(ino, d)) :: d'[b] == d[b]
    ensures Owned(ino, d') == Owned(ino, d)
  {
    var all := Owned(ino, d);
    forall s: nat | s < |all|
      ensures NodeAt(ino, d', s) == all[s]
    {
      NodesFrame(ino, d, d', all, s);
    }
  }

  /** No entry past the blocks of the file is filled, in the inode or in its index blocks. */
  ghost predicate SpareZero(ino: Inode, d: Disk)
  {
    Unfilled(ino, d, TotalBlocks(ino.size))
  }

  /** An inode as it is when it is created. */
  predicate EmptyInode(ino: Inode)
  {
    && ino.size == 0 && ino.indirect1 == 0 && ino.indirect2 == 0
    && forall k | 0 <= k < INODE_DIRECT_COUNT :: ino.direct[k] == 0
  }

  lemma EmptyIsSpare(ino: Inode, d: Disk)
    requires EmptyInode(ino)
    ensures SpareZero(ino, d)
  {
  }

  /** Zeroing the fields in use of an inode whose other fields are zero. */
  lemma ClearedIsEmpty(was: Inode, d: Disk, ino: Inode)
    requires SpareZero(was, d) && ino.size == 0
    requires forall k | 0 <= k < INODE_DIRECT_COUNT ::
               ino.direct[k] == if k < DataBlocks(was.size) then 0 else was.direct[k]
    requires ino.indirect1 == if DataBlocks(was.size) > INODE_DIRECT_COUNT then 0 else was.indirect1
    requires ino.indirect2 == if DataBlocks(was.size) > INDIRECT1_BOUND then 0 else was.indirect2
    ensures EmptyInode(ino)
  {
    var n, p := DataBlocks(was.size), TotalBlocks(was.size);
    forall k | 0 <= k < INODE_DIRECT_COUNT
      ensures ino.direct[k] == 0
    {
      if k >= n { assert NodeAt(was, d, k) == 0; }
    }
    if n <= INODE_DIRECT_COUNT { assert NodeAt(was, d, 28) == 0; }
    if n <= INDIRECT1_BOUND { assert NodeAt(was, d, 157) == 0; }
  }

  lemma SpareFrame(ino: Inode, d: Disk, d': Disk)
    requires |d'| == |d| && SpareZero(ino, d)
    requires forall b: nat | b < |d| && b in IndexBlocks(Owned(ino, d)) :: d'[b] == d[b]
    ensures SpareZero(ino, d')
  {
    TreeFrame(ino, d, d');
    var all := Owned(ino, d);
    forall s: nat | |all| <= s < MAX_SLOTS && HasPlace(s, |all|)
      ensures NodeAt(ino, d', s) == 0
    {
      assert NodeAt(ino, d, s) == 0;
      if s > 28 && s != 157 {
        var q := ParentSlot(s);
        assert all[q] in IndexBlocks(all) && NodeAt(ino, d', q) == Owned(ino, d')[q] == all[q];
        NodeAtParent(ino, d, s);
        NodeAtParent(ino, d', s);
      }
    }
  }

  /** Writing `chunk` at offset `o` of data block `k` changes exactly those bytes of the file. */
  lemma WriteChunk(ino: Inode, d: Disk, k: nat, o: nat, chunk: seq<byte>)
    requires Sound(ino, d) && k < DataBlocks(ino.size) && o + |chunk| <= BLOCK_SZ
    ensures BlockId(ino, d, k) < |d|
    ensures var d' := d[BlockId(ino, d, k) := Splice(d[BlockId(ino, d, k)], o, chunk)];
            && Owned(ino, d') == Owned(ino, d) && BlockId(ino, d, k) !in IndexBlocks(Owned(ino, d))
            && forall p: nat | p < BLOCK_SZ * DataBlocks(ino.size) ::
                 ByteAt(ino, d', p) == if BLOCK_SZ * k + o <= p < BLOCK_SZ * k + o + |chunk|
                                       then chunk[p - BLOCK_SZ * k - o] else ByteAt(ino, d, p)
  {
    BlockIsOwned(ino, d, k);
    BlockIsNotIndex(ino, d, k);
    var id := BlockId(ino, d, k);
    var d' := d[id := Splice(d[id], o, chunk)];
    TreeFrame(ino, d, d');
    forall p: nat | p < BLOCK_SZ * DataBlocks(ino.size)
      ensures ByteAt(ino, d', p) == if BLOCK_SZ * k + o <= p < BLOCK_SZ * k + o + |chunk|
                                    then chunk[p - BLOCK_SZ * k - o] else ByteAt(ino, d, p)
    {
      var j := p / BLOCK_SZ;
      BlockIsOwned(ino, d, j);
      BlockIsOwned(ino, d', j);
      if j < k { BlocksDiffer(ino, d, j, k); } else if k < j { BlocksDiffer(ino, d, k, j); }
    }
  }

  /** The disk after writing `src` at byte `start` of the file, within one block. */
  function WriteBlock(ino: Inode, d: Disk, start: nat, src: seq<byte>): (d': Disk)
    requires BlockId(ino, d, start / BLOCK_SZ) < |d| && start % BLOCK_SZ + |src| <= BLOCK_SZ
  {
    var id := BlockId(ino, d, start / BLOCK_SZ);
    d[id := Splice(d[id], start % BLOCK_SZ, src)]
  }

  ghost predicate Rewritten(ino: Inode, d: Disk, d': Disk, start: nat, src: seq<byte>)
  {
    && |d'| == |d| && Owned(ino, d') == Owned(ino, d)
    && (forall p: nat | p < BLOCK_SZ * DataBlocks(ino.size) ::
          ByteAt(ino, d', p) == if start <= p < start + |src| then src[p - start] else ByteAt(ino, d, p))
    && (forall b: nat | b < |d| && b !in Owned(ino, d) :: d'[b] == d[b])
    && (forall b: nat | b < |d| && b in IndexBlocks(Owned(ino, d)) :: d'[b] == d[b])
  }

  /** A file of `size` bytes has a block for position `offset`. Only an empty write at or past the end can
    * find none, at the start of a block. */
  predicate Writable(offset: nat, size: nat)
  {
    offset <= size && offset / BLOCK_SZ < DataBlocks(size)
  }

  /** `get_block_id(k)` reads blocks of the device only, and what it returns is one. */
  predicate Found(ino: Inode, d: Disk, k: nat)
  {
    && (INODE_DIRECT_COUNT <= k < INDIRECT1_BOUND ==> ino.indirect1 < |d|)
    && (INDIRECT1_BOUND <= k ==>
          && ino.indirect2 < |d| && k < INDIRECT2_BOUND
          && Entry(d, ino.indirect2, (k - INDIRECT1_BOUND) / INODE_INDIRECT1_COUNT) < |d|)
    && BlockId(ino, d, k) < |d|
  }

  /** Data block `k` is the first one under an index block of its own; so is the one past the largest file. */
  predicate StartsIndex(k: nat)
  {
    k == DIRECT_BOUND || (k >= INDIRECT1_BOUND && (k - INDIRECT1_BOUND) % INODE_INDIRECT1_COUNT == 0)
  }

  lemma NextSlot(n: nat)
    requires !StartsIndex(n)
    ensures SlotCount(n) == DataSlot(n)
  {
  }

  lemma RowBelow(n: nat)
    requires n > INDIRECT1_BOUND && !StartsIndex(n)
    ensures 158 + 129 * ((n - INDIRECT1_BOUND) / INODE_INDIRECT1_COUNT) < SlotCount(n)
  {
  }

  lemma SlotOnDevice(ino: Inode, d: Disk, s: nat)
    requires Sound(ino, d) && s < TotalBlocks(ino.size)
    ensures NodeAt(ino, d, s) < |d|
  {
    hide NodeAt, TotalBlocks;
    assert Owned(ino, d)[s] < |d|;
  }

  lemma NextIsUnfilled(ino: Inode, d: Disk, n: nat)
    requires SpareZero(ino, d) && n == DataBlocks(ino.size) < INDIRECT2_BOUND && !StartsIndex(n)
    ensures BlockId(ino, d, n) == 0
  {
    hide BlockId, NodeAt, SlotCount, DataSlot, StartsIndex;
    NextSlot(n);
    BlockIdIsDataSlot(ino, d, n);
    SlotCountMonotone(n + 1, INDIRECT2_BOUND);
    assert SlotCount(INDIRECT2_BOUND) == MAX_SLOTS by { FullTree(); }
    assert NodeAt(ino, d, SlotCount(n)) == 0;
  }

  lemma FullTree()
    ensures SlotCount(INDIRECT2_BOUND) == MAX_SLOTS
  {
  }

  lemma NextRowOnDevice(ino: Inode, d: Disk, n: nat)
    requires Sound(ino, d) && n == DataBlocks(ino.size) && n > INDIRECT1_BOUND && !StartsIndex(n)
    ensures Entry(d, ino.indirect2, (n - INDIRECT1_BOUND) / INODE_INDIRECT1_COUNT) < |d|
  {
    hide Sound, Entry, StartsIndex, SlotCount, DataBlocks;
    RowBelow(n);
    RowOnDevice(ino, d, (n - INDIRECT1_BOUND) / INODE_INDIRECT1_COUNT);
  }

  lemma IndexFields(ino: Inode, d: Disk, n: nat)
    ensures NodeAt(ino, d, 28) == ino.indirect1 && NodeAt(ino, d, 157) == ino.indirect2
    ensures (DIRECT_BOUND < n ==> 28 < SlotCount(n)) && (INDIRECT1_BOUND < n ==> 157 < SlotCount(n))
  {
  }

  lemma NextIsIndexed(ino: Inode, d: Disk, n: nat)
    requires Sound(ino, d) && n == DataBlocks(ino.size) && !StartsIndex(n)
    ensures DIRECT_BOUND < n ==> ino.indirect1 < |d|
    ensures INDIRECT1_BOUND < n ==> ino.indirect2 < |d|
  {
    hide Sound, StartsIndex, NodeAt, SlotCount;
    IndexFields(ino, d, n);
    if DIRECT_BOUND < n { SlotOnDevice(ino, d, 28); }
    if INDIRECT1_BOUND < n { SlotOnDevice(ino, d, 157); }
  }

  lemma RowOnDevice(ino: Inode, d: Disk, a: nat)
    requires Sound(ino, d) && 158 + 129 * a < TotalBlocks(ino.size)
    ensures Entry(d, ino.indirect2, a) < |d|
  {
    hide Sound, Entry, NodeAt, TotalBlocks;
    RowNode(ino, d, a);
    SlotOnDevice(ino, d, 158 + 129 * a);
  }

  lemma NextRowIsUnfilled(ino: Inode, d: Disk, n: nat)
    requires SpareZero(ino, d) && n == DataBlocks(ino.size) && INDIRECT1_BOUND < n < INDIRECT2_BOUND && StartsIndex(n)
    ensures Entry(d, ino.indirect2, (n - INDIRECT1_BOUND) / INODE_INDIRECT1_COUNT) == 0
  {
    hide NodeAt, Entry;
    var a := (n - INDIRECT1_BOUND) / INODE_INDIRECT1_COUNT;
    assert n == INDIRECT1_BOUND + INODE_INDIRECT1_COUNT * a;
    RowPlace(a);
    RowNode(ino, d, a);
    assert NodeAt(ino, d, 158 + 129 * a) == 0;
  }

  /** A file that ends with row `a - 1` has row `a` for its next slot. */
  lemma RowPlace(a: nat)
    requires 0 < a < 128
    ensures SlotCount(INDIRECT1_BOUND + INODE_INDIRECT1_COUNT * a) == 158 + 129 * a < MAX_SLOTS
    ensures HasPlace(158 + 129 * a, 158 + 129 * a)
  {
    assert (129 * a) % 129 == 0;
  }

  lemma SizeInBlocks(ino: Inode, d: Disk)
    requires Sound(ino, d)
    ensures DataBlocks(ino.size) <= INDIRECT2_BOUND
  {
  }

  lemma NextFieldIsUnfilled(ino: Inode, d: Disk, n: nat)
    requires SpareZero(ino, d) && n == DataBlocks(ino.size)
    ensures n == DIRECT_BOUND ==> ino.indirect1 == 0
    ensures n == INDIRECT1_BOUND ==> ino.indirect2 == 0
  {
    hide NodeAt;
    IndexFields(ino, d, n);
    assert n == DIRECT_BOUND ==> NodeAt(ino, d, 28) == 0;
    assert n == INDIRECT1_BOUND ==> NodeAt(ino, d, 157) == 0;
  }

  lemma BoundsStartIndex()
    ensures StartsIndex(DIRECT_BOUND) && StartsIndex(INDIRECT1_BOUND) && StartsIndex(INDIRECT2_BOUND)
  {
  }

  /** The block after the last one: unless it starts an index block, its lookup finds the unfilled entry 0. */
  lemma NextIsFound(ino: Inode, d: Disk)
    requires Sound(ino, d) && SpareZero(ino, d) && 0 < |d| && !StartsIndex(DataBlocks(ino.size))
    ensures Found(ino, d, DataBlocks(ino.size))
  {
    hide Sound, SpareZero, DataBlocks, BlockId, Entry, SlotCount, StartsIndex;
    var n := DataBlocks(ino.size);
    SizeInBlocks(ino, d);
    BoundsStartIndex();
    NextIsIndexed(ino, d, n);
    if INDIRECT1_BOUND < n { NextRowOnDevice(ino, d, n); }
    NextIsUnfilled(ino, d, n);
  }

  /** If it does, block 0 is read for the missing index block, and the first word there taken for a block id. */
  lemma NextIsLost(ino: Inode, d: Disk)
    requires Sound(ino, d) && SpareZero(ino, d) && 0 < |d| <= Word(d[0], 0) && StartsIndex(DataBlocks(ino.size))
    ensures !Found(ino, d, DataBlocks(ino.size))
  {
    hide Sound, SpareZero, DataBlocks, Word;
    var n := DataBlocks(ino.size);
    SizeInBlocks(ino, d);
    if n <= INDIRECT1_BOUND {
      NextFieldIsUnfilled(ino, d, n);
    } else if n < INDIRECT2_BOUND {
      NextRowIsUnfilled(ino, d, n);
    }
  }

  /** `length` bytes can be written at `offset`: the block there is the file's, or none is needed and the
    * lookup of the one after the last goes well. */
  predicate CanWrite(ino: Inode, d: Disk, offset: nat, length: nat)
  {
    Writable(offset, ino.size) || (length == 0 && offset == ino.size && Found(ino, d, offset / BLOCK_SZ))
  }

  lemma BeforeEnd(ino: Inode, d: Disk, offset: nat, length: nat)
    requires offset < ino.size
    ensures CanWrite(ino, d, offset, length)
  {
  }

  lemma CanWriteLess(ino: Inode, d: Disk, offset: nat, length: nat, n: nat)
    requires CanWrite(ino, d, offset, length) && n <= length
    ensures CanWrite(ino, d, offset, n)
  {
  }

  lemma CanWriteBelow(ino: Inode, d: Disk, offset: nat, length: nat)
    requires CanWrite(ino, d, offset, length)
    ensures offset <= ino.size
  {
  }

  lemma WriteBlockRewrites(ino: Inode, d: Disk, start: nat, src: seq<byte>)
    requires Sound(ino, d) && CanWrite(ino, d, start, |src|) && start % BLOCK_SZ + |src| <= BLOCK_SZ
    ensures BlockId(ino, d, start / BLOCK_SZ) < |d|
    ensures Rewritten(ino, d, WriteBlock(ino, d, start, src), start, src)
    ensures Sound(ino, WriteBlock(ino, d, start, src))
  {
    if Writable(start, ino.size) {
      BlockIsOwned(ino, d, start / BLOCK_SZ);
      WriteChunk(ino, d, start / BLOCK_SZ, start % BLOCK_SZ, src);
    } else {
      WriteNothing(ino, d, start);
    }
  }

  lemma WriteNothing(ino: Inode, d: Disk, start: nat)
    requires BlockId(ino, d, start / BLOCK_SZ) < |d|
    ensures WriteBlock(ino, d, start, []) == d
  {
    var id := BlockId(ino, d, start / BLOCK_SZ);
    assert Splice(d[id], start % BLOCK_SZ, []) == d[id];
  }

  lemma RewrittenNothing(ino: Inode, d: Disk, start: nat)
    ensures Rewritten(ino, d, d, start, [])
  {
  }

  /** Writing the next `n` bytes after the first `w` writes the first `w + n`. */
  lemma RewrittenMore(ino: Inode, d: Disk, d1: Disk, d2: Disk, start: nat, buf: seq<byte>, w: nat, n: nat)
    requires w + n <= |buf|
    requires Rewritten(ino, d, d1, start, buf[..w]) && Rewritten(ino, d1, d2, start + w, buf[w..w + n])
    ensures Rewritten(ino, d, d2, start, buf[..w + n])
  {
    forall p: nat | p < BLOCK_SZ * DataBlocks(ino.size)
      ensures ByteAt(ino, d2, p) == if start <= p < start + w + n then buf[p - start] else ByteAt(ino, d, p)
    {
      assert ByteAt(ino, d2, p)
          == if start + w <= p < start + w + n then buf[w..w + n][p - start - w] else ByteAt(ino, d1, p);
    }
  }

  /** Within one block, consecutive file bytes are consecutive bytes of that block. */
  lemma BytesInBlock(ino: Inode, d: Disk, start: nat, n: nat)
    requires Sound(ino, d) && start < ino.size && start % BLOCK_SZ + n <= BLOCK_SZ
    ensures BlockId(ino, d, start / BLOCK_SZ) < |d|
    ensures forall p: nat | start <= p < start + n ::
              ByteAt(ino, d, p) == d[BlockId(ino, d, start / BLOCK_SZ)][start % BLOCK_SZ + (p - start)]
  {
    BlockIsOwned(ino, d, start / BLOCK_SZ);
    hide BlockId;
    forall p: nat | start <= p < start + n
      ensures ByteAt(ino, d, p) == d[BlockId(ino, d, start / BLOCK_SZ)][start % BLOCK_SZ + (p - start)]
    {
      assert p / BLOCK_SZ == start / BLOCK_SZ && p % BLOCK_SZ == start % BLOCK_SZ + (p - start);
    }
  }

  /** `end_current_block`: where the block holding `start` ends, or `end` if that is nearer. */
  function BlockEnd(start: nat, end: nat): (r: nat)
    requires start <= end
    ensures start <= r <= end && (start < end ==> start < r)
    ensures start % BLOCK_SZ + (r - start) <= BLOCK_SZ
    ensures r < end ==> r / BLOCK_SZ == start / BLOCK_SZ + 1
  {
    var blockEnd := (start / BLOCK_SZ + 1) * BLOCK_SZ;
    if blockEnd <= end then blockEnd else end
  }
}
