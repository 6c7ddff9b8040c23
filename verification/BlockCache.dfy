/** The write-back block cache: what its users see is a plain array of blocks.
  *
  * A `BlockCache` is shared by reference: the manager's queue holds it, and so does everyone
  * who asked for it. `handles` is the number of outstanding handles, so that the strong count
  * of the source is `handles + 1` while the queue holds the block.
  */
module BlockCache {
  import opened Bytes

  const BLOCK_CACHE_SIZE: nat := 16

  class RawDevice {
    var blocks: Disk
    constructor (blocks: Disk)
      ensures this.blocks == blocks
    {
      this.blocks := blocks;
    }
  }

  class BlockCache {
    const blockId: nat
    const dev: RawDevice
    var cache: Block
    var modified: bool
    var handles: nat

    /** Loads the block from the device. */
    constructor (blockId: nat, dev: RawDevice)
      requires blockId < |dev.blocks|
      ensures this.blockId == blockId && this.dev == dev && cache == dev.blocks[blockId]
      ensures !modified && handles == 0
    {
      this.blockId, this.dev := blockId, dev;
      cache, modified, handles := dev.blocks[blockId], false, 0;
    }

    /** Writes the block back if it is dirty. Dropping the block does the same. */
    method Sync()
      requires blockId < |dev.blocks|
      modifies this`modified, dev
      ensures !modified
      ensures dev.blocks == if old(modified) then old(dev.blocks)[blockId := cache] else old(dev.blocks)
    {
      if modified {
        modified := false;
        dev.blocks := dev.blocks[blockId := cache];
      }
    }
  }

  /** `now` is `was` without the first block that only the queue holds. */
  twostate predicate Evicted(was: seq<BlockCache>, new now: seq<BlockCache>)
  {
    exists i :: 0 <= i < |was| && old(was[i].handles) == 0 && now == was[..i] + was[i + 1..]
                && forall j | 0 <= j < i :: old(was[j].handles) > 0
  }

  class BlockCacheManager {
    const dev: RawDevice
    var queue: seq<BlockCache>
    ghost var contents: Disk

    constructor (dev: RawDevice)
      ensures Valid() && this.dev == dev && queue == [] && contents == dev.blocks
    {
      this.dev := dev;
      queue, contents := [], dev.blocks;
    }

    ghost predicate EntryOk(c: BlockCache)
      reads this, dev, c
    {
      && c.dev == dev && c.blockId < |contents| == |dev.blocks| && c.cache == contents[c.blockId]
      && (!c.modified ==> dev.blocks[c.blockId] == c.cache)
    }

    predicate Holds(b: nat)
      reads this
    {
      exists i :: 0 <= i < |queue| && queue[i].blockId == b
    }

    /** At most one copy of a block; copies show the contents, and the device does where there is no dirty copy. */
    ghost predicate Valid()
      reads this, dev, queue
    {
      && |contents| == |dev.blocks| && |queue| <= BLOCK_CACHE_SIZE
      && (forall i | 0 <= i < |queue| :: EntryOk(queue[i]))
      && (forall i, j | 0 <= i < j < |queue| :: queue[i].blockId != queue[j].blockId)
      && (forall b: nat | b < |contents| && !Holds(b) :: dev.blocks[b] == contents[b])
    }

    /** Position of the cached copy of block `b`, or the queue length. */
    method Position(b: nat) returns (i: nat)
      ensures i <= |queue| && (i < |queue| ==> queue[i].blockId == b) && (i < |queue| <==> Holds(b))
    {
      i := 0;
      while i < |queue| && queue[i].blockId != b
        invariant i <= |queue| && forall j | 0 <= j < i :: queue[j].blockId != b
      {
        i := i + 1;
      }
    }

    /** Position of the first block only the queue holds, from front to tail, or the queue length. */
    method Victim() returns (i: nat)
      ensures i <= |queue| && (forall j | 0 <= j < i :: queue[j].handles > 0) && (i < |queue| ==> queue[i].handles == 0)
    {
      i := 0;
      while i < |queue| && queue[i].handles > 0
        invariant i <= |queue| && forall j | 0 <= j < i :: queue[j].handles > 0
      {
        i := i + 1;
      }
    }

    /** Drops entry `i`, writing it back. */
    method Evict(i: nat)
      requires Valid() && i < |queue|
      modifies this`queue, {queue[i]}, dev
      ensures Valid() && queue == old(queue)[..i] + old(queue)[i + 1..] && !Holds(old(queue)[i].blockId)
      ensures old(queue)[i].handles == old(queue[i].handles) && |dev.blocks| == |old(dev.blocks)|
    {
      var c := queue[i];
      queue := queue[..i] + queue[i + 1..];
      c.Sync();
      forall b: nat | b < |contents| && !Holds(b)
        ensures dev.blocks[b] == contents[b]
      {
        if b != c.blockId {
          forall j | 0 <= j < |old(queue)|
            ensures old(queue)[j].blockId != b
          {
            if j < i { assert queue[j] == old(queue)[j]; } else if j > i { assert queue[j - 1] == old(queue)[j]; }
          }
        }
      }
    }

    /** Evicts one block if the queue is full; fails when every block has handles outside. */
    method MakeRoom() returns (ok: bool)
      requires Valid()
      modifies this`queue, queue, dev
      ensures Valid() && |dev.blocks| == |old(dev.blocks)|
      ensures !ok <==> |old(queue)| == BLOCK_CACHE_SIZE && forall i | 0 <= i < |old(queue)| :: old(queue[i].handles) > 0
      ensures ok ==> |queue| < BLOCK_CACHE_SIZE
      ensures !ok || |old(queue)| < BLOCK_CACHE_SIZE ==> queue == old(queue)
      ensures ok && |old(queue)| == BLOCK_CACHE_SIZE ==> Evicted(old(queue), queue)
      ensures forall c | c in old(queue) :: c.handles == old(c.handles)
      ensures forall c | c in old(queue) && old(c.handles) > 0 :: c in queue
      ensures forall c | c in queue :: c in old(queue)
    {
      assert |queue| <= BLOCK_CACHE_SIZE;
      hide BlockCacheManager.Valid, BlockCacheManager.Holds;
      if |queue| == BLOCK_CACHE_SIZE {
        var v := Victim();
        ok := v < |queue|;
        if ok {
          Evict(v);
        }
      } else {
        ok := true;
      }
    }

    /** Loads block `b` and pushes it at the tail. */
    method Load(b: nat) returns (r: BlockCache)
      requires Valid() && b < |contents| && !Holds(b) && |queue| < BLOCK_CACHE_SIZE
      modifies this`queue
      ensures Valid() && fresh(r) && queue == old(queue) + [r]
      ensures r.blockId == b && r.cache == contents[b] && r.handles == 0
    {
      r := new BlockCache(b, dev);
      queue := queue + [r];
      assert EntryOk(r);
      forall b': nat | b' < |contents| && !Holds(b')
        ensures dev.blocks[b'] == contents[b']
      {
        forall i | 0 <= i < |old(queue)| ensures old(queue)[i].blockId != b' { assert queue[i] == old(queue)[i]; }
      }
    }

    /** Block `b`, which is not cached, is loaded at the tail, where there is room or the queue gives up a block. */
    method Fetch(b: nat) returns (r: BlockCache?)
      requires Valid() && b < |contents| && !Holds(b)
      modifies this`queue, queue, dev
      ensures Valid() && |dev.blocks| == |old(dev.blocks)|
      ensures r == null <==> |old(queue)| == BLOCK_CACHE_SIZE
                             && forall i | 0 <= i < |old(queue)| :: old(queue[i].handles) > 0
      ensures r == null ==> queue == old(queue)
      ensures r != null ==> fresh(r) && r.blockId == b && r.cache == contents[b] && r.handles == 0 && queue != []
                            && queue[|queue| - 1] == r
      ensures r != null && |old(queue)| < BLOCK_CACHE_SIZE ==> queue[..|queue| - 1] == old(queue)
      ensures r != null && |old(queue)| == BLOCK_CACHE_SIZE ==> Evicted(old(queue), queue[..|queue| - 1])
      ensures forall c | c in old(queue) :: c.handles == old(c.handles)
      ensures forall c | c in old(queue) && old(c.handles) > 0 :: c in queue
      ensures forall c | c in queue :: c in old(queue) || c == r
    {
      hide Evicted;
      var ok := MakeRoom();
      if !ok {
        return null;
      }
      forall j | 0 <= j < |queue| ensures queue[j].blockId != b { assert queue[j] in old(queue); }
      ghost var room := queue;
      r := Load(b);
      assert queue[..|queue| - 1] == room;
    }

    /** A handle on block `b`, or null where the code panics. It panics exactly when `b` is not cached and all
      * sixteen cached blocks have handles outside. */
    method GetBlockCache(b: nat) returns (r: BlockCache?)
      requires Valid() && b < |contents|
      modifies this`queue, queue, dev
      ensures Valid() && |dev.blocks| == |old(dev.blocks)|
      ensures r == null <==> !old(Holds(b)) && |old(queue)| == BLOCK_CACHE_SIZE
                             && forall i | 0 <= i < |old(queue)| :: old(queue[i].handles) > 0
      ensures r == null || old(Holds(b)) ==> queue == old(queue)
      ensures r != null && !old(Holds(b)) ==> fresh(r) && queue != [] && queue[|queue| - 1] == r
      ensures r != null && !old(Holds(b)) && |old(queue)| < BLOCK_CACHE_SIZE ==> queue == old(queue) + [r]
      ensures r != null && !old(Holds(b)) && |old(queue)| == BLOCK_CACHE_SIZE
              ==> Evicted(old(queue), queue[..|queue| - 1])
      ensures r != null ==> r in queue && r.blockId == b && r.cache == contents[b]
      ensures r != null ==> r in old(queue) || (fresh(r) && r.handles == 1)
      ensures r != null && r in old(queue) ==> r.handles == old(r.handles) + 1
      ensures forall c | c in old(queue) && c != r :: c.handles == old(c.handles)
      ensures forall c | c in old(queue) && old(c.handles) > 0 :: c in queue
      ensures forall c | c in queue :: c in old(queue) || c == r
    {
      hide Holds;
      var i := Position(b);
      if i < |queue| {
        r := queue[i];
        assert EntryOk(r);
      } else {
        r := Fetch(b);
        if r == null {
          return;
        }
      }
      AddHandle(r);
    }

    method AddHandle(c: BlockCache)
      requires Valid() && c in queue
      modifies c`handles
      ensures Valid() && c.handles == old(c.handles) + 1
    {
      c.handles := c.handles + 1;
    }

    /** Drops a handle. The block stays cached: only `GetBlockCache` removes blocks from the queue. */
    method DropHandle(c: BlockCache)
      requires Valid() && c in queue && c.handles > 0
      modifies c`handles
      ensures Valid() && c.handles == old(c.handles) - 1
    {
      c.handles := c.handles - 1;
    }

    /** `modify` through a handle: the block becomes `data` for everyone. */
    method Modify(c: BlockCache, data: Block)
      requires Valid() && c in queue && c.handles > 0
      modifies this`contents, c`cache, c`modified
      ensures Valid() && contents == old(contents)[c.blockId := data]
    {
      c.modified := true;
      c.cache := data;
      contents := contents[c.blockId := data];
    }

    /** Writes every dirty block back. */
    method SyncAll()
      requires Valid()
      modifies queue, dev
      ensures Valid() && dev.blocks == contents
      ensures forall c | c in queue :: c.handles == old(c.handles) && !c.modified
    {
      for i := 0 to |queue|
        invariant Valid()
        invariant forall c | c in queue :: c.handles == old(c.handles)
        invariant forall j | 0 <= j < i :: !queue[j].modified
      {
        queue[i].Sync();
      }
      assert forall b: nat | b < |contents| :: dev.blocks[b] == contents[b];
    }
  }
}
