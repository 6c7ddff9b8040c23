/** Whole runs of cache users against the plain array of blocks they believe to use. */
module CacheRun {
  import opened Bytes
  import opened BlockCache

  datatype Op =
    | Get(b: nat)
    | Read(k: nat)
    | Modify(k: nat, data: Block)
    | Drop(k: nat)
    | SyncAll

  /** The blocks, and the block each open handle is for. */
  datatype Plain = Plain(blocks: Disk, held: seq<nat>)

  function Without<T>(s: seq<T>, k: nat): (r: seq<T>)
    requires k < |s|
  {
    s[..k] + s[k + 1..]
  }

  /** Handles are used while open, on blocks of the device. */
  predicate Admissible(p: Plain, op: Op)
  {
    match op
    case Get(b) => b < |p.blocks|
    case Read(k) => k < |p.held| && p.held[k] < |p.blocks|
    case Modify(k, _) => k < |p.held| && p.held[k] < |p.blocks|
    case Drop(k) => k < |p.held|
    case SyncAll => true
  }

  function Elems(s: seq<nat>): (xs: set<nat>)
  {
    set x | x in s
  }

  /** A lookup finds the block held already, or fewer than sixteen different blocks held; otherwise the code panics. */
  predicate Panics(p: Plain, op: Op)
  {
    op.Get? && !(op.b in p.held || |Elems(p.held)| < BLOCK_CACHE_SIZE)
  }

  function Next(p: Plain, op: Op): (p': Plain)
    requires Admissible(p, op)
  {
    match op
    case Get(b) => p.(held := p.held + [b])
    case Modify(k, data) => p.(blocks := p.blocks[p.held[k] := data])
    case Drop(k) => p.(held := Without(p.held, k))
    case _ => p
  }

  /** What the user reads, if anything. */
  function Sees(p: Plain, op: Op): (o: seq<Block>)
    requires Admissible(p, op)
  {
    match op
    case Read(k) => [p.blocks[p.held[k]]]
    case _ => []
  }

  ghost predicate RunOk(p: Plain, ops: seq<Op>)
    decreases ops
  {
    ops == [] || (Admissible(p, ops[0]) && (Panics(p, ops[0]) || RunOk(Next(p, ops[0]), ops[1..])))
  }

  /** The blocks and handles after a run, what its user read, and whether the run ended in a panic. */
  ghost function RunOf(p: Plain, ops: seq<Op>): (r: (Plain, seq<Block>, bool))
    requires RunOk(p, ops)
    decreases ops
  {
    if ops == [] then (p, [], false)
    else if Panics(p, ops[0]) then (p, [], true)
    else
      var rest := RunOf(Next(p, ops[0]), ops[1..]);
      (rest.0, Sees(p, ops[0]) + rest.1, rest.2)
  }

  lemma {:induction false} ElemsSize(q: seq<nat>)
    requires forall i, j | 0 <= i < j < |q| :: q[i] != q[j]
    ensures |Elems(q)| == |q|
  {
    if q != [] {
      var n := |q| - 1;
      ElemsSize(q[..n]);
      assert Elems(q) == Elems(q[..n]) + {q[n]} && q[n] !in q[..n];
    }
  }

  lemma SubsetSize(a: set<nat>, b: set<nat>)
    requires a <= b
    ensures |a| <= |b| && (|a| == |b| ==> a == b)
  {
    assert |b - a| == |b| - |a|;
  }

  /** Sixteen different blocks are held exactly when the queue is full and each of its blocks is held. */
  lemma AllHeld(q: seq<nat>, held: seq<nat>)
    requires forall i, j | 0 <= i < j < |q| :: q[i] != q[j]
    requires |q| <= BLOCK_CACHE_SIZE && forall i | 0 <= i < |held| :: held[i] in q
    ensures |Elems(held)| >= BLOCK_CACHE_SIZE <==> |q| == BLOCK_CACHE_SIZE && forall i | 0 <= i < |q| :: q[i] in held
  {
    ElemsSize(q);
    SubsetSize(Elems(held), Elems(q));
    if |q| == BLOCK_CACHE_SIZE && forall i | 0 <= i < |q| :: q[i] in held {
      forall x | x in Elems(q) ensures x in Elems(held) { var i :| 0 <= i < |q| && q[i] == x; }
      SubsetSize(Elems(q), Elems(held));
    }
    if |Elems(held)| >= BLOCK_CACHE_SIZE {
      forall i | 0 <= i < |q| ensures q[i] in held { assert q[i] in Elems(q); }
    }
  }

  lemma WithoutMultiset<T>(s: seq<T>, k: nat)
    requires k < |s|
    ensures multiset(s) == multiset(Without(s, k)) + multiset{s[k]}
  {
    assert s == s[..k] + [s[k]] + s[k + 1..];
  }

  ghost function Ids(held: seq<BlockCache>): (ids: seq<nat>)
  {
    seq(|held|, i requires 0 <= i < |held| => held[i].blockId)
  }

  lemma MoreHandles(held: seq<BlockCache>, c: BlockCache)
    ensures multiset(held + [c]) == multiset(held) + multiset{c}
  {
  }

  lemma IdsAppend(held: seq<BlockCache>, c: BlockCache)
    ensures Ids(held + [c]) == Ids(held) + [c.blockId]
  {
  }

  lemma IdsWithout(held: seq<BlockCache>, k: nat)
    requires k < |held|
    ensures |Ids(held)| == |held| && Ids(Without(held, k)) == Without(Ids(held), k)
    ensures forall c | c in Without(held, k) :: c in held
  {
  }

  class User {
    const m: BlockCacheManager
    var held: seq<BlockCache>

    constructor (m: BlockCacheManager)
      requires m.Valid() && m.queue == []
      ensures Valid() && this.m == m && held == []
    {
      this.m := m;
      held := [];
    }

    /** Every open handle is in the queue, and the handles of a cached block are the open ones. */
    ghost predicate Valid()
      reads this, m, m.dev, m.queue
    {
      && m.Valid()
      && (forall i | 0 <= i < |held| :: held[i] in m.queue)
      && (forall c | c in m.queue :: c.handles == multiset(held)[c])
    }

    ghost function Plainly(): (p: Plain)
      reads this, m
    {
      Plain(m.contents, Ids(held))
    }

    /** Blocks of the queue are held exactly if their numbers are. */
    lemma HeldById(i: nat)
      requires Valid() && i < |m.queue|
      ensures m.queue[i].handles > 0 <==> m.queue[i].blockId in Ids(held)
    {
      var c := m.queue[i];
      assert c in m.queue && c.handles == multiset(held)[c];
      if c.blockId in Ids(held) {
        var j :| 0 <= j < |held| && held[j].blockId == c.blockId;
        assert held[j] in m.queue;
      }
      if c in held {
        var j :| 0 <= j < |held| && held[j] == c;
        assert Ids(held)[j] == c.blockId;
      }
    }

    /** The cache refuses a lookup exactly where the plain blocks say so. */
    lemma RefusesExactly(b: nat)
      requires Valid()
      ensures Panics(Plainly(), Get(b))
         <==> !m.Holds(b) && |m.queue| == BLOCK_CACHE_SIZE && forall i | 0 <= i < |m.queue| :: m.queue[i].handles > 0
    {
      var q, h := Ids(m.queue), Ids(held);
      forall i | 0 <= i < |h| ensures h[i] in q { IdInQueue(i); }
      AllHeld(q, h);
      forall i: nat | i < |m.queue| ensures m.queue[i].handles > 0 <==> q[i] in h { HeldById(i); }
      assert m.Holds(b) <==> b in q by {
        if m.Holds(b) { var i :| 0 <= i < |m.queue| && m.queue[i].blockId == b; assert q[i] == b; }
      }
    }

    lemma IdInQueue(i: nat)
      requires Valid() && i < |held|
      ensures Ids(held)[i] in Ids(m.queue)
    {
      var j :| 0 <= j < |m.queue| && m.queue[j] == held[i];
      assert Ids(m.queue)[j] == held[i].blockId;
    }

    /** One step, seen through the cache; it fails exactly where the plain blocks say that the code panics. */
    method Perform(op: Op) returns (o: seq<Block>, ok: bool)
      requires Valid() && Admissible(Plainly(), op)
      modifies this, m, m.queue, m.dev
      ensures Valid() && (ok <==> !old(Panics(Plainly(), op)))
      ensures ok ==> Plainly() == old(Next(Plainly(), op)) && o == old(Sees(Plainly(), op))
      ensures !ok ==> Plainly() == old(Plainly()) && o == []
      ensures match op
              case Get(b) => m.contents == old(m.contents)
                             && if !ok then held == old(held)
                                else |held| > 0 && held == old(held) + [held[|held| - 1]] && Ids(held)[|held| - 1] == b
              case Read(k) => ok && o == [old(m.contents)[held[k].blockId]] && unchanged(this, m)
              case Modify(k, data) => ok && held == old(held) && m.contents == old(m.contents)[held[k].blockId := data]
              case Drop(k) => ok && held == old(held)[..k] + old(held)[k + 1..] && m.contents == old(m.contents)
              case SyncAll => ok && unchanged(this, m) && m.dev.blocks == m.contents
      ensures fresh(set c | c in m.queue && c !in old(m.queue))
    {
      o, ok := [], true;
      match op {
        case Get(b) => ok := Open(b);
        case Read(k) => o := [held[k].cache];
        case Modify(k, data) => Change(k, data);
        case Drop(k) => Close(k);
        case SyncAll => Sync();
      }
    }

    method Open(b: nat) returns (ok: bool)
      requires Valid() && b < |m.contents|
      modifies this, m, m.queue, m.dev
      ensures Valid() && (ok <==> !old(Panics(Plainly(), Get(b))))
      ensures Plainly() == if ok then old(Next(Plainly(), Get(b))) else old(Plainly())
      ensures m.contents == old(m.contents) && (!ok ==> held == old(held))
      ensures ok ==> held != [] && held == old(held) + [held[|held| - 1]] && held[|held| - 1].blockId == b
      ensures fresh(set c | c in m.queue && c !in old(m.queue))
    {
      hide Ids, Panics, BlockCacheManager.Valid, BlockCacheManager.Holds;
      RefusesExactly(b);
      var c := m.GetBlockCache(b);
      ok := c != null;
      if ok {
        held := held + [c];
        MoreHandles(old(held), c);
        IdsAppend(old(held), c);
      }
    }

    method Change(k: nat, data: Block)
      requires Valid() && k < |held|
      modifies m, m.queue
      ensures Valid() && Plainly() == old(Next(Plainly(), Modify(k, data))) && m.queue == old(m.queue)
    {
      m.Modify(held[k], data);
    }

    method Sync()
      requires Valid()
      modifies m.queue, m.dev
      ensures Valid() && m.dev.blocks == m.contents
    {
      m.SyncAll();
    }

    method Close(k: nat)
      requires Valid() && k < |held|
      modifies this, m.queue
      ensures Valid() && Plainly() == old(Next(Plainly(), Drop(k))) && held == Without(old(held), k)
    {
      hide Ids, Without;
      WithoutMultiset(held, k);
      IdsWithout(held, k);
      m.DropHandle(held[k]);
      held := Without(held, k);
      forall i | 0 <= i < |held| ensures held[i] in m.queue { assert held[i] in Without(old(held), k); }
    }
  }

  /** Every run through the cache shows its user what the plain blocks would, to its end or to the lookup that finds
    * sixteen other blocks held. */
  method Run(u: User, ops: seq<Op>) returns (obs: seq<Block>, panicked: bool)
    requires u.Valid() && RunOk(u.Plainly(), ops)
    modifies u, u.m, u.m.queue, u.m.dev
    ensures u.Valid() && (u.Plainly(), obs, panicked) == old(RunOf(u.Plainly(), ops))
    ensures fresh(set c | c in u.m.queue && c !in old(u.m.queue))
    decreases ops
  {
    hide Panics, Admissible, Next, Sees;
    if ops == [] {
      return [], false;
    }
    var o, ok := u.Perform(ops[0]);
    if !ok {
      return [], true;
    }
    var rest;
    rest, panicked := Run(u, ops[1..]);
    obs := o + rest;
  }
}
