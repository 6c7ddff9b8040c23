/** Allocation bitmaps: 4096 bits to a block, kept as 64 little-endian `u64` words. */
module Bitmap {
  import opened Bytes
  import opened Layout
  import opened Wrappers

  const BLOCK_BITS: nat := BLOCK_SZ * 8
  const U64_MAX: nat := 0xFFFF_FFFF_FFFF_FFFF

  // ---------------------------------------------------------------- bits of a number

  function Pow2(j: nat): (p: nat)
    ensures p > 0
  {
    if j == 0 then 1 else 2 * Pow2(j - 1)
  }

  predicate BitOf(v: nat, j: nat)
  {
    if j == 0 then v % 2 == 1 else BitOf(v / 2, j - 1)
  }

  /** `v | (1 << i)` for a clear bit `i` is `v + (1 << i)`: it sets that bit and no other. */
  lemma {:induction false} AddBit(v: nat, i: nat, j: nat)
    requires !BitOf(v, i)
    ensures BitOf(v + Pow2(i), j) == (j == i || BitOf(v, j))
  {
    if i > 0 {
      assert (v + 2 * Pow2(i - 1)) / 2 == v / 2 + Pow2(i - 1);
      if j > 0 {
        AddBit(v / 2, i - 1, j - 1);
      }
    } else if j > 0 {
      assert (v + 1) / 2 == v / 2;
    }
  }

  /** `v - (1 << i)` for a set bit `i` does not borrow: it clears that bit and no other. */
  lemma {:induction false} SubtractBit(v: nat, i: nat, j: nat)
    requires BitOf(v, i)
    ensures v >= Pow2(i)
    ensures BitOf(v - Pow2(i), j) == (j != i && BitOf(v, j))
  {
    if i > 0 {
      SubtractBit(v / 2, i - 1, if j > 0 then j - 1 else 0);
      assert (v - 2 * Pow2(i - 1)) / 2 == v / 2 - Pow2(i - 1);
    } else if j > 0 {
      assert (v - 1) / 2 == v / 2;
    }
  }

  lemma HalfFits(v: nat, q: nat)
    requires v < 2 * q
    ensures v / 2 < q
  {
  }

  lemma EvenFits(v: nat, q: nat)
    requires v < 2 * q && v % 2 == 0
    ensures v + 1 < 2 * q
  {
  }

  lemma {:induction false} AddBitFits(v: nat, i: nat, n: nat)
    requires v < Pow2(n) && i < n && !BitOf(v, i)
    ensures v + Pow2(i) < Pow2(n)
  {
    var q := Pow2(n - 1);
    if i > 0 {
      HalfFits(v, q);
      AddBitFits(v / 2, i - 1, n - 1);
      var p := Pow2(i - 1);
      assert v <= 2 * (v / 2) + 1;
      assert v + 2 * p < 2 * q;
    } else {
      EvenFits(v, q);
    }
  }

  lemma HalfOnes(p: nat)
    requires p > 0
    ensures (2 * p - 1) / 2 == p - 1 && (2 * p - 1) % 2 == 1
  {
  }

  lemma {:induction false} OnesBit(v: nat, n: nat, j: nat)
    requires v == Pow2(n) - 1 && j < n
    ensures BitOf(v, j)
  {
    HalfOnes(Pow2(n - 1));
    if j > 0 {
      OnesBit(v / 2, n - 1, j - 1);
    }
  }

  lemma {:induction false} NotOnesBit(v: nat, n: nat) returns (j: nat)
    requires v < Pow2(n) - 1
    ensures j < n && !BitOf(v, j)
  {
    if v % 2 == 0 {
      j := 0;
    } else {
      j := NotOnesBit(v / 2, n - 1);
      j := j + 1;
    }
  }

  /** An `n`-bit number with all bits set is the largest one. */
  lemma AllOnes(v: nat, n: nat)
    requires v < Pow2(n)
    ensures v == Pow2(n) - 1 <==> forall j: nat | j < n :: BitOf(v, j)
  {
    if v == Pow2(n) - 1 {
      forall j: nat | j < n ensures BitOf(v, j) { OnesBit(v, n, j); }
    } else {
      var j := NotOnesBit(v, n);
    }
  }

  lemma {:induction false} Pow256IsPow2(n: nat)
    ensures Pow256(n) == Pow2(8 * n)
  {
    if n > 0 {
      Pow256IsPow2(n - 1);
      var m := 8 * n - 8;
      assert Pow2(m + 1) == 2 * Pow2(m);
      assert Pow2(m + 2) == 2 * Pow2(m + 1);
      assert Pow2(m + 3) == 2 * Pow2(m + 2);
      assert Pow2(m + 4) == 2 * Pow2(m + 3);
      assert Pow2(m + 5) == 2 * Pow2(m + 4);
      assert Pow2(m + 6) == 2 * Pow2(m + 5);
      assert Pow2(m + 7) == 2 * Pow2(m + 6);
    }
  }

  lemma WordLimit()
    ensures Pow256(8) == Pow2(64) == U64_MAX + 1
  {
    Pow256IsPow2(8);
    Pow256At4();
    assert Pow256(5) == 256 * Pow256(4);
    assert Pow256(6) == 256 * Pow256(5);
    assert Pow256(7) == 256 * Pow256(6);
  }

  // ---------------------------------------------------------------- words of a block

  function U64(b: Block, w: nat): (v: nat)
    requires w < 64
  {
    FromLE(b[8 * w..8 * w + 8])
  }

  function SetU64(b: Block, w: nat, v: nat): (r: Block)
    requires w < 64
  {
    Splice(b, 8 * w, ToLE(v, 8))
  }

  lemma SetU64Words(b: Block, w: nat, v: nat, w': nat)
    requires w < 64 && w' < 64 && v <= U64_MAX
    ensures U64(SetU64(b, w, v), w') == if w' == w then v else U64(b, w')
  {
    var r := SetU64(b, w, v);
    if w' == w {
      WordLimit();
      FromToLE(v, 8);
      assert r[8 * w..8 * w + 8] == ToLE(v, 8);
    } else {
      assert r[8 * w'..8 * w' + 8] == b[8 * w'..8 * w' + 8];
    }
  }

  lemma U64Bound(b: Block, w: nat)
    requires w < 64
    ensures U64(b, w) <= U64_MAX
  {
    FromLEBound(b[8 * w..8 * w + 8]);
    WordLimit();
  }

  /** Bit `k` of a block, counting through its words from the lowest bit up. */
  predicate Bit(b: Block, k: nat)
    requires k < BLOCK_BITS
  {
    BitOf(U64(b, k / 64), k % 64)
  }

  lemma SetBitFits(b: Block, w: nat, i: nat)
    requires w < 64 && i < 64 && !BitOf(U64(b, w), i)
    ensures U64(b, w) + Pow2(i) <= U64_MAX
  {
    U64Bound(b, w);
    WordLimit();
    AddBitFits(U64(b, w), i, 64);
  }

  lemma SetBit(b: Block, w: nat, i: nat)
    requires w < 64 && i < 64 && !BitOf(U64(b, w), i)
    ensures forall k: nat | k < BLOCK_BITS ::
              Bit(SetU64(b, w, U64(b, w) + Pow2(i)), k) == (k == 64 * w + i || Bit(b, k))
  {
    var v := U64(b, w) + Pow2(i);
    SetBitFits(b, w, i);
    hide U64, BitOf, Pow2, SetU64;
    forall k: nat | k < BLOCK_BITS
      ensures Bit(SetU64(b, w, v), k) == (k == 64 * w + i || Bit(b, k))
    {
      SetU64Words(b, w, v, k / 64);
      AddBit(U64(b, w), i, k % 64);
    }
  }

  lemma ClearBit(b: Block, w: nat, i: nat)
    requires w < 64 && i < 64 && BitOf(U64(b, w), i)
    ensures U64(b, w) >= Pow2(i)
    ensures forall k: nat | k < BLOCK_BITS ::
              Bit(SetU64(b, w, U64(b, w) - Pow2(i)), k) == (k != 64 * w + i && Bit(b, k))
  {
    hide U64, BitOf, Pow2, SetU64;
    SubtractBit(U64(b, w), i, i);
    var v := U64(b, w) - Pow2(i);
    U64Bound(b, w);
    forall k: nat | k < BLOCK_BITS
      ensures Bit(SetU64(b, w, v), k) == (k != 64 * w + i && Bit(b, k))
    {
      SetU64Words(b, w, v, k / 64);
      SubtractBit(U64(b, w), i, k % 64);
    }
  }

  /** A word other than `u64::MAX` has a clear bit, and `u64::MAX` has none. */
  lemma FullWord(b: Block, w: nat)
    requires w < 64
    ensures U64(b, w) == U64_MAX <==> forall j: nat | j < 64 :: BitOf(U64(b, w), j)
    ensures U64(b, w) == U64_MAX ==> forall k: nat | 64 * w <= k < 64 * w + 64 :: Bit(b, k)
  {
    U64Bound(b, w);
    WordLimit();
    AllOnes(U64(b, w), 64);
    hide U64, BitOf;
    if U64(b, w) == U64_MAX {
      forall k: nat | 64 * w <= k < 64 * w + 64
        ensures Bit(b, k)
      {
        assert k / 64 == w && BitOf(U64(b, w), k % 64);
      }
    }
  }

  // ---------------------------------------------------------------- the bitmap

  /** Decomposes a bit number into block, word and bit within the word. */
  function Decomposition(bit: nat): (r: (nat, nat, nat))
    ensures r.1 < 64 && r.2 < 64 && bit == r.0 * BLOCK_BITS + r.1 * 64 + r.2
  {
    (bit / BLOCK_BITS, bit % BLOCK_BITS / 64, bit % BLOCK_BITS % 64)
  }

  /** Number of trailing one bits of a `u64` that has a clear bit. */
  method TrailingOnes(v: nat) returns (n: nat)
    requires exists j: nat :: j < 64 && !BitOf(v, j)
    ensures n < 64 && !BitOf(v, n) && forall j: nat | j < n :: BitOf(v, j)
  {
    ghost var j: nat :| j < 64 && !BitOf(v, j);
    n := 0;
    while BitOf(v, n)
      invariant n <= j && forall i: nat | i < n :: BitOf(v, i)
      decreases 64 - n
    {
      n := n + 1;
    }
  }

  datatype Bitmap = Bitmap(startBlockId: nat, blocks: nat) {

    function Maximum(): (n: nat)
      ensures n == 4096 * blocks
    {
      blocks * BLOCK_BITS
    }

    /** Whether the bitmap's blocks are on the device. */
    predicate On(d: Disk)
    {
      startBlockId + blocks <= |d|
    }

    /** Bit number `k` of the bitmap. */
    predicate IsSet(d: Disk, k: nat)
      requires On(d) && k < Maximum()
    {
      Bit(d[startBlockId + k / BLOCK_BITS], k % BLOCK_BITS)
    }

    /** `d'` is `d` with bit `k` of this bitmap changed to `value`. */
    ghost predicate Changed(d: Disk, d': Disk, k: nat, value: bool)
      requires On(d) && k < Maximum()
    {
      && |d'| == |d|
      && (forall j: nat | j < Maximum() :: IsSet(d', j) == if j == k then value else IsSet(d, j))
      && (forall b: nat | b < |d| && b != startBlockId + k / BLOCK_BITS :: d'[b] == d[b])
    }

    /** Rewriting one block's bits changes one bit of the bitmap. */
    lemma ChangeOne(d: Disk, block: nat, b': Block, i: nat, value: bool)
      requires On(d) && block < blocks && i < BLOCK_BITS
      requires forall k: nat | k < BLOCK_BITS ::
                 Bit(b', k) == if k == i then value else Bit(d[startBlockId + block], k)
      ensures Changed(d, d[startBlockId + block := b'], block * BLOCK_BITS + i, value)
    {
      hide Bit;
      var d' := d[startBlockId + block := b'];
      forall j: nat | j < Maximum()
        ensures IsSet(d', j) == if j == block * BLOCK_BITS + i then value else IsSet(d, j)
      {
        if j / BLOCK_BITS == block {
          assert j == block * BLOCK_BITS + j % BLOCK_BITS;
        }
      }
    }

    /** All bits below bit `i` of block `block` are set. */
    lemma FullBelow(d: Disk, block: nat, b: Block, i: nat)
      requires On(d) && block < blocks && i <= BLOCK_BITS && b == d[startBlockId + block]
      requires forall k: nat | k < block * BLOCK_BITS :: IsSet(d, k)
      requires forall k: nat | k < i :: Bit(b, k)
      ensures forall k: nat | k < block * BLOCK_BITS + i :: IsSet(d, k)
    {
      forall k: nat | block * BLOCK_BITS <= k < block * BLOCK_BITS + i
        ensures IsSet(d, k)
      {
        if k < (block + 1) * BLOCK_BITS {
          assert k / BLOCK_BITS == block && k % BLOCK_BITS == k - block * BLOCK_BITS;
        }
      }
    }

    /** Takes the lowest clear bit; fails only when every bit is set. */
    method Alloc(dev: Device) returns (r: Option<nat>)
      requires On(dev.blocks)
      modifies dev
      ensures r.None? ==> dev.blocks == old(dev.blocks) && forall k: nat | k < Maximum() :: IsSet(dev.blocks, k)
      ensures r.Some? ==>
                && r.value < Maximum()
                && !IsSet(old(dev.blocks), r.value)
                && (forall k: nat | k < r.value :: IsSet(old(dev.blocks), k))
                && Changed(old(dev.blocks), dev.blocks, r.value, true)
    {
      hide Changed, Bit, U64, BitOf, Pow2, SetU64;
      for block := 0 to blocks
        invariant dev.blocks == old(dev.blocks)
        invariant forall k: nat | k < block * BLOCK_BITS :: IsSet(dev.blocks, k)
      {
        var b := dev.blocks[startBlockId + block];
        var w, inner := FindClear(b);
        FullBelow(dev.blocks, block, b, 64 * w + inner);
        if w < 64 {
          SetBit(b, w, inner);
          ClearBitNumber(dev.blocks, block, w, inner);
          ChangeOne(dev.blocks, block, SetU64(b, w, U64(b, w) + Pow2(inner)), 64 * w + inner, true);
          dev.blocks := dev.blocks[startBlockId + block := SetU64(b, w, U64(b, w) + Pow2(inner))];
          return Some(block * BLOCK_BITS + w * 64 + inner);
        }
      }
      r := None;
    }

    lemma ClearBitNumber(d: Disk, block: nat, w: nat, i: nat)
      requires On(d) && block < blocks && w < 64 && i < 64 && !BitOf(U64(d[startBlockId + block], w), i)
      ensures block * BLOCK_BITS + w * 64 + i < Maximum()
      ensures !IsSet(d, block * BLOCK_BITS + w * 64 + i)
    {
      var k := block * BLOCK_BITS + (w * 64 + i);
      assert k / BLOCK_BITS == block && k % BLOCK_BITS == w * 64 + i;
      assert (w * 64 + i) / 64 == w && (w * 64 + i) % 64 == i;
      assert k < (block + 1) * BLOCK_BITS <= Maximum();
    }

    /** The first word that is not `u64::MAX` and its trailing ones; word 64 if there is none. */
    static method FindClear(b: Block) returns (w: nat, inner: nat)
      ensures w < 64 ==> inner < 64 && !BitOf(U64(b, w), inner)
      ensures w >= 64 ==> w == 64 && inner == 0
      ensures forall k: nat | k < 64 * w + inner :: Bit(b, k)
    {
      w, inner := 0, 0;
      while w < 64 && U64(b, w) == U64_MAX
        invariant w <= 64 && forall k: nat | k < 64 * w :: Bit(b, k)
      {
        FullWord(b, w);
        w := w + 1;
      }
      if w < 64 {
        FullWord(b, w);
        inner := TrailingOnes(U64(b, w));
      }
    }

    /** Returns bit `bit`, which the code asserts to be set. */
    method Dealloc(dev: Device, bit: nat)
      requires On(dev.blocks) && bit < Maximum() && IsSet(dev.blocks, bit)
      modifies dev
      ensures Changed(old(dev.blocks), dev.blocks, bit, false)
    {
      var (block, w, inner) := Decomposition(bit);
      var b := dev.blocks[startBlockId + block];
      assert Bit(b, 64 * w + inner);
      ClearBit(b, w, inner);
      ChangeOne(dev.blocks, block, SetU64(b, w, U64(b, w) - Pow2(inner)), 64 * w + inner, false);
      dev.blocks := dev.blocks[startBlockId + block := SetU64(b, w, U64(b, w) - Pow2(inner))];
    }
  }
}
