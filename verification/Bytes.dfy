/** Bytes, disk blocks, and the typed views the file system lays over a block. */
module Bytes {

  const BLOCK_SZ: nat := 512
  const U32_LIMIT: nat := 0x1_0000_0000

  type byte = x: int | 0 <= x < 256
  type u32 = x: int | 0 <= x < U32_LIMIT

  /** One disk block of `BLOCK_SZ` bytes. */
  type Block = b: seq<byte> | |b| == BLOCK_SZ witness seq(BLOCK_SZ, _ => 0)

  /** The device, block id by block id. */
  type Disk = seq<Block>

  function Min(a: nat, b: nat): (m: nat)
  {
    if a <= b then a else b
  }

  function Max(a: nat, b: nat): (m: nat)
  {
    if a >= b then a else b
  }

  lemma QuotientIs(v: nat, q: nat, a: nat, r: nat)
    requires q > 0 && v == a * q + r && r < q
    ensures v / q == a
  {
    var b, s := v / q, v % q;
    assert (b - a) * q == r - s;
    if b > a {
      Times(b - a, q);
    } else if b < a {
      Times(a - b, q);
    }
  }

  lemma Times(a: nat, q: nat)
    requires a >= 1
    ensures a * q >= q
  {
  }

  function Zeros(n: nat): (s: seq<byte>)
  {
    seq(n, _ => 0)
  }

  function ZeroBlock(): (b: Block)
  {
    seq(BLOCK_SZ, _ => 0)
  }

  /** `s` written over `b` from position `at` on (`copy_from_slice`). */
  function Splice(b: seq<byte>, at: nat, s: seq<byte>): (r: seq<byte>)
    requires at + |s| <= |b|
    ensures |r| == |b|
    ensures forall k | 0 <= k < |b| :: r[k] == if at <= k < at + |s| then s[k - at] else b[k]
  {
    b[..at] + s + b[at + |s|..]
  }

  /** The `n`-byte little-endian encoding of `v`, truncated to `n` bytes. */
  function ToLE(v: nat, n: nat): (s: seq<byte>)
    ensures |s| == n
  {
    if n == 0 then [] else [v % 256] + ToLE(v / 256, n - 1)
  }

  function FromLE(s: seq<byte>): (v: nat)
  {
    if s == [] then 0 else s[0] as int + 256 * FromLE(s[1..])
  }

  function Pow256(n: nat): (p: nat)
    ensures p > 0
  {
    if n == 0 then 1 else 256 * Pow256(n - 1)
  }

  /** Decoding an encoded number gives it back. */
  lemma {:induction false} FromToLE(v: nat, n: nat)
    requires v < Pow256(n)
    ensures FromLE(ToLE(v, n)) == v
  {
    if n > 0 {
      FromToLE(v / 256, n - 1);
      assert ToLE(v, n)[1..] == ToLE(v / 256, n - 1);
    }
  }

  lemma {:induction false} FromLEBound(s: seq<byte>)
    ensures FromLE(s) < Pow256(|s|)
  {
    if s != [] {
      FromLEBound(s[1..]);
    }
  }

  lemma {:induction false} ZeroLE(s: seq<byte>)
    requires forall k | 0 <= k < |s| :: s[k] == 0
    ensures FromLE(s) == 0
  {
    if s != [] {
      ZeroLE(s[1..]);
    }
  }

  /** The `k`-th `u32` of a block: `&[u32; 128]` over the bytes. */
  function Word(b: Block, k: nat): (w: u32)
    requires k < 128
  {
    FromLEBound(b[4 * k..4 * k + 4]);
    Pow256At4();
    FromLE(b[4 * k..4 * k + 4])
  }

  lemma ZeroWord(k: nat)
    requires k < 128
    ensures Word(ZeroBlock(), k) == 0
  {
    ZeroLE(ZeroBlock()[4 * k..4 * k + 4]);
  }

  function SetWord(b: Block, k: nat, v: u32): (r: Block)
    requires k < 128
    ensures Word(r, k) == v
  {
    Pow256At4();
    FromToLE(v, 4);
    var r := Splice(b, 4 * k, ToLE(v, 4));
    assert r[4 * k..4 * k + 4] == ToLE(v, 4);
    r
  }

  lemma Pow256At4()
    ensures Pow256(4) == U32_LIMIT
  {
    assert Pow256(1) == 256;
    assert Pow256(2) == 65536;
    assert Pow256(3) == 16777216;
  }

  /** Writing one word leaves every other word of the block alone. */
  lemma SetWordFrame(b: Block, k: nat, v: u32, j: nat)
    requires k < 128 && j < 128 && j != k
    ensures Word(SetWord(b, k, v), j) == Word(b, j)
  {
    assert SetWord(b, k, v)[4 * j..4 * j + 4] == b[4 * j..4 * j + 4];
  }
}
