/** The arguments on the user stack: the image `exec` builds and `_start` reads back, as bytes of the stack. */
module Argv {
  import opened Bytes

  type Args = seq<seq<byte>>

  /** How many bytes the first `k` strings take, each with its NUL. */
  function Used(args: Args, k: nat): (n: nat)
    requires k <= |args|
  {
    if k == 0 then 0 else Used(args, k - 1) + |args[k - 1]| + 1
  }

  /** The pointer array, with its null, and the strings fit into `n` bytes. */
  predicate Fits(n: nat, args: Args)
  {
    8 * (|args| + 1) + Used(args, |args|) <= n
  }

  /** Where the pointer array begins, from the bottom of a stack of `n` bytes. */
  function Base(n: nat, args: Args): (off: nat)
    requires Fits(n, args)
  {
    n - 8 * (|args| + 1)
  }

  /** The stack pointer once `k` strings are pushed. */
  function Off(n: nat, args: Args, k: nat): (off: nat)
    requires Fits(n, args) && k <= |args|
  {
    UsedMonotone(args, k, |args|);
    Base(n, args) - Used(args, k)
  }

  lemma {:induction false} UsedMonotone(args: Args, j: nat, k: nat)
    requires j <= k <= |args|
    ensures Used(args, j) <= Used(args, k)
  {
    if j < k {
      UsedMonotone(args, j, k - 1);
    }
  }

  function WordAt(stack: seq<byte>, off: nat): (v: nat)
    requires off + 8 <= |stack|
  {
    FromLE(stack[off..off + 8])
  }

  predicate StringAt(stack: seq<byte>, off: nat, s: seq<byte>)
  {
    off + |s| < |stack| && stack[off..off + |s|] == s && stack[off + |s|] == 0
  }

  /** Entry `j` of the array points to string `j`. The stack's bottom byte has address `lo`. */
  ghost predicate ArgOk(stack: seq<byte>, args: Args, lo: nat, j: nat)
    requires Fits(|stack|, args) && j < |args|
  {
    var n := |stack|;
    WordAt(stack, Base(n, args) + 8 * j) == lo + Off(n, args, j + 1) && StringAt(stack, Off(n, args, j + 1), args[j])
  }

  /** The null and the first `k` arguments are in place. */
  ghost predicate Pushed(stack: seq<byte>, args: Args, lo: nat, k: nat)
  {
    && Fits(|stack|, args) && k <= |args| && WordAt(stack, Base(|stack|, args) + 8 * |args|) == 0
    && forall j: nat | j < k :: ArgOk(stack, args, lo, j)
  }

  /** Word `j` of the array at address `argv` is the address of the bytes of `s`, followed by a NUL. */
  ghost predicate PointsTo(stack: seq<byte>, lo: nat, argv: nat, j: nat, s: seq<byte>)
  {
    && lo <= argv && argv - lo + 8 * j + 8 <= |stack|
    && var p := FromLE(stack[argv - lo + 8 * j..argv - lo + 8 * j + 8]);
       lo <= p && p - lo + |s| < |stack| && stack[p - lo..p - lo + |s| + 1] == s + [0]
  }

  /** A stack with everything pushed, in its own terms: above the strings the pointers, in order, and a null; each
    * points to its argument's bytes, followed by a NUL. */
  lemma PushedIs(stack: seq<byte>, args: Args, lo: nat)
    requires Pushed(stack, args, lo, |args|)
    ensures 8 * (|args| + 1) <= |stack| && FromLE(stack[|stack| - 8..]) == 0
    ensures forall j: nat | j < |args| :: PointsTo(stack, lo, lo + |stack| - 8 * (|args| + 1), j, args[j])
  {
    var n := |stack|;
    assert stack[n - 8..] == stack[n - 8..n - 8 + 8];
    forall j: nat | j < |args|
      ensures PointsTo(stack, lo, lo + n - 8 * (|args| + 1), j, args[j])
    {
      assert ArgOk(stack, args, lo, j);
      var off := Off(n, args, j + 1);
      assert stack[off..off + |args[j]| + 1] == stack[off..off + |args[j]|] + [stack[off + |args[j]|]];
    }
  }

  /** Writing elsewhere leaves a stretch alone. */
  lemma SpliceApart(b: seq<byte>, at: nat, s: seq<byte>, from: nat, to: nat)
    requires at + |s| <= |b| && from <= to <= |b| && (to <= at || at + |s| <= from)
    ensures Splice(b, at, s)[from..to] == b[from..to]
  {
  }

  lemma SpliceHere(b: seq<byte>, at: nat, s: seq<byte>)
    requires at + |s| <= |b|
    ensures Splice(b, at, s)[at..at + |s|] == s
  {
  }

  /** The stack after argument `k` is pushed: its pointer, its bytes and its NUL. */
  function Push(stack: seq<byte>, args: Args, lo: nat, k: nat): (r: seq<byte>)
    requires Fits(|stack|, args) && k < |args|
    ensures |r| == |stack|
  {
    var n := |stack|;
    UsedMonotone(args, k + 1, |args|);
    Splice(Splice(stack, Base(n, args) + 8 * k, ToLE(lo + Off(n, args, k + 1), 8)), Off(n, args, k + 1), args[k] + [0])
  }

  lemma WordKept(b: seq<byte>, at: nat, s: seq<byte>, off: nat)
    requires at + |s| <= |b| && off + 8 <= |b| && (off + 8 <= at || at + |s| <= off)
    ensures WordAt(Splice(b, at, s), off) == WordAt(b, off)
  {
    SpliceApart(b, at, s, off, off + 8);
  }

  lemma StringKept(b: seq<byte>, at: nat, s: seq<byte>, off: nat, str: seq<byte>)
    requires at + |s| <= |b| && StringAt(b, off, str) && (off + |str| + 1 <= at || at + |s| <= off)
    ensures StringAt(Splice(b, at, s), off, str)
  {
    SpliceApart(b, at, s, off, off + |str|);
  }

  lemma WordPut(b: seq<byte>, off: nat, v: nat)
    requires off + 8 <= |b| && v < Pow256(8)
    ensures WordAt(Splice(b, off, ToLE(v, 8)), off) == v
  {
    SpliceHere(b, off, ToLE(v, 8));
    FromToLE(v, 8);
  }

  lemma StringPut(b: seq<byte>, off: nat, str: seq<byte>)
    requires off + |str| + 1 <= |b|
    ensures StringAt(Splice(b, off, str + [0]), off, str)
  {
    var r := Splice(b, off, str + [0]);
    assert forall i | off <= i < off + |str| :: r[i] == str[i - off];
    assert r[off..off + |str|] == str;
  }

  /** The strings lie below the array, later ones below earlier ones. */
  lemma Offsets(n: nat, args: Args, j: nat, k: nat)
    requires Fits(n, args) && j <= k < |args|
    ensures Off(n, args, k + 1) + |args[k]| + 1 <= Off(n, args, j) <= Base(n, args)
  {
    UsedMonotone(args, j, k);
    UsedMonotone(args, 0, j);
  }

  lemma PushKeeps(stack: seq<byte>, args: Args, lo: nat, k: nat, j: nat)
    requires Fits(|stack|, args) && j < k < |args| && ArgOk(stack, args, lo, j)
    ensures ArgOk(Push(stack, args, lo, k), args, lo, j)
  {
    hide WordAt, StringAt, Used, Splice;
    var n := |stack|;
    Offsets(n, args, j + 1, k);
    Offsets(n, args, 0, j);
    var base, at, off := Base(n, args), Off(n, args, k + 1), Off(n, args, j + 1);
    var word := ToLE(lo + at, 8);
    var s1 := Splice(stack, base + 8 * k, word);
    WordKept(stack, base + 8 * k, word, base + 8 * j);
    WordKept(s1, at, args[k] + [0], base + 8 * j);
    StringKept(stack, base + 8 * k, word, off, args[j]);
    StringKept(s1, at, args[k] + [0], off, args[j]);
  }

  lemma PushPuts(stack: seq<byte>, args: Args, lo: nat, k: nat)
    requires Fits(|stack|, args) && k < |args| && lo + |stack| < Pow256(8)
    ensures ArgOk(Push(stack, args, lo, k), args, lo, k)
  {
    hide WordAt, StringAt, Used, Splice;
    var n := |stack|;
    Offsets(n, args, 0, k);
    var base, at := Base(n, args), Off(n, args, k + 1);
    var word := ToLE(lo + at, 8);
    var s1 := Splice(stack, base + 8 * k, word);
    WordPut(stack, base + 8 * k, lo + at);
    WordKept(s1, at, args[k] + [0], base + 8 * k);
    StringPut(s1, at, args[k]);
  }

  /** Pushing the next argument disturbs neither the array nor the strings already there. */
  lemma PushMore(stack: seq<byte>, args: Args, lo: nat, k: nat)
    requires Pushed(stack, args, lo, k) && k < |args| && lo + |stack| < Pow256(8)
    ensures Pushed(Push(stack, args, lo, k), args, lo, k + 1)
  {
    hide ArgOk, WordAt, Splice, Used;
    var n, r := |stack|, Push(stack, args, lo, k);
    forall j: nat | j < k + 1
      ensures ArgOk(r, args, lo, j)
    {
      if j < k { PushKeeps(stack, args, lo, k, j); } else { PushPuts(stack, args, lo, k); }
    }
    Offsets(n, args, 0, k);
    var base, at := Base(n, args), Off(n, args, k + 1);
    var word := ToLE(lo + at, 8);
    WordKept(stack, base + 8 * k, word, base + 8 * |args|);
    WordKept(Splice(stack, base + 8 * k, word), at, args[k] + [0], base + 8 * |args|);
  }

  // ---------------------------------------------------------------- reading back

  /** The first NUL from `off` on, or the end. */
  function ZeroFrom(stack: seq<byte>, off: nat): (k: nat)
    requires off <= |stack|
    ensures off <= k <= |stack| && (k < |stack| ==> stack[k] == 0) && forall i | off <= i < k :: stack[i] != 0
    decreases |stack| - off
  {
    if off == |stack| || stack[off] == 0 then off else ZeroFrom(stack, off + 1)
  }

  /** The bytes before the first NUL. */
  function UpToNul(s: seq<byte>): (r: seq<byte>)
    ensures 0 !in r && r + [0] <= s + [0] && (r == s <==> 0 !in s)
  {
    assert forall x :: x in s ==> exists i :: 0 <= i < |s| && s[i] == x;
    s[..ZeroFrom(s, 0)]
  }

  /** Pointer `j` of the array at address `argv`, and the string it points to, as `_start` reads them. */
  predicate Readable(stack: seq<byte>, lo: nat, argv: nat, j: nat)
  {
    && lo <= argv && argv - lo + 8 * j + 8 <= |stack|
    && var p := WordAt(stack, argv - lo + 8 * j);
       lo <= p && p - lo <= |stack| && ZeroFrom(stack, p - lo) < |stack|
  }

  function ArgAt(stack: seq<byte>, lo: nat, argv: nat, j: nat): (s: seq<byte>)
    requires Readable(stack, lo, argv, j)
  {
    var p := WordAt(stack, argv - lo + 8 * j) - lo;
    stack[p..ZeroFrom(stack, p)]
  }

  lemma ArgIs(stack: seq<byte>, lo: nat, argv: nat, j: nat)
    requires Readable(stack, lo, argv, j)
    ensures PointsTo(stack, lo, argv, j, ArgAt(stack, lo, argv, j)) && 0 !in ArgAt(stack, lo, argv, j)
  {
    hide FromLE;
    var p := WordAt(stack, argv - lo + 8 * j) - lo;
    var k := ZeroFrom(stack, p);
    assert stack[p..k + 1] == stack[p..k] + [stack[k]];
    assert forall i | 0 <= i < k - p :: stack[p..k][i] == stack[p + i] != 0;
  }

  lemma ZeroIs(stack: seq<byte>, off: nat, n: nat)
    requires off <= n < |stack| && stack[n] == 0 && forall i | off <= i < n :: stack[i] != 0
    ensures ZeroFrom(stack, off) == n
  {
  }

  /** What `_start` reads back is what `exec` was given, each string up to its first NUL if it has one. */
  lemma RoundTrip(stack: seq<byte>, args: Args, lo: nat, j: nat)
    requires Pushed(stack, args, lo, |args|) && j < |args|
    ensures var argv := lo + Base(|stack|, args);
            Readable(stack, lo, argv, j) && ArgAt(stack, lo, argv, j) == UpToNul(args[j])
  {
    assert ArgOk(stack, args, lo, j);
    var off, s := Off(|stack|, args, j + 1), args[j];
    var k := |UpToNul(s)|;
    assert forall i | 0 <= i < |s| :: stack[off + i] == stack[off..off + |s|][i] == s[i];
    ZeroIs(stack, off, off + k);
    assert stack[off..off + k] == stack[off..off + |s|][..k];
  }
}
