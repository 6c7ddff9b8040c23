/** `exec` writing the arguments through the new page table, and `_start` reading them with the translation in force. */
module Exec {
  import opened Bytes
  import opened Wrappers
  import opened Sv39
  import opened PageTable
  import opened Areas
  import opened MemorySet
  import opened Isolation
  import opened Argv

  /** Area `i` of a space is its user stack: framed, from address `lo` up, `n` bytes. */
  ghost predicate IsStack(areas: seq<MapArea>, i: nat, lo: nat, n: nat)
  {
    && i < |areas| && areas[i].mapType == Framed && areas[i].start <= areas[i].end <= VPN_LIMIT
    && lo == areas[i].start * PAGE_SIZE && n == (areas[i].end - areas[i].start) * PAGE_SIZE
  }

  /** The byte at address `va`, through the page table. */
  ghost function ByteAt(mem: Memory, root: nat, va: nat): (b: byte)
  {
    match ReadByte(mem, root, va)
    case Some(b) => b
    case None => 0
  }

  /** The bytes at addresses `lo` up to `lo + n`. */
  ghost function Image(mem: Memory, root: nat, lo: nat, n: nat): (s: seq<byte>)
    ensures |s| == n && forall k | 0 <= k < n :: s[k] == ByteAt(mem, root, lo + k)
  {
    if n == 0 then [] else Image(mem, root, lo, n - 1) + [ByteAt(mem, root, lo + n - 1)]
  }

  lemma InStack(areas: seq<MapArea>, i: nat, lo: nat, n: nat, va: nat)
    requires IsStack(areas, i, lo, n) && lo <= va < lo + n
    ensures InFramed(areas, i, va)
  {
  }

  /** A byte written through the page table changes that byte of the image. */
  lemma ImageWrite(m: Memory, w: Owners, sid: nat, root: nat, pages: Pages, areas: seq<MapArea>, i: nat, lo: nat,
                   n: nat, va: nat, b: byte)
    requires SpaceOk(m, w, sid, root, pages, areas) && IsStack(areas, i, lo, n) && lo <= va < lo + n
    ensures var m' := WriteByte(m, root, va, b);
            && SpaceOk(m', w, sid, root, pages, areas)
            && Leaf(m, root, va / PAGE_SIZE).Some? && Leaf(m, root, va / PAGE_SIZE).value.0 < |m|
            && Image(m', root, lo, n) == Image(m, root, lo, n)[va - lo := b]
  {
    hide SpaceOk, Leaf, IsStack, ReadByte, WriteByte;
    var m' := WriteByte(m, root, va, b);
    InStack(areas, i, lo, n, va);
    OwnWrite(m, w, sid, root, pages, areas, i, va, b);
    forall k | 0 <= k < n
      ensures Image(m', root, lo, n)[k] == Image(m, root, lo, n)[va - lo := b][k]
    {
      if lo + k != va {
        InStack(areas, i, lo, n, lo + k);
        WriteChangesOneByte(m, w, sid, root, pages, areas, i, va, b, i, lo + k);
      }
    }
  }

  /** Memory after the eight bytes of `v` were stored at `va` through one translation. */
  function WriteWord(mem: Memory, root: nat, va: nat, v: nat): (mem': Memory)
    requires va % PAGE_SIZE + 8 <= PAGE_SIZE
  {
    match Leaf(mem, root, va / PAGE_SIZE)
    case Some((ppn, _)) => if ppn < |mem| then mem[ppn := Splice(mem[ppn], va % PAGE_SIZE, ToLE(v, 8))] else mem
    case None => mem
  }

  /** A word stored at an aligned address through its page's translation is that word in the image: its eight bytes
    * lie in one page. */
  lemma ImageWord(m: Memory, w: Owners, sid: nat, root: nat, pages: Pages, areas: seq<MapArea>, i: nat, lo: nat, n: nat,
                  va: nat, v: nat)
    requires SpaceOk(m, w, sid, root, pages, areas) && IsStack(areas, i, lo, n)
    requires lo <= va && va + 8 <= lo + n && va % 8 == 0 && va % PAGE_SIZE + 8 <= PAGE_SIZE
    ensures var m' := WriteWord(m, root, va, v);
            && |m'| == |m| && SpaceOk(m', w, sid, root, pages, areas)
            && Image(m', root, lo, n) == Splice(Image(m, root, lo, n), va - lo, ToLE(v, 8))
  {
    hide SpaceOk, Leaf, IsStack, ToLE;
    InStack(areas, i, lo, n, va);
    FramedLeaf(m, w, sid, root, pages, areas, i, va);
    var f := areas[i].dataFrames[va / PAGE_SIZE];
    var data: Frame := Splice(m[f], va % PAGE_SIZE, ToLE(v, 8));
    var m' := WriteWord(m, root, va, v);
    assert m' == m[f := data];
    FrameReads(m, w, sid, root, pages, areas, i, va, data, i, va);
    forall k | 0 <= k < n
      ensures Image(m', root, lo, n)[k] == Splice(Image(m, root, lo, n), va - lo, ToLE(v, 8))[k]
    {
      InStack(areas, i, lo, n, lo + k);
      FrameReads(m, w, sid, root, pages, areas, i, va, data, i, lo + k);
      WordByte(m[f], va, ToLE(v, 8), lo + k);
      FramedLeaf(m, w, sid, root, pages, areas, i, lo + k);
    }
  }

  /** Which byte of a page a word at `va` changes. */
  lemma WordByte(frame: Frame, va: nat, s: seq<byte>, o: nat)
    requires |s| == 8 && va % 8 == 0 && va % PAGE_SIZE + 8 <= PAGE_SIZE
    ensures o / PAGE_SIZE == va / PAGE_SIZE ==>
              Splice(frame, va % PAGE_SIZE, s)[o % PAGE_SIZE]
              == if va <= o < va + 8 then s[o - va] else frame[o % PAGE_SIZE]
    ensures o / PAGE_SIZE != va / PAGE_SIZE ==> !(va <= o < va + 8)
  {
    assert va == va / PAGE_SIZE * PAGE_SIZE + va % PAGE_SIZE && o == o / PAGE_SIZE * PAGE_SIZE + o % PAGE_SIZE;
    if va <= o < va + 8 {
      SamePage(va, o - va);
    }
  }

  lemma OwnWrite(m: Memory, w: Owners, sid: nat, root: nat, pages: Pages, areas: seq<MapArea>, i: nat, va: nat, b: byte)
    requires SpaceOk(m, w, sid, root, pages, areas) && InFramed(areas, i, va)
    ensures var m' := WriteByte(m, root, va, b);
            && SpaceOk(m', w, sid, root, pages, areas) && ReadByte(m', root, va) == Some(b)
            && Leaf(m, root, va / PAGE_SIZE).Some? && Leaf(m, root, va / PAGE_SIZE).value.0 < |m|
  {
    hide Leaf, AreasOk, TableOk, Refines;
    FramedLeaf(m, w, sid, root, pages, areas, i, va);
    var f := areas[i].dataFrames[va / PAGE_SIZE];
    DataWrite(m, w, sid, root, pages, f, WriteByte(m, root, va, b)[f]);
  }

  lemma WriteLength(m: Memory, root: nat, va: nat, b: byte)
    ensures |WriteByte(m, root, va, b)| == |m|
  {
  }

  lemma SpliceMore(b: seq<byte>, at: nat, s: seq<byte>, i: nat)
    requires at + |s| <= |b| && i < |s|
    ensures Splice(b, at, s[..i])[at + i := s[i]] == Splice(b, at, s[..i + 1])
  {
  }

  /** The eight bytes from an aligned address on are in one page. */
  lemma SamePage(va: nat, i: nat)
    requires va % 8 == 0 && i < 8
    ensures (va + i) / PAGE_SIZE == va / PAGE_SIZE && (va + i) % PAGE_SIZE == va % PAGE_SIZE + i
  {
  }

  lemma StackBounds(areas: seq<MapArea>, i: nat, lo: nat, n: nat)
    requires IsStack(areas, i, lo, n)
    ensures lo % 8 == 0 && n % 8 == 0 && lo + n < Pow256(8)
  {
    hide Pow256;
    PageBytes(areas[i].start);
    PageBytes(areas[i].end - areas[i].start);
    PageBytes(areas[i].end);
    assert lo + n == areas[i].end * PAGE_SIZE;
  }

  lemma PageBytes(a: nat)
    ensures (a * PAGE_SIZE) % 8 == 0 && (a <= VPN_LIMIT ==> a * PAGE_SIZE < Pow256(8))
  {
    hide Pow256;
    Pow256At8();
    assert a * PAGE_SIZE == 8 * (512 * a);
  }

  /** The next argument's place, and the alignment of the pointer array. */
  lemma NextArg(n: nat, args: Args, lo: nat, i: nat)
    requires Fits(n, args) && i < |args| && lo % 8 == 0 && n % 8 == 0
    ensures Off(n, args, i + 1) == Off(n, args, i) - (|args[i]| + 1)
    ensures Off(n, args, i + 1) + |args[i]| + 1 <= Base(n, args) && Base(n, args) + 8 * i + 8 <= n
    ensures (lo + Base(n, args) + 8 * i) % 8 == 0
  {
    Offsets(n, args, 0, i);
    assert lo + Base(n, args) + 8 * i == lo + n - 8 * (|args| + 1 - i);
  }

  lemma FirstArg(n: nat, args: Args, lo: nat)
    requires Fits(n, args) && lo % 8 == 0 && n % 8 == 0
    ensures Base(n, args) == n - (|args| + 1) * 8 && Off(n, args, 0) == Base(n, args)
    ensures (lo + Base(n, args) + 8 * |args|) % 8 == 0 && Base(n, args) + 8 * |args| + 8 <= n
  {
    assert lo + Base(n, args) + 8 * |args| == lo + n - 8;
  }

  lemma NullPut(stack: seq<byte>, args: Args, lo: nat)
    requires Fits(|stack|, args)
    ensures Pushed(Splice(stack, Base(|stack|, args) + 8 * |args|, ToLE(0, 8)), args, lo, 0)
  {
    Pow256At8();
    WordPut(stack, Base(|stack|, args) + 8 * |args|, 0);
  }

  /** The stack of the new space of `exec`, seen through its page table. */
  class UserStack {
    const fm: FrameMemory
    const ms: MemorySet
    const area: nat
    const lo: nat
    const n: nat

    constructor (fm: FrameMemory, ms: MemorySet, area: nat)
      requires ms.Valid(fm) && area < |ms.areas| && ms.areas[area].mapType == Framed
      ensures Valid() && this.fm == fm && this.ms == ms && this.area == area
    {
      this.fm, this.ms, this.area := fm, ms, area;
      AreaRange(ms.areas, area, ms.pt.pages, fm.who, ms.pt.sid);
      lo := ms.areas[area].start * PAGE_SIZE;
      n := (ms.areas[area].end - ms.areas[area].start) * PAGE_SIZE;
    }

    ghost predicate Valid()
      reads this, fm, ms, ms.pt
    {
      && fm.Valid() && IsStack(ms.areas, area, lo, n)
      && SpaceOk(fm.mem, fm.who, ms.pt.sid, ms.pt.root, ms.pt.pages, ms.areas)
    }

    ghost function Bytes(): (s: seq<byte>)
      reads this, fm, ms.pt
      ensures |s| == n
    {
      Image(fm.mem, ms.pt.root, lo, n)
    }

    lemma Aligned()
      requires Valid()
      ensures lo % 8 == 0 && n % 8 == 0 && lo + n < Pow256(8)
    {
      StackBounds(ms.areas, area, lo, n);
    }

    /** `translated_refmut` to a byte, and the store; the address is mapped. */
    method Put(va: nat, b: byte)
      requires Valid() && lo <= va < lo + n
      modifies fm`mem
      ensures Valid() && Bytes() == old(Bytes())[va - lo := b]
    {
      hide SpaceOk, Leaf, IsStack, Image;
      ImageWrite(fm.mem, fm.who, ms.pt.sid, ms.pt.root, ms.pt.pages, ms.areas, area, lo, n, va, b);
      WriteLength(fm.mem, ms.pt.root, va, b);
      fm.mem := WriteByte(fm.mem, ms.pt.root, va, b);
    }

    /** `s` and a NUL, byte by byte. */
    method PutString(va: nat, s: seq<byte>)
      requires Valid() && lo <= va && va + |s| < lo + n
      modifies fm`mem
      ensures Valid() && Bytes() == Splice(old(Bytes()), va - lo, s + [0])
    {
      hide SpaceOk, Image;
      var p := va;
      for i := 0 to |s|
        invariant Valid() && p == va + i
        invariant Bytes() == Splice(old(Bytes()), va - lo, s[..i])
      {
        Put(p, s[i]);
        SpliceMore(old(Bytes()), va - lo, s, i);
        p := p + 1;
      }
      assert s[..|s|] == s;
      Put(p, 0);
      SpliceMore(old(Bytes()), va - lo, s + [0], |s|);
      assert (s + [0])[..|s|] == s && (s + [0])[..|s| + 1] == s + [0];
    }

    /** `translated_refmut` to a word: one translation, and the store of its eight bytes. */
    method PutWord(va: nat, v: nat)
      requires Valid() && lo <= va && va + 8 <= lo + n && va % 8 == 0
      modifies fm`mem
      ensures Valid() && Bytes() == Splice(old(Bytes()), va - lo, ToLE(v, 8))
    {
      hide SpaceOk, Leaf, IsStack, Image, ToLE;
      SamePage(va, 7);
      ImageWord(fm.mem, fm.who, ms.pt.sid, ms.pt.root, ms.pt.pages, ms.areas, area, lo, n, va, v);
      fm.mem := WriteWord(fm.mem, ms.pt.root, va, v);
    }

    /** The loop of `exec` over its arguments, once the null is in place: a pointer and a string for each. */
    method PushStrings(args: Args, argv: nat) returns (sp: nat)
      requires Valid() && Fits(n, args) && Pushed(Bytes(), args, lo, 0) && argv == lo + Base(n, args)
      modifies fm`mem
      ensures Valid() && Pushed(Bytes(), args, lo, |args|) && sp == lo + Off(n, args, |args|)
    {
      hide SpaceOk, Image, Splice, WordAt, Off, Used, Base, ToLE, Pushed, Fits, UserStack.Valid, UserStack.Bytes;
      Aligned();
      FirstArg(n, args, lo);
      sp := argv;
      for i := 0 to |args|
        invariant Valid() && sp == lo + Off(n, args, i) && Pushed(Bytes(), args, lo, i)
      {
        NextArg(n, args, lo, i);
        sp := sp - (|args[i]| + 1);
        ghost var before := Bytes();
        PutWord(argv + i * 8, sp);
        PutString(sp, args[i]);
        PushMore(before, args, lo, i);
      }
    }

    /** The argument-pushing part of `exec`: the stack pointer the program starts with and the address of its pointer
      * array. */
    method PushArgs(args: Args) returns (sp: nat, argv: nat)
      requires Valid() && Fits(n, args)
      modifies fm`mem
      ensures Valid() && Pushed(Bytes(), args, lo, |args|) && argv == lo + Base(n, args)
      ensures lo <= sp <= lo + Off(n, args, |args|) && sp % 8 == 0 && lo + Off(n, args, |args|) - sp < 8
      ensures 8 * (|args| + 1) <= n && argv == lo + n - 8 * (|args| + 1) && FromLE(Bytes()[n - 8..]) == 0
      ensures forall j: nat | j < |args| :: PointsTo(Bytes(), lo, argv, j, args[j])
    {
      hide SpaceOk, Image, Splice, WordAt, Off, Used, Base, ToLE, Pushed, Fits, PointsTo, FromLE;
      hide UserStack.Valid, UserStack.Bytes;
      Aligned();
      FirstArg(n, args, lo);
      argv := lo + n - (|args| + 1) * 8;
      PutWord(argv + |args| * 8, 0);
      NullPut(old(Bytes()), args, lo);
      sp := PushStrings(args, argv);
      PushedIs(Bytes(), args, lo);
      sp := sp - sp % 8;
    }

    /** A load at an address of the stack. */
    method Get(va: nat) returns (b: byte)
      requires Valid() && lo <= va < lo + n
      ensures b == Bytes()[va - lo]
    {
      hide SpaceOk, IsStack, Leaf;
      InStack(ms.areas, area, lo, n, va);
      ReadMapped(fm.mem, fm.who, ms.pt.sid, ms.pt.root, ms.pt.pages, ms.areas, area, va);
      b := ReadByte(fm.mem, ms.pt.root, va).value;
      assert b == ByteAt(fm.mem, ms.pt.root, lo + (va - lo));
    }

    method GetWord(va: nat) returns (v: nat)
      requires Valid() && lo <= va && va + 8 <= lo + n
      ensures v == WordAt(Bytes(), va - lo)
    {
      hide SpaceOk, Image, UserStack.Bytes, UserStack.Valid;
      var s: seq<byte> := [];
      for i := 0 to 8
        invariant s == Bytes()[va - lo..va - lo + i]
      {
        var b := Get(va + i);
        s := s + [b];
      }
      v := FromLE(s);
    }

    /** `_start`: every pointer of the array, and the string up to the NUL it points to. */
    method Start(argc: nat, argv: nat) returns (v: Args)
      requires Valid() && forall j: nat | j < argc :: Readable(Bytes(), lo, argv, j)
      ensures |v| == argc && forall j: nat | j < argc :: v[j] == ArgAt(Bytes(), lo, argv, j)
      ensures forall j: nat | j < argc :: PointsTo(Bytes(), lo, argv, j, v[j]) && 0 !in v[j]
    {
      hide SpaceOk, Image, WordAt, UserStack.Bytes, UserStack.Valid, ZeroFrom, PointsTo;
      v := [];
      for i := 0 to argc
        invariant |v| == i && forall j: nat | j < i :: v[j] == ArgAt(Bytes(), lo, argv, j)
      {
        assert Readable(Bytes(), lo, argv, i);
        var start := GetWord(argv + i * 8);
        var s := GetString(start);
        v := v + [s];
      }
      forall j: nat | j < argc
        ensures PointsTo(Bytes(), lo, argv, j, v[j]) && 0 !in v[j]
      {
        ArgIs(Bytes(), lo, argv, j);
      }
    }

    method GetString(start: nat) returns (s: seq<byte>)
      requires Valid() && lo <= start <= lo + n && ZeroFrom(Bytes(), start - lo) < n
      ensures s == Bytes()[start - lo..ZeroFrom(Bytes(), start - lo)]
      ensures start - lo + |s| < n && Bytes()[start - lo..start - lo + |s| + 1] == s + [0] && 0 !in s
    {
      hide SpaceOk, Image, UserStack.Bytes, UserStack.Valid;
      ghost var stop := ZeroFrom(Bytes(), start - lo);
      s := [];
      var len := 0;
      var b := Get(start);
      while b != 0
        invariant start - lo + len <= stop && b == Bytes()[start - lo + len]
        invariant s == Bytes()[start - lo..start - lo + len] && 0 !in s
        decreases stop - len
      {
        assert Bytes()[start - lo..start - lo + len + 1] == s + [b];
        s := s + [b];
        len := len + 1;
        b := Get(start + len);
      }
    }
  }

  lemma ReadMapped(m: Memory, w: Owners, sid: nat, root: nat, pages: Pages, areas: seq<MapArea>, i: nat, va: nat)
    requires SpaceOk(m, w, sid, root, pages, areas) && InFramed(areas, i, va)
    ensures ReadByte(m, root, va).Some?
  {
    FramedLeaf(m, w, sid, root, pages, areas, i, va);
  }

  /** The arguments given to `exec` reach `main`: all of them, each up to its first NUL, and so exactly as they were
    * given if and only if none contains a NUL. The program starts with its stack pointer aligned and below them. */
  method ExecThenStart(stack: UserStack, args: Args) returns (sp: nat, v: Args)
    requires stack.Valid() && Fits(stack.n, args)
    modifies stack.fm`mem
    ensures stack.Valid() && sp % 8 == 0 && stack.lo <= sp <= stack.lo + Off(stack.n, args, |args|)
    ensures |v| == |args| && forall j: nat | j < |args| :: v[j] == UpToNul(args[j])
    ensures forall j: nat | j < |args| :: 0 !in v[j] && v[j] + [0] <= args[j] + [0]
    ensures v == args <==> forall j: nat | j < |args| :: 0 !in args[j]
  {
    hide SpaceOk, Image, Pushed, UpToNul, ArgAt, Readable, IsStack, Fits, Off, PointsTo, FromLE;
    var argv;
    sp, argv := stack.PushArgs(args);
    forall j: nat | j < |args|
      ensures Readable(stack.Bytes(), stack.lo, argv, j) && ArgAt(stack.Bytes(), stack.lo, argv, j) == UpToNul(args[j])
    {
      RoundTrip(stack.Bytes(), args, stack.lo, j);
    }
    v := stack.Start(|args|, argv);
    SameArgs(args, v);
  }

  lemma SameArgs(args: Args, v: Args)
    requires |v| == |args| && forall j: nat | j < |args| :: v[j] == UpToNul(args[j])
    ensures v == args <==> forall j: nat | j < |args| :: 0 !in args[j]
  {
    if v == args {
      forall j: nat | j < |args| ensures 0 !in args[j] { assert v[j] == UpToNul(args[j]); }
    }
  }
}
