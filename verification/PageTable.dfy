/** The frame allocator and the page table that lives in the frames it hands out. */
module PageTable {
  import opened Bytes
  import opened Wrappers
  import opened Sv39

  /** Physical memory with the stack frame allocator. */
  class FrameMemory {
    var mem: Memory
    var current: nat
    var end: nat
    var recycled: seq<nat>
    ghost const start: nat
    ghost var who: Owners

    /** `init`: frames `l` up to `r` are free. */
    constructor (mem: Memory, l: nat, r: nat)
      requires l <= r <= |mem| <= PPN_LIMIT
      ensures Valid() && who == map[] && this.mem == mem
    {
      this.mem, current, end, recycled := mem, l, r, [];
      start, who := l, map[];
    }

    /** The frames handed out and not recycled are exactly those with a use. */
    ghost predicate Valid()
      reads this
    {
      && start <= current <= end <= |mem| <= PPN_LIMIT
      && (forall i, j | 0 <= i < j < |recycled| :: recycled[i] != recycled[j])
      && (forall i | 0 <= i < |recycled| :: start <= recycled[i] < current)
      && (forall f: nat :: f in who <==> start <= f < current && f !in recycled)
    }

    /** No frame left to hand out. */
    predicate Exhausted()
      reads this
    {
      recycled == [] && current == end
    }

    /** Hands out a zeroed frame that is not in use. */
    method FrameAlloc(ghost use: Use) returns (r: Option<nat>)
      requires Valid()
      modifies this
      ensures Valid() && (r.None? <==> old(Exhausted()))
      ensures r.None? ==> mem == old(mem) && who == old(who) && Exhausted()
      ensures r.Some? ==>
                && r.value !in old(who) && r.value < |mem| == |old(mem)|
                && who == old(who)[r.value := use] && mem == old(mem)[r.value := ZeroFrame()]
                && if old(recycled) == [] then r.value == old(current) && recycled == []
                   else recycled + [r.value] == old(recycled) && current == old(current)
    {
      if recycled != [] {
        var f := recycled[|recycled| - 1];
        recycled := recycled[..|recycled| - 1];
        r := Some(f);
      } else if current == end {
        return None;
      } else {
        current := current + 1;
        r := Some(current - 1);
      }
      mem := mem[r.value := ZeroFrame()];
      who := who[r.value := use];
    }

    /** Takes back a frame in use: the check against frames not allocated or already recycled passes. */
    method FrameDealloc(f: nat)
      requires Valid() && f in who
      modifies this
      ensures Valid() && who == old(who) - {f} && mem == old(mem)
      ensures recycled == old(recycled) + [f] && current == old(current)
    {
      assert !(f >= current || f in recycled);
      recycled := recycled + [f];
      who := who - {f};
    }
  }

  /** Only frames in use as tables of space `sid` were written or added. */
  ghost predicate OnlyTables(mem: Memory, who: Owners, mem': Memory, who': Owners, sid: nat)
  {
    && |mem'| == |mem|
    && (forall f | f in who :: f in who' && who'[f] == who[f])
    && (forall f | f in who && !(who[f].Table? && who[f].sid == sid) && f < |mem| :: mem'[f] == mem[f])
    && (forall f | f in who' && f !in who :: who'[f].Table? && who'[f].sid == sid)
  }

  lemma OnlyTablesTrans(m0: Memory, w0: Owners, m1: Memory, w1: Owners, m2: Memory, w2: Owners, sid: nat)
    requires OnlyTables(m0, w0, m1, w1, sid) && OnlyTables(m1, w1, m2, w2, sid)
    ensures OnlyTables(m0, w0, m2, w2, sid)
  {
  }

  /** The table translates exactly the pages in `pages`. */
  ghost predicate Refines(mem: Memory, root: nat, pages: map<nat, (nat, nat)>)
  {
    forall vpn: nat | vpn < VPN_LIMIT :: Leaf(mem, root, vpn) == if vpn in pages then Some(pages[vpn]) else None
  }

  class PageTable {
    var root: nat
    var frames: seq<nat>
    ghost const sid: nat
    ghost var pages: map<nat, (nat, nat)>

    constructor (ghost sid: nat, root: nat)
      ensures this.sid == sid && this.root == root && frames == [root] && pages == map[]
    {
      this.root, frames := root, [root];
      this.sid, pages := sid, map[];
    }

    ghost predicate FramesOk(who: Owners)
      reads this
    {
      && (forall i, j | 0 <= i < j < |frames| :: frames[i] != frames[j])
      && (forall f: nat :: f in frames <==> f in who && who[f].Table? && who[f].sid == sid)
    }

    ghost predicate Valid(fm: FrameMemory)
      reads this, fm
    {
      && fm.Valid() && TableOk(fm.mem, fm.who, sid, root) && Refines(fm.mem, root, pages) && FramesOk(fm.who)
      && forall vpn | vpn in pages :: vpn < VPN_LIMIT
    }

    /** One level of `find_pte_create`: follows entry `k` of table `f`, hanging in a new table if it is empty. */
    method Descend(f: nat, k: nat, fm: FrameMemory) returns (next: Option<nat>)
      requires Valid(fm) && Inner(fm.who, sid, f) && k < 512
      modifies this`frames, fm
      ensures next.None? ==> fm.Exhausted()
      ensures next.Some? ==>
                && Valid(fm) && OnlyTables(old(fm.mem), old(fm.who), fm.mem, fm.who, sid)
                && IsValid(Pte(fm.mem, f, k)) && Ppn(Pte(fm.mem, f, k)) == next.value
                && (forall g: nat, j: nat | g in old(fm.who) && IsValid(Pte(old(fm.mem), g, j)) ::
                      Pte(fm.mem, g, j) == Pte(old(fm.mem), g, j))
    {
      hide TableOk, Refines, OnlyTables, Pte, SetPte, Ppn, NewPte;
      var pte := Pte(fm.mem, f, k);
      if !IsValid(pte) {
        ghost var m0, w0 := fm.mem, fm.who;
        var frame := fm.FrameAlloc(Table(sid, Child(w0[f].path, k)));
        if frame == None {
          return None;
        }
        DescendStep(m0, w0, sid, root, pages, f, k, frame.value);
        fm.mem := SetPte(fm.mem, f, k, NewPte(frame.value, V));
        frames := frames + [frame.value];
        next := Some(Ppn(Pte(fm.mem, f, k)));
      } else {
        OnlyTablesRefl(fm.mem, fm.who, sid);
        next := Some(Ppn(pte));
      }
    }

    /** `find_pte_create`: where the last-level entry of `vpn` is, once the tables above it exist. */
    method FindPteCreate(vpn: nat, fm: FrameMemory) returns (r: Option<(nat, nat)>)
      requires Valid(fm)
      modifies this`frames, fm
      ensures r.None? ==> fm.Exhausted()
      ensures r.Some? ==>
                && Valid(fm) && OnlyTables(old(fm.mem), old(fm.who), fm.mem, fm.who, sid)
                && FindPte(fm.mem, root, vpn) == r
    {
      hide Refines, OnlyTables, Pte, Ppn, FramesOk, Idx0, Idx1, Idx2;
      var idxs := Indexes(vpn);
      ghost var m0, w0 := fm.mem, fm.who;
      RootIsInner(m0, w0, sid, root);
      var next := Descend(root, idxs[0], fm);
      if next == None {
        return None;
      }
      ghost var m1, w1 := fm.mem, fm.who;
      WalkPath(m1, w1, sid, root, vpn);
      RootIsInner(m1, w1, sid, root);
      var f1 := next.value;
      next := Descend(f1, idxs[1], fm);
      if next == None {
        return None;
      }
      OnlyTablesTrans(m0, w0, m1, w1, fm.mem, fm.who, sid);
      r := Some((next.value, idxs[2]));
    }

    /** Maps page `vpn`, which the code asserts to be unmapped, to frame `ppn`. */
    method Map(vpn: nat, ppn: nat, flags: byte, fm: FrameMemory) returns (ok: bool)
      requires Valid(fm) && vpn < VPN_LIMIT && vpn !in pages && ppn < PPN_LIMIT
      modifies this, fm
      ensures !ok ==> fm.Exhausted()
      ensures ok ==> Valid(fm) && OnlyTables(old(fm.mem), old(fm.who), fm.mem, fm.who, sid)
      ensures ok ==> root == old(root) && pages == old(pages)[vpn := (ppn, WithV(flags))]
    {
      hide Refines, OnlyTables, Pte, Ppn, TableOk, NewPte, SetPte, FindPte, WithV;
      var loc := FindPteCreate(vpn, fm);
      if loc == None {
        return false;
      }
      ghost var m1 := fm.mem;
      var (f, k) := loc.value;
      LeafWrite(m1, fm.who, sid, root, pages, vpn, NewPte(ppn, WithV(flags)), ppn, WithV(flags));
      assert !IsValid(Pte(fm.mem, f, k));
      fm.mem := SetPte(fm.mem, f, k, NewPte(ppn, WithV(flags)));
      OnlyTablesTrans(old(fm.mem), old(fm.who), m1, fm.who, fm.mem, fm.who, sid);
      pages := pages[vpn := (ppn, WithV(flags))];
      ok := true;
    }

    /** Unmaps page `vpn`, which the code asserts to be mapped. */
    method Unmap(vpn: nat, fm: FrameMemory)
      requires Valid(fm) && vpn in pages
      modifies this`pages, fm`mem
      ensures Valid(fm) && OnlyTables(old(fm.mem), old(fm.who), fm.mem, fm.who, sid)
      ensures pages == old(pages) - {vpn}
    {
      hide Refines, OnlyTables, Pte, Ppn, TableOk, SetPte, FindPte;
      PresentPage(fm.mem, root, pages, vpn);
      var (f, k) := FindPte(fm.mem, root, vpn).value;
      assert IsValid(Pte(fm.mem, f, k));
      LeafClear(fm.mem, fm.who, sid, root, pages, vpn);
      fm.mem := SetPte(fm.mem, f, k, 0);
      pages := pages - {vpn};
    }

    /** The last-level entry of `vpn`: valid exactly for mapped pages, but an invalid entry may be returned too. */
    method Translate(vpn: nat, fm: FrameMemory) returns (r: Option<nat>)
      requires Valid(fm) && vpn < VPN_LIMIT
      ensures r.Some? && IsValid(r.value) <==> vpn in pages
      ensures vpn in pages ==> (Ppn(r.value), Flags(r.value)) == pages[vpn]
    {
      var loc := FindPte(fm.mem, root, vpn);
      assert Leaf(fm.mem, root, vpn) == if vpn in pages then Some(pages[vpn]) else None;
      if loc == None {
        r := None;
      } else {
        r := Some(Pte(fm.mem, loc.value.0, loc.value.1));
      }
    }
  }

  lemma PresentPage(mem: Memory, root: nat, pages: map<nat, (nat, nat)>, vpn: nat)
    requires Refines(mem, root, pages) && vpn in pages && vpn < VPN_LIMIT
    ensures FindPte(mem, root, vpn).Some?
    ensures IsValid(Pte(mem, FindPte(mem, root, vpn).value.0, FindPte(mem, root, vpn).value.1))
  {
    assert Leaf(mem, root, vpn) == Some(pages[vpn]);
  }

  /** Writing a valid last-level entry adds one page to the translation. */
  lemma LeafWrite(mem: Memory, who: Owners, sid: nat, root: nat, pages: map<nat, (nat, nat)>,
                  vpn: nat, bits: nat, ppn: nat, flags: byte)
    requires TableOk(mem, who, sid, root) && Refines(mem, root, pages) && vpn < VPN_LIMIT && vpn !in pages
    requires FindPte(mem, root, vpn).Some? && ppn < PPN_LIMIT && flags % 2 == 1 && bits == NewPte(ppn, flags)
    ensures var (f, k) := FindPte(mem, root, vpn).value;
            && f < |mem| && k < 512 && !IsValid(Pte(mem, f, k))
            && var mem' := SetPte(mem, f, k, bits);
               && TableOk(mem', who, sid, root) && Refines(mem', root, pages[vpn := (ppn, flags)])
               && OnlyTables(mem, who, mem', who, sid)
  {
    PteRoundTrip(ppn, flags);
    WriteLeaf(mem, who, sid, root, vpn, bits);
    assert Leaf(mem, root, vpn) == None;
  }

  /** Zeroing a last-level entry takes one page out of the translation. */
  lemma LeafClear(mem: Memory, who: Owners, sid: nat, root: nat, pages: map<nat, (nat, nat)>, vpn: nat)
    requires TableOk(mem, who, sid, root) && Refines(mem, root, pages) && vpn < VPN_LIMIT
    requires FindPte(mem, root, vpn).Some?
    ensures var (f, k) := FindPte(mem, root, vpn).value;
            && f < |mem| && k < 512
            && var mem' := SetPte(mem, f, k, 0);
               && TableOk(mem', who, sid, root) && Refines(mem', root, pages - {vpn})
               && OnlyTables(mem, who, mem', who, sid)
  {
    hide Pow256, Pte, FindPte, Leaf, TableOk;
    Pow256At8();
    WriteLeaf(mem, who, sid, root, vpn, 0);
  }

  lemma RootIsInner(mem: Memory, who: Owners, sid: nat, root: nat)
    requires TableOk(mem, who, sid, root)
    ensures Inner(who, sid, root)
  {
  }

  lemma OnlyTablesRefl(mem: Memory, who: Owners, sid: nat)
    ensures OnlyTables(mem, who, mem, who, sid)
  {
  }

  /** A zeroed frame taken into use as a table and hung into an empty entry changes no translation. */
  lemma DescendStep(m0: Memory, w0: Owners, sid: nat, root: nat, pages: map<nat, (nat, nat)>, f: nat, k: nat, g: nat)
    requires TableOk(m0, w0, sid, root) && Refines(m0, root, pages)
    requires Inner(w0, sid, f) && k < 512 && !IsValid(Pte(m0, f, k)) && g !in w0 && g < |m0|
    ensures var m1 := m0[g := ZeroFrame()]; var w1 := w0[g := Table(sid, Child(w0[f].path, k))];
            && f < |m1|
            && var m2 := SetPte(m1, f, k, NewPte(g, V));
               && TableOk(m2, w1, sid, root) && Refines(m2, root, pages) && OnlyTables(m0, w0, m2, w1, sid)
               && IsValid(Pte(m2, f, k)) && Ppn(Pte(m2, f, k)) == g
               && (forall h: nat, j: nat | h in w0 && IsValid(Pte(m0, h, j)) :: Pte(m2, h, j) == Pte(m0, h, j))
  {
    var m1 := m0[g := ZeroFrame()];
    TableFrame(m0, w0, m1, w0, sid, root);
    assert Pte(m1, f, k) == Pte(m0, f, k);
    AddTable(m1, w0, sid, root, f, k, g);
    PteRoundTrip(g, V);
    var m2 := SetPte(m1, f, k, NewPte(g, V));
    forall h: nat, j: nat | h in w0 && IsValid(Pte(m0, h, j))
      ensures Pte(m2, h, j) == Pte(m0, h, j)
    {
      SetPteEntry(m1, f, k, NewPte(g, V), h, j);
      assert Pte(m1, h, j) == Pte(m0, h, j);
    }
  }
}
