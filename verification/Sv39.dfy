/** Sv39 page tables in physical memory: entries, the software walk, the hardware walk, and what writes do to them. */
module Sv39 {
  import opened Bytes
  import opened Wrappers

  const PAGE_SIZE: nat := 4096
  const PPN_LIMIT: nat := 0x1000_0000_0000
  const VPN_LIMIT: nat := 0x800_0000

  /** One physical frame. */
  type Frame = f: seq<byte> | |f| == PAGE_SIZE witness seq(PAGE_SIZE, _ => 0)

  /** Physical memory, frame by frame. */
  type Memory = seq<Frame>

  function ZeroFrame(): (f: Frame)
  {
    seq(PAGE_SIZE, _ => 0)
  }

  // ---------------------------------------------------------------- page table entries

  const V: nat := 1
  const R: nat := 2
  const W: nat := 4
  const X: nat := 8
  const U: nat := 16
  const A: nat := 64
  const D: nat := 128

  /** Bits 54 and up of an entry are reserved. */
  const PTE_LIMIT: nat := 0x40_0000_0000_0000

  /** `ppn << 10 | flags`. */
  function NewPte(ppn: nat, flags: byte): (bits: nat)
  {
    ppn * 1024 + flags
  }

  function Ppn(bits: nat): (ppn: nat)
    ensures ppn < PPN_LIMIT
  {
    bits / 1024 % PPN_LIMIT
  }

  function Flags(bits: nat): (flags: byte)
  {
    bits % 256
  }

  predicate IsValid(bits: nat)
  {
    Flags(bits) % 2 == 1
  }

  predicate Has(flags: byte, bit: nat)
    requires bit > 0
  {
    flags / bit % 2 == 1
  }

  /** `flags | PTEFlags::V`. */
  function WithV(flags: byte): (r: byte)
    ensures r % 2 == 1 && r / 2 == flags / 2
  {
    if flags % 2 == 1 then flags else flags + 1
  }

  /** An entry gives back the frame and the flags it was made of. */
  lemma PteRoundTrip(ppn: nat, flags: byte)
    requires ppn < PPN_LIMIT
    ensures Ppn(NewPte(ppn, flags)) == ppn && Flags(NewPte(ppn, flags)) == flags
    ensures NewPte(ppn, flags) < PTE_LIMIT < Pow256(8)
  {
    hide Pow256;
    Pow256At8();
    ShiftBack(ppn, flags);
    SmallMod(ppn, PPN_LIMIT);
  }

  lemma ShiftBack(ppn: nat, flags: byte)
    ensures (ppn * 1024 + flags) / 1024 == ppn && (ppn * 1024 + flags) % 256 == flags
  {
    assert ppn * 1024 + flags == 256 * (4 * ppn) + flags;
  }

  lemma SmallMod(x: nat, m: nat)
    requires x < m
    ensures x % m == x
  {
  }

  lemma Pow256At8()
    ensures Pow256(8) == 0x1_0000_0000_0000_0000
  {
    Pow256At4();
    assert Pow256(5) == 256 * Pow256(4);
    assert Pow256(6) == 256 * Pow256(5);
    assert Pow256(7) == 256 * Pow256(6);
  }

  /** Entry `k` of the table in frame `f`; 0 past the end of memory. */
  function Pte(mem: Memory, f: nat, k: nat): (bits: nat)
  {
    if f < |mem| && k < 512 then FromLE(mem[f][8 * k..8 * k + 8]) else 0
  }

  function SetPte(mem: Memory, f: nat, k: nat, bits: nat): (r: Memory)
    requires f < |mem| && k < 512
    ensures |r| == |mem| && forall g: nat | g < |mem| && g != f :: r[g] == mem[g]
  {
    mem[f := Splice(mem[f], 8 * k, ToLE(bits, 8))]
  }

  /** Writing one entry changes that entry and no other. */
  lemma SetPteEntry(mem: Memory, f: nat, k: nat, bits: nat, g: nat, j: nat)
    requires f < |mem| && k < 512 && bits < Pow256(8)
    ensures Pte(SetPte(mem, f, k, bits), g, j) == if g == f && j == k then bits else Pte(mem, g, j)
  {
    var r := SetPte(mem, f, k, bits);
    if g == f && j == k {
      FromToLE(bits, 8);
      assert r[f][8 * k..8 * k + 8] == ToLE(bits, 8);
    } else if g == f && j < 512 {
      assert r[f][8 * j..8 * j + 8] == mem[f][8 * j..8 * j + 8];
    }
  }

  lemma ZeroFramePte(mem: Memory, f: nat, k: nat)
    requires f < |mem| && mem[f] == ZeroFrame()
    ensures Pte(mem, f, k) == 0
  {
    if k < 512 {
      ZeroLE(mem[f][8 * k..8 * k + 8]);
    }
  }

  // ---------------------------------------------------------------- the software walk

  function Idx0(vpn: nat): (i: nat)
    ensures i < 512
  {
    vpn / 0x40000 % 512
  }

  function Idx1(vpn: nat): (i: nat)
    ensures i < 512
  {
    vpn / 512 % 512
  }

  function Idx2(vpn: nat): (i: nat)
    ensures i < 512
  {
    vpn % 512
  }

  /** `indexes`: nine bits at a time, from the low end up. */
  method Indexes(vpn: nat) returns (idx: seq<nat>)
    ensures idx == [vpn / 262144 % 512, vpn / 512 % 512, vpn % 512] == [Idx0(vpn), Idx1(vpn), Idx2(vpn)]
  {
    var rest := vpn;
    idx := [];
    for i := 0 to 3
      invariant i == 0 ==> rest == vpn && idx == []
      invariant i == 1 ==> rest == vpn / 512 && idx == [Idx2(vpn)]
      invariant i == 2 ==> rest == vpn / 0x40000 && idx == [Idx1(vpn), Idx2(vpn)]
      invariant i == 3 ==> idx == [Idx0(vpn), Idx1(vpn), Idx2(vpn)]
    {
      idx := [rest % 512] + idx;
      rest := rest / 512;
    }
  }

  /** 27-bit page numbers are told apart by their indexes. */
  lemma IndexesInjective(vpn: nat, vpn': nat)
    requires vpn < VPN_LIMIT && vpn' < VPN_LIMIT && vpn != vpn'
    ensures Idx0(vpn) != Idx0(vpn') || Idx1(vpn) != Idx1(vpn') || Idx2(vpn) != Idx2(vpn')
  {
    hide Idx0, Idx1, Idx2;
    Recompose(vpn);
    Recompose(vpn');
  }

  lemma Recompose(vpn: nat)
    requires vpn < VPN_LIMIT
    ensures vpn == 0x40000 * Idx0(vpn) + 512 * Idx1(vpn) + Idx2(vpn)
  {
    assert vpn / 0x40000 < 512;
    assert vpn / 512 / 512 == vpn / 0x40000;
  }

  /** Where the walk for `vpn` finds its last-level entry: `find_pte`. */
  function FindPte(mem: Memory, root: nat, vpn: nat): (loc: Option<(nat, nat)>)
  {
    var e0 := Pte(mem, root, Idx0(vpn));
    if !IsValid(e0) then None
    else
      var e1 := Pte(mem, Ppn(e0), Idx1(vpn));
      if !IsValid(e1) then None else Some((Ppn(e1), Idx2(vpn)))
  }

  /** The frame and flags `vpn` is mapped to, if its last-level entry is there and valid. */
  function Leaf(mem: Memory, root: nat, vpn: nat): (r: Option<(nat, nat)>)
  {
    match FindPte(mem, root, vpn)
    case None => None
    case Some((f, k)) =>
      var e := Pte(mem, f, k);
      if IsValid(e) then Some((Ppn(e), Flags(e))) else None
  }

  // ---------------------------------------------------------------- the hardware walk

  /** VPN[i]: nine bits of the page number. */
  function HwVpn(vpn: nat, i: nat): (k: nat)
    requires i < 3
    ensures k < 512
  {
    (if i == 2 then vpn / 262144 else if i == 1 then vpn / 512 else vpn) % 512
  }

  /** The eight bytes at `a * 4096 + k * 8`, little-endian; 0 past the end of memory. */
  function HwPte(mem: Memory, a: nat, k: nat): (pte: nat)
    requires k < 512
  {
    if a >= |mem| then 0
    else
      var f: seq<nat> := mem[a][8 * k..8 * k + 8];
      f[0] + 0x100 * f[1] + 0x1_0000 * f[2] + 0x100_0000 * f[3] + 0x1_0000_0000 * f[4] + 0x100_0000_0000 * f[5]
      + 0x1_0000_0000_0000 * f[6] + 0x100_0000_0000_0000 * f[7]
  }

  /** Bits 10 to 53. */
  function HwPpn(pte: nat): (ppn: nat)
  {
    pte / 1024 % 0x1000_0000_0000
  }

  /** The address translation of section 4.3.2 of the RISC-V Privileged Architecture (20211203), for Sv39, without
    * the permission checks of its steps 5 to 7: the frame and the flags of the leaf entry, or a page fault. Step 3
    * faults on invalid entries, on writable ones that are not readable, and on reserved bits: 54 and up, and in a
    * pointer to the next level also D, A and U. Of the flags, V is bit 0, R bit 1, W bit 2, X bit 3, U bit 4, A bit 6
    * and D bit 7. */
  function HwWalk(mem: Memory, a: nat, vpn: nat, i: nat): (r: Option<(nat, nat)>)
    requires i < 3
    decreases i
  {
    var pte := HwPte(mem, a, HwVpn(vpn, i));
    var v, r, w, x := pte % 2 == 1, pte / 2 % 2 == 1, pte / 4 % 2 == 1, pte / 8 % 2 == 1;
    if !v || (!r && w) || pte >= 0x40_0000_0000_0000 then None
    else if r || x then
      if i == 0 then Some((HwPpn(pte), pte % 256))
      else if i == 1 then
        if HwPpn(pte) % 512 != 0 then None else Some((HwPpn(pte) + HwVpn(vpn, 0), pte % 256))
      else
        if HwPpn(pte) % 262144 != 0 then None
        else Some((HwPpn(pte) + 512 * HwVpn(vpn, 1) + HwVpn(vpn, 0), pte % 256))
    else if i == 0 || pte / 128 % 2 == 1 || pte / 64 % 2 == 1 || pte / 16 % 2 == 1 then None
    else HwWalk(mem, HwPpn(pte), vpn, i - 1)
  }

  lemma HwPteIs(mem: Memory, a: nat, k: nat)
    requires k < 512
    ensures HwPte(mem, a, k) == Pte(mem, a, k)
  {
    if a < |mem| {
      var s := mem[a][8 * k..8 * k + 8];
      assert FromLE(s) == s[0] + 256 * FromLE(s[1..]);
      assert FromLE(s[1..]) == s[1] + 256 * FromLE(s[2..]) by { assert s[1..][1..] == s[2..]; }
      assert FromLE(s[2..]) == s[2] + 256 * FromLE(s[3..]) by { assert s[2..][1..] == s[3..]; }
      assert FromLE(s[3..]) == s[3] + 256 * FromLE(s[4..]) by { assert s[3..][1..] == s[4..]; }
      assert FromLE(s[4..]) == s[4] + 256 * FromLE(s[5..]) by { assert s[4..][1..] == s[5..]; }
      assert FromLE(s[5..]) == s[5] + 256 * FromLE(s[6..]) by { assert s[5..][1..] == s[6..]; }
      assert FromLE(s[6..]) == s[6] + 256 * FromLE(s[7..]) by { assert s[6..][1..] == s[7..]; }
      assert FromLE(s[7..]) == s[7] by { assert s[7..][1..] == []; }
    }
  }

  /** The flag bits of an entry. */
  lemma HwFlags(pte: nat)
    ensures pte % 2 == 1 <==> Has(Flags(pte), V)
    ensures pte / 2 % 2 == 1 <==> Has(Flags(pte), R)
    ensures pte / 4 % 2 == 1 <==> Has(Flags(pte), W)
    ensures pte / 8 % 2 == 1 <==> Has(Flags(pte), X)
    ensures pte / 16 % 2 == 1 <==> Has(Flags(pte), U)
    ensures pte / 64 % 2 == 1 <==> Has(Flags(pte), A)
    ensures pte / 128 % 2 == 1 <==> Has(Flags(pte), D)
  {
    LowBit(pte, 2, 64);
    LowBit(pte, 4, 32);
    LowBit(pte, 8, 16);
    LowBit(pte, 16, 8);
    LowBit(pte, 64, 2);
    LowBit(pte, 128, 1);
  }

  /** Dividing by a power of two below 256 keeps the parity when all but the low byte is dropped first. */
  lemma LowBit(pte: nat, b: nat, c: nat)
    requires b > 0 && 2 * c * b == 256
    ensures pte / b % 2 == pte % 256 / b % 2
  {
    var q, r := pte / 256, pte % 256;
    TakenApart(pte, q, r, r / b, r % b, b, c);
    Parity(c * q, r / b);
  }

  lemma TakenApart(pte: nat, q: nat, r: nat, t: nat, s: nat, b: nat, c: nat)
    requires pte == 256 * q + r && r == b * t + s && s < b && 2 * c * b == 256
    ensures pte / b == 2 * (c * q) + t
  {
    assert (2 * (c * q) + t) * b == 2 * c * b * q + t * b;
    QuotientIs(pte, b, 2 * (c * q) + t, s);
  }

  lemma Parity(x: nat, t: nat)
    ensures (2 * x + t) % 2 == t % 2
  {
  }

  /** A leaf the hardware accepts: readable or executable, and not writable without being readable. */
  predicate HwLeaf(flags: byte)
  {
    (Has(flags, R) || Has(flags, X)) && (Has(flags, W) ==> Has(flags, R))
  }

  // ---------------------------------------------------------------- who owns which frame

  datatype Path = Root | L1(i: nat) | L2(i: nat, j: nat)

  /** What a frame in use is for: a page table of a space, or the data of one of its pages. */
  datatype Use = Table(sid: nat, path: Path) | Data(sid: nat, vpn: nat)

  type Owners = map<nat, Use>

  function Child(p: Path, k: nat): (c: Path)
  {
    if p.Root? then L1(k) else if p.L1? then L2(p.i, k) else p
  }

  /** A frame holding an upper-level table of space `sid`. */
  ghost predicate Inner(who: Owners, sid: nat, f: nat)
  {
    f in who && who[f].Table? && who[f].sid == sid && !who[f].path.L2?
  }

  /** A valid upper-level entry is a plain pointer to the table of its path. */
  ghost predicate LinkOk(mem: Memory, who: Owners, f: nat, k: nat)
    requires f in who && who[f].Table?
  {
    var e := Pte(mem, f, k);
    IsValid(e) ==> Flags(e) == V && Ppn(e) in who && who[Ppn(e)] == Table(who[f].sid, Child(who[f].path, k))
  }

  ghost predicate TableOk(mem: Memory, who: Owners, sid: nat, root: nat)
  {
    && root in who && who[root] == Table(sid, Root)
    && (forall f | f in who :: f < |mem| <= PPN_LIMIT)
    && (forall f: nat, k: nat | Inner(who, sid, f) && k < 512 :: LinkOk(mem, who, f, k))
    && NothingReserved(mem, who, sid)
  }

  /** No entry of a table of the space has a reserved bit set. */
  ghost predicate NothingReserved(mem: Memory, who: Owners, sid: nat)
  {
    forall f, k: nat | f in who && who[f].Table? && who[f].sid == sid && k < 512 :: Pte(mem, f, k) < PTE_LIMIT
  }

  /** The nodes of a walk are tables at the walk's path. */
  lemma WalkPath(mem: Memory, who: Owners, sid: nat, root: nat, vpn: nat)
    requires TableOk(mem, who, sid, root)
    ensures var e0 := Pte(mem, root, Idx0(vpn));
            IsValid(e0) ==>
              && Flags(e0) == V && Ppn(e0) in who && who[Ppn(e0)] == Table(sid, L1(Idx0(vpn)))
              && var e1 := Pte(mem, Ppn(e0), Idx1(vpn));
                 IsValid(e1) ==>
                   Flags(e1) == V && Ppn(e1) in who && who[Ppn(e1)] == Table(sid, L2(Idx0(vpn), Idx1(vpn)))
  {
    var e0 := Pte(mem, root, Idx0(vpn));
    assert LinkOk(mem, who, root, Idx0(vpn));
    if IsValid(e0) {
      assert LinkOk(mem, who, Ppn(e0), Idx1(vpn));
    }
  }

  /** The hardware translates a page exactly as the software walk does when its leaf is one the hardware accepts, and
    * faults otherwise. */
  lemma HwAgrees(mem: Memory, who: Owners, sid: nat, root: nat, vpn: nat)
    requires TableOk(mem, who, sid, root)
    ensures HwWalk(mem, root, vpn, 2)
         == match Leaf(mem, root, vpn)
            case Some((ppn, flags)) => if HwLeaf(flags) then Some((ppn, flags)) else None
            case None => None
  {
    hide Pte;
    WalkPath(mem, who, sid, root, vpn);
    var e0 := Pte(mem, root, Idx0(vpn));
    assert e0 < PTE_LIMIT;
    HwStep(mem, root, vpn, 2);
    if IsValid(e0) {
      HwStep(mem, Ppn(e0), vpn, 1);
      var e1 := Pte(mem, Ppn(e0), Idx1(vpn));
      if IsValid(e1) {
        HwLast(mem, Ppn(e1), vpn);
      }
    }
  }

  lemma HwStep(mem: Memory, a: nat, vpn: nat, i: nat)
    requires 1 <= i < 3
    ensures var pte := Pte(mem, a, if i == 2 then Idx0(vpn) else Idx1(vpn));
            && (!IsValid(pte) ==> HwWalk(mem, a, vpn, i) == None)
            && (Flags(pte) == V && pte < PTE_LIMIT ==> HwWalk(mem, a, vpn, i) == HwWalk(mem, Ppn(pte), vpn, i - 1))
  {
    hide Pte, HwPte, Ppn, HwPpn;
    var k := if i == 2 then Idx0(vpn) else Idx1(vpn);
    var pte := Pte(mem, a, k);
    HwPteIs(mem, a, k);
    HwFlags(pte);
    HwPpnIs(pte);
    assert HwVpn(vpn, i) == k;
    if Flags(pte) == V { OnlyV(Flags(pte)); }
  }

  lemma HwPpnIs(pte: nat)
    ensures HwPpn(pte) == Ppn(pte)
  {
  }

  lemma OnlyV(flags: byte)
    requires flags == V
    ensures !Has(flags, R) && !Has(flags, W) && !Has(flags, X) && !Has(flags, U) && !Has(flags, A) && !Has(flags, D)
  {
  }

  lemma HwLast(mem: Memory, a: nat, vpn: nat)
    requires Pte(mem, a, Idx2(vpn)) < PTE_LIMIT
    ensures var pte := Pte(mem, a, Idx2(vpn));
            HwWalk(mem, a, vpn, 0) == if IsValid(pte) && HwLeaf(Flags(pte)) then Some((Ppn(pte), Flags(pte))) else None
  {
    hide Pte, HwPte, Ppn, HwPpn;
    var pte := Pte(mem, a, Idx2(vpn));
    HwPteIs(mem, a, Idx2(vpn));
    HwFlags(pte);
    HwPpnIs(pte);
    assert HwVpn(vpn, 0) == Idx2(vpn);
  }

  // ---------------------------------------------------------------- writes to a table

  /** Hanging a fresh, zeroed table into an empty upper-level entry changes no translation. */
  lemma AddTable(mem: Memory, who: Owners, sid: nat, root: nat, f: nat, k: nat, g: nat)
    requires TableOk(mem, who, sid, root) && Inner(who, sid, f) && k < 512 && !IsValid(Pte(mem, f, k))
    requires g !in who && g < |mem| && mem[g] == ZeroFrame()
    ensures var mem' := SetPte(mem, f, k, NewPte(g, V));
            && TableOk(mem', who[g := Table(sid, Child(who[f].path, k))], sid, root)
            && (forall vpn :: Leaf(mem', root, vpn) == Leaf(mem, root, vpn))
            && Pte(mem', f, k) == NewPte(g, V) && Ppn(NewPte(g, V)) == g && IsValid(NewPte(g, V))
  {
    PteRoundTrip(g, V);
    hide Pte, SetPte, NewPte, Ppn, Flags;
    var e := NewPte(g, V);
    var mem', who' := SetPte(mem, f, k, e), who[g := Table(sid, Child(who[f].path, k))];
    forall f': nat, k': nat | Inner(who', sid, f') && k' < 512
      ensures LinkOk(mem', who', f', k')
    {
      AddTableLink(mem, who, sid, root, f, k, g, e, f', k');
    }
    SetPteEntry(mem, f, k, e, f, k);
    AddTableEntries(mem, who, sid, f, k, g, e, Table(sid, Child(who[f].path, k)));
    forall vpn ensures Leaf(mem', root, vpn) == Leaf(mem, root, vpn) {
      AddTableLeaf(mem, who, sid, root, f, k, g, e, vpn);
    }
  }

  lemma AddTableEntries(mem: Memory, who: Owners, sid: nat, f: nat, k: nat, g: nat, e: nat, u: Use)
    requires NothingReserved(mem, who, sid) && f in who && f < |mem| && k < 512 && e < PTE_LIMIT < Pow256(8)
    requires g !in who && g < |mem| && mem[g] == ZeroFrame()
    ensures NothingReserved(SetPte(mem, f, k, e), who[g := u], sid)
  {
    hide SetPte, Pte;
    forall f', k': nat | (f' in who || f' == g) && k' < 512
      ensures Pte(SetPte(mem, f, k, e), f', k') == if f' == f && k' == k then e else Pte(mem, f', k')
      ensures f' == g ==> Pte(mem, f', k') == 0
    {
      SetPteEntry(mem, f, k, e, f', k');
      if f' == g { ZeroFramePte(mem, g, k'); }
    }
  }

  lemma AddTableLink(mem: Memory, who: Owners, sid: nat, root: nat, f: nat, k: nat, g: nat, e: nat, f': nat, k': nat)
    requires TableOk(mem, who, sid, root) && Inner(who, sid, f) && k < 512 && !IsValid(Pte(mem, f, k))
    requires g !in who && g < |mem| && mem[g] == ZeroFrame() && e < Pow256(8) && Ppn(e) == g && Flags(e) == V
    requires Inner(who[g := Table(sid, Child(who[f].path, k))], sid, f') && k' < 512
    ensures LinkOk(SetPte(mem, f, k, e), who[g := Table(sid, Child(who[f].path, k))], f', k')
  {
    hide Pte, SetPte, Ppn;
    SetPteEntry(mem, f, k, e, f', k');
    if f' == g {
      ZeroFramePte(mem, g, k');
    } else {
      assert LinkOk(mem, who, f', k');
    }
  }

  lemma AddTableLeaf(mem: Memory, who: Owners, sid: nat, root: nat, f: nat, k: nat, g: nat, e: nat, vpn: nat)
    requires TableOk(mem, who, sid, root) && Inner(who, sid, f) && k < 512 && !IsValid(Pte(mem, f, k))
    requires g !in who && g < |mem| && mem[g] == ZeroFrame() && e < Pow256(8) && Ppn(e) == g
    ensures Leaf(SetPte(mem, f, k, e), root, vpn) == Leaf(mem, root, vpn)
  {
    hide Pte, SetPte, Ppn, Idx0, Idx1, Idx2;
    WalkPath(mem, who, sid, root, vpn);
    var e0 := Pte(mem, root, Idx0(vpn));
    SetPteEntry(mem, f, k, e, root, Idx0(vpn));
    SetPteEntry(mem, f, k, e, g, Idx1(vpn));
    SetPteEntry(mem, f, k, e, g, Idx2(vpn));
    ZeroFramePte(mem, g, Idx1(vpn));
    ZeroFramePte(mem, g, Idx2(vpn));
    if IsValid(e0) {
      SetPteEntry(mem, f, k, e, Ppn(e0), Idx1(vpn));
      var e1 := Pte(mem, Ppn(e0), Idx1(vpn));
      if IsValid(e1) {
        SetPteEntry(mem, f, k, e, Ppn(e1), Idx2(vpn));
      }
    }
  }

  /** Writing a last-level entry changes the translation of its page and of no other. */
  lemma WriteLeaf(mem: Memory, who: Owners, sid: nat, root: nat, vpn: nat, bits: nat)
    requires TableOk(mem, who, sid, root) && vpn < VPN_LIMIT && bits < PTE_LIMIT
    requires FindPte(mem, root, vpn).Some?
    ensures var (f, k) := FindPte(mem, root, vpn).value;
            && f in who && who[f].Table? && who[f].sid == sid && f < |mem| && k < 512
            && var mem' := SetPte(mem, f, k, bits);
               && TableOk(mem', who, sid, root)
               && Leaf(mem', root, vpn) == (if IsValid(bits) then Some((Ppn(bits), Flags(bits))) else None)
               && (forall v: nat | v < VPN_LIMIT && v != vpn :: Leaf(mem', root, v) == Leaf(mem, root, v))
  {
    var (f, k) := FindPte(mem, root, vpn).value;
    Pow256At8();
    WalkPath(mem, who, sid, root, vpn);
    var mem' := SetPte(mem, f, k, bits);
    forall f': nat, k': nat
      ensures Pte(mem', f', k') == if f' == f && k' == k then bits else Pte(mem, f', k')
    {
      SetPteEntry(mem, f, k, bits, f', k');
    }
    hide Pte, SetPte, Ppn, Idx0, Idx1, Idx2;
    forall f': nat, k': nat | Inner(who, sid, f') && k' < 512
      ensures LinkOk(mem', who, f', k')
    {
      assert LinkOk(mem, who, f', k');
    }
    forall v: nat | v < VPN_LIMIT && v != vpn
      ensures Leaf(mem', root, v) == Leaf(mem, root, v)
    {
      WalkPath(mem, who, sid, root, v);
      IndexesInjective(v, vpn);
    }
  }

  /** A table is read from its own frames only. */
  lemma TableFrame(mem: Memory, who: Owners, mem': Memory, who': Owners, sid: nat, root: nat)
    requires TableOk(mem, who, sid, root) && |mem'| == |mem|
    requires forall f | f in who && who[f].Table? && who[f].sid == sid ::
             f in who' && who'[f] == who[f] && mem'[f] == mem[f]
    requires forall f | f in who' ::
             f < |mem| && (who'[f].Table? && who'[f].sid == sid ==> f in who && who[f] == who'[f])
    ensures TableOk(mem', who', sid, root)
    ensures forall vpn :: Leaf(mem', root, vpn) == Leaf(mem, root, vpn)
  {
    forall f: nat, k: nat | f in who && who[f].Table? && who[f].sid == sid
      ensures Pte(mem', f, k) == Pte(mem, f, k)
    {
    }
    hide Pte, Ppn;
    forall f: nat, k: nat | Inner(who', sid, f) && k < 512
      ensures LinkOk(mem', who', f, k)
    {
      assert LinkOk(mem, who, f, k);
    }
    forall vpn ensures Leaf(mem', root, vpn) == Leaf(mem, root, vpn) { WalkPath(mem, who, sid, root, vpn); }
  }
}
