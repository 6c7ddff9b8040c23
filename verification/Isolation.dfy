/** What fork promises to its callers: the child reads what the parent read, and from then on neither sees the other. */
module Isolation {
  import opened Bytes
  import opened Wrappers
  import opened Sv39
  import opened PageTable
  import opened Areas
  import opened Fork
  import opened Load

  /** Everything a valid space says about memory. */
  ghost predicate SpaceOk(mem: Memory, who: Owners, sid: nat, root: nat, pages: Pages, areas: seq<MapArea>)
  {
    TableOk(mem, who, sid, root) && Refines(mem, root, pages) && AreasOk(areas, pages, who, sid)
  }

  /** The byte at virtual address `va`, through the page table. */
  function ReadByte(mem: Memory, root: nat, va: nat): (r: Option<byte>)
  {
    match Leaf(mem, root, va / PAGE_SIZE)
    case Some((ppn, _)) => if ppn < |mem| then Some(mem[ppn][va % PAGE_SIZE]) else None
    case None => None
  }

  /** Memory after a byte was written at `va` through the page table. */
  function WriteByte(mem: Memory, root: nat, va: nat, b: byte): (mem': Memory)
  {
    match Leaf(mem, root, va / PAGE_SIZE)
    case Some((ppn, _)) => if ppn < |mem| then mem[ppn := mem[ppn][va % PAGE_SIZE := b]] else mem
    case None => mem
  }

  /** `va` lies in framed area `i`. */
  ghost predicate InFramed(areas: seq<MapArea>, i: nat, va: nat)
  {
    i < |areas| && areas[i].mapType == Framed && areas[i].Contains(va / PAGE_SIZE)
  }

  /** A page of a framed area is translated to its data frame. */
  lemma FramedLeaf(mem: Memory, who: Owners, sid: nat, root: nat, pages: Pages, areas: seq<MapArea>, i: nat, va: nat)
    requires SpaceOk(mem, who, sid, root, pages, areas) && InFramed(areas, i, va)
    ensures var vpn := va / PAGE_SIZE;
            && vpn in areas[i].dataFrames && areas[i].dataFrames[vpn] < |mem|
            && areas[i].dataFrames[vpn] in who && who[areas[i].dataFrames[vpn]] == Data(sid, vpn)
            && Leaf(mem, root, vpn) == Some((areas[i].dataFrames[vpn], WithV(areas[i].perm)))
  {
    assert AreaOk(areas[i], pages, who, sid);
    hide Leaf;
  }

  /** After fork every byte of every area reads the same in the child as it did in the parent. */
  lemma ForkReadsSame(m0: Memory, w0: Owners, m: Memory, w: Owners, psid: nat, proot: nat, pp: Pages, ps: seq<MapArea>,
                      csid: nat, croot: nat, cp: Pages, cs: seq<MapArea>, i: nat, va: nat)
    requires SpaceOk(m0, w0, psid, proot, pp, ps) && SpaceOk(m, w, csid, croot, cp, cs)
    requires |cs| == |ps| && Copies(m0, m, ps, cs) && InFramed(ps, i, va)
    ensures ReadByte(m, croot, va).Some? && ReadByte(m, croot, va) == ReadByte(m0, proot, va)
  {
    hide SpaceOk, Leaf;
    assert SameShape(ps[i], cs[i]);
    FramedLeaf(m0, w0, psid, proot, pp, ps, i, va);
    FramedLeaf(m, w, csid, croot, cp, cs, i, va);
    assert CopyOf(m0, m, ps[i], cs[i], ps[i].start, ps[i].end);
  }

  /** A loaded area reads as its data, byte by byte from its start, followed by zeros. */
  lemma LoadedReads(m: Memory, w: Owners, sid: nat, root: nat, pages: Pages, areas: seq<MapArea>, i: nat,
                    data: seq<byte>, p: nat)
    requires SpaceOk(m, w, sid, root, pages, areas) && i < |areas| && areas[i].mapType == Framed
    requires Loaded(m, areas[i], data, areas[i].end)
    requires areas[i].start <= areas[i].end && p < (areas[i].end - areas[i].start) * PAGE_SIZE
    ensures ReadByte(m, root, areas[i].start * PAGE_SIZE + p) == Some(if p < |data| then data[p] else 0)
  {
    hide SpaceOk, Leaf, PageData, Loaded;
    var va, k, o := areas[i].start * PAGE_SIZE + p, p / PAGE_SIZE, p % PAGE_SIZE;
    assert p == k * PAGE_SIZE + o && va == (areas[i].start + k) * PAGE_SIZE + o;
    assert va / PAGE_SIZE == areas[i].start + k && va % PAGE_SIZE == o;
    FramedLeaf(m, w, sid, root, pages, areas, i, va);
    LoadedPage(m, areas[i], data, areas[i].start + k);
    assert ReadByte(m, root, va) == Some(PageData(data, k)[o]);
  }

  lemma LoadedPage(m: Memory, a: MapArea, data: seq<byte>, v: nat)
    requires Loaded(m, a, data, a.end) && a.Contains(v)
    ensures v in a.dataFrames && a.dataFrames[v] < |m| && m[a.dataFrames[v]] == PageData(data, v - a.start)
  {
  }

  /** A data frame may be overwritten without any page table noticing. */
  lemma DataWrite(m: Memory, w: Owners, sid: nat, root: nat, pages: Pages, f: nat, data: Frame)
    requires TableOk(m, w, sid, root) && Refines(m, root, pages) && f in w && w[f].Data? && f < |m|
    ensures TableOk(m[f := data], w, sid, root) && Refines(m[f := data], root, pages)
    ensures forall vpn: nat :: Leaf(m[f := data], root, vpn) == Leaf(m, root, vpn)
  {
    TableFrame(m, w, m[f := data], w, sid, root);
  }

  /** A write through one space is seen there and leaves every translation and every byte of another space alone. */
  lemma WritesAreIsolated(m: Memory, w: Owners, sid: nat, root: nat, pages: Pages, areas: seq<MapArea>, i: nat, va: nat,
                          b: byte, osid: nat, oroot: nat, opages: Pages, oareas: seq<MapArea>)
    requires SpaceOk(m, w, sid, root, pages, areas) && InFramed(areas, i, va)
    requires SpaceOk(m, w, osid, oroot, opages, oareas) && osid != sid
    ensures var m' := WriteByte(m, root, va, b);
            && SpaceOk(m', w, sid, root, pages, areas) && SpaceOk(m', w, osid, oroot, opages, oareas)
            && ReadByte(m', root, va) == Some(b)
            && (forall vpn: nat :: Leaf(m', oroot, vpn) == Leaf(m, oroot, vpn))
            && (forall j: nat, o: nat | InFramed(oareas, j, o) :: ReadByte(m', oroot, o) == ReadByte(m, oroot, o))
  {
    hide Leaf, AreasOk, TableOk, Refines;
    var m' := WriteByte(m, root, va, b);
    FramedLeaf(m, w, sid, root, pages, areas, i, va);
    var f := areas[i].dataFrames[va / PAGE_SIZE];
    DataWrite(m, w, sid, root, pages, f, m'[f]);
    DataWrite(m, w, osid, oroot, opages, f, m'[f]);
    forall j: nat, o: nat | InFramed(oareas, j, o)
      ensures ReadByte(m', oroot, o) == ReadByte(m, oroot, o)
    {
      FramedLeaf(m, w, osid, oroot, opages, oareas, j, o);
    }
  }

  /** Overwriting the frame of one page changes what that page reads as, and no other page of the space. */
  lemma FrameReads(m: Memory, w: Owners, sid: nat, root: nat, pages: Pages, areas: seq<MapArea>,
                   i: nat, va: nat, data: Frame, j: nat, o: nat)
    requires SpaceOk(m, w, sid, root, pages, areas) && InFramed(areas, i, va) && InFramed(areas, j, o)
    ensures va / PAGE_SIZE in areas[i].dataFrames && areas[i].dataFrames[va / PAGE_SIZE] < |m|
    ensures var m' := m[areas[i].dataFrames[va / PAGE_SIZE] := data];
            && SpaceOk(m', w, sid, root, pages, areas)
            && ReadByte(m', root, o)
               == if o / PAGE_SIZE == va / PAGE_SIZE then Some(data[o % PAGE_SIZE]) else ReadByte(m, root, o)
  {
    hide Leaf, AreasOk, TableOk, Refines;
    FramedLeaf(m, w, sid, root, pages, areas, i, va);
    FramedLeaf(m, w, sid, root, pages, areas, j, o);
    DataWrite(m, w, sid, root, pages, areas[i].dataFrames[va / PAGE_SIZE], data);
  }

  /** Within one space a write changes that byte only. */
  lemma WriteChangesOneByte(m: Memory, w: Owners, sid: nat, root: nat, pages: Pages, areas: seq<MapArea>,
                            i: nat, va: nat, b: byte, j: nat, o: nat)
    requires SpaceOk(m, w, sid, root, pages, areas) && InFramed(areas, i, va) && InFramed(areas, j, o) && o != va
    ensures ReadByte(WriteByte(m, root, va, b), root, o) == ReadByte(m, root, o)
  {
    hide Leaf, SpaceOk;
    FramedLeaf(m, w, sid, root, pages, areas, i, va);
    FramedLeaf(m, w, sid, root, pages, areas, j, o);
    var f := areas[i].dataFrames[va / PAGE_SIZE];
    FrameReads(m, w, sid, root, pages, areas, i, va, m[f][va % PAGE_SIZE := b], j, o);
    assert va == va / PAGE_SIZE * PAGE_SIZE + va % PAGE_SIZE && o == o / PAGE_SIZE * PAGE_SIZE + o % PAGE_SIZE;
  }
}
