/** Address spaces: a page table and its areas, and the copy that fork makes. */
module MemorySet {
  import opened Wrappers
  import opened Sv39
  import opened PageTable
  import opened Areas

  /** Frames were only added, all of them to space `sid`, new data frames zeroed; of the old frames only tables of
    * that space were written. */
  ghost predicate Grew(mem: Memory, who: Owners, mem': Memory, who': Owners, sid: nat)
  {
    && |mem'| == |mem|
    && (forall f | f in who :: f in who' && who'[f] == who[f])
    && (forall f | f in who && !(who[f].Table? && who[f].sid == sid) && f < |mem| :: mem'[f] == mem[f])
    && (forall f | f in who' && f !in who :: who'[f].sid == sid)
    && (forall f | f in who' && f !in who && who'[f].Data? && f < |mem| :: mem'[f] == ZeroFrame())
  }

  lemma GrewRefl(mem: Memory, who: Owners, sid: nat)
    ensures Grew(mem, who, mem, who, sid)
  {
  }

  lemma GrewTrans(m0: Memory, w0: Owners, m1: Memory, w1: Owners, m2: Memory, w2: Owners, sid: nat)
    requires Grew(m0, w0, m1, w1, sid) && Grew(m1, w1, m2, w2, sid)
    ensures Grew(m0, w0, m2, w2, sid)
  {
  }

  lemma TablesGrew(m0: Memory, w0: Owners, m1: Memory, w1: Owners, sid: nat)
    requires OnlyTables(m0, w0, m1, w1, sid)
    ensures Grew(m0, w0, m1, w1, sid) && SameData(w0, w1, sid)
  {
  }

  /** Frames were only given back, all of them data of space `sid`; of the rest only its tables were written. */
  ghost predicate Shrank(mem: Memory, who: Owners, mem': Memory, who': Owners, sid: nat)
  {
    && |mem'| == |mem|
    && (forall f | f in who' :: f in who && who[f] == who'[f])
    && (forall f | f in who' && !(who'[f].Table? && who'[f].sid == sid) && f < |mem| :: mem'[f] == mem[f])
    && (forall f | f in who && f !in who' :: who[f].Data? && who[f].sid == sid)
  }

  lemma ShrankTrans(m0: Memory, w0: Owners, m1: Memory, w1: Owners, m2: Memory, w2: Owners, sid: nat)
    requires Shrank(m0, w0, m1, w1, sid) && Shrank(m1, w1, m2, w2, sid)
    ensures Shrank(m0, w0, m2, w2, sid)
  {
  }

  class MemorySet {
    const pt: PageTable
    var areas: seq<MapArea>

    constructor (pt: PageTable)
      ensures this.pt == pt && areas == []
    {
      this.pt, areas := pt, [];
    }

    ghost predicate Valid(fm: FrameMemory)
      reads this, pt, fm
    {
      pt.Valid(fm) && AreasOk(areas, pt.pages, fm.who, pt.sid)
    }

    /** `map_one`: maps the next page of area `a`, which is not yet in the space. */
    method MapOne(a: MapArea, fm: FrameMemory) returns (r: Option<MapArea>)
      requires pt.Valid(fm) && AreasOk(areas + [a], pt.pages, fm.who, pt.sid)
      requires a.end < VPN_LIMIT && a.end !in pt.pages
      modifies pt, fm
      ensures r.None? ==> fm.Exhausted()
      ensures r.Some? ==>
                && pt.Valid(fm) && AreasOk(areas + [r.value], pt.pages, fm.who, pt.sid)
                && r.value == a.(end := a.end + 1, dataFrames := r.value.dataFrames)
                && pt.root == old(pt.root) && pt.pages.Keys == old(pt.pages).Keys + {a.end}
                && (forall vpn | vpn in old(pt.pages) :: pt.pages[vpn] == old(pt.pages)[vpn])
                && Grew(old(fm.mem), old(fm.who), fm.mem, fm.who, pt.sid)
    {
      hide AreasOk, Refines, TableOk, OnlyTables, Grew, SameData, WithV, FrameMemory.Valid;
      ghost var m0, w0, p0 := fm.mem, fm.who, pt.pages;
      var ppn := a.end;
      var a' := a.(end := a.end + 1);
      if a.mapType == Framed {
        var frame := fm.FrameAlloc(Data(pt.sid, a.end));
        if frame == None {
          return None;
        }
        ppn := frame.value;
        a' := a'.(dataFrames := a.dataFrames[a.end := ppn]);
        NewDataFrame(m0, w0, pt.sid, pt.root, p0, ppn, a.end);
      } else {
        GrewRefl(m0, w0, pt.sid);
      }
      ghost var m1, w1 := fm.mem, fm.who;
      var ok := pt.Map(a.end, ppn, a.perm, fm);
      if !ok {
        return None;
      }
      TablesGrew(m1, w1, fm.mem, fm.who, pt.sid);
      GrewTrans(m0, w0, m1, w1, fm.mem, fm.who, pt.sid);
      MapOneAreas(areas, a, p0, w0, w1, fm.who, pt.sid, ppn);
      r := Some(a');
    }

    /** `push` without data: maps every page of a new area, none of which may be mapped already. */
    method Push(area: MapArea, fm: FrameMemory) returns (ok: bool)
      requires Valid(fm) && area.start <= area.end <= VPN_LIMIT && area.dataFrames == map[]
      requires forall vpn: nat | area.Contains(vpn) :: vpn !in pt.pages
      modifies this, pt, fm
      ensures !ok ==> fm.Exhausted()
      ensures ok ==>
                && Valid(fm) && pt.root == old(pt.root) && |areas| == |old(areas)| + 1
                && areas[..|old(areas)|] == old(areas)
                && areas[|old(areas)|] == area.(dataFrames := areas[|old(areas)|].dataFrames)
                && (forall vpn :: vpn in pt.pages <==> vpn in old(pt.pages) || area.Contains(vpn))
                && (forall vpn | vpn in old(pt.pages) :: pt.pages[vpn] == old(pt.pages)[vpn])
                && Grew(old(fm.mem), old(fm.who), fm.mem, fm.who, pt.sid)
    {
      hide AreasOk, Refines, TableOk, Grew;
      var a := area.(end := area.start);
      AddEmpty(areas, a, pt.pages, fm.who, pt.sid);
      GrewRefl(fm.mem, fm.who, pt.sid);
      for vpn := area.start to area.end
        invariant areas == old(areas) && pt.root == old(pt.root)
        invariant pt.Valid(fm) && AreasOk(areas + [a], pt.pages, fm.who, pt.sid)
        invariant a == area.(end := vpn, dataFrames := a.dataFrames)
        invariant forall p :: p in pt.pages <==> p in old(pt.pages) || area.start <= p < vpn
        invariant forall p | p in old(pt.pages) :: pt.pages[p] == old(pt.pages)[p]
        invariant Grew(old(fm.mem), old(fm.who), fm.mem, fm.who, pt.sid)
      {
        ghost var m1, w1 := fm.mem, fm.who;
        assert area.Contains(vpn);
        var r := MapOne(a, fm);
        if r == None {
          return false;
        }
        a := r.value;
        GrewTrans(old(fm.mem), old(fm.who), m1, w1, fm.mem, fm.who, pt.sid);
      }
      areas := areas + [a];
      ok := true;
    }

    /** `unmap_one` for the first page of area `k` of `cur`, the areas with what is already unmapped taken off. */
    method UnmapOne(ghost cur: seq<MapArea>, ghost k: nat, a: MapArea, fm: FrameMemory) returns (a': MapArea)
      requires pt.Valid(fm) && AreasOk(cur, pt.pages, fm.who, pt.sid)
      requires k < |cur| && cur[k] == a && a.start < a.end
      modifies pt, fm
      ensures a' == Shorter(a) && pt.Valid(fm) && AreasOk(cur[k := a'], pt.pages, fm.who, pt.sid)
      ensures pt.root == old(pt.root) && pt.pages == old(pt.pages) - {a.start}
      ensures Shrank(old(fm.mem), old(fm.who), fm.mem, fm.who, pt.sid)
    {
      hide AreasOk, Refines, TableOk, OnlyTables, Shrank, SameData;
      ghost var m0, w0, p0 := fm.mem, fm.who, pt.pages;
      FirstPage(cur, k, p0, w0, pt.sid);
      if a.mapType == Framed {
        fm.FrameDealloc(a.dataFrames[a.start]);
      }
      FreeDataFrame(m0, w0, pt.sid, pt.root, a);
      ghost var w1 := fm.who;
      pt.Unmap(a.start, fm);
      UnmapShrank(m0, w0, w1, fm.mem, fm.who, pt.sid, a);
      ShrinkFirst(cur, k, p0, w0, pt.sid);
      AreasFrame(cur[k := Shorter(a)], pt.pages, w1, fm.who, pt.sid);
      a' := a.(start := a.start + 1, dataFrames := a.dataFrames - {a.start});
    }

    /** Removes the first area that starts at `start`, if there is one, with its pages and its frames. */
    method RemoveAreaWithStartVpn(start: nat, fm: FrameMemory)
      requires Valid(fm)
      modifies this, pt, fm
      ensures Valid(fm) && pt.root == old(pt.root)
      ensures Shrank(old(fm.mem), old(fm.who), fm.mem, fm.who, pt.sid)
      ensures (forall i | 0 <= i < |old(areas)| :: old(areas)[i].start != start) ==>
                areas == old(areas) && pt.pages == old(pt.pages)
      ensures forall k: nat | k < |old(areas)| && old(areas)[k].start == start
                              && (forall i | 0 <= i < k :: old(areas)[i].start != start) ::
                && areas == old(areas)[..k] + old(areas)[k + 1..]
                && forall vpn :: vpn in pt.pages <==> vpn in old(pt.pages) && !old(areas)[k].Contains(vpn)
      ensures forall i | 0 <= i < |areas| :: areas[i] in old(areas)
      ensures forall vpn | vpn in old(pt.pages) && !Covered(old(areas), vpn) :: vpn in pt.pages
      ensures forall vpn | vpn in pt.pages :: vpn in old(pt.pages) && pt.pages[vpn] == old(pt.pages)[vpn]
    {
      hide AreasOk, Refines, TableOk, Shrank;
      ShrankRefl(fm.mem, fm.who, pt.sid);
      var k := 0;
      while k < |areas| && areas[k].start != start
        invariant k <= |areas| && forall i | 0 <= i < k :: areas[i].start != start
      {
        k := k + 1;
      }
      if k < |areas| {
        UnmapArea(k, fm);
        areas := areas[..k] + areas[k + 1..];
      }
    }

    /** `unmap`: every page of area `k`, first to last. */
    method UnmapArea(k: nat, fm: FrameMemory)
      requires Valid(fm) && k < |areas|
      modifies pt, fm
      ensures pt.Valid(fm) && AreasOk(areas[..k] + areas[k + 1..], pt.pages, fm.who, pt.sid)
      ensures pt.root == old(pt.root) && Shrank(old(fm.mem), old(fm.who), fm.mem, fm.who, pt.sid)
      ensures forall vpn :: vpn in pt.pages <==> vpn in old(pt.pages) && !areas[k].Contains(vpn)
      ensures forall vpn | vpn in pt.pages :: pt.pages[vpn] == old(pt.pages)[vpn]
    {
      hide AreasOk, Refines, TableOk, Shrank;
      var a := areas[k];
      AreaRange(areas, k, pt.pages, fm.who, pt.sid);
      ShrankRefl(fm.mem, fm.who, pt.sid);
      assert areas[k := a] == areas;
      for vpn := areas[k].start to areas[k].end
        invariant a.start == vpn && a.end == areas[k].end
        invariant pt.Valid(fm) && pt.root == old(pt.root)
        invariant AreasOk(areas[k := a], pt.pages, fm.who, pt.sid)
        invariant forall p :: p in pt.pages <==> p in old(pt.pages) && !(areas[k].start <= p < vpn)
        invariant forall p | p in pt.pages :: pt.pages[p] == old(pt.pages)[p]
        invariant Shrank(old(fm.mem), old(fm.who), fm.mem, fm.who, pt.sid)
      {
        ghost var m1, w1, before := fm.mem, fm.who, areas[k := a];
        a := UnmapOne(before, k, a, fm);
        assert before[k := a] == areas[k := a];
        ShrankTrans(old(fm.mem), old(fm.who), m1, w1, fm.mem, fm.who, pt.sid);
      }
      DropEmpty(areas[k := a], k, pt.pages, fm.who, pt.sid);
      assert areas[k := a][..k] == areas[..k] && areas[k := a][k + 1..] == areas[k + 1..];
    }
  }

  lemma ShrankRefl(mem: Memory, who: Owners, sid: nat)
    ensures Shrank(mem, who, mem, who, sid)
  {
  }

  lemma AreaRange(areas: seq<MapArea>, k: nat, pages: Pages, who: Owners, sid: nat)
    requires AreasOk(areas, pages, who, sid) && k < |areas|
    ensures areas[k].start <= areas[k].end <= VPN_LIMIT
  {
    assert AreaOk(areas[k], pages, who, sid);
  }

  lemma FirstPage(areas: seq<MapArea>, k: nat, pages: Pages, who: Owners, sid: nat)
    requires AreasOk(areas, pages, who, sid) && k < |areas| && areas[k].start < areas[k].end
    ensures var a := areas[k];
            && a.start in pages && (a.start in a.dataFrames <==> a.mapType == Framed)
            && (a.mapType == Framed ==>
               a.dataFrames[a.start] in who && who[a.dataFrames[a.start]] == Data(sid, a.start))
  {
    assert AreaOk(areas[k], pages, who, sid) && areas[k].Contains(areas[k].start);
  }

  /** Giving back a data frame leaves the page table readable. */
  lemma FreeDataFrame(mem: Memory, who: Owners, sid: nat, root: nat, a: MapArea)
    requires TableOk(mem, who, sid, root)
    requires a.start in a.dataFrames ==> a.dataFrames[a.start] in who && who[a.dataFrames[a.start]].Data?
    ensures TableOk(mem, WithoutFrame(a, who), sid, root)
  {
    TableFrame(mem, who, mem, WithoutFrame(a, who), sid, root);
  }

  lemma UnmapShrank(m0: Memory, w0: Owners, w1: Owners, m2: Memory, w2: Owners, sid: nat, a: MapArea)
    requires w1 == WithoutFrame(a, w0) && OnlyTables(m0, w1, m2, w2, sid) && w2 == w1
    requires a.start in a.dataFrames ==> a.dataFrames[a.start] in w0 && w0[a.dataFrames[a.start]] == Data(sid, a.start)
    ensures Shrank(m0, w0, m2, w2, sid) && SameData(w1, w2, sid)
  {
  }

  /** A zeroed frame taken into use for data leaves the page table alone. */
  lemma NewDataFrame(m0: Memory, w0: Owners, sid: nat, root: nat, pages: Pages, f: nat, vpn: nat)
    requires TableOk(m0, w0, sid, root) && Refines(m0, root, pages) && f !in w0 && f < |m0|
    ensures var m1, w1 := m0[f := ZeroFrame()], w0[f := Data(sid, vpn)];
            TableOk(m1, w1, sid, root) && Refines(m1, root, pages) && Grew(m0, w0, m1, w1, sid)
  {
    TableFrame(m0, w0, m0[f := ZeroFrame()], w0[f := Data(sid, vpn)], sid, root);
  }

  lemma MapOneAreas(areas: seq<MapArea>, a: MapArea, pages: Pages, w0: Owners, w1: Owners, w2: Owners, sid: nat,
                    ppn: nat)
    requires AreasOk(areas + [a], pages, w0, sid) && a.end < VPN_LIMIT && a.end !in pages
    requires a.mapType == Framed ==> ppn !in w0 && w1 == w0[ppn := Data(sid, a.end)]
    requires a.mapType == Identical ==> ppn == a.end && w1 == w0
    requires SameData(w1, w2, sid)
    ensures var a' := a.(end := a.end + 1,
                         dataFrames := if a.mapType == Framed then a.dataFrames[a.end := ppn] else a.dataFrames);
            AreasOk(areas + [a'], pages[a.end := (ppn, WithV(a.perm))], w2, sid)
  {
    hide AreasOk, SameData, WithV;
    var f := if a.mapType == Framed then ppn else FreshFrame(w0);
    ExtendLast(areas, a, pages, w0, sid, f);
    AreasFrame(areas + [Longer(a, f)], pages[a.end := (ppn, WithV(a.perm))], w1, w2, sid);
  }

  ghost function FreshFrame(who: Owners): (f: nat)
    ensures f !in who
  {
    FreshExists(who.Keys);
    var f: nat :| f !in who;
    f
  }

  lemma {:induction false} FreshExists(s: set<nat>)
    ensures exists f: nat :: f !in s && forall x | x in s :: x < f
  {
    if s == {} {
      assert 0 !in s;
    } else {
      var x :| x in s;
      FreshExists(s - {x});
      var f: nat :| f !in s - {x} && forall y | y in s - {x} :: y < f;
      var g := if f > x then f else x + 1;
      assert forall y | y in s :: y == x || y in s - {x};
      assert g !in s && forall y | y in s :: y < g;
    }
  }
}
