/** All address spaces together: every frame handed out and not recycled is held by exactly one tracker. */
module Spaces {
  import opened Sv39
  import opened PageTable
  import opened Areas
  import opened MemorySet
  import opened Fork

  /** Nothing that belongs to a space other than `sid` changed. */
  ghost predicate Aside(m: Memory, w: Owners, m': Memory, w': Owners, sid: nat)
  {
    && |m'| == |m|
    && (forall f | f in w && w[f].sid != sid && f < |m| :: f in w' && w'[f] == w[f] && m'[f] == m[f])
    && (forall f | f in w' && w'[f].sid != sid :: f in w && w[f] == w'[f])
  }

  lemma GrewAside(m: Memory, w: Owners, m': Memory, w': Owners, sid: nat)
    requires Grew(m, w, m', w', sid)
    ensures Aside(m, w, m', w', sid)
  {
  }

  lemma ShrankAside(m: Memory, w: Owners, m': Memory, w': Owners, sid: nat)
    requires Shrank(m, w, m', w', sid)
    ensures Aside(m, w, m', w', sid)
  {
  }

  lemma AddedAside(m: Memory, w: Owners, m': Memory, w': Owners, sid: nat)
    requires Added(m, w, m', w', sid) && forall f | f in w :: f < |m|
    ensures Aside(m, w, m', w', sid)
  {
  }

  /** What happens aside does not disturb a space. */
  lemma AsideKeeps(m: Memory, w: Owners, m': Memory, w': Owners, sid: nat, other: nat, root: nat, pages: Pages)
    requires Aside(m, w, m', w', sid) && other != sid && (forall f | f in w' :: f < |m'|)
    requires TableOk(m, w, other, root) && Refines(m, root, pages)
    ensures TableOk(m', w', other, root) && Refines(m', root, pages) && SameData(w, w', other)
    ensures forall f: nat :: (f in w && w[f].Table? && w[f].sid == other) <==>
            (f in w' && w'[f].Table? && w'[f].sid == other)
  {
    TableFrame(m, w, m', w', other, root);
  }

  // ---------------------------------------------------------------- giving frames back

  /** The frames of area `a` are exactly the data frames of its pages. */
  ghost predicate Holder(a: MapArea, who: Owners, sid: nat)
  {
    && (forall v | v in a.dataFrames :: a.Contains(v) && a.dataFrames[v] in who && who[a.dataFrames[v]] == Data(sid, v))
    && (forall f | f in who && who[f].Data? && who[f].sid == sid && a.Contains(who[f].vpn) ::
          who[f].vpn in a.dataFrames && a.dataFrames[who[f].vpn] == f)
  }

  /** `w'` is `w` without the data frames of space `sid` for the pages `lo <= vpn < hi`. */
  ghost predicate WithoutRange(w: Owners, w': Owners, sid: nat, lo: nat, hi: nat)
  {
    forall f: nat ::
      && (f in w' <==> f in w && !(w[f].Data? && w[f].sid == sid && lo <= w[f].vpn < hi))
      && (f in w' ==> w'[f] == w[f])
  }

  /** `w'` is `w` without the data frames of space `sid` for the pages of `areas`. */
  ghost predicate WithoutAreas(w: Owners, w': Owners, sid: nat, areas: seq<MapArea>)
  {
    forall f: nat ::
      && (f in w' <==> f in w && !(w[f].Data? && w[f].sid == sid && Covered(areas, w[f].vpn)))
      && (f in w' ==> w'[f] == w[f])
  }

  /** Drops the trackers of one area. */
  method FreeArea(a: MapArea, fm: FrameMemory, ghost sid: nat)
    requires fm.Valid() && Holder(a, fm.who, sid) && a.start <= a.end
    requires forall v: nat | a.Contains(v) :: a.mapType == Framed <==> v in a.dataFrames
    modifies fm
    ensures fm.Valid() && fm.mem == old(fm.mem) && WithoutRange(old(fm.who), fm.who, sid, a.start, a.end)
  {
    ghost var w0 := fm.who;
    if a.mapType == Framed {
      for vpn := a.start to a.end
        invariant fm.Valid() && fm.mem == old(fm.mem)
        invariant WithoutRange(w0, fm.who, sid, a.start, vpn)
      {
        assert a.Contains(vpn);
        fm.FrameDealloc(a.dataFrames[vpn]);
      }
    }
  }

  lemma AreaHolds(areas: seq<MapArea>, pages: Pages, who: Owners, sid: nat, k: nat)
    requires AreasOk(areas, pages, who, sid) && k < |areas|
    ensures Holder(areas[k], who, sid) && areas[k].start <= areas[k].end
    ensures forall v: nat | areas[k].Contains(v) :: areas[k].mapType == Framed <==> v in areas[k].dataFrames
  {
    var a := areas[k];
    assert AreaOk(a, pages, who, sid);
    forall f | f in who && who[f].Data? && who[f].sid == sid && a.Contains(who[f].vpn)
      ensures who[f].vpn in a.dataFrames && a.dataFrames[who[f].vpn] == f
    {
      var vpn := who[f].vpn;
      assert Backed(areas, vpn, f);
      var i: nat :| i < |areas| && vpn in areas[i].dataFrames && areas[i].dataFrames[vpn] == f;
      assert AreaOk(areas[i], pages, who, sid) && areas[i].Contains(vpn);
      forall j: nat | j < |areas| && j != k
        ensures !areas[j].Contains(vpn)
      {
      }
    }
  }

  ghost predicate NoData(who: Owners, sid: nat)
  {
    forall f | f in who :: !(who[f].Data? && who[f].sid == sid)
  }

  /** `recycle_data_pages`: all areas go, with their frames; the page table stays as it is. */
  method RecycleDataPages(ms: MemorySet, fm: FrameMemory)
    requires ms.Valid(fm)
    modifies ms, fm
    ensures ms.pt.Valid(fm) && ms.areas == [] && NoData(fm.who, ms.pt.sid) && fm.mem == old(fm.mem)
    ensures Shrank(old(fm.mem), old(fm.who), fm.mem, fm.who, ms.pt.sid)
    ensures forall f :: f in fm.who <==> f in old(fm.who) && !(old(fm.who)[f].Data? && old(fm.who)[f].sid == ms.pt.sid)
  {
    ghost var w0, sid := fm.who, ms.pt.sid;
    hide AreasOk, TableOk, Refines, Shrank;
    var areas := ms.areas;
    for k := 0 to |areas|
      invariant fm.Valid() && fm.mem == old(fm.mem) && ms.areas == areas
      invariant WithoutAreas(w0, fm.who, sid, areas[..k])
    {
      AreaHolds(areas, ms.pt.pages, w0, sid, k);
      StillHolds(areas, ms.pt.pages, w0, fm.who, sid, k);
      ghost var w1 := fm.who;
      FreeArea(areas[k], fm, sid);
      WithoutMore(w0, w1, fm.who, sid, areas, k);
    }
    assert areas[..|areas|] == areas;
    ms.areas := [];
    RecycleDone(fm.mem, w0, fm.who, sid, ms.pt.root, ms.pt.pages, areas);
  }

  lemma StillHolds(areas: seq<MapArea>, pages: Pages, w0: Owners, w: Owners, sid: nat, k: nat)
    requires AreasOk(areas, pages, w0, sid) && k < |areas| && WithoutAreas(w0, w, sid, areas[..k])
    requires Holder(areas[k], w0, sid)
    ensures Holder(areas[k], w, sid)
  {
    var a := areas[k];
    hide AllBacked, AllCovered, AreaOk;
    forall v: nat | a.Contains(v)
      ensures !Covered(areas[..k], v)
    {
      forall i: nat | i < k
        ensures !areas[..k][i].Contains(v)
      {
        assert areas[..k][i] == areas[i] && !areas[i].Contains(v);
      }
    }
  }

  lemma WithoutMore(w0: Owners, w1: Owners, w2: Owners, sid: nat, areas: seq<MapArea>, k: nat)
    requires k < |areas| && WithoutAreas(w0, w1, sid, areas[..k])
             && WithoutRange(w1, w2, sid, areas[k].start, areas[k].end)
    ensures WithoutAreas(w0, w2, sid, areas[..k + 1])
  {
    forall v: nat
      ensures Covered(areas[..k + 1], v) <==> Covered(areas[..k], v) || areas[k].Contains(v)
    {
      if Covered(areas[..k], v) {
        var i: nat :| i < k && areas[..k][i].Contains(v);
        assert areas[..k + 1][i].Contains(v);
      }
      if areas[k].Contains(v) { assert areas[..k + 1][k].Contains(v); }
      if Covered(areas[..k + 1], v) {
        var i: nat :| i < k + 1 && areas[..k + 1][i].Contains(v);
        if i < k { assert areas[..k][i].Contains(v); }
      }
    }
  }

  lemma RecycleDone(m: Memory, w0: Owners, w: Owners, sid: nat, root: nat, pages: Pages, areas: seq<MapArea>)
    requires TableOk(m, w0, sid, root) && Refines(m, root, pages) && AreasOk(areas, pages, w0, sid)
    requires WithoutAreas(w0, w, sid, areas)
    ensures TableOk(m, w, sid, root) && Shrank(m, w0, m, w, sid) && NoData(w, sid)
    ensures forall f: nat :: (f in w0 && w0[f].Table? && w0[f].sid == sid) <==>
            (f in w && w[f].Table? && w[f].sid == sid)
  {
    TableFrame(m, w0, m, w, sid, root);
    forall f | f in w0 && w0[f].Data? && w0[f].sid == sid
      ensures Covered(areas, w0[f].vpn)
    {
      var vpn := w0[f].vpn;
      assert Backed(areas, vpn, f);
      var i: nat :| i < |areas| && vpn in areas[i].dataFrames && areas[i].dataFrames[vpn] == f;
      assert AreaOk(areas[i], pages, w0, sid) && areas[i].Contains(vpn);
    }
  }
}
