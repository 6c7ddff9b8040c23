/** Map areas: which pages a space has, which frames back them, and what stays true as areas grow and shrink. */
module Areas {
  import opened Bytes
  import opened Sv39

  /** The page of the trampoline, mapped in every space outside its areas. */
  const TRAMPOLINE_VPN: nat := VPN_LIMIT - 1

  datatype MapType = Identical | Framed

  datatype MapArea = MapArea(start: nat, end: nat, dataFrames: map<nat, nat>, mapType: MapType, perm: byte) {

    predicate Contains(vpn: nat)
    {
      start <= vpn < end
    }

    /** The translation of a page of this area. */
    function Page(vpn: nat): (p: (nat, nat))
      requires mapType == Framed ==> vpn in dataFrames
    {
      (if mapType == Framed then dataFrames[vpn] else vpn, WithV(perm))
    }

    ghost predicate Filled()
    {
      && start <= end <= VPN_LIMIT
      && (forall vpn: nat :: vpn in dataFrames <==> mapType == Framed && Contains(vpn))
    }
  }

  type Pages = map<nat, (nat, nat)>

  ghost predicate AreaOk(a: MapArea, pages: Pages, who: Owners, sid: nat)
  {
    && a.Filled()
    && (forall vpn: nat | a.Contains(vpn) :: vpn in pages && pages[vpn] == a.Page(vpn))
    && (forall vpn | vpn in a.dataFrames :: a.dataFrames[vpn] in who && who[a.dataFrames[vpn]] == Data(sid, vpn))
  }

  ghost predicate Covered(areas: seq<MapArea>, vpn: nat)
  {
    exists i: nat :: i < |areas| && areas[i].Contains(vpn)
  }

  ghost predicate Backed(areas: seq<MapArea>, vpn: nat, f: nat)
  {
    exists i: nat :: i < |areas| && vpn in areas[i].dataFrames && areas[i].dataFrames[vpn] == f
  }

  /** The areas are disjoint, their pages are mapped as they say, and between them they hold exactly the data frames
    * of the space; beside them only the trampoline is mapped. */
  ghost predicate AreasOk(areas: seq<MapArea>, pages: Pages, who: Owners, sid: nat)
  {
    && (forall i: nat | i < |areas| :: AreaOk(areas[i], pages, who, sid))
    && Apart(areas) && AllBacked(areas, who, sid) && AllCovered(areas, pages)
  }

  ghost predicate Apart(areas: seq<MapArea>)
  {
    forall i: nat, j: nat, vpn: nat | i < j < |areas| && areas[i].Contains(vpn) :: !areas[j].Contains(vpn)
  }

  ghost predicate AllBacked(areas: seq<MapArea>, who: Owners, sid: nat)
  {
    forall f | f in who && who[f].Data? && who[f].sid == sid :: Backed(areas, who[f].vpn, f)
  }

  ghost predicate AllCovered(areas: seq<MapArea>, pages: Pages)
  {
    forall vpn | vpn in pages :: vpn == TRAMPOLINE_VPN || Covered(areas, vpn)
  }

  /** Uses of frames outside space `sid`, and its data frames, are the same in both. */
  ghost predicate SameData(who: Owners, who': Owners, sid: nat)
  {
    && (forall f | f in who && who[f].Data? && who[f].sid == sid :: f in who' && who'[f] == who[f])
    && (forall f | f in who' && who'[f].Data? && who'[f].sid == sid :: f in who && who[f] == who'[f])
  }

  /** Table frames coming and going do not concern the areas. */
  lemma AreasFrame(areas: seq<MapArea>, pages: Pages, who: Owners, who': Owners, sid: nat)
    requires AreasOk(areas, pages, who, sid) && SameData(who, who', sid)
    ensures AreasOk(areas, pages, who', sid)
  {
    forall i: nat | i < |areas|
      ensures AreaOk(areas[i], pages, who', sid)
    {
      assert AreaOk(areas[i], pages, who, sid);
    }
  }

  /** `a` with one more page, backed by frame `f` if it is framed. */
  ghost function Longer(a: MapArea, f: nat): (a': MapArea)
  {
    a.(end := a.end + 1, dataFrames := if a.mapType == Framed then a.dataFrames[a.end := f] else a.dataFrames)
  }

  ghost function WithFrame(a: MapArea, who: Owners, sid: nat, f: nat): (who': Owners)
  {
    if a.mapType == Framed then who[f := Data(sid, a.end)] else who
  }

  lemma LongerOk(a: MapArea, pages: Pages, who: Owners, sid: nat, f: nat)
    requires AreaOk(a, pages, who, sid) && a.end < VPN_LIMIT && f !in who
    ensures a.end in Longer(a, f).dataFrames <==> a.mapType == Framed
    ensures AreaOk(Longer(a, f), pages[a.end := Longer(a, f).Page(a.end)], WithFrame(a, who, sid, f), sid)
  {
    var a' := Longer(a, f);
    forall vpn: nat ensures a'.Contains(vpn) <==> a.Contains(vpn) || vpn == a.end { }
  }

  /** One more page at the end of the last area. */
  lemma ExtendLast(areas: seq<MapArea>, a: MapArea, pages: Pages, who: Owners, sid: nat, f: nat)
    requires AreasOk(areas + [a], pages, who, sid) && a.end < VPN_LIMIT && a.end !in pages && f !in who
    ensures a.end in Longer(a, f).dataFrames <==> a.mapType == Framed
    ensures AreasOk(areas + [Longer(a, f)], pages[a.end := Longer(a, f).Page(a.end)], WithFrame(a, who, sid, f), sid)
  {
    hide Apart, Backed, Covered;
    var olds, news := areas + [a], areas + [Longer(a, f)];
    assert AreaOk(olds[|areas|], pages, who, sid);
    LongerOk(a, pages, who, sid, f);
    var pages', who' := pages[a.end := Longer(a, f).Page(a.end)], WithFrame(a, who, sid, f);
    forall i: nat | i < |news|
      ensures AreaOk(news[i], pages', who', sid)
    {
      assert AreaOk(olds[i], pages, who, sid);
    }
    ExtendApart(areas, a, pages, who, sid, f);
    forall g | g in who' && who'[g].Data? && who'[g].sid == sid
      ensures Backed(news, who'[g].vpn, g)
    {
      ExtendBacked(areas, a, pages, who, sid, f, g);
    }
    forall p | p in pages' && p != TRAMPOLINE_VPN
      ensures Covered(news, p)
    {
      ExtendCovered(areas, a, pages, who, sid, f, p);
    }
  }

  lemma ExtendApart(areas: seq<MapArea>, a: MapArea, pages: Pages, who: Owners, sid: nat, f: nat)
    requires AreasOk(areas + [a], pages, who, sid) && a.end !in pages
    ensures Apart(areas + [Longer(a, f)])
  {
    var olds, news := areas + [a], areas + [Longer(a, f)];
    forall i: nat | i < |areas|
      ensures !areas[i].Contains(a.end)
    {
      assert AreaOk(olds[i], pages, who, sid);
    }
    hide AreaOk, AllBacked, AllCovered;
    forall i: nat, j: nat, vpn: nat | i < j < |news| && news[i].Contains(vpn)
      ensures !news[j].Contains(vpn)
    {
      assert olds[i].Contains(vpn) && !olds[j].Contains(vpn);
    }
  }

  lemma ExtendBacked(areas: seq<MapArea>, a: MapArea, pages: Pages, who: Owners, sid: nat, f: nat, g: nat)
    requires AreasOk(areas + [a], pages, who, sid) && f !in who
    requires var who' := WithFrame(a, who, sid, f); g in who' && who'[g].Data? && who'[g].sid == sid
    ensures Backed(areas + [Longer(a, f)], WithFrame(a, who, sid, f)[g].vpn, g)
  {
    var olds, news := areas + [a], areas + [Longer(a, f)];
    if g in who {
      var vpn := who[g].vpn;
      assert Backed(olds, vpn, g);
      var i: nat :| i < |olds| && vpn in olds[i].dataFrames && olds[i].dataFrames[vpn] == g;
      assert AreaOk(olds[i], pages, who, sid);
      assert vpn in news[i].dataFrames && news[i].dataFrames[vpn] == g;
    } else {
      assert news[|areas|].dataFrames[a.end] == g;
    }
  }

  lemma ExtendCovered(areas: seq<MapArea>, a: MapArea, pages: Pages, who: Owners, sid: nat, f: nat, p: nat)
    requires AreasOk(areas + [a], pages, who, sid) && (p in pages || p == a.end) && p != TRAMPOLINE_VPN
    ensures Covered(areas + [Longer(a, f)], p)
  {
    var olds, news := areas + [a], areas + [Longer(a, f)];
    assert AreaOk(olds[|areas|], pages, who, sid);
    if p == a.end {
      assert news[|areas|].Contains(p);
    } else {
      assert Covered(olds, p);
      var i: nat :| i < |olds| && olds[i].Contains(p);
      assert news[i].Contains(p);
    }
  }

  /** An empty area may be added. */
  lemma AddEmpty(areas: seq<MapArea>, a: MapArea, pages: Pages, who: Owners, sid: nat)
    requires AreasOk(areas, pages, who, sid) && a.start == a.end <= VPN_LIMIT && a.dataFrames == map[]
    ensures AreasOk(areas + [a], pages, who, sid)
  {
    var news := areas + [a];
    forall i: nat | i < |news|
      ensures AreaOk(news[i], pages, who, sid)
    {
      if i < |areas| { assert AreaOk(areas[i], pages, who, sid); }
    }
    forall g | g in who && who[g].Data? && who[g].sid == sid
      ensures Backed(news, who[g].vpn, g)
    {
      var vpn := who[g].vpn;
      assert Backed(areas, vpn, g);
      var i: nat :| i < |areas| && vpn in areas[i].dataFrames && areas[i].dataFrames[vpn] == g;
      assert news[i].dataFrames[vpn] == g;
    }
    forall p | p in pages && p != TRAMPOLINE_VPN
      ensures Covered(news, p)
    {
      assert Covered(areas, p);
      var i: nat :| i < |areas| && areas[i].Contains(p);
      assert news[i].Contains(p);
    }
  }

  /** `a` without its first page. */
  ghost function Shorter(a: MapArea): (a': MapArea)
  {
    a.(start := a.start + 1, dataFrames := a.dataFrames - {a.start})
  }

  ghost function WithoutFrame(a: MapArea, who: Owners): (who': Owners)
  {
    if a.start in a.dataFrames then who - {a.dataFrames[a.start]} else who
  }

  lemma ShorterOk(a: MapArea, pages: Pages, who: Owners, sid: nat)
    requires AreaOk(a, pages, who, sid) && a.start < a.end
    ensures AreaOk(Shorter(a), pages - {a.start}, WithoutFrame(a, who), sid)
  {
    var a' := Shorter(a);
    forall vpn: nat ensures a'.Contains(vpn) <==> a.Contains(vpn) && vpn != a.start { }
  }

  /** The first page of area `k` goes, and so does its frame. */
  lemma ShrinkFirst(areas: seq<MapArea>, k: nat, pages: Pages, who: Owners, sid: nat)
    requires AreasOk(areas, pages, who, sid) && k < |areas| && areas[k].start < areas[k].end
    ensures AreasOk(areas[k := Shorter(areas[k])], pages - {areas[k].start}, WithoutFrame(areas[k], who), sid)
  {
    hide Apart, AllBacked, AllCovered, AreaOk, Shorter, WithoutFrame;
    var a, news := areas[k], areas[k := Shorter(areas[k])];
    forall i: nat | i < |news|
      ensures AreaOk(news[i], pages - {a.start}, WithoutFrame(a, who), sid)
    {
      ShrinkArea(areas, k, pages, who, sid, i);
    }
    ShrinkRest(areas, k, pages, who, sid);
  }

  lemma ShrinkArea(areas: seq<MapArea>, k: nat, pages: Pages, who: Owners, sid: nat, i: nat)
    requires AreasOk(areas, pages, who, sid) && k < |areas| && areas[k].start < areas[k].end && i < |areas|
    ensures AreaOk(areas[k := Shorter(areas[k])][i], pages - {areas[k].start}, WithoutFrame(areas[k], who), sid)
  {
    hide AllBacked, AllCovered;
    var a := areas[k];
    assert AreaOk(a, pages, who, sid) && a.Contains(a.start);
    assert AreaOk(areas[i], pages, who, sid);
    if i == k { ShorterOk(a, pages, who, sid); } else { assert !areas[i].Contains(a.start); }
  }

  lemma ShrinkRest(areas: seq<MapArea>, k: nat, pages: Pages, who: Owners, sid: nat)
    requires AreasOk(areas, pages, who, sid) && k < |areas| && areas[k].start < areas[k].end
    ensures Apart(areas[k := Shorter(areas[k])])
    ensures AllBacked(areas[k := Shorter(areas[k])], WithoutFrame(areas[k], who), sid)
    ensures AllCovered(areas[k := Shorter(areas[k])], pages - {areas[k].start})
  {
    var a := areas[k];
    var news, who' := areas[k := Shorter(a)], WithoutFrame(a, who);
    assert AreaOk(a, pages, who, sid) && a.Contains(a.start);
    hide AreaOk;
    forall i: nat, j: nat, vpn: nat | i < j < |news| && news[i].Contains(vpn)
      ensures !news[j].Contains(vpn)
    {
      assert areas[i].Contains(vpn) && !areas[j].Contains(vpn);
    }
    forall g | g in who' && who'[g].Data? && who'[g].sid == sid
      ensures Backed(news, who'[g].vpn, g)
    {
      ShrinkBacked(areas, k, pages, who, sid, g);
    }
    forall p | p in pages && p != a.start && p != TRAMPOLINE_VPN
      ensures Covered(news, p)
    {
      assert Covered(areas, p);
      var i: nat :| i < |areas| && areas[i].Contains(p);
      assert news[i].Contains(p);
    }
  }

  lemma ShrinkBacked(areas: seq<MapArea>, k: nat, pages: Pages, who: Owners, sid: nat, g: nat)
    requires AreasOk(areas, pages, who, sid) && k < |areas| && areas[k].start < areas[k].end
    requires g in WithoutFrame(areas[k], who) && who[g].Data? && who[g].sid == sid
    ensures Backed(areas[k := Shorter(areas[k])], who[g].vpn, g)
  {
    hide Apart, AllCovered;
    var vpn, news := who[g].vpn, areas[k := Shorter(areas[k])];
    assert Backed(areas, vpn, g);
    var i: nat :| i < |areas| && vpn in areas[i].dataFrames && areas[i].dataFrames[vpn] == g;
    assert AreaOk(areas[k], pages, who, sid);
    assert vpn in news[i].dataFrames && news[i].dataFrames[vpn] == g;
  }

  /** An empty area may be dropped. */
  lemma DropEmpty(areas: seq<MapArea>, k: nat, pages: Pages, who: Owners, sid: nat)
    requires AreasOk(areas, pages, who, sid) && k < |areas| && areas[k].start == areas[k].end
    ensures AreasOk(areas[..k] + areas[k + 1..], pages, who, sid)
  {
    hide AreaOk, Apart, AllBacked, AllCovered;
    var news := areas[..k] + areas[k + 1..];
    forall i: nat | i < |news|
      ensures AreaOk(news[i], pages, who, sid)
    {
      assert AreaOk(areas[if i < k then i else i + 1], pages, who, sid);
    }
    DropApart(areas, k);
    DropRest(areas, k, pages, who, sid);
  }

  lemma DropApart(areas: seq<MapArea>, k: nat)
    requires Apart(areas) && k < |areas|
    ensures Apart(areas[..k] + areas[k + 1..])
  {
    var news := areas[..k] + areas[k + 1..];
    forall i: nat, j: nat, vpn: nat | i < j < |news| && news[i].Contains(vpn)
      ensures !news[j].Contains(vpn)
    {
      var i', j' := if i < k then i else i + 1, if j < k then j else j + 1;
      assert areas[i'].Contains(vpn) && !areas[j'].Contains(vpn);
    }
  }

  lemma DropKeeps(areas: seq<MapArea>, k: nat, i: nat)
    requires k < |areas| && i < |areas| && i != k
    ensures var i' := if i < k then i else i - 1; (areas[..k] + areas[k + 1..])[i'] == areas[i]
  {
  }

  lemma DropRest(areas: seq<MapArea>, k: nat, pages: Pages, who: Owners, sid: nat)
    requires AreasOk(areas, pages, who, sid) && k < |areas| && areas[k].start == areas[k].end
    ensures AllBacked(areas[..k] + areas[k + 1..], who, sid) && AllCovered(areas[..k] + areas[k + 1..], pages)
  {
    hide Apart;
    var news := areas[..k] + areas[k + 1..];
    assert AreaOk(areas[k], pages, who, sid);
    forall g | g in who && who[g].Data? && who[g].sid == sid
      ensures Backed(news, who[g].vpn, g)
    {
      var vpn := who[g].vpn;
      assert Backed(areas, vpn, g);
      var i: nat :| i < |areas| && vpn in areas[i].dataFrames && areas[i].dataFrames[vpn] == g;
      assert i != k;
      DropKeeps(areas, k, i);
    }
    forall p | p in pages && p != TRAMPOLINE_VPN
      ensures Covered(news, p)
    {
      assert Covered(areas, p);
      var i: nat :| i < |areas| && areas[i].Contains(p);
      DropKeeps(areas, k, i);
    }
  }
}
