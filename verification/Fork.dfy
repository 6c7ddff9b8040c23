/** New spaces, the copy made by fork, and the separation of spaces. */
module Fork {
  import opened Wrappers
  import opened Sv39
  import opened PageTable
  import opened Areas
  import opened MemorySet

  ghost predicate FreshSid(who: Owners, sid: nat)
  {
    forall f | f in who :: who[f].sid != sid
  }

  /** Every frame in use keeps its use and its contents; new ones belong to space `sid`. */
  ghost predicate Added(mem: Memory, who: Owners, mem': Memory, who': Owners, sid: nat)
  {
    && |mem'| == |mem|
    && (forall f | f in who && f < |mem| :: f in who' && who'[f] == who[f] && mem'[f] == mem[f])
    && (forall f | f in who' && f !in who :: who'[f].sid == sid)
  }

  lemma GrewAdded(m0: Memory, w0: Owners, m1: Memory, w1: Owners, m2: Memory, w2: Owners, sid: nat)
    requires FreshSid(w0, sid) && Added(m0, w0, m1, w1, sid) && Grew(m1, w1, m2, w2, sid)
    requires forall f | f in w0 :: f < |m0|
    ensures Added(m0, w0, m2, w2, sid)
  {
  }

  /** A zeroed root frame is a table that translates nothing. */
  lemma NewRoot(m0: Memory, w0: Owners, sid: nat, root: nat)
    requires FreshSid(w0, sid) && root !in w0 && root < |m0| <= PPN_LIMIT && forall f | f in w0 :: f < |m0|
    ensures var m1, w1 := m0[root := ZeroFrame()], w0[root := Table(sid, Root)];
            && TableOk(m1, w1, sid, root) && Refines(m1, root, map[]) && Added(m0, w0, m1, w1, sid)
            && AreasOk([], map[], w1, sid)
  {
    var m1, w1 := m0[root := ZeroFrame()], w0[root := Table(sid, Root)];
    forall k: nat ensures Pte(m1, root, k) == 0 { ZeroFramePte(m1, root, k); }
    hide Pte, ZeroFrame, Idx0, Idx1, Idx2;
    forall f: nat, k: nat | Inner(w1, sid, f) && k < 512 ensures LinkOk(m1, w1, f, k) { assert f == root; }
  }

  /** `new_bare`: an empty space, or null where the code panics for want of a frame. */
  method NewBare(fm: FrameMemory, ghost sid: nat) returns (ms: MemorySet?)
    requires fm.Valid() && FreshSid(fm.who, sid)
    modifies fm
    ensures ms == null ==> fm.Exhausted()
    ensures ms != null ==>
              && fresh(ms) && fresh(ms.pt) && ms.Valid(fm) && ms.pt.sid == sid && ms.areas == [] && ms.pt.pages == map[]
              && Added(old(fm.mem), old(fm.who), fm.mem, fm.who, sid)
  {
    hide AreasOk, Refines, TableOk, Added;
    var root := fm.FrameAlloc(Table(sid, Root));
    if root == None {
      return null;
    }
    NewRoot(old(fm.mem), old(fm.who), sid, root.value);
    var pt := new PageTable(sid, root.value);
    ms := new MemorySet(pt);
  }

  /** `map_trampoline`: one page outside the areas. */
  method MapTrampoline(ms: MemorySet, ppn: nat, fm: FrameMemory) returns (ok: bool)
    requires ms.Valid(fm) && TRAMPOLINE_VPN !in ms.pt.pages && ppn < PPN_LIMIT
    modifies ms.pt, fm
    ensures !ok ==> fm.Exhausted()
    ensures ok ==> ms.Valid(fm) && ms.pt.root == old(ms.pt.root)
    ensures ok ==> ms.pt.pages == old(ms.pt.pages)[TRAMPOLINE_VPN := (ppn, V + R + X)]
    ensures ok ==> Grew(old(fm.mem), old(fm.who), fm.mem, fm.who, ms.pt.sid)
  {
    hide AreasOk, Refines, TableOk, OnlyTables, Grew, SameData;
    ok := ms.pt.Map(TRAMPOLINE_VPN, ppn, R + X, fm);
    if ok {
      TablesGrew(old(fm.mem), old(fm.who), fm.mem, fm.who, ms.pt.sid);
      AreasFrame(ms.areas, old(ms.pt.pages), old(fm.who), fm.who, ms.pt.sid);
      TrampolineAreas(ms.areas, old(ms.pt.pages), fm.who, ms.pt.sid, ppn);
    }
  }

  lemma TrampolineAreas(areas: seq<MapArea>, pages: Pages, who: Owners, sid: nat, ppn: nat)
    requires AreasOk(areas, pages, who, sid) && TRAMPOLINE_VPN !in pages
    ensures AreasOk(areas, pages[TRAMPOLINE_VPN := (ppn, WithV(R + X))], who, sid)
  {
    forall i: nat | i < |areas|
      ensures AreaOk(areas[i], pages[TRAMPOLINE_VPN := (ppn, WithV(R + X))], who, sid)
    {
      assert AreaOk(areas[i], pages, who, sid);
    }
  }

  // ---------------------------------------------------------------- copying pages

  /** `b` is `a` with other frames. */
  ghost predicate SameShape(a: MapArea, b: MapArea)
  {
    b == a.(dataFrames := b.dataFrames)
  }

  /** Pages `lo` up to `hi` of area `b` hold what area `a` holds in `mem0`. */
  ghost predicate CopyOf(mem0: Memory, mem: Memory, a: MapArea, b: MapArea, lo: nat, hi: nat)
  {
    forall vpn: nat | lo <= vpn < hi ::
      && vpn in a.dataFrames && vpn in b.dataFrames
      && a.dataFrames[vpn] < |mem0| && b.dataFrames[vpn] < |mem|
      && mem[b.dataFrames[vpn]] == mem0[a.dataFrames[vpn]]
  }

  /** Only data frames of pages `lo` up to `hi` of space `sid` were written. */
  ghost predicate OnlyPages(mem0: Memory, mem: Memory, who: Owners, sid: nat, lo: nat, hi: nat)
  {
    && |mem| == |mem0|
    && forall f: nat | f < |mem| && !(f in who && who[f].Data? && who[f].sid == sid && lo <= who[f].vpn < hi) ::
         mem[f] == mem0[f]
  }

  /** Copies area `i` of `parent` into area `i` of `child`, page by page through both page tables. */
  method CopyArea(parent: MemorySet, child: MemorySet, i: nat, fm: FrameMemory)
    requires parent.Valid(fm) && child.Valid(fm) && parent.pt.sid != child.pt.sid
    requires i < |parent.areas| && i < |child.areas| && SameShape(parent.areas[i], child.areas[i])
    requires parent.areas[i].mapType == Framed
    modifies fm`mem
    ensures parent.Valid(fm) && child.Valid(fm)
    ensures CopyOf(old(fm.mem), fm.mem, parent.areas[i], child.areas[i], parent.areas[i].start, parent.areas[i].end)
    ensures OnlyPages(old(fm.mem), fm.mem, fm.who, child.pt.sid, parent.areas[i].start, parent.areas[i].end)
  {
    hide AreasOk, Refines, TableOk, CopyOf, OnlyPages;
    var a, b := parent.areas[i], child.areas[i];
    AreaRange(parent.areas, i, parent.pt.pages, fm.who, parent.pt.sid);
    CopyNone(fm.mem, fm.who, child.pt.sid, a, b);
    for vpn := a.start to a.end
      invariant parent.Valid(fm) && child.Valid(fm)
      invariant CopyOf(old(fm.mem), fm.mem, a, b, a.start, vpn)
      invariant OnlyPages(old(fm.mem), fm.mem, fm.who, child.pt.sid, a.start, vpn)
    {
      CopyPage(parent, child, i, vpn, old(fm.mem), fm);
    }
  }

  /** One page of the copy. */
  method CopyPage(parent: MemorySet, child: MemorySet, i: nat, vpn: nat, ghost m0: Memory, fm: FrameMemory)
    requires parent.Valid(fm) && child.Valid(fm) && parent.pt.sid != child.pt.sid
    requires i < |parent.areas| && i < |child.areas| && SameShape(parent.areas[i], child.areas[i])
    requires parent.areas[i].mapType == Framed && parent.areas[i].Contains(vpn)
    requires CopyOf(m0, fm.mem, parent.areas[i], child.areas[i], parent.areas[i].start, vpn)
    requires OnlyPages(m0, fm.mem, fm.who, child.pt.sid, parent.areas[i].start, vpn)
    modifies fm`mem
    ensures parent.Valid(fm) && child.Valid(fm)
    ensures CopyOf(m0, fm.mem, parent.areas[i], child.areas[i], parent.areas[i].start, vpn + 1)
    ensures OnlyPages(m0, fm.mem, fm.who, child.pt.sid, parent.areas[i].start, vpn + 1)
  {
    hide AreasOk, Refines, TableOk, CopyOf, OnlyPages, Ppn;
    PageOf(parent.areas, i, parent.pt.pages, fm.who, parent.pt.sid, vpn);
    PageOf(child.areas, i, child.pt.pages, fm.who, child.pt.sid, vpn);
    var src := parent.pt.Translate(vpn, fm);
    var dst := child.pt.Translate(vpn, fm);
    var from, to := Ppn(src.value), Ppn(dst.value);
    FramesInMemory(fm.mem, fm.who, parent.pt.sid, parent.pt.root, from);
    FramesInMemory(fm.mem, fm.who, child.pt.sid, child.pt.root, to);
    CopyOne(m0, fm.mem, fm.who, parent.pt.sid, child.pt.sid, parent.areas[i], child.areas[i], vpn);
    DataWriteKeeps(fm.mem, fm.who, parent.pt.sid, parent.pt.root, parent.pt.pages, to, fm.mem[from]);
    DataWriteKeeps(fm.mem, fm.who, child.pt.sid, child.pt.root, child.pt.pages, to, fm.mem[from]);
    fm.mem := fm.mem[to := fm.mem[from]];
  }

  lemma CopyNone(mem: Memory, who: Owners, sid: nat, a: MapArea, b: MapArea)
    ensures CopyOf(mem, mem, a, b, a.start, a.start) && OnlyPages(mem, mem, who, sid, a.start, a.start)
  {
  }

  lemma PageOf(areas: seq<MapArea>, i: nat, pages: Pages, who: Owners, sid: nat, vpn: nat)
    requires AreasOk(areas, pages, who, sid) && i < |areas| && areas[i].mapType == Framed && areas[i].Contains(vpn)
    ensures vpn in areas[i].dataFrames && vpn in pages && pages[vpn].0 == areas[i].dataFrames[vpn] && vpn < VPN_LIMIT
    ensures forall v | v in areas[i].dataFrames ::
              areas[i].dataFrames[v] in who && who[areas[i].dataFrames[v]] == Data(sid, v)
  {
    assert AreaOk(areas[i], pages, who, sid);
  }

  lemma FramesInMemory(mem: Memory, who: Owners, sid: nat, root: nat, f: nat)
    requires TableOk(mem, who, sid, root) && f in who
    ensures f < |mem|
  {
  }

  /** Writing a data frame leaves every page table alone. */
  lemma DataWriteKeeps(mem: Memory, who: Owners, sid: nat, root: nat, pages: Pages, f: nat, data: Frame)
    requires TableOk(mem, who, sid, root) && Refines(mem, root, pages) && f in who && who[f].Data? && f < |mem|
    ensures TableOk(mem[f := data], who, sid, root) && Refines(mem[f := data], root, pages)
  {
    TableFrame(mem, who, mem[f := data], who, sid, root);
  }

  lemma CopyOne(m0: Memory, m1: Memory, who: Owners, psid: nat, csid: nat, a: MapArea, b: MapArea, vpn: nat)
    requires CopyOf(m0, m1, a, b, a.start, vpn) && OnlyPages(m0, m1, who, csid, a.start, vpn) && psid != csid
    requires a.start <= vpn && vpn in a.dataFrames && vpn in b.dataFrames
    requires a.dataFrames[vpn] < |m1| && a.dataFrames[vpn] in who && who[a.dataFrames[vpn]] == Data(psid, vpn)
    requires b.dataFrames[vpn] < |m1| && b.dataFrames[vpn] in who && who[b.dataFrames[vpn]] == Data(csid, vpn)
    requires forall v | v in b.dataFrames :: b.dataFrames[v] in who && who[b.dataFrames[v]] == Data(csid, v)
    ensures var m2 := m1[b.dataFrames[vpn] := m1[a.dataFrames[vpn]]];
            CopyOf(m0, m2, a, b, a.start, vpn + 1) && OnlyPages(m0, m2, who, csid, a.start, vpn + 1)
  {
  }

  // ---------------------------------------------------------------- the fork

  /** Growth of one space is invisible to another. */
  lemma OtherSpace(m: Memory, w: Owners, m': Memory, w': Owners, sid: nat,
                   other: nat, root: nat, pages: Pages, areas: seq<MapArea>)
    requires Grew(m, w, m', w', sid) && other != sid && (forall f | f in w' :: f < |m'|)
    requires TableOk(m, w, other, root) && Refines(m, root, pages) && AreasOk(areas, pages, w, other)
    ensures TableOk(m', w', other, root) && Refines(m', root, pages) && AreasOk(areas, pages, w', other)
    ensures forall f: nat :: (f in w && w[f].Table? && w[f].sid == other) <==>
            (f in w' && w'[f].Table? && w'[f].sid == other)
  {
    TableFrame(m, w, m', w', other, root);
    AreasFrame(areas, pages, w, w', other);
  }

  /** Area by area, `cs` has the shape of the first areas of `ps` and holds the bytes they hold in `m0`. */
  ghost predicate Copies(m0: Memory, m: Memory, ps: seq<MapArea>, cs: seq<MapArea>)
  {
    && |cs| <= |ps|
    && forall j: nat | j < |cs| :: SameShape(ps[j], cs[j]) && CopyOf(m0, m, ps[j], cs[j], ps[j].start, ps[j].end)
  }

  lemma CopiesGrew(m0: Memory, m1: Memory, w1: Owners, m2: Memory, w2: Owners, sid: nat, ps: seq<MapArea>,
                   cs: seq<MapArea>, pages: Pages)
    requires Copies(m0, m1, ps, cs) && Grew(m1, w1, m2, w2, sid) && AreasOk(cs, pages, w1, sid)
    ensures Copies(m0, m2, ps, cs)
  {
    forall j: nat | j < |cs|
      ensures CopyOf(m0, m2, ps[j], cs[j], ps[j].start, ps[j].end)
    {
      assert AreaOk(cs[j], pages, w1, sid);
    }
  }

  /** Copying the last area completes the copies made so far. */
  lemma CopiesMore(m0: Memory, w0: Owners, m1: Memory, w: Owners, m2: Memory, psid: nat, sid: nat, k: nat,
                   ps: seq<MapArea>, pp: Pages, cs: seq<MapArea>, pages: Pages)
    requires |cs| == k + 1 <= |ps| && Copies(m0, m1, ps, cs[..k]) && SameShape(ps[k], cs[k]) && ps[k].mapType == Framed
    requires AreasOk(ps, pp, w, psid) && AreasOk(cs, pages, w, sid) && psid != sid
    requires |m1| == |m0| && forall f | f in w0 && f < |m0| :: f in w && w[f] == w0[f] && m1[f] == m0[f]
    requires AreasOk(ps, pp, w0, psid) && forall f | f in w0 :: f < |m0|
    requires CopyOf(m1, m2, ps[k], cs[k], ps[k].start, ps[k].end)
    requires OnlyPages(m1, m2, w, sid, ps[k].start, ps[k].end)
    ensures Copies(m0, m2, ps, cs)
  {
    hide CopyOf, OnlyPages, Apart, AllBacked, AllCovered, AreaOk;
    forall j: nat | j < |cs|
      ensures SameShape(ps[j], cs[j]) && CopyOf(m0, m2, ps[j], cs[j], ps[j].start, ps[j].end)
    {
      assert AreaOk(cs[j], pages, w, sid) && AreaOk(ps[j], pp, w0, psid);
      if j < k {
        assert cs[..k][j] == cs[j];
        CopyKept(m0, m1, w, m2, sid, ps[j], cs, j, k, pages);
      } else {
        CopyLast(m0, w0, m1, m2, psid, ps[k], cs[k], pp);
      }
    }
  }

  lemma CopyLast(m0: Memory, w0: Owners, m1: Memory, m2: Memory, psid: nat, a: MapArea, b: MapArea, pp: Pages)
    requires AreaOk(a, pp, w0, psid) && a.mapType == Framed && (forall f | f in w0 :: f < |m0|)
    requires |m1| == |m0| && forall f | f in w0 && f < |m0| :: m1[f] == m0[f]
    requires CopyOf(m1, m2, a, b, a.start, a.end)
    ensures CopyOf(m0, m2, a, b, a.start, a.end)
  {
  }

  lemma CopyKept(m0: Memory, m1: Memory, w: Owners, m2: Memory, sid: nat, p: MapArea, cs: seq<MapArea>, j: nat, k: nat,
                 pages: Pages)
    requires j < k < |cs| && AreasOk(cs, pages, w, sid) && SameShape(p, cs[j])
    requires CopyOf(m0, m1, p, cs[j], p.start, p.end) && OnlyPages(m1, m2, w, sid, cs[k].start, cs[k].end)
    ensures CopyOf(m0, m2, p, cs[j], p.start, p.end)
  {
    assert AreaOk(cs[j], pages, w, sid);
    forall vpn: nat | p.start <= vpn < p.end
      ensures m2[cs[j].dataFrames[vpn]] == m1[cs[j].dataFrames[vpn]]
    {
      assert cs[j].Contains(vpn) && !cs[k].Contains(vpn);
    }
  }

  /** The pages of the next parent area are still free in a child that has the areas before it. */
  lemma NextAreaFree(ps: seq<MapArea>, cs: seq<MapArea>, k: nat, pages: Pages, who: Owners, sid: nat, vpn: nat)
    requires |cs| == k < |ps| && Apart(ps) && (forall j: nat | j < k :: SameShape(ps[j], cs[j]))
    requires AreasOk(cs, pages, who, sid) && ps[k].Contains(vpn) && !ps[k].Contains(TRAMPOLINE_VPN)
    ensures vpn !in pages
  {
    forall j: nat | j < |cs|
      ensures !cs[j].Contains(vpn)
    {
      assert !ps[j].Contains(vpn);
    }
    assert !Covered(cs, vpn);
  }

  /** `from_existed_user`: a copy of every area of `parent` in a space of its own; null where the code panics for want
    * of a frame. The parent's areas are framed and leave the trampoline page alone. */
  method FromExistedUser(parent: MemorySet, trampoline: nat, fm: FrameMemory, ghost sid: nat)
    returns (child: MemorySet?)
    requires parent.Valid(fm) && FreshSid(fm.who, sid) && trampoline < PPN_LIMIT
    requires forall i: nat | i < |parent.areas| ::
               parent.areas[i].mapType == Framed && !parent.areas[i].Contains(TRAMPOLINE_VPN)
    modifies fm
    ensures child == null ==> fm.Exhausted()
    ensures child != null ==>
              && fresh(child) && fresh(child.pt) && child.Valid(fm) && parent.Valid(fm) && child.pt.sid == sid
              && TRAMPOLINE_VPN in child.pt.pages && child.pt.pages[TRAMPOLINE_VPN] == (trampoline, V + R + X)
              && |child.areas| == |parent.areas| && Copies(old(fm.mem), fm.mem, parent.areas, child.areas)
              && Added(old(fm.mem), old(fm.who), fm.mem, fm.who, sid)
  {
    hide AreasOk, Refines, TableOk, Added, Grew, Copies, FreshSid;
    ghost var m0, w0 := fm.mem, fm.who;
    SidsDiffer(m0, w0, parent.pt.sid, parent.pt.root, sid);
    child := NewSpace(parent, trampoline, fm, sid);
    if child == null {
      return;
    }
    var k := 0;
    while k < |parent.areas|
      invariant child != null && fresh(child) && fresh(child.pt) && child.pt.sid == sid
      invariant k <= |parent.areas| && |child.areas| == k
      invariant child.Valid(fm) && parent.Valid(fm)
      invariant TRAMPOLINE_VPN in child.pt.pages && child.pt.pages[TRAMPOLINE_VPN] == (trampoline, V + R + X)
      invariant Copies(m0, fm.mem, parent.areas, child.areas) && Added(m0, w0, fm.mem, fm.who, sid)
    {
      var ok := ForkArea(parent, child, k, fm, m0, w0);
      if !ok {
        return null;
      }
      k := k + 1;
    }
  }

  lemma SidsDiffer(mem: Memory, who: Owners, sid: nat, root: nat, other: nat)
    requires TableOk(mem, who, sid, root) && FreshSid(who, other)
    ensures sid != other
  {
  }

  /** An empty space beside `parent`, with the trampoline mapped. */
  method NewSpace(parent: MemorySet, trampoline: nat, fm: FrameMemory, ghost sid: nat) returns (child: MemorySet?)
    requires parent.Valid(fm) && FreshSid(fm.who, sid) && trampoline < PPN_LIMIT && parent.pt.sid != sid
    modifies fm
    ensures child == null ==> fm.Exhausted()
    ensures child != null ==>
              && fresh(child) && fresh(child.pt) && child.Valid(fm) && parent.Valid(fm) && child.pt.sid == sid
              && child.areas == [] && child.pt.pages == map[TRAMPOLINE_VPN := (trampoline, V + R + X)]
              && Copies(old(fm.mem), fm.mem, parent.areas, child.areas)
              && Added(old(fm.mem), old(fm.who), fm.mem, fm.who, sid)
  {
    hide AreasOk, Refines, TableOk, Grew, FreshSid, OnlyTables;
    ghost var m0, w0 := fm.mem, fm.who;
    child := NewBare(fm, sid);
    if child == null {
      return;
    }
    ghost var m1, w1 := fm.mem, fm.who;
    AddedKeeps(m0, w0, m1, w1, sid, parent.pt.sid, parent.pt.root, parent.pt.pages, parent.areas);
    var ok := MapTrampoline(child, trampoline, fm);
    if !ok {
      return null;
    }
    OtherSpace(m1, w1, fm.mem, fm.who, sid, parent.pt.sid, parent.pt.root, parent.pt.pages, parent.areas);
    GrewAdded(m0, w0, m1, w1, fm.mem, fm.who, sid);
  }

  lemma AddedKeeps(m: Memory, w: Owners, m': Memory, w': Owners, sid: nat,
                   other: nat, root: nat, pages: Pages, areas: seq<MapArea>)
    requires Added(m, w, m', w', sid) && other != sid && (forall f | f in w' :: f < |m'|)
    requires TableOk(m, w, other, root) && Refines(m, root, pages) && AreasOk(areas, pages, w, other)
    ensures TableOk(m', w', other, root) && Refines(m', root, pages) && AreasOk(areas, pages, w', other)
    ensures forall f: nat :: (f in w && w[f].Table? && w[f].sid == other) <==>
            (f in w' && w'[f].Table? && w'[f].sid == other)
  {
    TableFrame(m, w, m', w', other, root);
    AreasFrame(areas, pages, w, w', other);
  }

  /** Pushes a copy of area `k` and fills it. */
  method ForkArea(parent: MemorySet, child: MemorySet, k: nat, fm: FrameMemory, ghost m0: Memory, ghost w0: Owners)
    returns (ok: bool)
    requires parent.Valid(fm) && child.Valid(fm) && parent.pt.sid != child.pt.sid && parent != child
             && parent.pt != child.pt
    requires |child.areas| == k < |parent.areas| && parent.areas[k].mapType == Framed
    requires !parent.areas[k].Contains(TRAMPOLINE_VPN)
    requires Copies(m0, fm.mem, parent.areas, child.areas) && Added(m0, w0, fm.mem, fm.who, child.pt.sid)
    requires FreshSid(w0, child.pt.sid) && (forall f | f in w0 :: f < |m0|)
    requires AreasOk(parent.areas, parent.pt.pages, w0, parent.pt.sid)
    modifies child, child.pt, fm
    ensures !ok ==> fm.Exhausted()
    ensures ok ==> parent.Valid(fm) && child.Valid(fm) && |child.areas| == k + 1
    ensures ok ==> forall vpn | vpn in old(child.pt.pages) ::
                     vpn in child.pt.pages && child.pt.pages[vpn] == old(child.pt.pages)[vpn]
    ensures ok ==> Copies(m0, fm.mem, parent.areas, child.areas) && Added(m0, w0, fm.mem, fm.who, child.pt.sid)
  {
    hide AreasOk, Refines, TableOk, Added, Grew, Copies, FreshSid, CopyOf, OnlyPages, Apart;
    ghost var sid, m1, w1, cs1 := child.pt.sid, fm.mem, fm.who, child.areas;
    var area := parent.areas[k].(dataFrames := map[]);
    AreaRange(parent.areas, k, parent.pt.pages, fm.who, parent.pt.sid);
    PushReady(m0, m1, parent.areas, parent.pt.pages, parent.pt.sid, child.areas, k, child.pt.pages, fm.who, sid);
    ok := child.Push(area, fm);
    if !ok {
      return;
    }
    ghost var m2 := fm.mem;
    CopiesGrew(m0, m1, w1, m2, fm.who, sid, parent.areas, cs1, old(child.pt.pages));
    OtherSpace(m1, w1, m2, fm.who, sid, parent.pt.sid, parent.pt.root, parent.pt.pages, parent.areas);
    GrewAdded(m0, w0, m1, w1, m2, fm.who, sid);
    CopyArea(parent, child, k, fm);
    ForkAreaDone(m0, w0, m2, fm.who, fm.mem, parent.pt.sid, sid, k, parent.areas, parent.pt.pages, child.areas,
      child.pt.pages);
  }

  lemma PushReady(m0: Memory, m: Memory, ps: seq<MapArea>, pp: Pages, psid: nat, cs: seq<MapArea>, k: nat, pages: Pages,
                  who: Owners, sid: nat)
    requires Copies(m0, m, ps, cs) && |cs| == k < |ps| && !ps[k].Contains(TRAMPOLINE_VPN)
    requires AreasOk(ps, pp, who, psid) && AreasOk(cs, pages, who, sid)
    ensures forall vpn: nat | ps[k].(dataFrames := map[]).Contains(vpn) :: vpn !in pages
  {
    forall vpn: nat | ps[k].(dataFrames := map[]).Contains(vpn)
      ensures vpn !in pages
    {
      NextAreaFree(ps, cs, k, pages, who, sid, vpn);
    }
  }

  lemma ForkAreaDone(m0: Memory, w0: Owners, m2: Memory, w: Owners, m3: Memory, psid: nat, sid: nat, k: nat,
                     ps: seq<MapArea>, pp: Pages, cs: seq<MapArea>, pages: Pages)
    requires |cs| == k + 1 <= |ps| && Copies(m0, m2, ps, cs[..k]) && SameShape(ps[k], cs[k]) && ps[k].mapType == Framed
    requires AreasOk(ps, pp, w, psid) && AreasOk(ps, pp, w0, psid) && AreasOk(cs, pages, w, sid) && psid != sid
    requires Added(m0, w0, m2, w, sid) && FreshSid(w0, sid) && (forall f | f in w0 :: f < |m0|)
    requires CopyOf(m2, m3, ps[k], cs[k], ps[k].start, ps[k].end)
    requires OnlyPages(m2, m3, w, sid, ps[k].start, ps[k].end)
    ensures Copies(m0, m3, ps, cs) && Added(m0, w0, m3, w, sid)
  {
    hide AreasOk, CopyOf;
    CopiesMore(m0, w0, m2, w, m3, psid, sid, k, ps, pp, cs, pages);
  }
}
