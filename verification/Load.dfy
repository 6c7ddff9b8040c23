/** Areas with initial data: a program segment copied into the frames of a new area. */
module Load {
  import opened Bytes
  import opened Sv39
  import opened PageTable
  import opened Areas
  import opened MemorySet
  import opened Fork
  import opened Spaces

  /** Page `p` of an area that holds `data` from its start, and zeros behind it. */
  function PageData(data: seq<byte>, p: nat): (f: Frame)
    ensures forall o | 0 <= o < PAGE_SIZE :: f[o] == if p * PAGE_SIZE + o < |data| then data[p * PAGE_SIZE + o] else 0
  {
    var from := p * PAGE_SIZE;
    if from >= |data| then ZeroFrame()
    else if from + PAGE_SIZE <= |data| then data[from..from + PAGE_SIZE]
    else data[from..] + Zeros(from + PAGE_SIZE - |data|)
  }

  /** The pages of area `a` below `vpn` hold their part of `data`, the others are still zero. */
  ghost predicate Loaded(mem: Memory, a: MapArea, data: seq<byte>, vpn: nat)
  {
    forall v: nat | a.Contains(v) ::
      && v in a.dataFrames && a.dataFrames[v] < |mem|
      && mem[a.dataFrames[v]] == if v < vpn then PageData(data, v - a.start) else ZeroFrame()
  }

  /** One page of `copy_data`: the bytes of `data` from `start` on into the page at `vpn`. */
  method CopyChunk(ms: MemorySet, k: nat, vpn: nat, start: nat, data: seq<byte>, fm: FrameMemory, ghost m0: Memory)
    requires ms.Valid(fm) && k < |ms.areas| && ms.areas[k].mapType == Framed && ms.areas[k].Contains(vpn)
    requires start == (vpn - ms.areas[k].start) * PAGE_SIZE && start <= |data|
    requires Loaded(fm.mem, ms.areas[k], data, vpn) && OnlyPages(m0, fm.mem, fm.who, ms.pt.sid, ms.areas[k].start, vpn)
    modifies fm`mem
    ensures ms.Valid(fm) && Loaded(fm.mem, ms.areas[k], data, vpn + 1)
    ensures OnlyPages(m0, fm.mem, fm.who, ms.pt.sid, ms.areas[k].start, vpn + 1)
  {
    hide AreasOk, Refines, TableOk, Loaded, OnlyPages, Ppn;
    var src := data[start..if |data| <= start + PAGE_SIZE then |data| else start + PAGE_SIZE];
    PageOf(ms.areas, k, ms.pt.pages, fm.who, ms.pt.sid, vpn);
    var pte := ms.pt.Translate(vpn, fm);
    var to := Ppn(pte.value);
    FramesInMemory(fm.mem, fm.who, ms.pt.sid, ms.pt.root, to);
    LoadOne(m0, fm.mem, fm.who, ms.pt.sid, ms.areas[k], data, vpn, src);
    DataWriteKeeps(fm.mem, fm.who, ms.pt.sid, ms.pt.root, ms.pt.pages, to, Splice(fm.mem[to], 0, src));
    fm.mem := fm.mem[to := Splice(fm.mem[to], 0, src)];
  }

  lemma LoadOne(m0: Memory, m: Memory, who: Owners, sid: nat, a: MapArea, data: seq<byte>, vpn: nat, src: seq<byte>)
    requires Loaded(m, a, data, vpn) && OnlyPages(m0, m, who, sid, a.start, vpn) && a.Contains(vpn)
    requires forall v | v in a.dataFrames :: a.dataFrames[v] in who && who[a.dataFrames[v]] == Data(sid, v)
    requires var start := (vpn - a.start) * PAGE_SIZE;
             start <= |data| && src == data[start..if |data| <= start + PAGE_SIZE then |data| else start + PAGE_SIZE]
    ensures vpn in a.dataFrames && a.dataFrames[vpn] < |m|
    ensures var m' := m[a.dataFrames[vpn] := Splice(m[a.dataFrames[vpn]], 0, src)];
            Loaded(m', a, data, vpn + 1) && OnlyPages(m0, m', who, sid, a.start, vpn + 1)
  {
    hide PageData, Splice, ZeroFrame;
    var f := a.dataFrames[vpn];
    ChunkIsPage(data, vpn - a.start, src);
    var m' := m[f := Splice(m[f], 0, src)];
    forall v: nat | a.Contains(v)
      ensures v in a.dataFrames && a.dataFrames[v] < |m'|
      ensures m'[a.dataFrames[v]] == if v < vpn + 1 then PageData(data, v - a.start) else ZeroFrame()
    {
      assert v != vpn ==> a.dataFrames[v] != f;
    }
  }

  lemma ChunkIsPage(data: seq<byte>, p: nat, src: seq<byte>)
    requires p * PAGE_SIZE <= |data|
    requires src
          == data[p * PAGE_SIZE..if |data| <= p * PAGE_SIZE + PAGE_SIZE then |data| else p * PAGE_SIZE + PAGE_SIZE]
    ensures |src| <= PAGE_SIZE && Splice(ZeroFrame(), 0, src) == PageData(data, p)
  {
  }

  /** `copy_data`: page by page from the start of the area; the pages behind the data stay zero. */
  method CopyData(ms: MemorySet, k: nat, data: seq<byte>, fm: FrameMemory)
    requires ms.Valid(fm) && k < |ms.areas| && ms.areas[k].mapType == Framed && ms.areas[k].start < ms.areas[k].end
    requires |data| <= (ms.areas[k].end - ms.areas[k].start) * PAGE_SIZE
    requires Loaded(fm.mem, ms.areas[k], data, ms.areas[k].start)
    modifies fm`mem
    ensures ms.Valid(fm) && Loaded(fm.mem, ms.areas[k], data, ms.areas[k].end)
    ensures OnlyPages(old(fm.mem), fm.mem, fm.who, ms.pt.sid, ms.areas[k].start, ms.areas[k].end)
  {
    hide AreasOk, Refines, TableOk, Loaded, OnlyPages;
    var a := ms.areas[k];
    CopyNone(fm.mem, fm.who, ms.pt.sid, a, a);
    var start, vpn := 0, a.start;
    while true
      invariant ms.Valid(fm) && a.Contains(vpn) && start == (vpn - a.start) * PAGE_SIZE && start <= |data|
      invariant Loaded(fm.mem, a, data, vpn) && OnlyPages(old(fm.mem), fm.mem, fm.who, ms.pt.sid, a.start, vpn)
      decreases a.end - vpn
    {
      CopyChunk(ms, k, vpn, start, data, fm, old(fm.mem));
      start := start + PAGE_SIZE;
      if start >= |data| {
        break;
      }
      vpn := vpn + 1;
    }
    RestIsZero(old(fm.mem), fm.mem, fm.who, ms.pt.sid, a, data, vpn + 1);
  }

  lemma RestIsZero(m0: Memory, m: Memory, who: Owners, sid: nat, a: MapArea, data: seq<byte>, vpn: nat)
    requires Loaded(m, a, data, vpn) && OnlyPages(m0, m, who, sid, a.start, vpn) && a.start <= vpn <= a.end
    requires |data| <= (vpn - a.start) * PAGE_SIZE
    ensures Loaded(m, a, data, a.end) && OnlyPages(m0, m, who, sid, a.start, a.end)
  {
    forall v: nat | a.Contains(v) && vpn <= v
      ensures PageData(data, v - a.start) == ZeroFrame()
    {
      assert (v - a.start) * PAGE_SIZE >= (vpn - a.start) * PAGE_SIZE;
    }
  }

  /** `push` with data: a new area that reads as `data` followed by zeros. */
  method PushData(ms: MemorySet, area: MapArea, data: seq<byte>, fm: FrameMemory) returns (ok: bool)
    requires ms.Valid(fm) && area.start < area.end <= VPN_LIMIT && area.dataFrames == map[] && area.mapType == Framed
    requires forall vpn: nat | area.Contains(vpn) :: vpn !in ms.pt.pages
    requires |data| <= (area.end - area.start) * PAGE_SIZE
    modifies ms, ms.pt, fm
    ensures !ok ==> fm.Exhausted()
    ensures ok ==>
              && ms.Valid(fm) && ms.pt.root == old(ms.pt.root) && |ms.areas| == |old(ms.areas)| + 1
              && ms.areas[..|old(ms.areas)|] == old(ms.areas)
              && ms.areas[|old(ms.areas)|] == area.(dataFrames := ms.areas[|old(ms.areas)|].dataFrames)
              && (forall vpn :: vpn in ms.pt.pages <==> vpn in old(ms.pt.pages) || area.Contains(vpn))
              && (forall vpn | vpn in old(ms.pt.pages) :: ms.pt.pages[vpn] == old(ms.pt.pages)[vpn])
              && Loaded(fm.mem, ms.areas[|old(ms.areas)|], data, area.end)
              && Aside(old(fm.mem), old(fm.who), fm.mem, fm.who, ms.pt.sid)
              && KeepsData(old(fm.mem), old(fm.who), fm.mem, fm.who)
  {
    hide AreasOk, Refines, TableOk, Loaded, OnlyPages, Grew, Aside, KeepsData;
    ghost var m0, w0, k, pages := fm.mem, fm.who, |ms.areas|, ms.pt.pages;
    ghost var before := ms.areas;
    ok := ms.Push(area, fm);
    if !ok {
      return;
    }
    ghost var m1 := fm.mem;
    NewAreaIsZero(m0, w0, fm.mem, fm.who, ms.pt.sid, ms.pt.root, before, pages, ms.areas, ms.pt.pages, data);
    CopyData(ms, |ms.areas| - 1, data, fm);
    LoadAside(m0, w0, m1, fm.who, fm.mem, ms.pt.sid, before, pages, area.start, area.end);
  }

  /** Data frames in use before keep their use and their bytes. */
  ghost predicate KeepsData(m: Memory, w: Owners, m': Memory, w': Owners)
  {
    |m'| == |m| && forall f | f in w && w[f].Data? && f < |m| :: f in w' && w'[f] == w[f] && m'[f] == m[f]
  }

  /** A page that was not mapped had no frame. */
  lemma UnmappedHasNone(areas: seq<MapArea>, pages: Pages, who: Owners, sid: nat, f: nat)
    requires AreasOk(areas, pages, who, sid) && f in who && who[f].Data? && who[f].sid == sid
    ensures who[f].vpn in pages
  {
    var vpn := who[f].vpn;
    assert Backed(areas, vpn, f);
    var i: nat :| i < |areas| && vpn in areas[i].dataFrames && areas[i].dataFrames[vpn] == f;
    assert AreaOk(areas[i], pages, who, sid) && areas[i].Contains(vpn);
  }

  lemma NewAreaIsZero(m0: Memory, w0: Owners, m: Memory, w: Owners, sid: nat, root: nat, before: seq<MapArea>,
                      pages: Pages, areas: seq<MapArea>, pages': Pages, data: seq<byte>)
    requires Grew(m0, w0, m, w, sid) && AreasOk(before, pages, w0, sid) && AreasOk(areas, pages', w, sid)
    requires TableOk(m, w, sid, root) && |areas| > 0
    requires areas[|areas| - 1].mapType == Framed && forall v: nat | areas[|areas| - 1].Contains(v) :: v !in pages
    ensures Loaded(m, areas[|areas| - 1], data, areas[|areas| - 1].start)
  {
    var a := areas[|areas| - 1];
    assert AreaOk(a, pages', w, sid);
    forall v: nat | a.Contains(v)
      ensures v in a.dataFrames && a.dataFrames[v] < |m| && m[a.dataFrames[v]] == ZeroFrame()
    {
      var f := a.dataFrames[v];
      if f in w0 {
        UnmappedHasNone(before, pages, w0, sid, f);
      }
    }
  }

  lemma LoadAside(m0: Memory, w0: Owners, m1: Memory, w: Owners, m: Memory, sid: nat, before: seq<MapArea>,
                  pages: Pages, lo: nat, hi: nat)
    requires Grew(m0, w0, m1, w, sid) && OnlyPages(m1, m, w, sid, lo, hi)
    requires AreasOk(before, pages, w0, sid) && forall v: nat | lo <= v < hi :: v !in pages
    ensures Aside(m0, w0, m, w, sid) && KeepsData(m0, w0, m, w)
  {
    forall f | f in w0 && w0[f].Data? && w0[f].sid == sid
      ensures !(lo <= w0[f].vpn < hi)
    {
      UnmappedHasNone(before, pages, w0, sid, f);
    }
  }
}
