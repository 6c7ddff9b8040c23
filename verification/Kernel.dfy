/** Every address space of the system over its whole life: made, grown, shrunk, forked, emptied at exit, dropped at
  * `waitpid`. Throughout, each frame handed out is held by exactly one tracker, and none is leaked. */
module Kernel {
  import opened Bytes
  import opened Sv39
  import opened PageTable
  import opened Areas
  import opened MemorySet
  import opened Fork
  import opened Spaces
  import opened Load

  /** User areas are framed and leave the trampoline page alone. */
  ghost predicate UserAreas(areas: seq<MapArea>)
  {
    forall i: nat | i < |areas| :: areas[i].mapType == Framed && !areas[i].Contains(TRAMPOLINE_VPN)
  }

  /** A space in use, or one that has given back its data frames and only has its tables left. */
  ghost predicate Stands(ms: MemorySet, gone: bool, mem: Memory, who: Owners)
    reads ms, ms.pt
  {
    && TableOk(mem, who, ms.pt.sid, ms.pt.root) && Refines(mem, ms.pt.root, ms.pt.pages) && ms.pt.FramesOk(who)
    && (forall vpn | vpn in ms.pt.pages :: vpn < VPN_LIMIT)
    && if gone then ms.areas == [] && NoData(who, ms.pt.sid)
       else AreasOk(ms.areas, ms.pt.pages, who, ms.pt.sid) && TRAMPOLINE_VPN in ms.pt.pages && UserAreas(ms.areas)
  }

  ghost predicate SpacesApart(spaces: seq<MemorySet>)
  {
    forall i: nat, j: nat | i < j < |spaces| ::
      spaces[i] != spaces[j] && spaces[i].pt != spaces[j].pt && spaces[i].pt.sid != spaces[j].pt.sid
  }

  ghost predicate HasSid(spaces: seq<MemorySet>, sid: nat)
  {
    exists i: nat :: i < |spaces| && spaces[i].pt.sid == sid
  }

  /** Every frame in use belongs to one of the spaces. */
  ghost predicate NoLeak(spaces: seq<MemorySet>, who: Owners)
  {
    forall f | f in who :: HasSid(spaces, who[f].sid)
  }

  /** What happened in space `sid` does not concern space `ms`. */
  lemma OtherKept(ms: MemorySet, gone: bool, m: Memory, w: Owners, m': Memory, w': Owners, sid: nat)
    requires Stands(ms, gone, m, w) && Aside(m, w, m', w', sid) && ms.pt.sid != sid && forall f | f in w' :: f < |m'|
    ensures Stands(ms, gone, m', w')
  {
    hide AreasOk, TableOk, Refines;
    AsideKeeps(m, w, m', w', sid, ms.pt.sid, ms.pt.root, ms.pt.pages);
    if !gone {
      AreasFrame(ms.areas, ms.pt.pages, w, w', ms.pt.sid);
    }
  }

  /** Tables are always held by the space they belong to, so a use without a space has a space's number of its own. */
  lemma NoLeakKept(spaces: seq<MemorySet>, m: Memory, w: Owners, m': Memory, w': Owners, sid: nat)
    requires NoLeak(spaces, w) && Aside(m, w, m', w', sid) && HasSid(spaces, sid)
    ensures NoLeak(spaces, w')
  {
  }

  predicate NoneStarts(areas: seq<MapArea>, start: nat)
  {
    forall j | 0 <= j < |areas| :: areas[j].start != start
  }

  /** The first area that starts at `start` is gone, if there is one, and the others are as before. */
  ghost predicate FirstTaken(areas: seq<MapArea>, start: nat, areas': seq<MapArea>)
  {
    && (NoneStarts(areas, start) ==> areas' == areas)
    && (forall k: nat | k < |areas| && areas[k].start == start && NoneStarts(areas[..k], start) ::
          areas' == areas[..k] + areas[k + 1..])
  }

  class Kernel {
    const fm: FrameMemory
    var spaces: seq<MemorySet>
    var exited: set<MemorySet>

    /** Boot: all frames free, no space yet. */
    constructor (fm: FrameMemory)
      requires fm.Valid() && fm.who == map[]
      ensures Ok() && this.fm == fm && spaces == [] && exited == {}
    {
      this.fm, spaces, exited := fm, [], {};
    }

    ghost predicate Ok()
      reads this, fm, spaces, set i | 0 <= i < |spaces| :: spaces[i].pt
    {
      && fm.Valid() && SpacesApart(spaces) && NoLeak(spaces, fm.who)
      && (forall i: nat | i < |spaces| :: Stands(spaces[i], spaces[i] in exited, fm.mem, fm.who))
    }

    /** Where a step in space `i` leaves everything else alone, the whole is as before. */
    twostate lemma StepOk(i: nat)
      requires old(Ok()) && i < |spaces| && spaces == old(spaces) && fm.Valid()
      requires Stands(spaces[i], spaces[i] in exited, fm.mem, fm.who)
      requires Aside(old(fm.mem), old(fm.who), fm.mem, fm.who, spaces[i].pt.sid)
      requires forall j: nat | j < |spaces| && j != i ::
                 unchanged(spaces[j]) && unchanged(spaces[j].pt) && (spaces[j] in exited <==> spaces[j] in old(exited))
      ensures Ok()
    {
      hide Stands, Aside;
      assert HasSid(spaces, spaces[i].pt.sid);
      NoLeakKept(spaces, old(fm.mem), old(fm.who), fm.mem, fm.who, spaces[i].pt.sid);
      forall j: nat | j < |spaces| && j != i
        ensures Stands(spaces[j], spaces[j] in exited, fm.mem, fm.who)
      {
        OtherKept(spaces[j], spaces[j] in exited, old(fm.mem), old(fm.who), fm.mem, fm.who, spaces[i].pt.sid);
      }
    }

    /** `insert_framed_area` in space `i`; false where the code panics for want of a frame. */
    method InsertFramedArea(i: nat, start: nat, end: nat, perm: byte) returns (ok: bool)
      requires Ok() && i < |spaces| && spaces[i] !in exited && start <= end <= VPN_LIMIT
      requires forall vpn | start <= vpn < end :: vpn !in spaces[i].pt.pages
      modifies fm, spaces[i], spaces[i].pt
      ensures !ok ==> fm.Exhausted()
      ensures ok ==>
                && Ok() && |spaces[i].areas| == |old(spaces[i].areas)| + 1
                && spaces[i].areas[..|old(spaces[i].areas)|] == old(spaces[i].areas)
                && spaces[i].areas[|old(spaces[i].areas)|]
                   == MapArea(start, end, spaces[i].areas[|old(spaces[i].areas)|].dataFrames, Framed, perm)
                && (forall vpn :: vpn in spaces[i].pt.pages <==> vpn in old(spaces[i].pt.pages) || start <= vpn < end)
                && (forall vpn | vpn in old(spaces[i].pt.pages) ::
                      spaces[i].pt.pages[vpn] == old(spaces[i].pt.pages)[vpn])
                && Grew(old(fm.mem), old(fm.who), fm.mem, fm.who, spaces[i].pt.sid)
    {
      hide Aside, Grew, AreasOk, TableOk, Refines, NoLeak;
      var ms := spaces[i];
      ok := ms.Push(MapArea(start, end, map[], Framed, perm), fm);
      if ok {
        GrewAside(old(fm.mem), old(fm.who), fm.mem, fm.who, ms.pt.sid);
        assert Stands(ms, false, fm.mem, fm.who) by {
          assert TRAMPOLINE_VPN in old(ms.pt.pages);
          PushUser(old(ms.areas), ms.areas);
        }
        StepOk(i);
      }
    }

    /** `push` of a program segment in space `i`: the new area reads as `data` followed by zeros. */
    method LoadArea(i: nat, start: nat, end: nat, perm: byte, data: seq<byte>) returns (ok: bool)
      requires Ok() && i < |spaces| && spaces[i] !in exited && start < end <= VPN_LIMIT
      requires forall vpn | start <= vpn < end :: vpn !in spaces[i].pt.pages
      requires |data| <= (end - start) * PAGE_SIZE
      modifies fm, spaces[i], spaces[i].pt
      ensures !ok ==> fm.Exhausted()
      ensures ok ==>
                && Ok() && |spaces[i].areas| == |old(spaces[i].areas)| + 1
                && spaces[i].areas[..|old(spaces[i].areas)|] == old(spaces[i].areas)
                && var area := spaces[i].areas[|old(spaces[i].areas)|];
                   && (forall vpn | vpn in old(spaces[i].pt.pages) ::
                         vpn in spaces[i].pt.pages && spaces[i].pt.pages[vpn] == old(spaces[i].pt.pages)[vpn])
                   && area == MapArea(start, end, area.dataFrames, Framed, perm) && Loaded(fm.mem, area, data, end)
                   && KeepsData(old(fm.mem), old(fm.who), fm.mem, fm.who)
    {
      hide Aside, AreasOk, TableOk, Refines, NoLeak, Loaded, KeepsData;
      var ms := spaces[i];
      ok := PushData(ms, MapArea(start, end, map[], Framed, perm), data, fm);
      if ok {
        assert Stands(ms, false, fm.mem, fm.who) by {
          assert TRAMPOLINE_VPN in old(ms.pt.pages);
          PushUser(old(ms.areas), ms.areas);
        }
        StepOk(i);
      }
    }

    /** `remove_area_with_start_vpn` in space `i`. */
    method RemoveArea(i: nat, start: nat)
      requires Ok() && i < |spaces| && spaces[i] !in exited
      modifies fm, spaces[i], spaces[i].pt
      ensures Ok() && Shrank(old(fm.mem), old(fm.who), fm.mem, fm.who, spaces[i].pt.sid)
      ensures FirstTaken(old(spaces[i].areas), start, spaces[i].areas)
      ensures NoneStarts(old(spaces[i].areas), start) ==> spaces[i].pt.pages == old(spaces[i].pt.pages)
      ensures TRAMPOLINE_VPN in spaces[i].pt.pages && TRAMPOLINE_VPN in old(spaces[i].pt.pages)
      ensures spaces[i].pt.pages[TRAMPOLINE_VPN] == old(spaces[i].pt.pages)[TRAMPOLINE_VPN]
    {
      hide Aside, Shrank, AreasOk, TableOk, Refines, NoLeak;
      var ms := spaces[i];
      ghost var before := ms.areas;
      ms.RemoveAreaWithStartVpn(start, fm);
      TakenFirst(before, start, ms.areas);
      ShrankAside(old(fm.mem), old(fm.who), fm.mem, fm.who, ms.pt.sid);
      RemoveUser(before, ms.areas);
      StepOk(i);
    }

    /** `exit`: the data frames of space `i` go back, its tables stay until the process is waited for. */
    method Exit(i: nat)
      requires Ok() && i < |spaces| && spaces[i] !in exited
      modifies this`exited, fm, spaces[i]
      ensures Ok() && exited == old(exited) + {spaces[i]} && spaces[i].areas == [] && fm.mem == old(fm.mem)
      ensures forall f :: f in fm.who <==>
              f in old(fm.who) && !(old(fm.who)[f].Data? && old(fm.who)[f].sid == spaces[i].pt.sid)
      ensures Shrank(old(fm.mem), old(fm.who), fm.mem, fm.who, spaces[i].pt.sid)
    {
      hide Aside, Shrank, AreasOk, TableOk, Refines, NoLeak;
      var ms := spaces[i];
      RecycleDataPages(ms, fm);
      exited := exited + {ms};
      ShrankAside(old(fm.mem), old(fm.who), fm.mem, fm.who, ms.pt.sid);
      StepOk(i);
    }

    /** `waitpid` drops an exited process: its page-table frames go back and the space is gone. */
    method Reap(i: nat)
      requires Ok() && i < |spaces| && spaces[i] in exited
      modifies this, fm
      ensures Ok() && spaces == old(spaces[..i] + spaces[i + 1..]) && exited == old(exited) - {old(spaces[i])}
      ensures forall f :: f in fm.who <==> f in old(fm.who) && old(fm.who)[f].sid != old(spaces[i]).pt.sid
    {
      hide Aside, Stands, NoLeak;
      var ms := spaces[i];
      OnlyTablesLeft(ms, fm.mem, fm.who);
      DropTables(ms.pt, fm);
      ReapAside(old(fm.mem), old(fm.who), fm.who, ms.pt.sid);
      ghost var all := spaces;
      spaces, exited := spaces[..i] + spaces[i + 1..], exited - {ms};
      ReapNoLeak(all, i, old(fm.who), fm.who);
      forall j: nat | j < |spaces|
        ensures Stands(spaces[j], spaces[j] in exited, fm.mem, fm.who)
      {
        assert spaces[j] == all[if j < i then j else j + 1];
        OtherKept(spaces[j], spaces[j] in exited, old(fm.mem), old(fm.who), fm.mem, fm.who, ms.pt.sid);
      }
    }

    /** `exec` replaces the space of a running process, which is dropped with its areas and its tables. */
    method DropLive(i: nat)
      requires Ok() && i < |spaces| && spaces[i] !in exited
      modifies this, fm, spaces[i]
      ensures Ok() && spaces == old(spaces[..i] + spaces[i + 1..]) && exited == old(exited)
      ensures forall f :: f in fm.who <==> f in old(fm.who) && old(fm.who)[f].sid != old(spaces[i]).pt.sid
    {
      hide Kernel.Ok;
      var ms := spaces[i];
      Exit(i);
      Reap(i);
      assert exited == old(exited);
    }

    /** A number no space has. */
    ghost method NewSid() returns (sid: nat)
      requires Ok()
      ensures FreshSid(fm.who, sid) && !HasSid(spaces, sid)
    {
      var sids := set i | 0 <= i < |spaces| :: spaces[i].pt.sid;
      FreshExists(sids);
      sid :| sid !in sids;
    }

    /** A new space beside the others. */
    twostate lemma JoinOk(new ms: MemorySet)
      requires old(Ok()) && spaces == old(spaces) + [ms] && exited == old(exited) && fm.Valid()
      requires fresh(ms) && fresh(ms.pt) && !HasSid(old(spaces), ms.pt.sid)
      requires Stands(ms, false, fm.mem, fm.who)
      requires Aside(old(fm.mem), old(fm.who), fm.mem, fm.who, ms.pt.sid)
      requires forall j: nat | j < |old(spaces)| :: unchanged(old(spaces)[j]) && unchanged(old(spaces)[j].pt)
      ensures Ok()
    {
      hide Stands, Aside;
      assert spaces[|old(spaces)|] == ms;
      assert HasSid(spaces, ms.pt.sid);
      JoinNoLeak(old(spaces), ms, old(fm.mem), old(fm.who), fm.mem, fm.who);
      forall j: nat | j < |spaces|
        ensures Stands(spaces[j], spaces[j] in exited, fm.mem, fm.who)
      {
        if j < |old(spaces)| {
          assert spaces[j] == old(spaces)[j];
          OtherKept(spaces[j], spaces[j] in exited, old(fm.mem), old(fm.who), fm.mem, fm.who, ms.pt.sid);
        }
      }
    }

    /** The first user space: bare, with the trampoline mapped; null where the code panics for want of a frame. */
    method NewUser(trampoline: nat) returns (ms: MemorySet?)
      requires Ok() && trampoline < PPN_LIMIT
      modifies this`spaces, fm
      ensures ms == null ==> fm.Exhausted()
      ensures ms != null ==>
                && fresh(ms) && fresh(ms.pt) && Ok() && spaces == old(spaces) + [ms] && ms.areas == []
                && ms.pt.pages == map[TRAMPOLINE_VPN := (trampoline, V + R + X)]
                && Added(old(fm.mem), old(fm.who), fm.mem, fm.who, ms.pt.sid)
    {
      hide Aside, AreasOk, TableOk, Refines, NoLeak, Added, Grew, FreshSid;
      ghost var sid := NewSid();
      ms := NewBare(fm, sid);
      if ms != null {
        ghost var m1, w1 := fm.mem, fm.who;
        var ok := MapTrampoline(ms, trampoline, fm);
        if !ok {
          return null;
        }
        GrewAdded(old(fm.mem), old(fm.who), m1, w1, fm.mem, fm.who, sid);
        AddedAside(old(fm.mem), old(fm.who), fm.mem, fm.who, sid);
        spaces := spaces + [ms];
        JoinOk(ms);
      }
    }

    /** `from_existed_user` on space `i`; null where the code panics for want of a frame. */
    method ForkSpace(i: nat, trampoline: nat) returns (child: MemorySet?)
      requires Ok() && i < |spaces| && spaces[i] !in exited && trampoline < PPN_LIMIT
      modifies this`spaces, fm
      ensures child == null ==> fm.Exhausted()
      ensures child != null ==>
                && fresh(child) && fresh(child.pt) && Ok() && spaces == old(spaces) + [child]
                && TRAMPOLINE_VPN in child.pt.pages && child.pt.pages[TRAMPOLINE_VPN] == (trampoline, V + R + X)
                && |child.areas| == |spaces[i].areas| && Copies(old(fm.mem), fm.mem, spaces[i].areas, child.areas)
                && Added(old(fm.mem), old(fm.who), fm.mem, fm.who, child.pt.sid)
    {
      hide Aside, AreasOk, TableOk, Refines, NoLeak, Added, Copies, FreshSid;
      ghost var sid := NewSid();
      child := FromExistedUser(spaces[i], trampoline, fm, sid);
      if child != null {
        FramesExist(fm.mem, fm.who, child.pt.sid, child.pt.root);
        AddedAside(old(fm.mem), old(fm.who), fm.mem, fm.who, sid);
        CopiedUser(old(fm.mem), fm.mem, spaces[i].areas, child.areas);
        spaces := spaces + [child];
        JoinOk(child);
      }
    }
  }

  lemma TakenFirst(areas: seq<MapArea>, start: nat, areas': seq<MapArea>)
    requires (forall j | 0 <= j < |areas| :: areas[j].start != start) ==> areas' == areas
    requires forall k: nat | k < |areas| && areas[k].start == start
             && (forall j | 0 <= j < k :: areas[j].start != start) ::
               areas' == areas[..k] + areas[k + 1..]
    ensures FirstTaken(areas, start, areas')
  {
    forall k: nat | k < |areas| && areas[k].start == start && NoneStarts(areas[..k], start)
      ensures areas' == areas[..k] + areas[k + 1..]
    {
      assert forall j | 0 <= j < k :: areas[j] == areas[..k][j];
    }
  }

  lemma OnlyTablesLeft(ms: MemorySet, m: Memory, w: Owners)
    requires Stands(ms, true, m, w)
    ensures ms.pt.FramesOk(w) && NoData(w, ms.pt.sid)
  {
  }

  /** Drop of a page table: every frame it holds goes back, each one once. */
  method DropTables(pt: PageTable, fm: FrameMemory)
    requires fm.Valid() && pt.FramesOk(fm.who)
    modifies fm
    ensures fm.Valid() && fm.mem == old(fm.mem)
    ensures forall f :: f in fm.who <==> f in old(fm.who) && !(old(fm.who)[f].Table? && old(fm.who)[f].sid == pt.sid)
    ensures forall f | f in fm.who :: fm.who[f] == old(fm.who)[f]
  {
    for k := 0 to |pt.frames|
      invariant fm.Valid() && fm.mem == old(fm.mem)
      invariant forall f :: f in fm.who <==> f in old(fm.who) && f !in pt.frames[..k]
      invariant forall f | f in fm.who :: fm.who[f] == old(fm.who)[f]
    {
      assert pt.frames[k] in pt.frames;
      fm.FrameDealloc(pt.frames[k]);
    }
    assert pt.frames[..|pt.frames|] == pt.frames;
  }

  lemma ReapAside(m: Memory, w: Owners, w': Owners, sid: nat)
    requires NoData(w, sid) && forall f :: f in w' <==> f in w && !(w[f].Table? && w[f].sid == sid)
    requires forall f | f in w' :: w'[f] == w[f]
    ensures Aside(m, w, m, w', sid) && forall f :: f in w' <==> f in w && w[f].sid != sid
  {
  }

  lemma ReapNoLeak(spaces: seq<MemorySet>, i: nat, w: Owners, w': Owners)
    requires NoLeak(spaces, w) && i < |spaces|
    requires forall f | f in w' :: f in w && w'[f] == w[f] && w[f].sid != spaces[i].pt.sid
    ensures NoLeak(spaces[..i] + spaces[i + 1..], w')
  {
    var rest := spaces[..i] + spaces[i + 1..];
    forall f | f in w'
      ensures HasSid(rest, w'[f].sid)
    {
      var j: nat :| j < |spaces| && spaces[j].pt.sid == w[f].sid;
      assert rest[if j < i then j else j - 1] == spaces[j];
    }
  }

  lemma JoinNoLeak(spaces: seq<MemorySet>, ms: MemorySet, m: Memory, w: Owners, m': Memory, w': Owners)
    requires NoLeak(spaces, w) && Aside(m, w, m', w', ms.pt.sid)
    ensures NoLeak(spaces + [ms], w')
  {
    var all := spaces + [ms];
    assert all[|spaces|] == ms;
    forall f | f in w'
      ensures HasSid(all, w'[f].sid)
    {
      if w'[f].sid != ms.pt.sid {
        var j: nat :| j < |spaces| && spaces[j].pt.sid == w[f].sid;
        assert all[j] == spaces[j];
      }
    }
  }

  lemma FramesExist(m: Memory, w: Owners, sid: nat, root: nat)
    requires TableOk(m, w, sid, root)
    ensures forall f | f in w :: f < |m|
  {
    forall f | f in w ensures f < |m| { FramesInMemory(m, w, sid, root, f); }
  }

  lemma CopiedUser(m0: Memory, m: Memory, ps: seq<MapArea>, cs: seq<MapArea>)
    requires Copies(m0, m, ps, cs) && |ps| == |cs| && UserAreas(ps)
    ensures UserAreas(cs)
  {
  }

  lemma PushUser(areas: seq<MapArea>, areas': seq<MapArea>)
    requires UserAreas(areas) && |areas'| == |areas| + 1 && areas'[..|areas|] == areas
    requires areas'[|areas|].mapType == Framed && !areas'[|areas|].Contains(TRAMPOLINE_VPN)
    ensures UserAreas(areas')
  {
    forall i: nat | i < |areas'|
      ensures areas'[i].mapType == Framed && !areas'[i].Contains(TRAMPOLINE_VPN)
    {
      assert i < |areas| ==> areas'[i] == areas[i];
    }
  }

  lemma RemoveUser(areas: seq<MapArea>, areas': seq<MapArea>)
    requires UserAreas(areas) && forall i | 0 <= i < |areas'| :: areas'[i] in areas
    ensures UserAreas(areas') && !Covered(areas, TRAMPOLINE_VPN)
  {
  }

  // ---------------------------------------------------------------- who holds a frame

  /** The trackers of the system: entry `slot` of a page table's frames, or the entry of a page in an area. */
  datatype Tracker = TableTracker(space: nat, slot: nat) | DataTracker(space: nat, area: nat, vpn: nat)

  ghost predicate Holding(k: Kernel, t: Tracker)
    reads k, k.spaces, set i | 0 <= i < |k.spaces| :: k.spaces[i].pt
  {
    && t.space < |k.spaces|
    && match t
       case TableTracker(i, slot) => slot < |k.spaces[i].pt.frames|
       case DataTracker(i, a, vpn) => a < |k.spaces[i].areas| && vpn in k.spaces[i].areas[a].dataFrames
  }

  ghost function FrameOf(k: Kernel, t: Tracker): (f: nat)
    requires Holding(k, t)
    reads k, k.spaces, set i | 0 <= i < |k.spaces| :: k.spaces[i].pt
  {
    match t
    case TableTracker(i, slot) => k.spaces[i].pt.frames[slot]
    case DataTracker(i, a, vpn) => k.spaces[i].areas[a].dataFrames[vpn]
  }

  ghost predicate HeldBy(k: Kernel, t: Tracker, f: nat)
    reads k, k.spaces, set i | 0 <= i < |k.spaces| :: k.spaces[i].pt
  {
    Holding(k, t) && FrameOf(k, t) == f
  }

  /** Handed out by the allocator and not given back. */
  ghost predicate HandedOut(fm: FrameMemory, f: nat)
    reads fm
  {
    fm.start <= f < fm.current && f !in fm.recycled
  }

  lemma TrackerUse(k: Kernel, t: Tracker, f: nat)
    requires k.Ok() && HeldBy(k, t, f)
    ensures f in k.fm.who && k.fm.who[f].sid == k.spaces[t.space].pt.sid
    ensures t.TableTracker? ==> k.fm.who[f].Table?
    ensures t.DataTracker? ==> k.fm.who[f] == Data(k.spaces[t.space].pt.sid, t.vpn) && k.spaces[t.space] !in k.exited
  {
    var ms := k.spaces[t.space];
    assert Stands(ms, ms in k.exited, k.fm.mem, k.fm.who);
    match t
    case TableTracker(_, slot) => assert ms.pt.frames[slot] in ms.pt.frames;
    case DataTracker(_, a, vpn) => assert AreaOk(ms.areas[a], ms.pt.pages, k.fm.who, ms.pt.sid);
  }

  /** Two trackers never hold the same frame, so no frame is given back twice. */
  lemma OneTracker(k: Kernel, t: Tracker, u: Tracker, f: nat)
    requires k.Ok() && HeldBy(k, t, f) && HeldBy(k, u, f)
    ensures t == u
  {
    hide Stands;
    TrackerUse(k, t, f);
    TrackerUse(k, u, f);
    assert t.space == u.space;
    var ms := k.spaces[t.space];
    if t.DataTracker? {
      OneArea(ms, k.fm.mem, k.fm.who, t.area, u.area, t.vpn);
    } else {
      OneSlot(ms, ms in k.exited, k.fm.mem, k.fm.who, t.slot, u.slot);
    }
  }

  lemma OneArea(ms: MemorySet, m: Memory, w: Owners, a: nat, b: nat, vpn: nat)
    requires Stands(ms, false, m, w) && a < |ms.areas| && b < |ms.areas|
    requires vpn in ms.areas[a].dataFrames && vpn in ms.areas[b].dataFrames
    ensures a == b
  {
    assert AreaOk(ms.areas[a], ms.pt.pages, w, ms.pt.sid) && AreaOk(ms.areas[b], ms.pt.pages, w, ms.pt.sid);
    assert ms.areas[a].Contains(vpn) && ms.areas[b].Contains(vpn);
  }

  lemma OneSlot(ms: MemorySet, gone: bool, m: Memory, w: Owners, a: nat, b: nat)
    requires Stands(ms, gone, m, w) && a < |ms.pt.frames| && b < |ms.pt.frames|
    ensures ms.pt.frames[a] == ms.pt.frames[b] <==> a == b
  {
  }

  /** Conservation: the frames handed out are exactly the frames some tracker holds. */
  lemma HandedOutIsHeld(k: Kernel, f: nat)
    requires k.Ok()
    ensures HandedOut(k.fm, f) <==> exists t :: HeldBy(k, t, f)
  {
    hide Stands;
    forall t | HeldBy(k, t, f) ensures HandedOut(k.fm, f) { TrackerUse(k, t, f); }
    if HandedOut(k.fm, f) {
      var i: nat :| i < |k.spaces| && k.spaces[i].pt.sid == k.fm.who[f].sid;
      FindTracker(k, i, f);
    }
  }

  lemma FindTracker(k: Kernel, i: nat, f: nat)
    requires k.Ok() && i < |k.spaces| && f in k.fm.who && k.fm.who[f].sid == k.spaces[i].pt.sid
    ensures exists t :: HeldBy(k, t, f)
  {
    hide TableOk, Refines, Apart, AreaOk, AllCovered;
    var ms := k.spaces[i];
    assert Stands(ms, ms in k.exited, k.fm.mem, k.fm.who);
    if k.fm.who[f].Table? {
      var slot: nat :| slot < |ms.pt.frames| && ms.pt.frames[slot] == f;
      assert HeldBy(k, TableTracker(i, slot), f);
    } else {
      var vpn := k.fm.who[f].vpn;
      assert Backed(ms.areas, vpn, f);
      var a: nat :| a < |ms.areas| && vpn in ms.areas[a].dataFrames && ms.areas[a].dataFrames[vpn] == f;
      assert HeldBy(k, DataTracker(i, a, vpn), f);
    }
  }

  /** Once every process has been waited for, every frame is back. */
  lemma AllReturned(k: Kernel, f: nat)
    requires k.Ok() && k.spaces == []
    ensures !HandedOut(k.fm, f)
  {
    HandedOutIsHeld(k, f);
  }
}
