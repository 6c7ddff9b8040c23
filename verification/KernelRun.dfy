/** Whole runs of all address spaces: whatever is created, grown, shrunk, forked, replaced, emptied and dropped, in
  * every state the frames handed out are exactly the frames held, each by one tracker, and only running out of
  * frames stops a run. */
module KernelRun {
  import opened Bytes
  import opened Wrappers
  import opened Sv39
  import opened PageTable
  import opened Areas
  import opened MemorySet
  import opened Fork
  import opened Load
  import opened Kernel

  /** What a space shows: whether it was emptied at exit, and its areas. */
  datatype AreaView = AreaView(start: nat, end: nat, perm: byte)
  datatype SpaceView = SpaceView(gone: bool, areas: seq<AreaView>)

  datatype Event =
    | NewSpace(trampoline: nat)
    | Insert(i: nat, start: nat, end: nat, perm: byte)
    | Segment(i: nat, start: nat, end: nat, perm: byte, data: seq<byte>)
    | Remove(i: nat, start: nat)
    | ForkOf(i: nat, trampoline: nat)
    | ExitOf(i: nat)
    | Replaced(i: nat)
    | WaitedFor(i: nat)

  /** The pages `start` up to `end` are in no area and are not the trampoline. */
  predicate Unused(areas: seq<AreaView>, start: nat, end: nat)
  {
    && !(start <= TRAMPOLINE_VPN < end)
    && forall j | 0 <= j < |areas| ::
       start >= end || areas[j].start >= areas[j].end || end <= areas[j].start || areas[j].end <= start
  }

  /** What the kernel asks of spaces that are there: areas on unused pages, data that fits. */
  predicate Possible(v: seq<SpaceView>, e: Event)
  {
    match e
    case NewSpace(t) => t < PPN_LIMIT
    case Insert(i, start, end, _) => i < |v| && !v[i].gone && start <= end <= VPN_LIMIT
         && Unused(v[i].areas, start, end)
    case Segment(i, start, end, _, data) =>
      && i < |v| && !v[i].gone && start < end <= VPN_LIMIT && Unused(v[i].areas, start, end)
      && |data| <= (end - start) * PAGE_SIZE
    case Remove(i, _) => i < |v| && !v[i].gone
    case ForkOf(i, t) => i < |v| && !v[i].gone && t < PPN_LIMIT
    case ExitOf(i) => i < |v| && !v[i].gone
    case Replaced(i) => i < |v| && !v[i].gone
    case WaitedFor(i) => i < |v| && v[i].gone
  }

  /** The areas without the first one that starts at `start`. */
  function WithoutFirst(areas: seq<AreaView>, start: nat): (r: seq<AreaView>)
  {
    if areas == [] then []
    else if areas[0].start == start then areas[1..]
    else [areas[0]] + WithoutFirst(areas[1..], start)
  }

  function Next(v: seq<SpaceView>, e: Event): (v': seq<SpaceView>)
    requires Possible(v, e)
  {
    match e
    case NewSpace(_) => v + [SpaceView(false, [])]
    case Insert(i, start, end, perm) => v[i := v[i].(areas := v[i].areas + [AreaView(start, end, perm)])]
    case Segment(i, start, end, perm, _) => v[i := v[i].(areas := v[i].areas + [AreaView(start, end, perm)])]
    case Remove(i, start) => v[i := v[i].(areas := WithoutFirst(v[i].areas, start))]
    case ForkOf(i, _) => v + [v[i]]
    case ExitOf(i) => v[i := SpaceView(true, [])]
    case Replaced(i) => v[..i] + v[i + 1..]
    case WaitedFor(i) => v[..i] + v[i + 1..]
  }

  function ShapeOf(areas: seq<MapArea>): (r: seq<AreaView>)
    ensures |r| == |areas| && forall j | 0 <= j < |r| :: r[j] == AreaView(areas[j].start, areas[j].end, areas[j].perm)
  {
    if areas == [] then []
    else
      var n := |areas| - 1;
      ShapeOf(areas[..n]) + [AreaView(areas[n].start, areas[n].end, areas[n].perm)]
  }

  function ViewFrom(spaces: seq<MemorySet>, exited: set<MemorySet>): (v: seq<SpaceView>)
    reads spaces
    ensures |v| == |spaces|
    ensures forall i | 0 <= i < |v| :: v[i] == SpaceView(spaces[i] in exited, ShapeOf(spaces[i].areas))
  {
    if spaces == [] then []
    else
      var n := |spaces| - 1;
      ViewFrom(spaces[..n], exited) + [SpaceView(spaces[n] in exited, ShapeOf(spaces[n].areas))]
  }

  function ViewOf(k: Kernel): (v: seq<SpaceView>)
    reads k, k.spaces
  {
    ViewFrom(k.spaces, k.exited)
  }

  // ---------------------------------------------------------------- the trampoline

  /** Frame and flags of the trampoline page in a space, if it is mapped. */
  ghost function TrampIn(pages: Pages): (t: Option<(nat, nat)>)
  {
    if TRAMPOLINE_VPN in pages then Some(pages[TRAMPOLINE_VPN]) else None
  }

  /** `ts` are the trampolines of the spaces. */
  ghost predicate HasTramps(k: Kernel, ts: seq<Option<(nat, nat)>>)
    reads k, set i | 0 <= i < |k.spaces| :: k.spaces[i].pt
  {
    |ts| == |k.spaces| && forall i | 0 <= i < |ts| :: ts[i] == TrampIn(k.spaces[i].pt.pages)
  }

  /** A space gets its trampoline when it is made, from the frame given then, and keeps it. */
  ghost function NextTramps(ts: seq<Option<(nat, nat)>>, e: Event): (ts': seq<Option<(nat, nat)>>)
  {
    match e
    case NewSpace(t) => ts + [Some((t, V + R + X))]
    case ForkOf(_, t) => ts + [Some((t, V + R + X))]
    case Replaced(i) => if i < |ts| then ts[..i] + ts[i + 1..] else ts
    case WaitedFor(i) => if i < |ts| then ts[..i] + ts[i + 1..] else ts
    case _ => ts
  }

  /** The page tables in memory translate the trampoline page accordingly. */
  lemma TrampIs(k: Kernel, ts: seq<Option<(nat, nat)>>, i: nat)
    requires k.Ok() && HasTramps(k, ts) && i < |k.spaces|
    ensures ts[i] == Leaf(k.fm.mem, k.spaces[i].pt.root, TRAMPOLINE_VPN)
  {
    hide TableOk, AreasOk, Leaf, NoLeak, FrameMemory.Valid;
    assert Stands(k.spaces[i], k.spaces[i] in k.exited, k.fm.mem, k.fm.who);
  }

  lemma SameTramp(pages: Pages, pages': Pages)
    requires TRAMPOLINE_VPN in pages && TRAMPOLINE_VPN in pages'
    requires pages'[TRAMPOLINE_VPN] == pages[TRAMPOLINE_VPN]
    ensures TrampIn(pages') == TrampIn(pages)
  {
  }

  lemma NewTramp(pages: Pages, t: nat)
    requires TRAMPOLINE_VPN in pages && pages[TRAMPOLINE_VPN] == (t, V + R + X)
    ensures TrampIn(pages) == Some((t, V + R + X))
  {
  }

  lemma TrampsCut(k: Kernel, all: seq<MemorySet>, ts: seq<Option<(nat, nat)>>, i: nat)
    requires i < |all| == |ts| && forall j: nat | j < |all| && j != i :: ts[j] == TrampIn(all[j].pt.pages)
    requires k.spaces == all[..i] + all[i + 1..]
    ensures HasTramps(k, ts[..i] + ts[i + 1..])
  {
    hide TrampIn;
    var w := ts[..i] + ts[i + 1..];
    forall j: nat | j < |w|
      ensures w[j] == TrampIn(k.spaces[j].pt.pages)
    {
      var m := if j < i then j else j + 1;
      assert k.spaces[j] == all[m] && w[j] == ts[m];
    }
  }

  // ---------------------------------------------------------------- who holds what

  /** The frames out of the allocator, and the frame each tracker holds. */
  datatype Books = Books(out: iset<nat>, held: imap<Tracker, nat>)

  ghost function BooksOf(k: Kernel): (b: Books)
    reads k, k.fm, k.spaces, set i | 0 <= i < |k.spaces| :: k.spaces[i].pt
  {
    Books(iset f: nat | HandedOut(k.fm, f), imap t: Tracker | Holding(k, t) :: FrameOf(k, t))
  }

  /** Every frame out is held by a tracker, every frame held is out, and no frame is held twice. */
  ghost predicate Balanced(b: Books)
  {
    && (forall f | f in b.out :: exists t :: t in b.held && b.held[t] == f)
    && (forall t | t in b.held :: b.held[t] in b.out)
    && (forall t, u | t in b.held && u in b.held && b.held[t] == b.held[u] :: t == u)
  }

  lemma OkIsBalanced(k: Kernel)
    requires k.Ok()
    ensures Balanced(BooksOf(k))
  {
    hide k.Ok;
    var b := BooksOf(k);
    forall f | f in b.out
      ensures exists t :: t in b.held && b.held[t] == f
    {
      HandedOutIsHeld(k, f);
      var t :| HeldBy(k, t, f);
      assert t in b.held && b.held[t] == f;
    }
    forall t | t in b.held
      ensures b.held[t] in b.out
    {
      assert HeldBy(k, t, FrameOf(k, t));
      HandedOutIsHeld(k, FrameOf(k, t));
    }
    forall t, u | t in b.held && u in b.held && b.held[t] == b.held[u]
      ensures t == u
    {
      OneTracker(k, t, u, FrameOf(k, t));
    }
  }

  // ---------------------------------------------------------------- steps

  /** Pages in no area and not the trampoline are not mapped. */
  lemma UnusedIsUnmapped(ms: MemorySet, mem: Memory, who: Owners, start: nat, end: nat)
    requires Stands(ms, false, mem, who) && Unused(ShapeOf(ms.areas), start, end)
    ensures forall vpn | start <= vpn < end :: vpn !in ms.pt.pages
  {
    hide TableOk, Refines;
    forall vpn: nat | start <= vpn < end
      ensures !Covered(ms.areas, vpn)
    {
      forall j: nat | j < |ms.areas|
        ensures !ms.areas[j].Contains(vpn)
      {
        assert ShapeOf(ms.areas)[j].start == ms.areas[j].start;
      }
    }
  }

  lemma ShapeAppend(areas: seq<MapArea>, areas': seq<MapArea>)
    requires |areas'| == |areas| + 1 && areas'[..|areas|] == areas
    ensures var a := areas'[|areas|]; ShapeOf(areas') == ShapeOf(areas) + [AreaView(a.start, a.end, a.perm)]
  {
  }

  lemma {:induction false} WithoutFirstNone(areas: seq<AreaView>, start: nat)
    requires forall j | 0 <= j < |areas| :: areas[j].start != start
    ensures WithoutFirst(areas, start) == areas
  {
    if areas != [] {
      WithoutFirstNone(areas[1..], start);
    }
  }

  lemma {:induction false} WithoutFirstAt(areas: seq<AreaView>, start: nat, k: nat)
    requires k < |areas| && areas[k].start == start && forall j | 0 <= j < k :: areas[j].start != start
    ensures WithoutFirst(areas, start) == areas[..k] + areas[k + 1..]
  {
    if k > 0 {
      WithoutFirstAt(areas[1..], start, k - 1);
    }
  }

  /** The first area that starts at `start`, or the number of areas. */
  lemma FirstStart(areas: seq<MapArea>, start: nat) returns (k: nat)
    ensures k <= |areas| && (forall j | 0 <= j < k :: areas[j].start != start)
            && (k < |areas| ==> areas[k].start == start)
  {
    k := 0;
    while k < |areas| && areas[k].start != start
      invariant k <= |areas| && forall j | 0 <= j < k :: areas[j].start != start
    {
      k := k + 1;
    }
  }

  lemma ShapeCut(areas: seq<MapArea>, k: nat)
    requires k < |areas|
    ensures ShapeOf(areas[..k] + areas[k + 1..]) == ShapeOf(areas)[..k] + ShapeOf(areas)[k + 1..]
  {
    hide ShapeOf;
    var a, b := ShapeOf(areas[..k] + areas[k + 1..]), ShapeOf(areas)[..k] + ShapeOf(areas)[k + 1..];
    forall j | 0 <= j < |areas| - 1
      ensures a[j] == b[j]
    {
      if j < k { assert b[j] == ShapeOf(areas)[j]; } else { assert b[j] == ShapeOf(areas)[j + 1]; }
    }
  }

  lemma ShapeWithout(areas: seq<MapArea>, start: nat, areas': seq<MapArea>)
    requires FirstTaken(areas, start, areas')
    ensures ShapeOf(areas') == WithoutFirst(ShapeOf(areas), start)
  {
    hide WithoutFirst;
    var k := FirstStart(areas, start);
    var v := ShapeOf(areas);
    if k < |areas| {
      WithoutFirstAt(v, start, k);
      ShapeCut(areas, k);
    } else {
      WithoutFirstNone(v, start);
    }
  }

  lemma ShapeCopied(m0: Memory, m: Memory, ps: seq<MapArea>, cs: seq<MapArea>)
    requires Copies(m0, m, ps, cs) && |ps| == |cs|
    ensures ShapeOf(cs) == ShapeOf(ps)
  {
    forall j: nat | j < |ps| ensures ShapeOf(cs)[j] == ShapeOf(ps)[j] { assert SameShape(ps[j], cs[j]); }
  }

  /** Space `i` has new areas or was emptied, and nothing else changed. */
  lemma OneChanged(k: Kernel, v: seq<SpaceView>, i: nat)
    requires i < |k.spaces| == |v|
    requires forall j: nat | j < |v| && j != i :: v[j] == SpaceView(k.spaces[j] in k.exited, ShapeOf(k.spaces[j].areas))
    ensures ViewOf(k) == v[i := SpaceView(k.spaces[i] in k.exited, ShapeOf(k.spaces[i].areas))]
  {
  }

  /** Space `i` is no longer there, and nothing else changed. */
  lemma OneGone(k: Kernel, all: seq<MemorySet>, v: seq<SpaceView>, i: nat)
    requires i < |all| == |v| && k.spaces == all[..i] + all[i + 1..]
    requires forall j: nat | j < |v| && j != i :: v[j] == SpaceView(all[j] in k.exited, ShapeOf(all[j].areas))
    ensures ViewOf(k) == v[..i] + v[i + 1..]
  {
    hide ShapeOf, ViewFrom;
    var w := v[..i] + v[i + 1..];
    forall j: nat | j < |w|
      ensures ViewOf(k)[j] == w[j]
    {
      var m := if j < i then j else j + 1;
      assert k.spaces[j] == all[m] && w[j] == v[m];
    }
  }

  /** Which spaces are there after the event. */
  ghost predicate SpacesAfter(e: Event, before: seq<MemorySet>, now: seq<MemorySet>, exited: set<MemorySet>)
  {
    match e
    case NewSpace(_) => |now| == |before| + 1 && now[..|before|] == before
    case ForkOf(_, _) => |now| == |before| + 1 && now[..|before|] == before
    case Replaced(i) => i < |before| && now == before[..i] + before[i + 1..]
    case WaitedFor(i) => i < |before| && now == before[..i] + before[i + 1..]
    case ExitOf(i) => i < |before| && now == before && now[i] in exited
    case _ => now == before
  }

  lemma SameSpaces(e: Event, spaces: seq<MemorySet>, exited: set<MemorySet>)
    requires e.Insert? || e.Segment? || e.Remove? || (e.ExitOf? && e.i < |spaces| && spaces[e.i] in exited)
    ensures SpacesAfter(e, spaces, spaces, exited)
  {
  }

  lemma OneMore(e: Event, before: seq<MemorySet>, now: seq<MemorySet>, ms: MemorySet, exited: set<MemorySet>)
    requires (e.NewSpace? || e.ForkOf?) && now == before + [ms]
    ensures SpacesAfter(e, before, now, exited)
  {
  }

  lemma OneLess(e: Event, before: seq<MemorySet>, now: seq<MemorySet>, exited: set<MemorySet>)
    requires (e.Replaced? || e.WaitedFor?) && e.i < |before| && now == before[..e.i] + before[e.i + 1..]
    ensures SpacesAfter(e, before, now, exited)
  {
  }

  lemma Distinct(k: Kernel, i: nat)
    requires k.Ok() && i < |k.spaces|
    ensures forall j: nat | j < |k.spaces| && j != i :: k.spaces[j] != k.spaces[i]
    ensures forall j: nat | j < |k.spaces| && j != i :: k.spaces[j].pt != k.spaces[i].pt
    ensures k.spaces[i] !in k.exited ==> Stands(k.spaces[i], false, k.fm.mem, k.fm.who)
    ensures k.spaces[i] !in k.exited ==> TRAMPOLINE_VPN in k.spaces[i].pt.pages
  {
  }

  method Grow(k: Kernel, e: Event, ghost ts: seq<Option<(nat, nat)>>) returns (ok: bool)
    requires k.Ok() && e.Insert? && Possible(ViewOf(k), e) && HasTramps(k, ts)
    modifies k, k.fm, k.spaces, set i | 0 <= i < |k.spaces| :: k.spaces[i].pt
    ensures !ok ==> k.fm.Exhausted()
    ensures ok ==> k.Ok() && ViewOf(k) == old(Next(ViewOf(k), e))
    ensures ok ==> HasTramps(k, NextTramps(ts, e))
    ensures ok ==> SpacesAfter(e, old(k.spaces), k.spaces, k.exited)
    ensures ok ==> forall i | 0 <= i < |k.spaces| ::
            k.spaces[i] in old(k.spaces) || (fresh(k.spaces[i]) && fresh(k.spaces[i].pt))
  {
    hide Stands, NoLeak, ShapeOf, Copies, Grew, Shrank, Added, Loaded, KeepsData, FrameMemory.Valid, TrampIn;
    hide MemorySet.Valid, AreasOk, Refines, TableOk, SpacesApart, PageTable.FramesOk, SpacesAfter;
    ghost var v := ViewOf(k);
    var ms := k.spaces[e.i];
    Distinct(k, e.i);
    UnusedIsUnmapped(ms, k.fm.mem, k.fm.who, e.start, e.end);
    ok := k.InsertFramedArea(e.i, e.start, e.end, e.perm);
    if ok {
      ShapeAppend(old(ms.areas), ms.areas);
      OneChanged(k, v, e.i);
      SameTramp(old(ms.pt.pages), ms.pt.pages);
      SameSpaces(e, k.spaces, k.exited);
    }
  }

  method LoadSegment(k: Kernel, e: Event, ghost ts: seq<Option<(nat, nat)>>) returns (ok: bool)
    requires k.Ok() && e.Segment? && Possible(ViewOf(k), e) && HasTramps(k, ts)
    modifies k, k.fm, k.spaces, set i | 0 <= i < |k.spaces| :: k.spaces[i].pt
    ensures !ok ==> k.fm.Exhausted()
    ensures ok ==> k.Ok() && ViewOf(k) == old(Next(ViewOf(k), e))
    ensures ok ==> HasTramps(k, NextTramps(ts, e))
    ensures ok ==> SpacesAfter(e, old(k.spaces), k.spaces, k.exited)
    ensures ok ==> forall i | 0 <= i < |k.spaces| ::
            k.spaces[i] in old(k.spaces) || (fresh(k.spaces[i]) && fresh(k.spaces[i].pt))
  {
    hide Stands, NoLeak, ShapeOf, Copies, Grew, Shrank, Added, Loaded, KeepsData, FrameMemory.Valid, TrampIn;
    hide MemorySet.Valid, AreasOk, Refines, TableOk, SpacesApart, PageTable.FramesOk, SpacesAfter;
    ghost var v := ViewOf(k);
    var ms := k.spaces[e.i];
    Distinct(k, e.i);
    UnusedIsUnmapped(ms, k.fm.mem, k.fm.who, e.start, e.end);
    ok := k.LoadArea(e.i, e.start, e.end, e.perm, e.data);
    if ok {
      ShapeAppend(old(ms.areas), ms.areas);
      OneChanged(k, v, e.i);
      SameTramp(old(ms.pt.pages), ms.pt.pages);
      SameSpaces(e, k.spaces, k.exited);
    }
  }

  method Shrink(k: Kernel, e: Event, ghost ts: seq<Option<(nat, nat)>>) returns (ok: bool)
    requires k.Ok() && e.Remove? && Possible(ViewOf(k), e) && HasTramps(k, ts)
    modifies k, k.fm, k.spaces, set i | 0 <= i < |k.spaces| :: k.spaces[i].pt
    ensures !ok ==> k.fm.Exhausted()
    ensures ok ==> k.Ok() && ViewOf(k) == old(Next(ViewOf(k), e))
    ensures ok ==> HasTramps(k, NextTramps(ts, e))
    ensures ok ==> SpacesAfter(e, old(k.spaces), k.spaces, k.exited)
    ensures ok ==> forall i | 0 <= i < |k.spaces| ::
            k.spaces[i] in old(k.spaces) || (fresh(k.spaces[i]) && fresh(k.spaces[i].pt))
  {
    hide Stands, NoLeak, ShapeOf, Copies, Grew, Shrank, Added, Loaded, KeepsData, FrameMemory.Valid, TrampIn;
    hide MemorySet.Valid, AreasOk, Refines, TableOk, SpacesApart, PageTable.FramesOk, SpacesAfter;
    hide WithoutFirst, FirstTaken, NoneStarts;
    ok := true;
    ghost var v := ViewOf(k);
    var ms := k.spaces[e.i];
    Distinct(k, e.i);
    k.RemoveArea(e.i, e.start);
    ShapeWithout(old(ms.areas), e.start, ms.areas);
    OneChanged(k, v, e.i);
    SameTramp(old(ms.pt.pages), ms.pt.pages);
    SameSpaces(e, k.spaces, k.exited);
  }

  method Make(k: Kernel, e: Event, ghost ts: seq<Option<(nat, nat)>>) returns (ok: bool)
    requires k.Ok() && (e.NewSpace? || e.ForkOf?) && Possible(ViewOf(k), e) && HasTramps(k, ts)
    modifies k, k.fm, k.spaces, set i | 0 <= i < |k.spaces| :: k.spaces[i].pt
    ensures !ok ==> k.fm.Exhausted()
    ensures ok ==> k.Ok() && ViewOf(k) == old(Next(ViewOf(k), e))
    ensures ok ==> HasTramps(k, NextTramps(ts, e))
    ensures ok ==> SpacesAfter(e, old(k.spaces), k.spaces, k.exited)
    ensures ok ==> forall i | 0 <= i < |k.spaces| ::
            k.spaces[i] in old(k.spaces) || (fresh(k.spaces[i]) && fresh(k.spaces[i].pt))
  {
    hide Stands, NoLeak, ShapeOf, Copies, Grew, Shrank, Added, Loaded, KeepsData, FrameMemory.Valid, TrampIn;
    hide SpacesAfter;
    if e.NewSpace? {
      var ms := k.NewUser(e.trampoline);
      ok := ms != null;
      if ok {
        NewTramp(ms.pt.pages, e.trampoline);
        OneMore(e, old(k.spaces), k.spaces, ms, k.exited);
      }
    } else {
      var child := k.ForkSpace(e.i, e.trampoline);
      ok := child != null;
      if ok {
        ShapeCopied(old(k.fm.mem), k.fm.mem, k.spaces[e.i].areas, child.areas);
        NewTramp(child.pt.pages, e.trampoline);
        OneMore(e, old(k.spaces), k.spaces, child, k.exited);
      }
    }
  }

  method Empty(k: Kernel, e: Event, ghost ts: seq<Option<(nat, nat)>>) returns (ok: bool)
    requires k.Ok() && e.ExitOf? && Possible(ViewOf(k), e) && HasTramps(k, ts)
    modifies k, k.fm, k.spaces, set i | 0 <= i < |k.spaces| :: k.spaces[i].pt
    ensures !ok ==> k.fm.Exhausted()
    ensures ok ==> k.Ok() && ViewOf(k) == old(Next(ViewOf(k), e))
    ensures ok ==> HasTramps(k, NextTramps(ts, e))
    ensures ok ==> SpacesAfter(e, old(k.spaces), k.spaces, k.exited)
    ensures ok ==> forall i | 0 <= i < |k.spaces| ::
            k.spaces[i] in old(k.spaces) || (fresh(k.spaces[i]) && fresh(k.spaces[i].pt))
  {
    hide Stands, NoLeak, ShapeOf, Copies, Grew, Shrank, Added, Loaded, KeepsData, FrameMemory.Valid, TrampIn;
    hide SpacesAfter;
    ok := true;
    ghost var v := ViewOf(k);
    Distinct(k, e.i);
    k.Exit(e.i);
    OneChanged(k, v, e.i);
    SameSpaces(e, k.spaces, k.exited);
  }

  method Replace(k: Kernel, e: Event, ghost ts: seq<Option<(nat, nat)>>) returns (ok: bool)
    requires k.Ok() && e.Replaced? && Possible(ViewOf(k), e) && HasTramps(k, ts)
    modifies k, k.fm, k.spaces, set i | 0 <= i < |k.spaces| :: k.spaces[i].pt
    ensures !ok ==> k.fm.Exhausted()
    ensures ok ==> k.Ok() && ViewOf(k) == old(Next(ViewOf(k), e))
    ensures ok ==> HasTramps(k, NextTramps(ts, e))
    ensures ok ==> SpacesAfter(e, old(k.spaces), k.spaces, k.exited)
    ensures ok ==> forall i | 0 <= i < |k.spaces| ::
            k.spaces[i] in old(k.spaces) || (fresh(k.spaces[i]) && fresh(k.spaces[i].pt))
  {
    hide Kernel.Ok, ViewFrom, Stands, NoLeak, ShapeOf, Copies, Grew, Shrank, Added, Loaded, KeepsData, TrampIn;
    hide FrameMemory.Valid, MemorySet.Valid, AreasOk, Refines, TableOk, SpacesApart, PageTable.FramesOk, SpacesAfter;
    ok := true;
    ghost var v, all := ViewOf(k), k.spaces;
    Distinct(k, e.i);
    k.DropLive(e.i);
    OneGone(k, all, v, e.i);
    TrampsCut(k, all, ts, e.i);
    OneLess(e, all, k.spaces, k.exited);
  }

  method Collect(k: Kernel, e: Event, ghost ts: seq<Option<(nat, nat)>>) returns (ok: bool)
    requires k.Ok() && e.WaitedFor? && Possible(ViewOf(k), e) && HasTramps(k, ts)
    modifies k, k.fm, k.spaces, set i | 0 <= i < |k.spaces| :: k.spaces[i].pt
    ensures !ok ==> k.fm.Exhausted()
    ensures ok ==> k.Ok() && ViewOf(k) == old(Next(ViewOf(k), e))
    ensures ok ==> HasTramps(k, NextTramps(ts, e))
    ensures ok ==> SpacesAfter(e, old(k.spaces), k.spaces, k.exited)
    ensures ok ==> forall i | 0 <= i < |k.spaces| ::
            k.spaces[i] in old(k.spaces) || (fresh(k.spaces[i]) && fresh(k.spaces[i].pt))
  {
    hide Kernel.Ok, ViewFrom, Stands, NoLeak, ShapeOf, Copies, Grew, Shrank, Added, Loaded, KeepsData, TrampIn;
    hide FrameMemory.Valid, MemorySet.Valid, AreasOk, Refines, TableOk, SpacesApart, PageTable.FramesOk, SpacesAfter;
    ok := true;
    ghost var v, all := ViewOf(k), k.spaces;
    Distinct(k, e.i);
    k.Reap(e.i);
    OneGone(k, all, v, e.i);
    TrampsCut(k, all, ts, e.i);
    OneLess(e, all, k.spaces, k.exited);
  }

  /** One event; it fails only for want of a frame. */
  method Perform(k: Kernel, e: Event, ghost ts: seq<Option<(nat, nat)>>) returns (ok: bool)
    requires k.Ok() && Possible(ViewOf(k), e) && HasTramps(k, ts)
    modifies k, k.fm, k.spaces, set i | 0 <= i < |k.spaces| :: k.spaces[i].pt
    ensures !ok ==> k.fm.Exhausted()
    ensures ok ==> k.Ok() && ViewOf(k) == old(Next(ViewOf(k), e))
    ensures ok ==> HasTramps(k, NextTramps(ts, e))
    ensures ok ==> SpacesAfter(e, old(k.spaces), k.spaces, k.exited)
    ensures ok ==> forall i | 0 <= i < |k.spaces| ::
            k.spaces[i] in old(k.spaces) || (fresh(k.spaces[i]) && fresh(k.spaces[i].pt))
  {
    hide *;
    if e.Insert? {
      ok := Grow(k, e, ts);
    } else if e.Segment? {
      ok := LoadSegment(k, e, ts);
    } else if e.Remove? {
      ok := Shrink(k, e, ts);
    } else if e.NewSpace? || e.ForkOf? {
      ok := Make(k, e, ts);
    } else if e.ExitOf? {
      ok := Empty(k, e, ts);
    } else if e.Replaced? {
      ok := Replace(k, e, ts);
    } else {
      ok := Collect(k, e, ts);
    }
  }

  // ---------------------------------------------------------------- runs

  /** A run through `views`: events that are not possible when their turn comes do not happen. */
  ghost predicate IsRun(views: seq<seq<SpaceView>>, events: seq<Event>)
  {
    && |views| == |events| + 1
    && forall n | 0 <= n < |events| ::
         views[n + 1] == if Possible(views[n], events[n]) then Next(views[n], events[n]) else views[n]
  }

  /** The trampolines along a run through `views`. */
  ghost predicate IsTrampRun(views: seq<seq<SpaceView>>, events: seq<Event>, tramps: seq<seq<Option<(nat, nat)>>>)
  {
    && |tramps| == |views| == |events| + 1 && tramps[0] == []
    && forall n | 0 <= n < |events| ::
         tramps[n + 1] == if Possible(views[n], events[n]) then NextTramps(tramps[n], events[n]) else tramps[n]
  }

  lemma TrampsMore(views: seq<seq<SpaceView>>, events: seq<Event>, tramps: seq<seq<Option<(nat, nat)>>>, n: nat,
                   v: seq<SpaceView>, ts: seq<Option<(nat, nat)>>)
    requires n < |events| && IsTrampRun(views, events[..n], tramps)
    requires ts == if Possible(views[n], events[n]) then NextTramps(tramps[n], events[n]) else tramps[n]
    ensures IsTrampRun(views + [v], events[..n + 1], tramps + [ts])
  {
    hide Possible, NextTramps;
    var vs, es, more := views + [v], events[..n + 1], tramps + [ts];
    forall m | 0 <= m < |es|
      ensures more[m + 1] == if Possible(vs[m], es[m]) then NextTramps(more[m], es[m]) else more[m]
    {
      assert vs[m] == views[m] && es[m] == events[m] && more[m] == tramps[m];
      if m < n { assert events[..n][m] == events[m] && more[m + 1] == tramps[m + 1]; }
    }
  }

  /** Nobody but the maker of a space decides on its trampoline: whatever happens, in every state of a run every space
    * has one that some event of the run gave to a space it made. */
  lemma {:induction false} TrampsAreGiven(views: seq<seq<SpaceView>>, events: seq<Event>,
                                          tramps: seq<seq<Option<(nat, nat)>>>, n: nat, i: nat)
    requires IsTrampRun(views, events, tramps) && n < |tramps| && i < |tramps[n]|
    ensures exists m: nat :: m < n && Gives(events[m], tramps[n][i])
    decreases n
  {
    hide Possible;
    if n > 0 {
      var before, e := tramps[n - 1], events[n - 1];
      if tramps[n] == before {
        TrampsAreGiven(views, events, tramps, n - 1, i);
      } else if (e.NewSpace? || e.ForkOf?) && i == |before| {
        assert Gives(e, tramps[n][i]);
      } else {
        var j := if (e.Replaced? || e.WaitedFor?) && i >= e.i then i + 1 else i;
        assert tramps[n][i] == before[j];
        TrampsAreGiven(views, events, tramps, n - 1, j);
      }
    }
  }

  /** The event makes a space with this trampoline, readable and executable but not writable. */
  predicate Gives(e: Event, t: Option<(nat, nat)>)
  {
    (e.NewSpace? || e.ForkOf?) && t == Some((e.trampoline, V + R + X))
  }

  // ---------------------------------------------------------------- areas over a run

  /** The event maps this area. */
  predicate Maps(e: Event, a: AreaView)
  {
    (e.Insert? || e.Segment?) && a == AreaView(e.start, e.end, e.perm)
  }

  /** The event takes this area from space `i`, or moves or empties the space. */
  predicate Ends(e: Event, i: nat, a: AreaView)
  {
    match e
    case Remove(j, start) => j == i && start == a.start
    case ExitOf(j) => j == i
    case Replaced(j) => j <= i
    case WaitedFor(j) => j <= i
    case _ => false
  }

  lemma {:induction false} WithoutFirstIn(areas: seq<AreaView>, start: nat, a: AreaView)
    ensures a in WithoutFirst(areas, start) ==> a in areas
    ensures a in areas && a.start != start ==> a in WithoutFirst(areas, start)
  {
    if areas != [] {
      WithoutFirstIn(areas[1..], start, a);
      assert a in areas <==> a == areas[0] || a in areas[1..];
    }
  }

  /** The space that had an area of space `i` before the event, unless the event mapped it. */
  lemma AreaBefore(v: seq<SpaceView>, e: Event, i: nat, a: AreaView) returns (j: nat)
    requires Possible(v, e) && i < |Next(v, e)| && a in Next(v, e)[i].areas && !Maps(e, a)
    ensures j < |v| && a in v[j].areas
  {
    hide Unused, WithoutFirst;
    j := i;
    match e
    case NewSpace(_) =>
    case Insert(_, _, _, _) =>
    case Segment(_, _, _, _, _) =>
    case Remove(k, start) => WithoutFirstIn(v[k].areas, start, a);
    case ForkOf(k, _) => j := if i == |v| then k else i;
    case ExitOf(_) =>
    case Replaced(k) => j := if i < k then i else i + 1;
    case WaitedFor(k) => j := if i < k then i else i + 1;
  }

  /** Every area of every space, in every state of a run, is as some event of the run mapped it. */
  lemma {:induction false} AreasAreGiven(views: seq<seq<SpaceView>>, events: seq<Event>, n: nat, i: nat, a: AreaView)
    requires IsRun(views, events) && views[0] == [] && n < |views| && i < |views[n]| && a in views[n][i].areas
    ensures exists m: nat :: m < n && Maps(events[m], a)
    decreases n
  {
    hide Possible, Next;
    if n > 0 && !Maps(events[n - 1], a) {
      var j := i;
      if Possible(views[n - 1], events[n - 1]) {
        j := AreaBefore(views[n - 1], events[n - 1], i, a);
      }
      AreasAreGiven(views, events, n - 1, j, a);
    }
  }

  lemma AreaKept(v: seq<SpaceView>, e: Event, i: nat, a: AreaView)
    requires Possible(v, e) && i < |v| && a in v[i].areas && !Ends(e, i, a)
    ensures i < |Next(v, e)| && a in Next(v, e)[i].areas
  {
    hide Unused, WithoutFirst;
    if e.Remove? {
      WithoutFirstIn(v[e.i].areas, e.start, a);
    }
  }

  /** An area that was mapped is there, with its bounds and permissions, until it or its space goes. */
  lemma {:induction false} AreaStays(views: seq<seq<SpaceView>>, events: seq<Event>, n: nat, m: nat, a: AreaView)
    requires IsRun(views, events) && n < m < |views| && Possible(views[n], events[n]) && Maps(events[n], a)
    requires forall k: nat | n < k < m :: !Ends(events[k], events[n].i, a)
    ensures var i := events[n].i; i < |views[m]| && a in views[m][i].areas
    decreases m
  {
    hide Unused;
    if m > n + 1 {
      AreaStays(views, events, n, m - 1, a);
      hide Possible, Next;
      if Possible(views[m - 1], events[m - 1]) {
        AreaKept(views[m - 1], events[m - 1], events[n].i, a);
      }
    }
  }

  ghost predicate AllBalanced(books: seq<Books>)
  {
    forall n | 0 <= n < |books| :: Balanced(books[n])
  }

  lemma RunMore(views: seq<seq<SpaceView>>, events: seq<Event>, n: nat, v: seq<SpaceView>)
    requires n < |events| && IsRun(views, events[..n])
    requires v == if Possible(views[n], events[n]) then Next(views[n], events[n]) else views[n]
    ensures IsRun(views + [v], events[..n + 1])
  {
  }

  lemma MoreBalanced(books: seq<Books>, b: Books)
    requires AllBalanced(books) && Balanced(b)
    ensures AllBalanced(books + [b])
  {
  }

  /** Any run from boot, with frames `l` up to `r` free: the spaces have the areas the events gave them, in every
    * state the books balance and each space has the trampoline it was made with, and the run goes on to its end
    * unless the frames run out. */
  method RunAll(mem: Memory, l: nat, r: nat, events: seq<Event>)
    returns (k: Kernel, done: nat, ghost views: seq<seq<SpaceView>>, ghost books: seq<Books>,
             ghost tramps: seq<seq<Option<(nat, nat)>>>)
    requires l <= r <= |mem| <= PPN_LIMIT
    ensures fresh(k) && done <= |events| && (done < |events| ==> k.fm.Exhausted())
    ensures IsRun(views, events[..done]) && views[0] == [] && (done == |events| ==> k.Ok() && ViewOf(k) == views[done])
    ensures |books| == done + 1 && AllBalanced(books)
    ensures done == |events| ==> books[done] == BooksOf(k)
    ensures IsTrampRun(views, events[..done], tramps) && (done == |events| ==> HasTramps(k, tramps[done]))
  {
    hide Kernel.Ok, Possible, Next, Balanced, BooksOf, ViewOf, IsRun, AllBalanced, IsTrampRun, HasTramps, NextTramps;
    var fm := new FrameMemory(mem, l, r);
    k := new Kernel(fm);
    OkIsBalanced(k);
    views, books, tramps := [ViewOf(k)], [BooksOf(k)], [[]];
    StartOk(k, events);
    done := 0;
    while done < |events|
      invariant done <= |events| && fresh(k) && fresh(k.fm)
      invariant forall i | 0 <= i < |k.spaces| :: fresh(k.spaces[i]) && fresh(k.spaces[i].pt)
      invariant k.Ok() && |views| == done + 1 && IsRun(views, events[..done]) && views[0] == []
                && views[done] == ViewOf(k)
      invariant |books| == done + 1 && books[done] == BooksOf(k) && AllBalanced(books)
      invariant |tramps| == done + 1 && IsTrampRun(views, events[..done], tramps) && HasTramps(k, tramps[done])
    {
      var e := events[done];
      ghost var ts := tramps[done];
      if Possible(ViewOf(k), e) {
        var ok := Perform(k, e, ts);
        if !ok {
          return;
        }
        ts := NextTramps(ts, e);
      }
      TrampsMore(views, events, tramps, done, ViewOf(k), ts);
      OkIsBalanced(k);
      RunMore(views, events, done, ViewOf(k));
      MoreBalanced(books, BooksOf(k));
      views, books, tramps := views + [ViewOf(k)], books + [BooksOf(k)], tramps + [ts];
      done := done + 1;
    }
  }

  lemma StartOk(k: Kernel, events: seq<Event>)
    requires k.spaces == [] && Balanced(BooksOf(k))
    ensures ViewOf(k) == [] && IsRun([ViewOf(k)], events[..0]) && AllBalanced([BooksOf(k)])
    ensures IsTrampRun([ViewOf(k)], events[..0], [[]]) && HasTramps(k, [])
  {
  }
}
