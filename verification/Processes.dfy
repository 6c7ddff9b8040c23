/** The process table at work, and whole runs of it. */
module Processes {
  import opened Wrappers
  import opened Ids
  import opened ProcTree

  /** What `waitpid` comes to: it returns -1, returns -2, returns a pid with an exit code, or panics. */
  datatype Outcome = NoChild | NotYet | Reaped(child: nat, pid: nat, code: int) | Panicked(child: nat)

  class ProcessTable {
    var procs: seq<Proc>
    var pids: RecycleAllocator
    var table: map<nat, nat>

    /** `INITPROC` alone, with the first pid. */
    constructor ()
      ensures Valid() && T() == Boot().tree
    {
      var (pids, pid) := NewAllocator().Alloc();
      this.procs, this.pids, table := [Proc(pid, None, [], false, 0, false, map[])], pids, map[pid := 0];
      new;
      InitOk(this.T());
    }

    ghost function T(): (t: Tree)
      reads this
    {
      Tree(procs, pids, table)
    }

    ghost predicate Valid()
      reads this
    {
      TreeOk(T())
    }

    /** `fork` by process `p`: the child is last in the list of its parent. */
    method ForkBy(p: nat) returns (pid: nat)
      requires Valid() && Alive(T(), p)
      modifies this
      ensures Valid() && old(pids).Valid() && T() == ForkStep(old(T()), p) && pid == procs[|old(procs)|].pid
      ensures |procs| == |old(procs)| + 1 && !old(pids).Live(pid) && pids.Live(pid)
      ensures procs[|old(procs)|] == Proc(pid, Some(p), [], false, 0, false, map[])
      ensures forall m: nat | m < |old(procs)| ::
                procs[m] == if m == p then old(procs)[p].(children := old(procs)[p].children + [|old(procs)|])
                            else old(procs)[m]
      ensures table == old(table)[pid := |old(procs)|]
    {
      ForkKeeps(T(), p);
      assert pids.Valid();
      hide TreeOk;
      var (pids', id) := pids.Alloc();
      var n := |procs|;
      procs := procs[p := procs[p].(children := procs[p].children + [n])]
               + [Proc(id, Some(p), [], false, 0, false, map[])];
      pids, table := pids', table[id := n];
      pid := id;
    }

    /** The exit of process `p`, not the first: it leaves the table, and its children go to `INITPROC`. */
    method ExitOf(p: nat, code: int)
      requires Valid() && Alive(T(), p) && p != INIT
      modifies this
      ensures Valid() && INIT < |old(procs)| && Gone(old(T()), p, code, T())
      ensures |procs| == |old(procs)| && procs[p].zombie && procs[p].code == code && procs[p].children == []
      ensures procs[INIT].children == old(procs[INIT].children) + old(procs[p].children)
      ensures forall n | n in old(procs[p].children) :: n < |procs| && procs[n].parent == Some(INIT)
      ensures forall m: nat | m < |procs| && m != p && m != INIT && m !in old(procs[p].children) ::
                procs[m] == old(procs)[m]
      ensures table == old(table) - {old(procs[p].pid)} && pids == old(pids)
    {
      ghost var t := T();
      hide TreeOk, Exiting, Gone;
      ExitFacts(t, p);
      ExitingStart(t, p, code);
      table := table - {procs[p].pid};
      procs := procs[p := procs[p].(zombie := true, code := code)];
      var children := procs[p].children;
      for k := 0 to |children|
        invariant children == t.procs[p].children && |procs| == |t.procs| && Exiting(t, p, code, k, T())
      {
        var n := children[k];
        ExitingStep(t, p, code, k, T());
        procs := procs[n := procs[n].(parent := Some(INIT))];
        procs := procs[INIT := procs[INIT].(children := procs[INIT].children + [n])];
      }
      ExitingDone(t, p, code, T());
      procs := procs[p := procs[p].(children := [])];
      GoneKeeps(t, p, code, T());
      GoneIs(t, p, code, T());
    }

    predicate Matches(n: nat, pid: int)
      requires n < |procs|
      reads this
    {
      pid == -1 || pid == procs[n].pid
    }

    method AnyChild(p: nat, pid: int) returns (any: bool)
      requires p < |procs| && forall k | 0 <= k < |procs[p].children| :: procs[p].children[k] < |procs|
      ensures any <==> exists j :: 0 <= j < |procs[p].children| && Matches(procs[p].children[j], pid)
    {
      var cs := procs[p].children;
      any := false;
      for k := 0 to |cs|
        invariant any <==> exists j :: 0 <= j < k && Matches(cs[j], pid)
      {
        any := any || Matches(cs[k], pid);
      }
    }

    /** The first child that has exited and that `pid` names, or the number of children. */
    method FindZombie(p: nat, pid: int) returns (k: nat)
      requires p < |procs| && forall k | 0 <= k < |procs[p].children| :: procs[p].children[k] < |procs|
      ensures k <= |procs[p].children|
      ensures forall j | 0 <= j < k :: !(procs[procs[p].children[j]].zombie && Matches(procs[p].children[j], pid))
      ensures k < |procs[p].children| ==> procs[procs[p].children[k]].zombie && Matches(procs[p].children[k], pid)
    {
      var cs := procs[p].children;
      k := 0;
      while k < |cs| && !(procs[cs[k]].zombie && Matches(cs[k], pid))
        invariant k <= |cs| && forall j | 0 <= j < k :: !(procs[cs[j]].zombie && Matches(cs[j], pid))
      {
        k := k + 1;
      }
    }

    /** Thread `tid` of process `p` enters a call that keeps a reference to the process, or leaves it. */
    method Enter(p: nat, tid: nat, call: Call)
      requires Valid() && Alive(T(), p)
      modifies this`procs
      ensures Valid() && T() == SetInside(old(T()), p, old(procs)[p].inside[tid := call])
      ensures procs == old(procs)[p := old(procs)[p].(inside := old(procs)[p].inside[tid := call])]
    {
      SetInsideKeeps(T(), p, procs[p].inside[tid := call]);
      hide TreeOk;
      procs := procs[p := procs[p].(inside := procs[p].inside[tid := call])];
    }

    method Leave(p: nat, tid: nat)
      requires Valid() && Alive(T(), p)
      modifies this`procs
      ensures Valid() && T() == SetInside(old(T()), p, old(procs)[p].inside - {tid})
      ensures procs == old(procs)[p := old(procs)[p].(inside := old(procs)[p].inside - {tid})]
    {
      SetInsideKeeps(T(), p, procs[p].inside - {tid});
      hide TreeOk;
      procs := procs[p := procs[p].(inside := procs[p].inside - {tid})];
    }

    /** `waitpid` by process `p`: -1 if no child matches, -2 if none that matches has exited; else the first that has is
      * taken out. Then the code asserts that this was the last reference but its own, and panics if it was not. */
    method WaitPid(p: nat, pid: int) returns (r: Outcome)
      requires Valid() && Alive(T(), p)
      modifies this
      ensures Valid() && forall n | n in old(procs[p].children) :: n < |old(procs)|
      ensures r.NoChild? <==> forall n | n in old(procs[p].children) :: !(pid == -1 || pid == old(procs)[n].pid)
      ensures r.NotYet? <==>
                && (exists n :: n in old(procs[p].children) && (pid == -1 || pid == old(procs)[n].pid))
                && (forall n | n in old(procs[p].children) && (pid == -1 || pid == old(procs)[n].pid) ::
                      !old(procs)[n].zombie)
      ensures Says(old(T()), p, pid, r)
      ensures r.NoChild? || r.NotYet? || r.Panicked? ==> T() == old(T())
      ensures r.Reaped? ==> exists k: nat :: Takes(old(T()), p, pid, k, r.child) && Reapable(old(T()), p, k)
                                             && T() == ReapStep(old(T()), p, k)
      ensures r.Reaped? ==>
                && r.child < |old(procs)| == |procs| && procs[r.child] == old(procs)[r.child].(reaped := true)
                && (forall n: nat | n < |procs| && n != p && n != r.child :: procs[n] == old(procs)[n])
                && procs[p].children == Without(old(procs)[p].children, r.child) && table == old(table)
                && r.pid == old(procs)[r.child].pid && r.code == old(procs)[r.child].code
                && (forall x: nat :: pids.Live(x) <==> old(pids).Live(x) && x != r.pid)
      ensures r.Reaped? || r.Panicked? ==>
                exists k :: IsFirstExited(old(procs), old(procs[p].children), pid, k, r.child)
    {
      hide TreeOk, StrongCount, Says, Takes, Reapable, ReapStep, Without, IsFirstExited;
      ghost var t := T();
      ChildrenExist(t, p);
      var k;
      r, k := Choose(p, pid);
      SaysExactly(t, p, pid, r);
      if r.Reaped? {
        CutIsWithout(t, p, k);
        var _, _ := TakeOut(p, k);
      }
    }

    /** What `waitpid` comes to, and which child it takes out. */
    method Choose(p: nat, pid: int) returns (r: Outcome, k: nat)
      requires Valid() && Alive(T(), p)
      ensures Says(T(), p, pid, r)
      ensures r.Reaped? ==> Takes(T(), p, pid, k, r.child) && k < |procs[p].children| && procs[p].children[k] == r.child
      ensures r.Reaped? ==> r.child < |procs| && procs[r.child].zombie
    {
      hide TreeOk, StrongCount;
      ghost var t := T();
      ChildrenExist(t, p);
      var cs := procs[p].children;
      k := |cs|;
      var any := AnyChild(p, pid);
      if !any {
        r := NoChild;
        return;
      }
      k := FindZombie(p, pid);
      if k == |cs| {
        NotYetSaid(t, p, pid);
        r := NotYet;
        return;
      }
      assert Takes(t, p, pid, k, cs[k]);
      if StrongCount(Tree(procs, pids, table), cs[k]) != 1 {
        r := Panicked(cs[k]);
      } else {
        r := Reaped(cs[k], procs[cs[k]].pid, procs[cs[k]].code);
      }
    }

    /** Child number `k`, a zombie, is taken out and dropped. */
    method TakeOut(p: nat, k: nat) returns (pid: nat, code: int)
      requires Valid() && Alive(T(), p) && k < |procs[p].children| && procs[p].children[k] < |procs|
      requires procs[procs[p].children[k]].zombie
      modifies this
      ensures Valid() && Reapable(old(T()), p, k) && T() == ReapStep(old(T()), p, k)
      ensures p != old(procs[p].children[k]) && |procs| == |old(procs)|
      ensures procs[p] == old(procs)[p].(children := old(procs[p].children)[..k] + old(procs[p].children)[k + 1..])
      ensures var n := old(procs[p].children[k]);
              && procs[n] == old(procs)[n].(reaped := true)
              && forall m: nat | m < |procs| && m != p && m != n :: procs[m] == old(procs)[m]
      ensures var n := old(procs[p].children[k]);
              pid == old(procs)[n].pid && code == old(procs)[n].code && !old(procs)[n].reaped
      ensures table == old(table) && forall x: nat :: pids.Live(x) <==> old(pids).Live(x) && x != pid
    {
      hide TreeOk;
      ChildIsKept(T(), p, k);
      ReapKeeps(T(), p, k);
      var cs := procs[p].children;
      var n := cs[k];
      procs := procs[p := procs[p].(children := cs[..k] + cs[k + 1..])];
      pid, code := procs[n].pid, procs[n].code;
      procs := procs[n := procs[n].(reaped := true)];
      pids := pids.Dealloc(pid);
    }
  }

  /** Entry `k` of the list is `n`, the first in it that has exited and that `pid` names. */
  ghost predicate IsFirstExited(procs: seq<Proc>, children: seq<nat>, pid: int, k: nat, n: nat)
  {
    && k < |children| && children[k] == n < |procs| && procs[n].zombie && (pid == -1 || pid == procs[n].pid)
    && forall j | 0 <= j < k ::
         children[j] < |procs|
         && (procs[children[j]].zombie ==> pid != -1 && pid != procs[children[j]].pid)
  }

  /** The list without `n`, in its order. */
  function Without(s: seq<nat>, n: nat): (r: seq<nat>)
  {
    if s == [] then [] else (if s[0] == n then [] else [s[0]]) + Without(s[1..], n)
  }

  lemma {:induction false} WithoutNone(s: seq<nat>, n: nat)
    requires n !in s
    ensures Without(s, n) == s
  {
    if s != [] {
      WithoutNone(s[1..], n);
    }
  }

  lemma {:induction false} WithoutCut(s: seq<nat>, k: nat)
    requires k < |s| && Unique(s)
    ensures Without(s, s[k]) == s[..k] + s[k + 1..]
  {
    if k > 0 {
      WithoutCut(s[1..], k - 1);
      assert s[..k] == [s[0]] + s[1..][..k - 1] && s[k + 1..] == s[1..][k..];
      assert s[0] != s[k];
    } else {
      assert s[0] !in s[1..];
      WithoutNone(s[1..], s[0]);
    }
  }

  lemma CutIsWithout(t: Tree, p: nat, k: nat)
    requires TreeOk(t) && p < |t.procs| && k < |t.procs[p].children|
    ensures Without(t.procs[p].children, t.procs[p].children[k])
         == t.procs[p].children[..k] + t.procs[p].children[k + 1..]
  {
    assert ChildrenOk(t, p);
    WithoutCut(t.procs[p].children, k);
  }

  lemma GoneIs(t: Tree, p: nat, code: int, t': Tree)
    requires p < |t.procs| && INIT < |t.procs| && p != INIT && Gone(t, p, code, t')
    requires forall n | n in t.procs[p].children :: n < |t.procs| && n != p && n != INIT
    ensures |t'.procs| == |t.procs| && t'.procs[p].zombie && t'.procs[p].code == code && t'.procs[p].children == []
    ensures t'.procs[INIT].children == t.procs[INIT].children + t.procs[p].children
    ensures forall n | n in t.procs[p].children :: t'.procs[n].parent == Some(INIT)
    ensures forall m: nat | m < |t.procs| && m != p && m != INIT && m !in t.procs[p].children ::
              t'.procs[m] == t.procs[m]
    ensures t'.table == t.table - {t.procs[p].pid} && t'.pids == t.pids
  {
  }

  /** `waitpid(pid)` by `p` comes to `r`. */
  ghost predicate Says(t: Tree, p: nat, pid: int, r: Outcome)
  {
    && p < |t.procs| && (forall n | n in t.procs[p].children :: n < |t.procs|)
    && match r
       case NoChild => forall n | n in t.procs[p].children :: !(pid == -1 || pid == t.procs[n].pid)
       case NotYet =>
         && (exists n :: n in t.procs[p].children && (pid == -1 || pid == t.procs[n].pid))
         && (forall n | n in t.procs[p].children && (pid == -1 || pid == t.procs[n].pid) :: !t.procs[n].zombie)
       case Reaped(n, id, code) =>
         && (exists k: nat :: Takes(t, p, pid, k, n)) && StrongCount(t, n) == 1
         && n < |t.procs| && id == t.procs[n].pid && code == t.procs[n].code
       case Panicked(n) => (exists k: nat :: Takes(t, p, pid, k, n)) && StrongCount(t, n) != 1
  }

  /** The answers -1 and -2, in terms of the children. */
  lemma SaysExactly(t: Tree, p: nat, pid: int, r: Outcome)
    requires p < |t.procs| && Says(t, p, pid, r)
    ensures forall n | n in t.procs[p].children :: n < |t.procs|
    ensures r.NoChild? <==> forall n | n in t.procs[p].children :: !(pid == -1 || pid == t.procs[n].pid)
    ensures r.NotYet? <==>
              && (exists n :: n in t.procs[p].children && (pid == -1 || pid == t.procs[n].pid))
              && (forall n | n in t.procs[p].children && (pid == -1 || pid == t.procs[n].pid) :: !t.procs[n].zombie)
    ensures r.Reaped? || r.Panicked? ==>
              exists k :: IsFirstExited(t.procs, t.procs[p].children, pid, k, r.child)
    ensures r.Reaped? ==> r.child < |t.procs| && r.pid == t.procs[r.child].pid && r.code == t.procs[r.child].code
  {
    hide StrongCount;
    var cs := t.procs[p].children;
    if r.Reaped? || r.Panicked? {
      var k: nat :| Takes(t, p, pid, k, r.child);
      assert IsFirstExited(t.procs, cs, pid, k, r.child);
      assert r.child in cs && t.procs[r.child].zombie && (pid == -1 || pid == t.procs[r.child].pid);
    }
  }

  lemma NotYetSaid(t: Tree, p: nat, pid: int)
    requires p < |t.procs| && forall k | 0 <= k < |t.procs[p].children| :: t.procs[p].children[k] < |t.procs|
    requires exists k :: 0 <= k < |t.procs[p].children| && (pid == -1 || pid == t.procs[t.procs[p].children[k]].pid)
    requires forall k | 0 <= k < |t.procs[p].children| && (pid == -1 || pid == t.procs[t.procs[p].children[k]].pid) ::
               !t.procs[t.procs[p].children[k]].zombie
    ensures Says(t, p, pid, NotYet)
  {
    var k :| 0 <= k < |t.procs[p].children| && (pid == -1 || pid == t.procs[t.procs[p].children[k]].pid);
    assert t.procs[p].children[k] in t.procs[p].children;
  }

  /** Child `k` of `p` is the first zombie that `pid` names. */
  ghost predicate First(t: Tree, p: nat, pid: int, k: nat)
  {
    && p < |t.procs| && k < |t.procs[p].children|
    && (forall j | 0 <= j <= k :: t.procs[p].children[j] < |t.procs|)
    && t.procs[t.procs[p].children[k]].zombie && (pid == -1 || pid == t.procs[t.procs[p].children[k]].pid)
    && forall j | 0 <= j < k ::
         !(t.procs[t.procs[p].children[j]].zombie && (pid == -1 || pid == t.procs[t.procs[p].children[j]].pid))
  }

  /** `waitpid` by `p` takes out its child `n`. */
  ghost predicate Takes(t: Tree, p: nat, pid: int, k: nat, n: nat)
  {
    First(t, p, pid, k) && n == t.procs[p].children[k]
  }

  ghost predicate Reapable(t: Tree, p: nat, k: nat)
  {
    && p < |t.procs| && k < |t.procs[p].children| && t.procs[p].children[k] < |t.procs|
    && t.pids.Valid() && t.pids.Live(t.procs[t.procs[p].children[k]].pid)
  }

  lemma InitOk(t: Tree)
    requires t.procs == [Proc(0, None, [], false, 0, false, map[])] && t.pids == RecycleAllocator(1, [])
             && t.table == map[0 := 0]
    ensures TreeOk(t)
  {
    assert Kept(t, 0) && Alive(t, 0);
  }

  lemma ChildrenExist(t: Tree, p: nat)
    requires TreeOk(t) && p < |t.procs|
    ensures forall k | 0 <= k < |t.procs[p].children| :: Kept(t, t.procs[p].children[k])
  {
    assert ChildrenOk(t, p);
  }

  /** Taking the pid out of the table finds it there, and neither the process nor `INITPROC` is among the children. */
  lemma ExitFacts(t: Tree, p: nat)
    requires TreeOk(t) && Alive(t, p)
    ensures t.procs[p].pid in t.table && INIT < |t.procs|
    ensures Unique(t.procs[p].children)
    ensures forall n | n in t.procs[p].children :: n < |t.procs| && n != p && n != INIT
  {
    assert ChildrenOk(t, p);
    forall n | n in t.procs[p].children
      ensures n < |t.procs| && n != p && n != INIT
    {
      assert ParentOk(t, n);
    }
  }

  lemma ExitingStart(t: Tree, p: nat, code: int)
    requires p < |t.procs| && INIT < |t.procs| && p != INIT
    ensures Exiting(t, p, code, 0,
                    t.(table := t.table - {t.procs[p].pid},
                       procs := t.procs[p := t.procs[p].(zombie := true, code := code)]))
  {
    assert t.procs[INIT].children + t.procs[p].children[..0] == t.procs[INIT].children;
  }

  /** One more child is handed over. */
  lemma ExitingStep(t: Tree, p: nat, code: int, k: nat, t1: Tree)
    requires p < |t.procs| && INIT < |t.procs| && p != INIT && k < |t.procs[p].children| && Exiting(t, p, code, k, t1)
    requires Unique(t.procs[p].children) && forall n | n in t.procs[p].children :: n < |t.procs| && n != p && n != INIT
    ensures var n := t.procs[p].children[k];
            && n < |t1.procs| && n != INIT
            && var procs := t1.procs[n := t1.procs[n].(parent := Some(INIT))];
               Exiting(t, p, code, k + 1,
                 t1.(procs := procs[INIT := procs[INIT].(children := procs[INIT].children + [n])]))
  {
    var cs := t.procs[p].children;
    assert cs[k] in cs && cs[..k + 1] == cs[..k] + [cs[k]];
    assert t.procs[INIT].children + cs[..k + 1] == t.procs[INIT].children + cs[..k] + [cs[k]];
  }

  lemma ExitingDone(t: Tree, p: nat, code: int, t1: Tree)
    requires p < |t.procs| && INIT < |t.procs| && p != INIT && Exiting(t, p, code, |t.procs[p].children|, t1)
    ensures p < |t1.procs| && Gone(t, p, code, t1.(procs := t1.procs[p := t1.procs[p].(children := [])]))
  {
    var cs := t.procs[p].children;
    assert cs[..|cs|] == cs;
  }

  // ---------------------------------------------------------------- runs

  datatype Event =
    | ForkEvent(p: nat)
    | CallEvent(p: nat, tid: nat, call: Call)
    | ReturnEvent(p: nat, tid: nat)
    | ExitEvent(p: nat, code: int)
    | WaitEvent(p: nat, pid: int)

  /** The processes, and what every `waitpid` so far came to. */
  datatype Moment = Moment(tree: Tree, said: seq<Outcome>)

  /** The exit of a process is the exit of its main thread, tid 0, which then is in no other call; the exit of the first
    * process shuts the machine down. */
  predicate Exits(t: Tree, p: nat)
  {
    p != INIT && INIT < |t.procs| && Alive(t, p) && 0 !in t.procs[p].inside
  }

  /** How an event changes things; one of a process that is not there to ask for it changes nothing. Threads of a
    * process that has exited never run again, so they never leave the call they are in. */
  ghost predicate Next(m: Moment, e: Event, m': Moment)
  {
    var t, t' := m.tree, m'.tree;
    if !Alive(t, e.p) then m' == m
    else
      match e
      case ForkEvent(p) => t.pids.Valid() && m' == m.(tree := ForkStep(t, p))
      case CallEvent(p, tid, call) => m' == m.(tree := SetInside(t, p, t.procs[p].inside[tid := call]))
      case ReturnEvent(p, tid) => m' == m.(tree := SetInside(t, p, t.procs[p].inside - {tid}))
      case ExitEvent(p, code) => m'.said == m.said && if Exits(t, p) then Gone(t, p, code, t') else t' == t
      case WaitEvent(p, pid) =>
        || (Says(t, p, pid, NoChild) && m' == m.(said := m.said + [NoChild]))
        || (Says(t, p, pid, NotYet) && m' == m.(said := m.said + [NotYet]))
        || exists k: nat, n: nat ::
           Takes(t, p, pid, k, n) && Reapable(t, p, k) && StrongCount(t, n) == 1 && m' == Waited(m, p, k)
  }

  ghost function Waited(m: Moment, p: nat, k: nat): (m': Moment)
    requires Reapable(m.tree, p, k)
  {
    var n := m.tree.procs[p].children[k];
    Moment(ReapStep(m.tree, p, k), m.said + [Reaped(n, m.tree.procs[n].pid, m.tree.procs[n].code)])
  }

  /** `waitpid` finds a child to take out, but another reference to it is left: the assertion fails. */
  ghost predicate Panics(t: Tree, e: Event)
  {
    e.WaitEvent? && Alive(t, e.p) && exists k: nat, n: nat :: Takes(t, e.p, e.pid, k, n) && StrongCount(t, n) != 1
  }

  ghost predicate IsRun(moments: seq<Moment>, events: seq<Event>)
  {
    |moments| == |events| + 1 && forall n | 0 <= n < |events| :: Next(moments[n], events[n], moments[n + 1])
  }

  // ---------------------------------------------------------------- what holds in every run

  /** Nothing about a process that has exited changes except that it is reaped. */
  ghost predicate Settled(t: Tree, t': Tree)
  {
    && |t.procs| <= |t'.procs|
    && (forall n: nat | n < |t.procs| :: t'.procs[n].pid == t.procs[n].pid)
    && (forall n: nat | n < |t.procs| && t.procs[n].zombie ::
          t'.procs[n].zombie && t'.procs[n].code == t.procs[n].code && t'.procs[n].inside == t.procs[n].inside)
    && (forall n: nat | n < |t.procs| && t.procs[n].reaped :: t'.procs[n].reaped)
  }

  /** Every reap so far was of a process that had exited, with its pid and exit code, and of no process twice. */
  ghost predicate Faithful(t: Tree, said: seq<Outcome>)
  {
    && (forall i | 0 <= i < |said| && said[i].Reaped? ::
          var n := said[i].child;
          && n < |t.procs| && t.procs[n].zombie && t.procs[n].reaped
          && t.procs[n].pid == said[i].pid && t.procs[n].code == said[i].code)
    && (forall i, j | 0 <= i < j < |said| && said[i].Reaped? && said[j].Reaped? :: said[i].child != said[j].child)
  }

  lemma FaithfulMore(t: Tree, t': Tree, said: seq<Outcome>, n: nat)
    requires Faithful(t, said) && Settled(t, t') && n < |t.procs| && !t.procs[n].reaped && t.procs[n].zombie
    requires t'.procs[n].reaped
    ensures Faithful(t', said + [Reaped(n, t.procs[n].pid, t.procs[n].code)])
  {
  }

  lemma FaithfulStill(t: Tree, t': Tree, said: seq<Outcome>, more: seq<Outcome>)
    requires Faithful(t, said) && Settled(t, t') && forall i | 0 <= i < |more| :: !more[i].Reaped?
    ensures Faithful(t', said + more)
  {
  }

  ghost predicate Good(m: Moment)
  {
    TreeOk(m.tree) && Faithful(m.tree, m.said)
  }

  lemma WaitKeeps(m: Moment, p: nat, pid: int, k: nat)
    requires Good(m) && Alive(m.tree, p) && First(m.tree, p, pid, k) && Reapable(m.tree, p, k)
    ensures Good(Waited(m, p, k)) && Settled(m.tree, Waited(m, p, k).tree)
  {
    hide TreeOk, Faithful;
    ChildIsKept(m.tree, p, k);
    ReapKeeps(m.tree, p, k);
    FaithfulMore(m.tree, Waited(m, p, k).tree, m.said, m.tree.procs[p].children[k]);
  }

  /** Every event keeps the tree a tree, the pids and the table exact, the reaps faithful, and what has exited
    * settled. */
  lemma NextKeeps(m: Moment, e: Event, m': Moment)
    requires Good(m) && Next(m, e, m')
    ensures Good(m') && Settled(m.tree, m'.tree)
  {
    hide TreeOk, Faithful, First, Takes, Says, StrongCount;
    var t := m.tree;
    if m' != m {
      match e
      case ForkEvent(p) => ForkKeeps(t, p); StillGood(m, m', []);
      case CallEvent(p, tid, call) => SetInsideKeeps(t, p, t.procs[p].inside[tid := call]); StillGood(m, m', []);
      case ReturnEvent(p, tid) => SetInsideKeeps(t, p, t.procs[p].inside - {tid}); StillGood(m, m', []);
      case ExitEvent(p, code) =>
        if m'.tree != t { GoneKeeps(t, p, code, m'.tree); }
        StillGood(m, m', []);
      case WaitEvent(p, pid) =>
        if m'.said == m.said + [NoChild] && m'.tree == t {
          StillGood(m, m', [NoChild]);
        } else if m'.said == m.said + [NotYet] && m'.tree == t {
          StillGood(m, m', [NotYet]);
        } else {
          var k: nat, n: nat :| Takes(t, p, pid, k, n) && Reapable(t, p, k) && m' == Waited(m, p, k);
          TakesFirst(t, p, pid, k, n);
          WaitKeeps(m, p, pid, k);
        }
    }
  }

  lemma StillGood(m: Moment, m': Moment, more: seq<Outcome>)
    requires Good(m) && TreeOk(m'.tree) && Settled(m.tree, m'.tree) && m'.said == m.said + more
    requires forall i | 0 <= i < |more| :: !more[i].Reaped?
    ensures Good(m')
  {
    hide TreeOk, Settled;
    FaithfulStill(m.tree, m'.tree, m.said, more);
  }

  lemma TakesFirst(t: Tree, p: nat, pid: int, k: nat, n: nat)
    requires Takes(t, p, pid, k, n)
    ensures First(t, p, pid, k) && k < |t.procs[p].children| && n == t.procs[p].children[k] && n < |t.procs|
            && t.procs[n].zombie
  {
  }

  /** Every state of a run is as good as its first. */
  lemma {:induction false} RunKeeps(moments: seq<Moment>, events: seq<Event>, i: nat)
    requires IsRun(moments, events) && Good(moments[0]) && i < |moments|
    ensures Good(moments[i])
  {
    hide Good, Next;
    if i > 0 {
      RunKeeps(moments, events, i - 1);
      NextKeeps(moments[i - 1], events[i - 1], moments[i]);
    }
  }

  lemma {:induction false} RunSettles(moments: seq<Moment>, events: seq<Event>, i: nat, j: nat)
    requires IsRun(moments, events) && Good(moments[0]) && i <= j < |moments|
    ensures Settled(moments[i].tree, moments[j].tree)
    decreases j
  {
    hide Good, Next;
    if i < j {
      RunSettles(moments, events, i, j - 1);
      RunKeeps(moments, events, j - 1);
      NextKeeps(moments[j - 1], events[j - 1], moments[j]);
    }
  }

  /** In any run: when `waitpid` takes out a child, its assertion holds if and only if no other thread of the child was
    * inside a call that keeps a reference when the child's main thread exited. */
  lemma AssertionExactly(moments: seq<Moment>, events: seq<Event>, x: nat, w: nat, n: nat, code: int, p: nat, pid: int,
                         k: nat)
    requires IsRun(moments, events) && Good(moments[0]) && x < w < |moments|
    requires events[x] == ExitEvent(n, code) && Exits(moments[x].tree, n)
    requires Takes(moments[w].tree, p, pid, k, n)
    ensures n < |moments[w].tree.procs|
    ensures StrongCount(moments[w].tree, n) == 1 <==> moments[x].tree.procs[n].inside == map[]
  {
    RunKeeps(moments, events, w);
    RunSettles(moments, events, x + 1, w);
    hide TreeOk, Faithful;
    assert Next(moments[x], events[x], moments[x + 1]);
    TakesFirst(moments[w].tree, p, pid, k, n);
    ChildIsKept(moments[w].tree, p, k);
    References(moments[w].tree, n);
    assert |moments[x].tree.procs[n].inside| == 0 <==> moments[x].tree.procs[n].inside == map[];
  }

  /** Boot: `INITPROC` alone. */
  function Boot(): (m: Moment)
  {
    Moment(Tree([Proc(0, None, [], false, 0, false, map[])], RecycleAllocator(1, []), map[0 := 0]), [])
  }

  lemma BootGood()
    ensures Good(Boot())
  {
    InitOk(Boot().tree);
  }

  /** `INITPROC` and one child, with the given threads inside calls. */
  function WithChild(zombie: bool, inside: map<nat, Call>): (t: Tree)
  {
    Tree([Proc(0, None, [1], false, 0, false, map[]), Proc(1, Some(0), [], zombie, 0, false, inside)],
      RecycleAllocator(2, []),
         if zombie then map[0 := 0] else map[0 := 0, 1 := 1])
  }

  lemma BootForks()
    ensures Alive(Boot().tree, 0) && Boot().tree.pids.Valid() && ForkStep(Boot().tree, 0) == WithChild(false, map[])
  {
    var t := ForkStep(Boot().tree, 0);
    var pids := RecycleAllocator(1, []);
    assert pids.Alloc().0 == RecycleAllocator(2, []) && pids.Alloc().1 == 1;
    var first, child := Boot().tree.procs[0], Proc(1, Some(0), [], false, 0, false, map[]);
    assert first.children + [1] == [1];
    assert t.procs == Boot().tree.procs[0 := first.(children := first.children + [1])] + [child];
    assert t.procs[0] == Proc(0, None, [1], false, 0, false, map[]) && t.procs[1] == child && |t.procs| == 2;
    assert t.procs == WithChild(false, map[]).procs;
    var table := map[0 := 0];
    assert t.table == table[1 := 1] && table[1 := 1] == map[0 := 0, 1 := 1];
  }

  lemma ChildExits(inside: map<nat, Call>)
    requires 0 !in inside
    ensures Exits(WithChild(false, inside), 1) && Gone(WithChild(false, inside), 1, 0, WithChild(true, inside))
  {
    var t := WithChild(false, inside);
    assert t.table - {1} == map[0 := 0];
    assert t.procs[0].children + t.procs[1].children == [1];
  }

  /** The assertion can fail: a child whose second thread waits in a `down` when its main thread exits. */
  lemma WaitCanPanic()
    ensures exists moments: seq<Moment> ::
              && IsRun(moments, [ForkEvent(0), CallEvent(1, 1, InDown), ExitEvent(1, 0)]) && moments[0] == Boot()
              && Panics(moments[3].tree, WaitEvent(0, -1))
  {
    hide Good, ForkStep, Gone, StrongCount;
    BootGood();
    BootForks();
    ChildExits(map[1 := InDown]);
    var events := [ForkEvent(0), CallEvent(1, 1, InDown), ExitEvent(1, 0)];
    var m1, m2 := Moment(WithChild(false, map[]), []), Moment(WithChild(false, map[1 := InDown]), []);
    var m3 := Moment(WithChild(true, map[1 := InDown]), []);
    assert SetInside(m1.tree, 1, map[][1 := InDown]).procs == m2.tree.procs;
    assert Next(Boot(), events[0], m1) && Next(m1, events[1], m2) && Next(m2, events[2], m3);
    var moments := [Boot(), m1, m2, m3];
    assert IsRun(moments, events);
    RunKeeps(moments, events, 3);
    ChildPanics(m3, map[1 := InDown]);
  }

  lemma ChildPanics(m: Moment, inside: map<nat, Call>)
    requires Good(m) && m.tree == WithChild(true, inside) && inside != map[]
    ensures Panics(m.tree, WaitEvent(0, -1))
  {
    hide TreeOk, StrongCount;
    References(m.tree, 1);
    assert Takes(m.tree, 0, -1, 0, 1);
  }

  // ---------------------------------------------------------------- runs

  /** Any run of forks, calls, exits and waits, to its end or to a failed assertion in `waitpid`: in every state the
    * tree is a tree, the table exact, and each exit code was handed out at most once, as it was set. */
  method RunAll(events: seq<Event>)
    returns (k: ProcessTable, said: seq<Outcome>, halted: bool, ghost moments: seq<Moment>)
    ensures fresh(k) && 1 <= |moments| <= |events| + 1 && IsRun(moments, events[..|moments| - 1])
    ensures moments[0] == Boot() && moments[|moments| - 1] == Moment(k.T(), said)
    ensures forall i | 0 <= i < |moments| :: Good(moments[i])
    ensures if halted then |moments| <= |events| && Panics(k.T(), events[|moments| - 1]) else |moments| == |events| + 1
  {
    hide Good, Next, Panics;
    k := new ProcessTable();
    BootGood();
    moments := [Boot()];
    said, halted := [], false;
    for i := 0 to |events|
      invariant k.Valid() && fresh(k) && |moments| == i + 1 && IsRun(moments, events[..i]) && !halted
      invariant moments[0] == Boot() && moments[i] == Moment(k.T(), said) && Good(moments[i])
    {
      ghost var m := moments[i];
      said, halted := Perform(k, events[i], said);
      if halted {
        break;
      }
      NextKeeps(m, events[i], Moment(k.T(), said));
      moments := moments + [Moment(k.T(), said)];
    }
    forall j | 0 <= j < |moments| ensures Good(moments[j]) { RunKeeps(moments, events[..|moments| - 1], j); }
  }

  /** One event, if the process it names is there to ask for it. */
  method Perform(k: ProcessTable, e: Event, said: seq<Outcome>) returns (said': seq<Outcome>, halted: bool)
    requires k.Valid()
    modifies k
    ensures k.Valid()
    ensures if halted then Panics(old(k.T()), e) && k.T() == old(k.T()) && said' == said
            else Next(Moment(old(k.T()), said), e, Moment(k.T(), said'))
  {
    hide TreeOk, First, StrongCount;
    said', halted := said, false;
    if e.p < |k.procs| && !k.procs[e.p].zombie && !k.procs[e.p].reaped {
      match e
      case ForkEvent(p) => var _ := k.ForkBy(p);
      case CallEvent(p, tid, call) => k.Enter(p, tid, call);
      case ReturnEvent(p, tid) => k.Leave(p, tid);
      case ExitEvent(p, code) =>
        if p != INIT && 0 !in k.procs[p].inside {
          k.ExitOf(p, code);
        }
      case WaitEvent(p, pid) =>
        var r := k.WaitPid(p, pid);
        if r.Panicked? {
          halted := true;
        } else {
          said' := said + [r];
        }
    }
  }
}
