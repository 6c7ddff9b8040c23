/** Processes: fork, exit and `waitpid`, the table from pids to processes, and the tree of parents and children. */
module ProcTree {
  import opened Counting
  import opened Wrappers
  import opened Ids

  /** System calls in which a thread can lose the processor with a reference to its process on its kernel stack. */
  datatype Call = InDown | InCondWait | InRead | InWrite

  /** A process control block. `reaped`: dropped after being waited for. `inside`: the threads, by tid, that stand in a
    * call that keeps a reference to the process. Processes are numbered as they are made; the first is `INITPROC`. */
  datatype Proc = Proc(pid: nat, parent: Option<nat>, children: seq<nat>, zombie: bool, code: int, reaped: bool,
                       inside: map<nat, Call>)

  const INIT: nat := 0

  datatype Tree = Tree(procs: seq<Proc>, pids: RecycleAllocator, table: map<nat, nat>)

  ghost predicate Unique(s: seq<nat>)
  {
    forall i, j | 0 <= i < j < |s| :: s[i] != s[j]
  }

  lemma UniqueJoin(a: seq<nat>, b: seq<nat>)
    requires Unique(a) && Unique(b) && forall x | x in a :: x !in b
    ensures Unique(a + b)
  {
    forall i, j | 0 <= i < j < |a + b|
      ensures (a + b)[i] != (a + b)[j]
    {
      if i < |a| <= j { assert a[i] in a && b[j - |a|] in b; }
    }
  }

  lemma UniqueCut(s: seq<nat>, k: nat)
    requires Unique(s) && k < |s|
    ensures Unique(s[..k] + s[k + 1..]) && forall x :: x in s[..k] + s[k + 1..] <==> x in s && x != s[k]
  {
    assert s == s[..k] + [s[k]] + s[k + 1..];
  }

  predicate Kept(t: Tree, n: nat)
  {
    n < |t.procs| && !t.procs[n].reaped
  }

  predicate Alive(t: Tree, n: nat)
  {
    Kept(t, n) && !t.procs[n].zombie
  }

  /** Unreaped processes have different pids, and those are the pids that are out. */
  ghost predicate PidsOk(t: Tree)
  {
    && t.pids.Valid()
    && (forall m: nat, n: nat | m < n && Kept(t, m) && Kept(t, n) :: t.procs[m].pid != t.procs[n].pid)
    && (forall n: nat | Kept(t, n) :: t.pids.Live(t.procs[n].pid))
    && (forall pid: nat | t.pids.Live(pid) :: exists n: nat :: Kept(t, n) && t.procs[n].pid == pid)
  }

  /** The table holds exactly the processes that have not exited, under their pids. */
  ghost predicate TableOk(t: Tree)
  {
    && (forall n: nat | Alive(t, n) :: t.procs[n].pid in t.table && t.table[t.procs[n].pid] == n)
    && (forall pid | pid in t.table :: Alive(t, t.table[pid]) && t.procs[t.table[pid]].pid == pid)
  }

  /** The children of `q` are the unreaped processes whose parent is `q`, each listed once. */
  ghost predicate ChildrenOk(t: Tree, q: nat)
    requires q < |t.procs|
  {
    && Unique(t.procs[q].children)
    && (forall n: nat :: n in t.procs[q].children <==> Kept(t, n) && t.procs[n].parent == Some(q))
    && (t.procs[q].children != [] ==> Alive(t, q))
  }

  /** Every unreaped process but the first has a parent, made before it, that has not exited. */
  ghost predicate ParentOk(t: Tree, n: nat)
    requires n < |t.procs|
  {
    if n == INIT then t.procs[n].parent == None && Alive(t, n)
    else Kept(t, n) ==> t.procs[n].parent.Some? && t.procs[n].parent.value < n && Alive(t, t.procs[n].parent.value)
  }

  ghost predicate TreeOk(t: Tree)
  {
    && |t.procs| > 0 && PidsOk(t) && TableOk(t)
    && (forall q: nat | q < |t.procs| :: ChildrenOk(t, q))
    && (forall n: nat | n < |t.procs| :: ParentOk(t, n))
  }

  // ---------------------------------------------------------------- steps

  function ForkStep(t: Tree, p: nat): (t': Tree)
    requires Alive(t, p) && t.pids.Valid()
  {
    var (pids, pid) := t.pids.Alloc();
    var n := |t.procs|;
    Tree(t.procs[p := t.procs[p].(children := t.procs[p].children + [n])]
         + [Proc(pid, Some(p), [], false, 0, false, map[])],
         pids, t.table[pid := n])
  }

  /** What a fork adds: process `n`, with a pid nobody has, under `p`. */
  ghost predicate Forked(t: Tree, p: nat, t': Tree)
    requires p < |t.procs|
  {
    var n := |t.procs|;
    && |t'.procs| == n + 1 && t'.pids.Valid()
    && (forall m: nat | m < n ::
          t'.procs[m] == if m == p then t.procs[p].(children := t.procs[p].children + [n]) else t.procs[m])
    && t'.procs[n] == Proc(t'.procs[n].pid, Some(p), [], false, 0, false, map[])
    && !t.pids.Live(t'.procs[n].pid) && t'.table == t.table[t'.procs[n].pid := n]
    && (forall id: nat :: t'.pids.Live(id) <==> t.pids.Live(id) || id == t'.procs[n].pid)
  }

  lemma ForkedBy(t: Tree, p: nat)
    requires Alive(t, p) && t.pids.Valid()
    ensures Forked(t, p, ForkStep(t, p))
  {
  }

  lemma ForkKeeps(t: Tree, p: nat)
    requires TreeOk(t) && Alive(t, p)
    ensures TreeOk(ForkStep(t, p))
  {
    ForkedBy(t, p);
    var t' := ForkStep(t, p);
    hide ForkStep, PidsOk, TableOk, Forked, ChildrenOk, ParentOk;
    ForkPids(t, p, t');
    ForkTable(t, p, t');
    ForkTree(t, p, t');
    assert |t'.procs| > 0 by { ForkedSize(t, p, t'); }
  }

  lemma ForkedSize(t: Tree, p: nat, t': Tree)
    requires p < |t.procs| && Forked(t, p, t')
    ensures |t'.procs| == |t.procs| + 1
  {
  }

  lemma ForkPids(t: Tree, p: nat, t': Tree)
    requires PidsOk(t) && Alive(t, p) && Forked(t, p, t')
    ensures PidsOk(t')
  {
    hide RecycleAllocator.Live, RecycleAllocator.Valid;
    var n := |t.procs|;
    forall m: nat | m < n ensures Kept(t', m) <==> Kept(t, m) { }
    forall id: nat | t'.pids.Live(id)
      ensures exists m: nat :: Kept(t', m) && t'.procs[m].pid == id
    {
      if id == t'.procs[n].pid {
        assert Kept(t', n);
      } else {
        var m: nat :| Kept(t, m) && t.procs[m].pid == id;
        assert Kept(t', m) && t'.procs[m].pid == id;
      }
    }
  }

  lemma ForkTable(t: Tree, p: nat, t': Tree)
    requires PidsOk(t) && TableOk(t) && Alive(t, p) && Forked(t, p, t')
    ensures TableOk(t')
  {
    hide RecycleAllocator.Live, RecycleAllocator.Valid;
    var n := |t.procs|;
    forall m: nat | m < n ensures Alive(t', m) <==> Alive(t, m) { }
    forall m: nat | m < n && Alive(t, m) ensures t.procs[m].pid != t'.procs[n].pid { }
  }

  lemma ForkTree(t: Tree, p: nat, t': Tree)
    requires TreeOk(t) && Alive(t, p) && Forked(t, p, t')
    ensures forall q: nat | q < |t'.procs| :: ChildrenOk(t', q)
    ensures forall n: nat | n < |t'.procs| :: ParentOk(t', n)
  {
    hide PidsOk, TableOk;
    var n := |t.procs|;
    forall m: nat | m < |t'.procs|
      ensures ParentOk(t', m)
    {
      if m < n { assert ParentOk(t, m); }
    }
    forall q: nat | q < |t'.procs|
      ensures ChildrenOk(t', q)
    {
      if q < n {
        assert ChildrenOk(t, q);
        assert n !in t.procs[q].children;
        forall m: nat
          ensures m in t'.procs[q].children <==> Kept(t', m) && t'.procs[m].parent == Some(q)
        {
          assert m in t'.procs[q].children <==> m in t.procs[q].children || (q == p && m == n);
          assert Kept(t', m) <==> Kept(t, m) || m == n;
        }
      } else {
        forall m: nat | Kept(t, m) ensures t.procs[m].parent != Some(n) { assert ParentOk(t, m); }
      }
    }
  }

  /** Process `p` on its way out, its first `k` children handed to `INITPROC`. */
  ghost predicate Exiting(t: Tree, p: nat, code: int, k: nat, t': Tree)
    requires p < |t.procs| && INIT < |t.procs| && p != INIT && k <= |t.procs[p].children|
  {
    var moved := t.procs[p].children[..k];
    && |t'.procs| == |t.procs| && t'.pids == t.pids && t'.table == t.table - {t.procs[p].pid}
    && t'.procs[p] == t.procs[p].(zombie := true, code := code)
    && t'.procs[INIT] == t.procs[INIT].(children := t.procs[INIT].children + moved)
    && (forall m: nat | m < |t.procs| && m != p && m != INIT ::
          t'.procs[m] == if m in moved then t.procs[m].(parent := Some(INIT)) else t.procs[m])
  }

  /** The children all handed over, and the list cleared. */
  ghost predicate Gone(t: Tree, p: nat, code: int, t': Tree)
    requires p < |t.procs| && INIT < |t.procs| && p != INIT
  {
    var moved := t.procs[p].children;
    && |t'.procs| == |t.procs| && t'.pids == t.pids && t'.table == t.table - {t.procs[p].pid}
    && t'.procs[p] == t.procs[p].(zombie := true, code := code, children := [])
    && t'.procs[INIT] == t.procs[INIT].(children := t.procs[INIT].children + moved)
    && (forall m: nat | m < |t.procs| && m != p && m != INIT ::
          t'.procs[m] == if m in moved then t.procs[m].(parent := Some(INIT)) else t.procs[m])
  }

  lemma GoneKeeps(t: Tree, p: nat, code: int, t': Tree)
    requires TreeOk(t) && Alive(t, p) && p != INIT && Gone(t, p, code, t')
    ensures TreeOk(t')
  {
    GonePids(t, p, code, t');
    hide PidsOk, TableOk;
    GoneParents(t, p, code, t');
    GoneChildren(t, p, code, t');
  }

  lemma GonePids(t: Tree, p: nat, code: int, t': Tree)
    requires |t.procs| > 0 && PidsOk(t) && TableOk(t) && Alive(t, p) && p != INIT && Gone(t, p, code, t')
    ensures PidsOk(t') && TableOk(t')
  {
    hide RecycleAllocator.Live, RecycleAllocator.Valid;
    forall m: nat
      ensures Kept(t', m) <==> Kept(t, m)
      ensures Kept(t, m) ==> t'.procs[m].pid == t.procs[m].pid
      ensures Alive(t', m) <==> Alive(t, m) && m != p
    {
    }
    forall id: nat | t'.pids.Live(id)
      ensures exists m: nat :: Kept(t', m) && t'.procs[m].pid == id
    {
      var m: nat :| Kept(t, m) && t.procs[m].pid == id;
      assert Kept(t', m);
    }
    forall m: nat | Alive(t', m)
      ensures t'.procs[m].pid in t'.table && t'.table[t'.procs[m].pid] == m
    {
      assert Alive(t, m) && Alive(t, p);
    }
    forall pid | pid in t'.table
      ensures Alive(t', t'.table[pid]) && t'.procs[t'.table[pid]].pid == pid
    {
      assert Alive(t, t.table[pid]);
    }
  }

  lemma GoneParents(t: Tree, p: nat, code: int, t': Tree)
    requires TreeOk(t) && Alive(t, p) && p != INIT && Gone(t, p, code, t')
    ensures forall n: nat | n < |t'.procs| :: ParentOk(t', n)
  {
    hide PidsOk, TableOk;
    forall n: nat | n < |t'.procs|
      ensures ParentOk(t', n)
    {
      assert ParentOk(t, n) && ParentOk(t, INIT) && ChildrenOk(t, p);
    }
  }

  lemma GoneChildren(t: Tree, p: nat, code: int, t': Tree)
    requires TreeOk(t) && Alive(t, p) && p != INIT && Gone(t, p, code, t')
    ensures forall q: nat | q < |t'.procs| :: ChildrenOk(t', q)
  {
    hide PidsOk, TableOk;
    assert ParentOk(t, INIT) && ParentOk(t, p);
    assert ChildrenOk(t, INIT) && ChildrenOk(t, p);
    UniqueJoin(t.procs[INIT].children, t.procs[p].children);
    forall q: nat | q < |t'.procs|
      ensures ChildrenOk(t', q)
    {
      assert ChildrenOk(t, q) && ChildrenOk(t, p) && ChildrenOk(t, INIT);
      forall m: nat
        ensures m in t'.procs[q].children <==> Kept(t', m) && t'.procs[m].parent == Some(q)
      {
        assert Kept(t', m) <==> Kept(t, m);
        assert q == INIT ==> (m in t'.procs[INIT].children <==>
               m in t.procs[INIT].children || m in t.procs[p].children);
      }
    }
  }

  /** `waitpid` by `p` takes out child number `idx`, which is dropped and gives its pid back. */
  function ReapStep(t: Tree, p: nat, idx: nat): (t': Tree)
    requires p < |t.procs| && idx < |t.procs[p].children| && t.procs[p].children[idx] < |t.procs|
    requires t.pids.Valid() && t.pids.Live(t.procs[t.procs[p].children[idx]].pid)
  {
    var n := t.procs[p].children[idx];
    var procs := t.procs[p := t.procs[p].(children := t.procs[p].children[..idx] + t.procs[p].children[idx + 1..])];
    Tree(procs[n := procs[n].(reaped := true)], t.pids.Dealloc(t.procs[n].pid), t.table)
  }

  lemma ChildIsKept(t: Tree, p: nat, idx: nat)
    requires TreeOk(t) && p < |t.procs| && idx < |t.procs[p].children|
    ensures var n := t.procs[p].children[idx];
            && Kept(t, n) && n != p && n != INIT && t.pids.Valid() && t.pids.Live(t.procs[n].pid)
  {
    var n := t.procs[p].children[idx];
    assert ChildrenOk(t, p) && n in t.procs[p].children;
    assert ParentOk(t, n);
  }

  lemma ReapKeeps(t: Tree, p: nat, idx: nat)
    requires TreeOk(t) && Alive(t, p) && idx < |t.procs[p].children|
    requires var n := t.procs[p].children[idx];
             n < |t.procs| && t.procs[n].zombie && t.pids.Valid() && t.pids.Live(t.procs[n].pid)
    ensures TreeOk(ReapStep(t, p, idx))
  {
    ChildIsKept(t, p, idx);
    ReapPids(t, p, idx);
    ReapTree(t, p, idx);
  }

  lemma ReapPids(t: Tree, p: nat, idx: nat)
    requires |t.procs| > 0 && PidsOk(t) && TableOk(t) && Alive(t, p) && idx < |t.procs[p].children|
    requires var n := t.procs[p].children[idx]; Kept(t, n) && n != p && t.procs[n].zombie && t.pids.Live(t.procs[n].pid)
    ensures PidsOk(ReapStep(t, p, idx)) && TableOk(ReapStep(t, p, idx))
  {
    var t', n := ReapStep(t, p, idx), t.procs[p].children[idx];
    assert t'.pids.Valid() && forall x: nat :: t'.pids.Live(x) <==> t.pids.Live(x) && x != t.procs[n].pid;
    hide RecycleAllocator.Live, RecycleAllocator.Valid, RecycleAllocator.Dealloc;
    forall m: nat
      ensures Kept(t', m) <==> Kept(t, m) && m != n
      ensures Kept(t, m) ==> t'.procs[m].pid == t.procs[m].pid
      ensures Alive(t', m) <==> Alive(t, m)
    {
    }
    forall id: nat | t'.pids.Live(id)
      ensures exists m: nat :: Kept(t', m) && t'.procs[m].pid == id
    {
      var m: nat :| Kept(t, m) && t.procs[m].pid == id;
      assert Kept(t', m);
    }
    forall pid | pid in t'.table
      ensures Alive(t', t'.table[pid]) && t'.procs[t'.table[pid]].pid == pid
    {
      assert Alive(t, t.table[pid]);
    }
  }

  lemma ReapTree(t: Tree, p: nat, idx: nat)
    requires TreeOk(t) && Alive(t, p) && idx < |t.procs[p].children|
    requires var n := t.procs[p].children[idx];
             n < |t.procs| && t.procs[n].zombie && n != p && t.pids.Live(t.procs[n].pid)
    ensures forall q: nat | q < |t.procs| :: ChildrenOk(ReapStep(t, p, idx), q)
    ensures forall m: nat | m < |t.procs| :: ParentOk(ReapStep(t, p, idx), m)
  {
    var t', n, cs := ReapStep(t, p, idx), t.procs[p].children[idx], t.procs[p].children;
    hide PidsOk, TableOk, RecycleAllocator.Live, RecycleAllocator.Valid, RecycleAllocator.Dealloc;
    assert ChildrenOk(t, p) && ChildrenOk(t, n);
    UniqueCut(cs, idx);
    var rest := cs[..idx] + cs[idx + 1..];
    forall m: nat | m < |t.procs|
      ensures t'.procs[m] == if m == p then t.procs[p].(children := rest)
                             else if m == n then t.procs[n].(reaped := true) else t.procs[m]
    {
    }
    ReapedParents(t, p, n, rest, t');
    ReapedChildren(t, p, n, rest, t');
  }

  /** The processes after child `n` of `p` is taken out and dropped. */
  ghost predicate Reaped(t: Tree, p: nat, n: nat, rest: seq<nat>, t': Tree)
  {
    && |t'.procs| == |t.procs|
    && forall m: nat | m < |t.procs| ::
         t'.procs[m] == if m == p then t.procs[p].(children := rest)
                        else if m == n then t.procs[n].(reaped := true) else t.procs[m]
  }

  lemma ReapedParents(t: Tree, p: nat, n: nat, rest: seq<nat>, t': Tree)
    requires TreeOk(t) && Alive(t, p) && n < |t.procs| && n != p && t.procs[n].zombie && Reaped(t, p, n, rest, t')
    ensures forall m: nat | m < |t.procs| :: ParentOk(t', m)
  {
    hide PidsOk, TableOk, ChildrenOk;
    forall m: nat | m < |t.procs| ensures ParentOk(t', m) { assert ParentOk(t, m); }
  }

  lemma ReapedChildren(t: Tree, p: nat, n: nat, rest: seq<nat>, t': Tree)
    requires TreeOk(t) && Alive(t, p) && n < |t.procs| && n != p && t.procs[n].zombie && Reaped(t, p, n, rest, t')
    requires t.procs[n].parent == Some(p)
    requires Unique(rest) && forall x :: x in rest <==> x in t.procs[p].children && x != n
    ensures forall q: nat | q < |t.procs| :: ChildrenOk(t', q)
  {
    hide PidsOk, TableOk, ParentOk;
    forall q: nat | q < |t.procs|
      ensures ChildrenOk(t', q)
    {
      assert ChildrenOk(t, q);
      forall m: nat
        ensures m in t'.procs[q].children <==> Kept(t', m) && t'.procs[m].parent == Some(q)
      {
        assert Kept(t', m) <==> Kept(t, m) && m != n;
      }
      assert t'.procs[q].children != [] ==> t.procs[q].children != [] by {
        if q == p && rest != [] { assert rest[0] in rest; }
      }
    }
  }

  // ---------------------------------------------------------------- references

  /** How often process `n` stands in the children lists of the first `k` processes. */
  function InLists(procs: seq<Proc>, n: nat, k: nat): (c: nat)
    requires k <= |procs|
  {
    if k == 0 then 0 else InLists(procs, n, k - 1) + Count(procs[k - 1].children, n)
  }

  /** The strong references to process `n`: from children lists, from the pid table, and from the kernel stacks of its
    * threads. */
  function StrongCount(t: Tree, n: nat): (c: nat)
    requires n < |t.procs|
  {
    InLists(t.procs, n, |t.procs|) + |set pid | pid in t.table && t.table[pid] == n| + |t.procs[n].inside|
  }

  lemma {:induction false} ListedOnce(t: Tree, n: nat, k: nat)
    requires TreeOk(t) && Kept(t, n) && n != INIT && k <= |t.procs|
    ensures t.procs[n].parent.Some? && InLists(t.procs, n, k) == if t.procs[n].parent.value < k then 1 else 0
  {
    hide PidsOk, TableOk;
    assert ParentOk(t, n);
    if k > 0 {
      ListedOnce(t, n, k - 1);
      assert ChildrenOk(t, k - 1);
      CountUnique(t.procs[k - 1].children, n);
    }
  }

  /** Between steps a process has one reference from its parent, one from the pid table until it exits, and one for
    * each of its threads inside a call that keeps one. */
  lemma References(t: Tree, n: nat)
    requires TreeOk(t) && Kept(t, n) && n != INIT
    ensures StrongCount(t, n) == 1 + (if t.procs[n].zombie then 0 else 1) + |t.procs[n].inside|
  {
    ListedOnce(t, n, |t.procs|);
    assert ParentOk(t, n);
    var keys := set pid | pid in t.table && t.table[pid] == n;
    if t.procs[n].zombie {
      assert keys == {};
    } else {
      assert Alive(t, n) && keys == {t.procs[n].pid};
    }
  }

  /** The threads inside such calls change; nothing else does. */
  function SetInside(t: Tree, p: nat, inside: map<nat, Call>): (t': Tree)
    requires p < |t.procs|
  {
    t.(procs := t.procs[p := t.procs[p].(inside := inside)])
  }

  lemma SetInsideKeeps(t: Tree, p: nat, inside: map<nat, Call>)
    requires TreeOk(t) && p < |t.procs|
    ensures TreeOk(SetInside(t, p, inside))
  {
    hide PidsOk, TableOk, ChildrenOk, ParentOk;
    var t' := SetInside(t, p, inside);
    SetInsidePids(t, p, inside);
    forall q: nat | q < |t'.procs|
      ensures ChildrenOk(t', q) && ParentOk(t', q)
    {
      SetInsideOne(t, p, inside, q);
    }
  }

  lemma SetInsideOne(t: Tree, p: nat, inside: map<nat, Call>, q: nat)
    requires p < |t.procs| && q < |t.procs| && ChildrenOk(t, q) && ParentOk(t, q)
    ensures ChildrenOk(SetInside(t, p, inside), q) && ParentOk(SetInside(t, p, inside), q)
  {
    hide Unique;
    var t' := SetInside(t, p, inside);
    forall m: nat
      ensures (Kept(t', m) <==> Kept(t, m)) && (Alive(t', m) <==> Alive(t, m))
      ensures m < |t.procs| ==> t'.procs[m].parent == t.procs[m].parent
    {
    }
    assert t'.procs[q].children == t.procs[q].children;
  }

  lemma SetInsidePids(t: Tree, p: nat, inside: map<nat, Call>)
    requires PidsOk(t) && TableOk(t) && p < |t.procs|
    ensures PidsOk(SetInside(t, p, inside)) && TableOk(SetInside(t, p, inside))
  {
    hide RecycleAllocator.Live, RecycleAllocator.Valid;
    var t' := SetInside(t, p, inside);
    forall m: nat
      ensures Kept(t', m) <==> Kept(t, m)
      ensures Kept(t, m) ==> t'.procs[m].pid == t.procs[m].pid
      ensures Alive(t', m) <==> Alive(t, m)
    {
    }
    forall id: nat | t'.pids.Live(id)
      ensures exists m: nat :: Kept(t', m) && t'.procs[m].pid == id
    {
      var m: nat :| Kept(t, m) && t.procs[m].pid == id;
      assert Kept(t', m);
    }
    forall pid | pid in t'.table
      ensures Alive(t', t'.table[pid]) && t'.procs[t'.table[pid]].pid == pid
    {
      assert Alive(t, t.table[pid]);
    }
  }
}
