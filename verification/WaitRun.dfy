/** What `waitpid` says over whole runs: -1, -2 or the exit code of a child, from the fork of the child on. */
module WaitRun {
  import opened Wrappers
  import opened ProcTree
  import opened Processes

  /** Event `x` is the exit of process `n` with `code`, and takes place. */
  ghost predicate ExitsAt(moments: seq<Moment>, events: seq<Event>, x: nat, n: nat, code: int)
  {
    x < |events| && x < |moments| && events[x] == ExitEvent(n, code) && Exits(moments[x].tree, n)
  }

  /** What one event can do to process `n`. */
  lemma StepOf(m: Moment, e: Event, m': Moment, n: nat)
    requires Good(m) && Next(m, e, m') && n < |m.tree.procs|
    ensures n < |m'.tree.procs| && m'.tree.procs[n].pid == m.tree.procs[n].pid
    ensures !m.tree.procs[n].zombie && m'.tree.procs[n].zombie ==>
              e.ExitEvent? && e.p == n && Exits(m.tree, n) && m'.tree.procs[n].code == e.code
    ensures e.ExitEvent? && e.p == n && Exits(m.tree, n) ==> m'.tree.procs[n].zombie
    ensures !m.tree.procs[n].reaped && m'.tree.procs[n].reaped ==>
              m'.said == m.said + [Reaped(n, m.tree.procs[n].pid, m.tree.procs[n].code)]
    ensures m'.tree.procs[n].parent == m.tree.procs[n].parent
            || (e.ExitEvent? && Exits(m.tree, e.p) && m.tree.procs[n].parent == Some(e.p))
    ensures m.said <= m'.said
  {
    hide TreeOk, Faithful, Says, StrongCount;
    var t := m.tree;
    if m' != m {
      match e
      case ForkEvent(p) =>
      case CallEvent(p, tid, call) =>
      case ReturnEvent(p, tid) =>
      case ExitEvent(p, code) => if Exits(t, p) { ChildrenParent(t, p, n); }
      case WaitEvent(p, pid) =>
        if m'.tree != t {
          var k: nat, c: nat :| Takes(t, p, pid, k, c) && Reapable(t, p, k) && m' == Waited(m, p, k);
        }
    }
  }

  lemma ChildrenParent(t: Tree, p: nat, n: nat)
    requires TreeOk(t) && p < |t.procs|
    ensures n in t.procs[p].children <==> Kept(t, n) && t.procs[n].parent == Some(p)
  {
    assert ChildrenOk(t, p);
  }

  /** The pid of a process never changes, and what was said stays said. */
  lemma {:induction false} StaysThere(moments: seq<Moment>, events: seq<Event>, i: nat, j: nat, n: nat)
    requires IsRun(moments, events) && Good(moments[0]) && i <= j < |moments| && n < |moments[i].tree.procs|
    ensures n < |moments[j].tree.procs| && moments[j].tree.procs[n].pid == moments[i].tree.procs[n].pid
    ensures moments[i].said <= moments[j].said
    ensures moments[i].tree.procs[n].zombie ==>
              moments[j].tree.procs[n].zombie && moments[j].tree.procs[n].code == moments[i].tree.procs[n].code
    ensures Alive(moments[j].tree, n) ==> Alive(moments[i].tree, n)
    decreases j
  {
    hide Good, Next;
    if i < j {
      StaysThere(moments, events, i, j - 1, n);
      RunKeeps(moments, events, j - 1);
      StepOf(moments[j - 1], events[j - 1], moments[j], n);
      NextKeeps(moments[j - 1], events[j - 1], moments[j]);
    }
  }

  /** A process is a zombie only after an exit of its own. */
  lemma {:induction false} StaysLive(moments: seq<Moment>, events: seq<Event>, i: nat, j: nat, n: nat)
    requires IsRun(moments, events) && Good(moments[0]) && i <= j < |moments| && n < |moments[i].tree.procs|
    requires !moments[i].tree.procs[n].zombie
    requires forall x: nat, code: int | i <= x < j :: !ExitsAt(moments, events, x, n, code)
    ensures n < |moments[j].tree.procs| && !moments[j].tree.procs[n].zombie
    decreases j
  {
    hide Good, Next;
    if i < j {
      StaysLive(moments, events, i, j - 1, n);
      RunKeeps(moments, events, j - 1);
      StepOf(moments[j - 1], events[j - 1], moments[j], n);
      assert events[j - 1].ExitEvent? ==> !ExitsAt(moments, events, j - 1, n, events[j - 1].code);
    }
  }

  /** `waitpid` has returned the pid of process `n`. */
  ghost predicate WaitedFor(said: seq<Outcome>, n: nat)
  {
    exists i :: 0 <= i < |said| && said[i].Reaped? && said[i].child == n
  }

  /** A process is dropped only when it is waited for. */
  lemma {:induction false} StaysKept(moments: seq<Moment>, events: seq<Event>, i: nat, j: nat, n: nat)
    requires IsRun(moments, events) && Good(moments[0]) && i <= j < |moments| && Kept(moments[i].tree, n)
    requires !WaitedFor(moments[j].said, n)
    ensures Kept(moments[j].tree, n)
    decreases j
  {
    hide Good, Next;
    if i < j {
      StaysThere(moments, events, i, j - 1, n);
      RunKeeps(moments, events, j - 1);
      StepOf(moments[j - 1], events[j - 1], moments[j], n);
      var before, proc := moments[j - 1].said, moments[j - 1].tree.procs[n];
      StillWaitedFor(before, moments[j].said, n);
      StaysKept(moments, events, i, j - 1, n);
      NowWaitedFor(before, n, proc.pid, proc.code);
    }
  }

  lemma StillWaitedFor(said: seq<Outcome>, more: seq<Outcome>, n: nat)
    requires said <= more
    ensures WaitedFor(said, n) ==> WaitedFor(more, n)
  {
    if WaitedFor(said, n) {
      var i :| 0 <= i < |said| && said[i].Reaped? && said[i].child == n;
      assert more[i] == said[i];
    }
  }

  lemma NowWaitedFor(said: seq<Outcome>, n: nat, pid: nat, code: int)
    ensures WaitedFor(said + [Reaped(n, pid, code)], n)
  {
    assert (said + [Reaped(n, pid, code)])[|said|] == Reaped(n, pid, code);
  }

  /** A child keeps its parent as long as the parent lives. */
  lemma {:induction false} StaysChild(moments: seq<Moment>, events: seq<Event>, i: nat, j: nat, p: nat, n: nat)
    requires IsRun(moments, events) && Good(moments[0]) && i <= j < |moments|
    requires n < |moments[i].tree.procs| && moments[i].tree.procs[n].parent == Some(p)
    requires p < |moments[i].tree.procs| && Alive(moments[j].tree, p)
    ensures n < |moments[j].tree.procs| && moments[j].tree.procs[n].parent == Some(p)
    decreases j
  {
    hide Good, Next;
    if i < j {
      StaysThere(moments, events, i, j - 1, p);
      RunKeeps(moments, events, j - 1);
      StaysThere(moments, events, j - 1, j, p);
      StaysChild(moments, events, i, j - 1, p, n);
      StepOf(moments[j - 1], events[j - 1], moments[j], n);
      StepOf(moments[j - 1], events[j - 1], moments[j], p);
    }
  }

  lemma ForkMakes(m: Moment, p: nat, m': Moment)
    requires Good(m) && Alive(m.tree, p) && Next(m, ForkEvent(p), m')
    ensures var n := |m.tree.procs|;
            && Alive(m'.tree, n) && m'.tree.procs[n].parent == Some(p) && p < |m'.tree.procs|
            && m'.said == m.said
  {
    hide TreeOk, Faithful;
    ForkedBy(m.tree, p);
  }

  /** The outcome of a `waitpid` that does not panic, as the run records it. */
  lemma WaitSays(m: Moment, p: nat, pid: int, m': Moment) returns (r: Outcome)
    requires Good(m) && Alive(m.tree, p) && Next(m, WaitEvent(p, pid), m')
    ensures m'.said == m.said + [r] && Says(m.tree, p, pid, r) && !r.Panicked?
  {
    hide TreeOk, Faithful, StrongCount;
    var t := m.tree;
    if Says(t, p, pid, NoChild) && m' == m.(said := m.said + [NoChild]) {
      r := NoChild;
    } else if Says(t, p, pid, NotYet) && m' == m.(said := m.said + [NotYet]) {
      r := NotYet;
    } else {
      var k: nat, n: nat :|
        Takes(t, p, pid, k, n) && Reapable(t, p, k) && StrongCount(t, n) == 1 && m' == Waited(m, p, k);
      r := Reaped(n, t.procs[n].pid, t.procs[n].code);
      ChildrenExist(t, p);
      assert Takes(t, p, pid, k, n);
    }
  }

  /** Waiting for child `n` by its pid. */
  lemma OwnPid(t: Tree, p: nat, n: nat, pid: int, r: Outcome)
    requires TreeOk(t) && p < |t.procs| && Kept(t, n) && t.procs[n].parent == Some(p)
    requires Says(t, p, pid, r) && !r.Panicked?
    ensures pid == -1 || pid == t.procs[n].pid ==> !r.NoChild?
    ensures pid == t.procs[n].pid ==> r == if t.procs[n].zombie then Reaped(n, pid, t.procs[n].code) else NotYet
  {
    ChildrenParent(t, p, n);
    if pid == t.procs[n].pid && r.Reaped? {
      var k: nat :| Takes(t, p, pid, k, r.child);
      ChildrenParent(t, p, r.child);
    }
    if pid == t.procs[n].pid && r.NotYet? {
      assert !t.procs[n].zombie;
    }
  }

  /** A child that was forked and not yet waited for: its parent's `waitpid` never says that there is no such child. For
    * the child's pid it says -2 until the child exits, and from then on the pid and the code the child exited with. */
  lemma WaitForChild(moments: seq<Moment>, events: seq<Event>, f: nat, w: nat, p: nat, n: nat, pid: int)
    requires IsRun(moments, events) && Good(moments[0]) && f < w < |events|
    requires events[f] == ForkEvent(p) && Alive(moments[f].tree, p) && n == |moments[f].tree.procs|
    requires events[w] == WaitEvent(p, pid) && Alive(moments[w].tree, p) && !WaitedFor(moments[w].said, n)
    ensures n < |moments[f + 1].tree.procs| && |moments[w + 1].said| == |moments[w].said| + 1
    ensures var id, r := moments[f + 1].tree.procs[n].pid, moments[w + 1].said[|moments[w].said|];
            && (pid == -1 || pid == id ==> r != NoChild)
            && (pid == id && (forall x: nat, code: int | f < x < w :: !ExitsAt(moments, events, x, n, code)) ==>
                  r == NotYet)
            && (forall x: nat, code: int | f < x < w && ExitsAt(moments, events, x, n, code) ::
                  pid == id ==> r == Reaped(n, id, code))
  {
    hide Good, Next, ExitsAt, WaitedFor, Says, Exits;
    RunKeeps(moments, events, f);
    RunKeeps(moments, events, w);
    ForkMakes(moments[f], p, moments[f + 1]);
    StaysThere(moments, events, f + 1, w, n);
    StaysKept(moments, events, f + 1, w, n);
    StaysChild(moments, events, f + 1, w, p, n);
    var r := WaitSays(moments[w], p, pid, moments[w + 1]);
    GoodTree(moments[w]);
    OwnPid(moments[w].tree, p, n, pid, r);
    if forall x: nat, code: int | f < x < w :: !ExitsAt(moments, events, x, n, code) {
      StaysLive(moments, events, f + 1, w, n);
    }
    forall x: nat, code: int | f < x < w && ExitsAt(moments, events, x, n, code)
      ensures moments[w].tree.procs[n].zombie && moments[w].tree.procs[n].code == code
    {
      ExitSets(moments, events, f + 1, x, w, n, code);
    }
  }

  lemma GoodTree(m: Moment)
    requires Good(m)
    ensures TreeOk(m.tree)
  {
  }

  lemma ExitSets(moments: seq<Moment>, events: seq<Event>, i: nat, x: nat, w: nat, n: nat, code: int)
    requires IsRun(moments, events) && Good(moments[0]) && i <= x < w < |events|
    requires n < |moments[i].tree.procs| && ExitsAt(moments, events, x, n, code)
    ensures n < |moments[w].tree.procs| && moments[w].tree.procs[n].zombie && moments[w].tree.procs[n].code == code
  {
    hide Good, Next;
    StaysThere(moments, events, i, x, n);
    RunKeeps(moments, events, x);
    StepOf(moments[x], events[x], moments[x + 1], n);
    StaysThere(moments, events, x + 1, w, n);
  }

  /** Each exit code is handed out at most once, to one `waitpid`, and is the one the process exited with. */
  lemma CodeOnce(moments: seq<Moment>, events: seq<Event>, x: nat, w: nat, n: nat, code: int, i: nat, j: nat)
    requires IsRun(moments, events) && Good(moments[0]) && x < w < |events| && ExitsAt(moments, events, x, n, code)
    requires i < |moments[w].said| && j < |moments[w].said|
    requires moments[w].said[i].Reaped? && moments[w].said[i].child == n
    requires moments[w].said[j].Reaped? && moments[w].said[j].child == n
    ensures i == j && moments[w].said[i].code == code
  {
    hide Next, TreeOk;
    RunKeeps(moments, events, w);
    ExitSets(moments, events, x, x, w, n, code);
  }
}
