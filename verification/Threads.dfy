/** Threads and processes coming and going: creation, exit, and the removal of every thread of a process whose main
  * thread exits. */
module Threads {
  import opened Wrappers
  import opened Ids
  import opened Sched

  /** The thread table with room for slot `tid`, holding task `n`. */
  function WithSlot(threads: seq<Option<nat>>, tid: nat, n: nat): (r: seq<Option<nat>>)
    ensures |r| == (if tid < |threads| then |threads| else tid + 1) && r[tid] == Some(n)
    ensures forall i | 0 <= i < |r| && i != tid :: r[i] == if i < |threads| then threads[i] else None
  {
    (threads + seq(if tid < |threads| then 0 else tid + 1 - |threads|, _ => None))[tid := Some(n)]
  }

  /** `sys_thread_create`: a new thread of the current thread's process. */
  function Spawn(s: State, p: nat): (s': State)
    requires p < |s.procs| && s.procs[p].tids.Valid()
  {
    var n, (tids, tid) := |s.tasks|, s.procs[p].tids.Alloc();
    s.(tasks := s.tasks + [Task(p, tid, Ready, None)], ready := s.ready + [n],
       procs := s.procs[p := s.procs[p].(threads := WithSlot(s.procs[p].threads, tid, n), tids := tids)])
  }

  /** A new process with its main thread, tid 0. */
  function NewProcess(s: State): (s': State)
  {
    Spawn(s.(procs := s.procs + [Proc(false, [], NewAllocator())]), |s.procs|)
  }

  function NewObject(s: State, proc: nat, kind: Kind): (s': State)
  {
    s.(objects := s.objects + [Object(proc, kind, [])])
  }

  predicate Retirable(s: State)
  {
    && s.current.Some? && Unexited(s, s.current.value)
    && s.procs[s.tasks[s.current.value].proc].tids.Live(s.tasks[s.current.value].tid)
  }

  /** The current thread records its exit code and gives its tid back. */
  function Retire(s: State, code: int): (s': State)
    requires Retirable(s) && s.procs[s.tasks[s.current.value].proc].tids.Valid()
  {
    var t := s.current.value;
    var task := s.tasks[t];
    var p := s.procs[task.proc];
    s.(tasks := s.tasks[t := task.(exit := Some(code))], current := None,
       procs := s.procs[task.proc := p.(tids := p.tids.Dealloc(task.tid))])
  }

  // ---------------------------------------------------------------- creation

  lemma PlacedBelow(s: State, place: Places)
    requires Inv(s, place)
    ensures forall t | t in place :: t < |s.tasks|
  {
    forall t | t in place ensures t < |s.tasks| { assert TaskOk(s, t, place[t]); }
  }

  lemma SpawnKeeps(s: State, place: Places, p: nat)
    requires Inv(s, place) && p < |s.procs| && !s.procs[p].zombie
    ensures s.procs[p].tids.Valid() && Inv(Spawn(s, p), place[|s.tasks| := InReady])
  {
    hide Holds, QueuesOk;
    assert ProcOk(s, p);
    PlacedBelow(s, place);
    var n := |s.tasks|;
    Membership(s, place, n);
    HoldsPush(s.ready, InReady, place, n);
    HoldsOther(Sleepers(s.timers), InTimers, place, n, InReady);
    QueuesApart(s.objects, place, n, InReady);
    SpawnTasks(s, place, p);
  }

  lemma SpawnTasks(s: State, place: Places, p: nat)
    requires Inv(s, place) && p < |s.procs| && !s.procs[p].zombie && s.procs[p].tids.Valid()
    ensures TasksOk(Spawn(s, p), place[|s.tasks| := InReady])
    ensures AllPlaced(Spawn(s, p), place[|s.tasks| := InReady]) && ProcsOk(Spawn(s, p))
  {
    hide Holds, QueuesOk, CpuOk;
    var n, s' := |s.tasks|, Spawn(s, p);
    var place' := place[n := InReady];
    forall t | t in place'
      ensures TaskOk(s', t, place'[t])
    {
      if t != n { assert TaskOk(s, t, place[t]); }
    }
    forall r: nat | r < |s'.procs| ensures ProcOk(s', r) { assert ProcOk(s, r); }
    forall t: nat | Unexited(s', t)
      ensures t in place' && Listed(s'.procs[s'.tasks[t].proc], s'.tasks[t].tid, t)
    {
      if t != n { assert Unexited(s, t); }
    }
  }

  lemma NewProcessKeeps(s: State, place: Places)
    requires Inv(s, place)
    ensures Inv(NewProcess(s), place[|s.tasks| := InReady])
    ensures NewProcess(s).tasks[|s.tasks|].tid == 0
  {
    var s1 := s.(procs := s.procs + [Proc(false, [], NewAllocator())]);
    assert Inv(s1, place) by {
      hide Holds, QueuesOk, CpuOk;
      forall r: nat | r < |s1.procs| ensures ProcOk(s1, r) { if r < |s.procs| { assert ProcOk(s, r); } }
      forall t | t in place ensures TaskOk(s1, t, place[t]) { assert TaskOk(s, t, place[t]); }
      forall t: nat | Unexited(s1, t)
        ensures t in place && Listed(s1.procs[s1.tasks[t].proc], s1.tasks[t].tid, t)
      {
        assert Unexited(s, t);
      }
    }
    hide Inv;
    SpawnKeeps(s1, place, |s.procs|);
  }

  lemma NewObjectKeeps(s: State, place: Places, proc: nat, kind: Kind)
    requires Inv(s, place) && proc < |s.procs|
    ensures Inv(NewObject(s, proc, kind), place)
  {
    hide CpuOk;
    var s' := NewObject(s, proc, kind);
    forall r: nat | r < |s'.procs| ensures ProcOk(s', r) { assert ProcOk(s, r); }
    forall t | t in place ensures TaskOk(s', t, place[t]) { assert TaskOk(s, t, place[t]); }
    forall t: nat | Unexited(s', t)
      ensures t in place && Listed(s'.procs[s'.tasks[t].proc], s'.tasks[t].tid, t)
    {
      assert Unexited(s, t);
    }
    var q := |s.objects|;
    forall t | t in place ensures place[t] != InQueue(q) { assert TaskOk(s, t, place[t]); }
    assert Holds([], InQueue(q), place);
  }

  lemma KindKeeps(s: State, place: Places, q: nat, kind: Kind)
    requires Inv(s, place) && q < |s.objects|
    ensures Inv(SetObject(s, q, s.objects[q].(kind := kind)), place)
  {
    hide CpuOk, Holds;
    var s' := SetObject(s, q, s.objects[q].(kind := kind));
    forall r: nat | r < |s'.procs| ensures ProcOk(s', r) { assert ProcOk(s, r); }
    forall t | t in place ensures TaskOk(s', t, place[t]) { assert TaskOk(s, t, place[t]); }
    forall t: nat | Unexited(s', t)
      ensures t in place && Listed(s'.procs[s'.tasks[t].proc], s'.tasks[t].tid, t)
    {
      assert Unexited(s, t);
    }
  }

  // ---------------------------------------------------------------- exit

  lemma HoldsGone(queue: seq<nat>, at: Place, place: Places, t: nat)
    requires Holds(queue, at, place) && t !in queue
    ensures Holds(queue, at, place - {t})
  {
  }

  lemma QueuesGone(objects: seq<Object>, place: Places, t: nat)
    requires QueuesOk(objects, place) && (t in place ==> !place[t].InQueue?)
    ensures QueuesOk(objects, place - {t})
  {
    hide Holds;
    forall q: nat | q < |objects|
      ensures Holds(objects[q].queue, InQueue(q), place - {t})
    {
      InHolds(objects[q].queue, InQueue(q), place, t);
      HoldsGone(objects[q].queue, InQueue(q), place, t);
    }
  }

  /** A thread can always give its tid back: the check in the allocator passes. */
  lemma CanRetire(s: State, place: Places)
    requires Inv(s, place) && s.current.Some?
    ensures Retirable(s) && s.procs[s.tasks[s.current.value].proc].tids.Valid()
  {
    var t := s.current.value;
    Membership(s, place, t);
    assert ProcOk(s, s.tasks[t].proc);
    assert Unexited(s, t);
  }

  lemma RetireKeeps(s: State, place: Places, code: int)
    requires Inv(s, place) && Retirable(s) && s.procs[s.tasks[s.current.value].proc].tids.Valid()
    ensures Inv(Retire(s, code), place - {s.current.value})
  {
    hide Holds, QueuesOk;
    var t, s' := s.current.value, Retire(s, code);
    Membership(s, place, t);
    HoldsGone(s.ready, InReady, place, t);
    HoldsGone(Sleepers(s.timers), InTimers, place, t);
    QueuesGone(s.objects, place, t);
    RetireTasks(s, place, code);
  }

  lemma RetireTasks(s: State, place: Places, code: int)
    requires Inv(s, place) && Retirable(s) && s.procs[s.tasks[s.current.value].proc].tids.Valid()
    ensures var s', place' := Retire(s, code), place - {s.current.value};
            TasksOk(s', place') && AllPlaced(s', place') && ProcsOk(s')
  {
    hide Holds, QueuesOk, CpuOk;
    var t, s' := s.current.value, Retire(s, code);
    forall u | u in place && u != t ensures TaskOk(s', u, place[u]) { assert TaskOk(s, u, place[u]); }
    forall r: nat | r < |s'.procs| ensures ProcOk(s', r) { assert ProcOk(s, r); }
    forall u: nat | Unexited(s', u)
      ensures u in place - {t} && Listed(s'.procs[s'.tasks[u].proc], s'.tasks[u].tid, u)
    {
      assert Unexited(s, u) && Unexited(s, t);
    }
  }
}
