/** The scheduler as states and steps: where every thread is, and what each step does to that. The kernel runs on one
  * processor and does not switch threads while in the kernel, so what a thread does between two schedule points is one
  * step; timer interrupts come between steps. */
module Sched {
  import opened Wrappers
  import opened Ids

  datatype Status = Ready | Running | Blocked

  datatype Task = Task(proc: nat, tid: nat, status: Status, exit: Option<int>)

  /** An entry of the timer heap. */
  datatype Timer = Timer(expire: nat, task: nat)

  datatype Kind = Semaphore(count: int) | Mutex(locked: bool) | Condvar

  /** A semaphore, blocking mutex or condition variable of process `proc`, with its wait queue. */
  datatype Object = Object(proc: nat, kind: Kind, queue: seq<nat>)

  /** A process: its thread table (slot = tid) and its tid allocator. */
  datatype Proc = Proc(zombie: bool, threads: seq<Option<nat>>, tids: RecycleAllocator)

  /** Tasks, objects and processes are numbered as they are made. */
  datatype State = State(tasks: seq<Task>, current: Option<nat>, ready: seq<nat>, timers: seq<Timer>,
                         objects: seq<Object>, procs: seq<Proc>)

  datatype Place = OnCpu | InReady | InQueue(obj: nat) | InTimers

  type Places = map<nat, Place>

  function StatusAt(p: Place): (s: Status)
  {
    match p
    case OnCpu => Running
    case InReady => Ready
    case _ => Blocked
  }

  /** `queue` lists the tasks whose place is `at`, each once. */
  ghost predicate Holds(queue: seq<nat>, at: Place, place: Places)
  {
    && (forall i, j | 0 <= i < j < |queue| :: queue[i] != queue[j])
    && (forall t :: t in queue <==> t in place && place[t] == at)
  }

  lemma HoldsPop(queue: seq<nat>, at: Place, place: Places, p: Place)
    requires Holds(queue, at, place) && queue != [] && p != at
    ensures Holds(queue[1..], at, place[queue[0] := p])
  {
    assert queue == [queue[0]] + queue[1..];
  }

  lemma HoldsPush(queue: seq<nat>, at: Place, place: Places, t: nat)
    requires Holds(queue, at, place) && t !in queue
    ensures Holds(queue + [t], at, place[t := at])
  {
  }

  lemma HoldsOther(queue: seq<nat>, at: Place, place: Places, t: nat, p: Place)
    requires Holds(queue, at, place) && t !in queue && p != at
    ensures Holds(queue, at, place[t := p])
  {
  }

  lemma HoldsCut(queue: seq<nat>, at: Place, place: Places, k: nat, p: Place)
    requires Holds(queue, at, place) && k < |queue| && p != at
    ensures Holds(queue[..k] + queue[k + 1..], at, place[queue[k] := p])
  {
    assert queue == queue[..k] + [queue[k]] + queue[k + 1..];
  }

  function Sleepers(timers: seq<Timer>): (ts: seq<nat>)
    ensures |ts| == |timers| && forall i | 0 <= i < |ts| :: ts[i] == timers[i].task
  {
    seq(|timers|, i requires 0 <= i < |timers| => timers[i].task)
  }

  // ---------------------------------------------------------------- the invariant

  ghost predicate CpuOk(current: Option<nat>, place: Places)
  {
    forall t :: current == Some(t) <==> t in place && place[t] == OnCpu
  }

  ghost predicate QueuesOk(objects: seq<Object>, place: Places)
  {
    forall q: nat | q < |objects| :: Holds(objects[q].queue, InQueue(q), place)
  }

  /** A placed task has not exited, has the status of its place, and waits only on objects of its own process; where the
    * process is gone it is left in such a queue or nowhere. */
  ghost predicate TaskOk(s: State, t: nat, p: Place)
  {
    && t < |s.tasks| && s.tasks[t].exit == None && s.tasks[t].status == StatusAt(p)
    && s.tasks[t].proc < |s.procs|
    && (p.InQueue? ==> p.obj < |s.objects| && s.objects[p.obj].proc == s.tasks[t].proc)
    && (s.procs[s.tasks[t].proc].zombie ==> p.InQueue?)
  }

  ghost predicate TasksOk(s: State, place: Places)
  {
    forall t | t in place :: TaskOk(s, t, place[t])
  }

  predicate Listed(p: Proc, tid: nat, t: nat)
  {
    tid < |p.threads| && p.threads[tid] == Some(t) && p.tids.Live(tid)
  }

  predicate Unexited(s: State, t: nat)
  {
    && t < |s.tasks| && s.tasks[t].exit == None
    && s.tasks[t].proc < |s.procs| && !s.procs[s.tasks[t].proc].zombie
  }

  /** Every unexited task of a process that is not gone has a place, and its slot in the thread table. */
  ghost predicate AllPlaced(s: State, place: Places)
  {
    forall t: nat | Unexited(s, t) :: t in place && Listed(s.procs[s.tasks[t].proc], s.tasks[t].tid, t)
  }

  ghost predicate ProcOk(s: State, p: nat)
    requires p < |s.procs|
  {
    && s.procs[p].tids.Valid()
    && (forall i: nat | i < |s.procs[p].threads| && s.procs[p].threads[i].Some? ::
          var t := s.procs[p].threads[i].value;
          t < |s.tasks| && s.tasks[t].proc == p && s.tasks[t].tid == i)
  }

  ghost predicate ProcsOk(s: State)
  {
    && (forall p: nat | p < |s.procs| :: ProcOk(s, p))
    && (forall t: nat | t < |s.tasks| :: s.tasks[t].proc < |s.procs|)
    && (forall q: nat | q < |s.objects| :: s.objects[q].proc < |s.procs|)
  }

  ghost predicate Inv(s: State, place: Places)
  {
    && CpuOk(s.current, place) && Holds(s.ready, InReady, place) && Holds(Sleepers(s.timers), InTimers, place)
    && QueuesOk(s.objects, place)
    && TasksOk(s, place) && AllPlaced(s, place) && ProcsOk(s)
  }

  // ---------------------------------------------------------------- steps

  function SetStatus(s: State, t: nat, status: Status): (s': State)
    requires t < |s.tasks|
  {
    s.(tasks := s.tasks[t := s.tasks[t].(status := status)])
  }

  /** `run_tasks`: the front of the ready queue gets the processor. */
  function Dispatch(s: State): (s': State)
    requires s.ready != [] && s.ready[0] < |s.tasks|
  {
    SetStatus(s, s.ready[0], Running).(ready := s.ready[1..], current := Some(s.ready[0]))
  }

  /** `suspend_current_and_run_next`: back to the end of the ready queue. */
  function Suspend(s: State): (s': State)
    requires s.current.Some? && s.current.value < |s.tasks|
  {
    SetStatus(s, s.current.value, Ready).(ready := s.ready + [s.current.value], current := None)
  }

  function SetObject(s: State, q: nat, o: Object): (s': State)
    requires q < |s.objects|
  {
    s.(objects := s.objects[q := o])
  }

  /** The current thread joins the queue of object `q` and blocks. */
  function Enqueue(s: State, q: nat): (s': State)
    requires s.current.Some? && s.current.value < |s.tasks| && q < |s.objects|
  {
    var o := s.objects[q];
    SetObject(SetStatus(s, s.current.value, Blocked), q, o.(queue := o.queue + [s.current.value])).(current := None)
  }

  /** The front of the queue of object `q`, if there is one, becomes ready. */
  function WakeFront(s: State, q: nat): (s': State)
    requires q < |s.objects| && (s.objects[q].queue != [] ==> s.objects[q].queue[0] < |s.tasks|)
  {
    var o := s.objects[q];
    if o.queue == [] then s
    else SetObject(SetStatus(s, o.queue[0], Ready), q, o.(queue := o.queue[1..])).(ready := s.ready + [o.queue[0]])
  }

  /** `sys_sleep`: the current thread goes to the timers and blocks. */
  function Sleep(s: State, expire: nat): (s': State)
    requires s.current.Some? && s.current.value < |s.tasks|
  {
    SetStatus(s, s.current.value, Blocked).(timers := s.timers + [Timer(expire, s.current.value)], current := None)
  }

  /** Timer `k` goes off. */
  function Expire(s: State, k: nat): (s': State)
    requires k < |s.timers| && s.timers[k].task < |s.tasks|
  {
    SetStatus(s, s.timers[k].task, Ready).(timers := s.timers[..k] + s.timers[k + 1..],
      ready := s.ready + [s.timers[k].task])
  }

  // ---------------------------------------------------------------- each step keeps the invariant

  /** A step that only moves task `t` keeps what the invariant says of tasks and processes. */
  lemma Moved(s: State, s': State, place: Places, t: nat, p: Place)
    requires Inv(s, place) && t in place && t < |s.tasks|
    requires s'.tasks == s.tasks[t := s.tasks[t].(status := StatusAt(p))] && s'.procs == s.procs
    requires |s'.objects| == |s.objects| && forall q: nat | q < |s.objects| :: s'.objects[q].proc == s.objects[q].proc
    requires p.InQueue? ==> p.obj < |s.objects| && s.objects[p.obj].proc == s.tasks[t].proc
    requires s.procs[s.tasks[t].proc].zombie ==> p.InQueue?
    ensures TasksOk(s', place[t := p]) && AllPlaced(s', place[t := p]) && ProcsOk(s')
  {
    hide Holds, CpuOk, QueuesOk;
    forall p: nat | p < |s'.procs| ensures ProcOk(s', p) { assert ProcOk(s, p); }
    forall u: nat | Unexited(s', u)
      ensures u in place && Listed(s'.procs[s'.tasks[u].proc], s'.tasks[u].tid, u)
    {
      assert Unexited(s, u);
    }
    forall u | u in place ensures TaskOk(s', u, place[t := p][u]) { assert TaskOk(s, u, place[u]); }
  }

  lemma InHolds(queue: seq<nat>, at: Place, place: Places, t: nat)
    requires Holds(queue, at, place)
    ensures t in queue <==> t in place && place[t] == at
  {
  }

  /** No queue is concerned when `t` moves between places outside the queues. */
  lemma QueuesApart(objects: seq<Object>, place: Places, t: nat, p: Place)
    requires QueuesOk(objects, place) && (t in place ==> !place[t].InQueue?) && !p.InQueue?
    ensures QueuesOk(objects, place[t := p])
  {
    hide Holds;
    forall q: nat | q < |objects|
      ensures Holds(objects[q].queue, InQueue(q), place[t := p])
    {
      InHolds(objects[q].queue, InQueue(q), place, t);
      HoldsOther(objects[q].queue, InQueue(q), place, t, p);
    }
  }

  lemma QueuesPush(objects: seq<Object>, place: Places, t: nat, q: nat)
    requires QueuesOk(objects, place) && (t in place ==> !place[t].InQueue?) && q < |objects|
    ensures QueuesOk(objects[q := objects[q].(queue := objects[q].queue + [t])], place[t := InQueue(q)])
  {
    hide Holds;
    var objects' := objects[q := objects[q].(queue := objects[q].queue + [t])];
    forall r: nat | r < |objects|
      ensures Holds(objects'[r].queue, InQueue(r), place[t := InQueue(q)])
    {
      InHolds(objects[r].queue, InQueue(r), place, t);
      if r == q {
        HoldsPush(objects[q].queue, InQueue(q), place, t);
      } else {
        HoldsOther(objects[r].queue, InQueue(r), place, t, InQueue(q));
      }
    }
  }

  lemma QueuesPop(objects: seq<Object>, place: Places, q: nat, p: Place)
    requires QueuesOk(objects, place) && q < |objects| && objects[q].queue != [] && !p.InQueue?
    ensures QueuesOk(objects[q := objects[q].(queue := objects[q].queue[1..])], place[objects[q].queue[0] := p])
  {
    hide Holds;
    var t := objects[q].queue[0];
    var objects' := objects[q := objects[q].(queue := objects[q].queue[1..])];
    InHolds(objects[q].queue, InQueue(q), place, t);
    forall r: nat | r < |objects|
      ensures Holds(objects'[r].queue, InQueue(r), place[t := p])
    {
      InHolds(objects[r].queue, InQueue(r), place, t);
      if r == q {
        HoldsPop(objects[q].queue, InQueue(q), place, p);
      } else {
        HoldsOther(objects[r].queue, InQueue(r), place, t, p);
      }
    }
  }

  lemma Membership(s: State, place: Places, t: nat)
    requires Inv(s, place)
    ensures t in s.ready <==> t in place && place[t] == InReady
    ensures t in Sleepers(s.timers) <==> t in place && place[t] == InTimers
    ensures s.current == Some(t) <==> t in place && place[t] == OnCpu
    ensures t in place ==> TaskOk(s, t, place[t])
    ensures forall q: nat | q < |s.objects| :: t in s.objects[q].queue <==> t in place && place[t] == InQueue(q)
  {
  }

  /** `run_tasks` gives the processor only to threads that have not exited, of processes that are not gone. */
  lemma DispatchKeeps(s: State, place: Places)
    requires Inv(s, place) && s.current == None && s.ready != []
    ensures Unexited(s, s.ready[0]) && Inv(Dispatch(s), place[s.ready[0] := OnCpu])
  {
    hide Holds, QueuesOk, TasksOk, AllPlaced, ProcsOk;
    var t := s.ready[0];
    Membership(s, place, t);
    Moved(s, Dispatch(s), place, t, OnCpu);
    HoldsPop(s.ready, InReady, place, OnCpu);
    HoldsOther(Sleepers(s.timers), InTimers, place, t, OnCpu);
    QueuesApart(s.objects, place, t, OnCpu);
  }

  lemma SuspendKeeps(s: State, place: Places)
    requires Inv(s, place) && s.current.Some?
    ensures s.current.value < |s.tasks| && Inv(Suspend(s), place[s.current.value := InReady])
  {
    hide Holds, QueuesOk, TasksOk, AllPlaced, ProcsOk;
    var t := s.current.value;
    Membership(s, place, t);
    Moved(s, Suspend(s), place, t, InReady);
    HoldsPush(s.ready, InReady, place, t);
    HoldsOther(Sleepers(s.timers), InTimers, place, t, InReady);
    QueuesApart(s.objects, place, t, InReady);
  }

  lemma EnqueueKeeps(s: State, place: Places, q: nat)
    requires Inv(s, place) && s.current.Some? && s.current.value < |s.tasks|
    requires q < |s.objects| && s.objects[q].proc == s.tasks[s.current.value].proc
    ensures Inv(Enqueue(s, q), place[s.current.value := InQueue(q)])
  {
    hide Holds, QueuesOk, TasksOk, AllPlaced, ProcsOk;
    var t := s.current.value;
    Membership(s, place, t);
    Moved(s, Enqueue(s, q), place, t, InQueue(q));
    HoldsOther(s.ready, InReady, place, t, InQueue(q));
    HoldsOther(Sleepers(s.timers), InTimers, place, t, InQueue(q));
    QueuesPush(s.objects, place, t, q);
  }

  lemma WakeFrontKeeps(s: State, place: Places, q: nat)
    requires Inv(s, place) && q < |s.objects| && s.objects[q].queue != []
    requires s.objects[q].proc < |s.procs| && !s.procs[s.objects[q].proc].zombie
    ensures s.objects[q].queue[0] < |s.tasks| && Inv(WakeFront(s, q), place[s.objects[q].queue[0] := InReady])
  {
    hide Holds, QueuesOk, TasksOk, AllPlaced, ProcsOk;
    var t := s.objects[q].queue[0];
    Membership(s, place, t);
    Moved(s, WakeFront(s, q), place, t, InReady);
    HoldsPush(s.ready, InReady, place, t);
    HoldsOther(Sleepers(s.timers), InTimers, place, t, InReady);
    QueuesPop(s.objects, place, q, InReady);
  }

  lemma SleepKeeps(s: State, place: Places, expire: nat)
    requires Inv(s, place) && s.current.Some?
    ensures s.current.value < |s.tasks| && Inv(Sleep(s, expire), place[s.current.value := InTimers])
  {
    hide Holds, QueuesOk, TasksOk, AllPlaced, ProcsOk;
    var t := s.current.value;
    Membership(s, place, t);
    Moved(s, Sleep(s, expire), place, t, InTimers);
    HoldsOther(s.ready, InReady, place, t, InTimers);
    HoldsPush(Sleepers(s.timers), InTimers, place, t);
    assert Sleepers(s.timers + [Timer(expire, t)]) == Sleepers(s.timers) + [t];
    QueuesApart(s.objects, place, t, InTimers);
  }

  /** A timer never belongs to a thread that has exited, so `check_timer` finds its tid. */
  lemma ExpireKeeps(s: State, place: Places, k: nat)
    requires Inv(s, place) && k < |s.timers|
    ensures Unexited(s, s.timers[k].task) && Inv(Expire(s, k), place[s.timers[k].task := InReady])
  {
    hide Holds, QueuesOk, TasksOk, AllPlaced, ProcsOk;
    var t := s.timers[k].task;
    assert Sleepers(s.timers)[k] == t;
    Membership(s, place, t);
    Moved(s, Expire(s, k), place, t, InReady);
    HoldsPush(s.ready, InReady, place, t);
    HoldsCut(Sleepers(s.timers), InTimers, place, k, InReady);
    assert Sleepers(s.timers[..k] + s.timers[k + 1..]) == Sleepers(s.timers)[..k] + Sleepers(s.timers)[k + 1..];
    QueuesApart(s.objects, place, t, InReady);
  }
}
