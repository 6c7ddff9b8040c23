/** The running scheduler: the processor, the ready queue, the timers, and the blocking objects of every process. */
module Scheduler {
  import opened Wrappers
  import opened Ids
  import opened Sched
  import opened Threads
  import opened Purge

  /** A semaphore has as many waiters as its count is below zero; a mutex with waiters is locked. */
  ghost predicate KindOk(o: Object)
  {
    match o.kind
    case Semaphore(count) => |o.queue| == if count < 0 then -count else 0
    case Mutex(locked) => o.queue != [] ==> locked
    case Condvar => true
  }

  ghost predicate KindsOk(objects: seq<Object>)
  {
    forall q: nat | q < |objects| :: KindOk(objects[q])
  }

  /** Nothing about the tasks changed but their status. */
  ghost predicate SameTasks(tasks: seq<Task>, tasks': seq<Task>)
  {
    |tasks'| == |tasks| && forall t | 0 <= t < |tasks| :: tasks'[t] == tasks[t].(status := tasks'[t].status)
  }

  /** Object `q` is of the process of the current thread. */
  predicate Own(s: State, q: nat)
  {
    && s.current.Some? && s.current.value < |s.tasks| && q < |s.objects|
    && s.objects[q].proc == s.tasks[s.current.value].proc
  }

  lemma OwnAlive(s: State, place: Places, q: nat)
    requires Inv(s, place) && Own(s, q)
    ensures s.objects[q].proc < |s.procs| && !s.procs[s.objects[q].proc].zombie
    ensures Wakable(s, q)
  {
    Membership(s, place, s.current.value);
    if s.objects[q].queue != [] {
      Membership(s, place, s.objects[q].queue[0]);
    }
  }

  /** `down`: one off the count; below zero the caller waits. */
  function DownStep(s: State, q: nat): (s': State)
    requires Own(s, q) && s.objects[q].kind.Semaphore?
  {
    var count := s.objects[q].kind.count - 1;
    var s1 := SetObject(s, q, s.objects[q].(kind := Semaphore(count)));
    if count < 0 then Enqueue(s1, q) else s1
  }

  /** Object `q` exists, and who is first in its queue does too. */
  predicate Wakable(s: State, q: nat)
  {
    q < |s.objects| && (s.objects[q].queue != [] ==> s.objects[q].queue[0] < |s.tasks|)
  }

  /** `up`: one onto the count; whoever waited longest goes on. */
  function UpStep(s: State, q: nat): (s': State)
    requires Wakable(s, q) && s.objects[q].kind.Semaphore?
  {
    WakeFront(SetObject(s, q, s.objects[q].(kind := Semaphore(s.objects[q].kind.count + 1))), q)
  }

  /** `lock`: the caller has the mutex or waits for it. */
  function LockStep(s: State, q: nat): (s': State)
    requires Own(s, q) && s.objects[q].kind.Mutex?
  {
    if s.objects[q].kind.locked then Enqueue(s, q) else SetObject(s, q, s.objects[q].(kind := Mutex(true)))
  }

  /** `unlock`: the mutex goes to whoever waited longest, and opens only if nobody waits. */
  function UnlockStep(s: State, q: nat): (s': State)
    requires Wakable(s, q) && s.objects[q].kind.Mutex?
  {
    if s.objects[q].queue != [] then WakeFront(s, q) else SetObject(s, q, s.objects[q].(kind := Mutex(false)))
  }

  /** Slot `x` of a process holds a thread that has not exited. */
  predicate HasRunning(p: Proc, tasks: seq<Task>, x: nat)
  {
    x < |p.threads| && p.threads[x].Some? && p.threads[x].value < |tasks| && tasks[p.threads[x].value].exit == None
  }

  class Scheduler {
    var tasks: seq<Task>
    var current: Option<nat>
    var ready: seq<nat>
    var timers: seq<Timer>
    var objects: seq<Object>
    var procs: seq<Proc>
    ghost var place: Places

    /** Boot: nothing yet. */
    constructor ()
      ensures Valid() && St() == State([], None, [], [], [], [])
    {
      tasks, current, ready, timers, objects, procs := [], None, [], [], [], [];
      place := map[];
    }

    ghost function St(): (s: State)
      reads this
    {
      State(tasks, current, ready, timers, objects, procs)
    }

    ghost predicate Valid()
      reads this
    {
      Inv(St(), place) && KindsOk(objects)
    }

    /** `run_tasks`: the thread that runs next has not exited and its process is not gone. */
    method RunNext() returns (r: Option<nat>)
      requires Valid() && current == None
      modifies this
      ensures Valid() && (r.None? <==> old(ready) == [])
      ensures r.None? ==> St() == old(St())
      ensures r.Some? ==> r == Some(old(ready[0])) && r.value < |old(tasks)|
      ensures r.Some? ==> St() == Dispatch(old(St())) && Unexited(St(), r.value)
      ensures r.Some? ==>
                && current == r && ready == old(ready)[1..]
                && tasks == old(tasks)[r.value := old(tasks)[r.value].(status := Running)]
      ensures timers == old(timers) && objects == old(objects) && procs == old(procs)
    {
      hide Inv;
      if ready == [] {
        return None;
      }
      DispatchKeeps(St(), place);
      var t := ready[0];
      ready := ready[1..];
      tasks := tasks[t := tasks[t].(status := Running)];
      current := Some(t);
      place := place[t := OnCpu];
      r := Some(t);
    }

    /** `suspend_current_and_run_next` up to the switch. */
    method Yield()
      requires Valid() && current.Some?
      modifies this
      ensures Valid() && St() == Suspend(old(St()))
      ensures var t := old(current).value;
              && current == None && ready == old(ready) + [t] && t < |old(tasks)|
              && tasks == old(tasks)[t := old(tasks)[t].(status := Ready)]
      ensures timers == old(timers) && objects == old(objects) && procs == old(procs)
    {
      hide Inv;
      SuspendKeeps(St(), place);
      var t := current.value;
      current := None;
      tasks := tasks[t := tasks[t].(status := Ready)];
      ready := ready + [t];
      place := place[t := InReady];
    }

    /** The current thread joins a queue and blocks. */
    method WaitOn(q: nat)
      requires Inv(St(), place) && Own(St(), q)
      modifies this`tasks, this`current, this`objects, this`place
      ensures Inv(St(), place) && St() == Enqueue(old(St()), q)
      ensures var t := old(current).value;
              && current == None && tasks == old(tasks)[t := old(tasks)[t].(status := Blocked)]
              && objects == old(objects)[q := old(objects)[q].(queue := old(objects)[q].queue + [t])]
    {
      hide Inv;
      EnqueueKeeps(St(), place, q);
      var t := current.value;
      objects := objects[q := objects[q].(queue := objects[q].queue + [t])];
      current := None;
      tasks := tasks[t := tasks[t].(status := Blocked)];
      place := place[t := InQueue(q)];
    }

    /** The front of a queue of a living process becomes ready. */
    method Wake(q: nat)
      requires Inv(St(), place) && q < |objects| && objects[q].proc < |procs| && !procs[objects[q].proc].zombie
      requires objects[q].queue != []
      modifies this`tasks, this`ready, this`objects, this`place
      ensures Inv(St(), place) && old(objects[q].queue[0]) < |old(tasks)| && St() == WakeFront(old(St()), q)
      ensures var t := old(objects)[q].queue[0];
              && ready == old(ready) + [t] && tasks == old(tasks)[t := old(tasks)[t].(status := Ready)]
              && objects == old(objects)[q := old(objects)[q].(queue := old(objects)[q].queue[1..])]
    {
      hide Inv;
      WakeFrontKeeps(St(), place, q);
      var t := objects[q].queue[0];
      objects := objects[q := objects[q].(queue := objects[q].queue[1..])];
      tasks := tasks[t := tasks[t].(status := Ready)];
      ready := ready + [t];
      place := place[t := InReady];
    }

    /** `Semaphore::down`. */
    method Down(q: nat)
      requires Valid() && Own(St(), q) && objects[q].kind.Semaphore?
      modifies this
      ensures Valid()
      ensures St() == DownStep(old(St()), q)
      ensures var o, t := old(objects)[q], old(current).value;
              var count := o.kind.count;
              && objects == old(objects)[q := Object(o.proc, Semaphore(count - 1),
                                                     if count <= 0 then o.queue + [t] else o.queue)]
              && (count > 0 ==> current == old(current) && tasks == old(tasks))
              && (count <= 0 ==> current == None && tasks == old(tasks)[t := old(tasks)[t].(status := Blocked)])
      ensures ready == old(ready) && timers == old(timers) && procs == old(procs)
    {
      hide Inv;
      var count := objects[q].kind.count - 1;
      KindKeeps(St(), place, q, Semaphore(count));
      objects := objects[q := objects[q].(kind := Semaphore(count))];
      if count < 0 {
        WaitOn(q);
      }
    }

    /** `Semaphore::up`. */
    method Up(q: nat)
      requires Valid() && Own(St(), q) && objects[q].kind.Semaphore?
      modifies this
      ensures Valid()
      ensures Wakable(old(St()), q) && St() == UpStep(old(St()), q)
      ensures var o := old(objects)[q];
              var front := if o.queue == [] then [] else [o.queue[0]];
              && objects == old(objects)[q := Object(o.proc, Semaphore(o.kind.count + 1), o.queue[|front|..])]
              && ready == old(ready) + front && SameTasks(old(tasks), tasks)
      ensures current == old(current) && timers == old(timers) && procs == old(procs)
    {
      hide Inv;
      OwnAlive(St(), place, q);
      var count := objects[q].kind.count + 1;
      KindKeeps(St(), place, q, Semaphore(count));
      objects := objects[q := objects[q].(kind := Semaphore(count))];
      if count <= 0 {
        if objects[q].queue != [] {
          Wake(q);
        }
      }
    }

    /** `MutexBlocking::lock`. */
    method Lock(q: nat)
      requires Valid() && Own(St(), q) && objects[q].kind.Mutex?
      modifies this
      ensures Valid()
      ensures St() == LockStep(old(St()), q)
      ensures var o, t := old(objects)[q], old(current).value;
              if o.kind.locked then
                && objects == old(objects)[q := Object(o.proc, Mutex(true), o.queue + [t])]
                && current == None && tasks == old(tasks)[t := old(tasks)[t].(status := Blocked)]
              else
                && objects == old(objects)[q := Object(o.proc, Mutex(true), o.queue)]
                && current == old(current) && tasks == old(tasks)
      ensures ready == old(ready) && timers == old(timers) && procs == old(procs)
    {
      hide Inv;
      if objects[q].kind.locked {
        WaitOn(q);
      } else {
        KindKeeps(St(), place, q, Mutex(true));
        objects := objects[q := objects[q].(kind := Mutex(true))];
      }
    }

    /** `MutexBlocking::unlock`; the code panics if the mutex is not locked. */
    method Unlock(q: nat)
      requires Valid() && Own(St(), q) && objects[q].kind == Mutex(true)
      modifies this
      ensures Valid() && Wakable(old(St()), q) && St() == UnlockStep(old(St()), q)
      ensures var o := old(objects)[q];
              if o.queue == [] then
                objects == old(objects)[q := Object(o.proc, Mutex(false), [])] && ready == old(ready)
              else
                && objects == old(objects)[q := Object(o.proc, Mutex(true), o.queue[1..])]
                && ready == old(ready) + [o.queue[0]]
      ensures SameTasks(old(tasks), tasks)
      ensures current == old(current) && timers == old(timers) && procs == old(procs)
    {
      hide Inv;
      OwnAlive(St(), place, q);
      if objects[q].queue != [] {
        Wake(q);
      } else {
        KindKeeps(St(), place, q, Mutex(false));
        objects := objects[q := objects[q].(kind := Mutex(false))];
      }
    }

    /** `Condvar::signal`. */
    method Signal(q: nat)
      requires Valid() && Own(St(), q) && objects[q].kind.Condvar?
      modifies this
      ensures Valid() && Wakable(old(St()), q) && St() == WakeFront(old(St()), q)
      ensures var o := old(objects)[q];
              var front := if o.queue == [] then [] else [o.queue[0]];
              && objects == old(objects)[q := Object(o.proc, Condvar, o.queue[|front|..])]
              && ready == old(ready) + front && SameTasks(old(tasks), tasks)
      ensures current == old(current) && timers == old(timers) && procs == old(procs)
    {
      hide Inv;
      OwnAlive(St(), place, q);
      if objects[q].queue != [] {
        Wake(q);
      }
    }

    /** `Condvar::signal_all`: every waiter becomes ready, in the order they came. */
    method SignalAll(q: nat)
      requires Valid() && Own(St(), q) && objects[q].kind.Condvar?
      modifies this
      ensures Valid() && current == old(current) && timers == old(timers) && procs == old(procs)
      ensures ready == old(ready) + old(objects[q].queue)
      ensures objects == old(objects)[q := old(objects[q]).(queue := [])]
      ensures SameTasks(old(tasks), tasks)
    {
      hide Inv;
      OwnAlive(St(), place, q);
      ghost var all := objects[q].queue;
      ghost var k := 0;
      while objects[q].queue != []
        invariant Valid() && current == old(current) && timers == old(timers) && procs == old(procs)
        invariant k <= |all| && ready == old(ready) + all[..k] && |objects| == |old(objects)|
        invariant SameTasks(old(tasks), tasks)
        invariant objects == old(objects)[q := old(objects[q]).(queue := all[k..])]
        decreases |objects[q].queue|
      {
        Wake(q);
        k := k + 1;
        assert objects[q].queue == all[k..];
      }
      assert all[..k] == all;
    }

    /** `Condvar::wait` up to the switch: the mutex is released, and the thread is queued and blocked in the same
      * step. */
    method CondWait(q: nat, m: nat)
      requires Valid() && Own(St(), q) && objects[q].kind.Condvar? && Own(St(), m) && objects[m].kind == Mutex(true)
      modifies this
      ensures Valid() && Wakable(old(St()), m) && Own(UnlockStep(old(St()), m), q)
      ensures St() == Enqueue(UnlockStep(old(St()), m), q)
      ensures var t, o, mutex := old(current).value, old(objects)[q], old(objects)[m];
              && current == None && |objects| == |old(objects)|
              && objects[q] == Object(o.proc, Condvar, o.queue + [t])
              && objects[m] == Object(mutex.proc, Mutex(mutex.queue != []),
                                      if mutex.queue == [] then [] else mutex.queue[1..])
              && (forall r: nat | r < |objects| && r != q && r != m :: objects[r] == old(objects)[r])
              && ready == old(ready) + (if mutex.queue == [] then [] else [mutex.queue[0]])
      ensures SameTasks(old(tasks), tasks)
      ensures timers == old(timers) && procs == old(procs)
    {
      hide Inv;
      Unlock(m);
      WaitOn(q);
    }

    /** `sys_sleep` up to the switch. */
    method SleepUntil(expire: nat)
      requires Valid() && current.Some?
      modifies this
      ensures Valid() && St() == Sleep(old(St()), expire)
      ensures var t := old(current).value;
              && current == None && timers == old(timers) + [Timer(expire, t)] && t < |old(tasks)|
              && tasks == old(tasks)[t := old(tasks)[t].(status := Blocked)]
      ensures ready == old(ready) && objects == old(objects) && procs == old(procs)
    {
      hide Inv;
      SleepKeeps(St(), place, expire);
      var t := current.value;
      timers := timers + [Timer(expire, t)];
      current := None;
      tasks := tasks[t := tasks[t].(status := Blocked)];
      place := place[t := InTimers];
    }

    /** The heap's first timer: one that expires no later than any other. */
    method Peek() returns (k: nat)
      requires timers != []
      ensures k < |timers| && forall i | 0 <= i < |timers| :: timers[k].expire <= timers[i].expire
    {
      k := 0;
      for i := 1 to |timers|
        invariant k < |timers| && forall j | 0 <= j < i :: timers[k].expire <= timers[j].expire
      {
        if timers[i].expire < timers[k].expire {
          k := i;
        }
      }
    }

    /** Timer `k` goes off: its thread, which has not exited, becomes ready. */
    method GoOff(k: nat)
      requires Inv(St(), place) && k < |timers|
      modifies this`tasks, this`ready, this`timers, this`place
      ensures Inv(St(), place) && old(timers[k].task) < |old(tasks)| && St() == Expire(old(St()), k)
    {
      hide Inv;
      ExpireKeeps(St(), place, k);
      var t := timers[k].task;
      tasks := tasks[t := tasks[t].(status := Ready)];
      ready := ready + [t];
      timers := timers[..k] + timers[k + 1..];
      place := place[t := InReady];
    }

    /** `check_timer`: exactly the timers that are due go off, earliest first. */
    method Tick(now: nat) returns (ghost woken: seq<Timer>)
      requires Valid()
      modifies this
      ensures Valid() && current == old(current) && objects == old(objects) && procs == old(procs)
      ensures SameTasks(old(tasks), tasks)
      ensures ready == old(ready) + Sleepers(woken) && multiset(woken) + multiset(timers) == multiset(old(timers))
      ensures (forall i | 0 <= i < |woken| :: woken[i].expire <= now)
      ensures (forall i | 0 <= i < |timers| :: timers[i].expire > now)
      ensures InOrder(woken)
    {
      hide Inv, InOrder, NotAfter, KindsOk, Woke;
      woken := [];
      InOrderEmpty(timers);
      NoneWoken(ready, timers);
      while timers != []
        invariant Inv(St(), place) && current == old(current) && objects == old(objects) && procs == old(procs)
        invariant SameTasks(old(tasks), tasks) && Woke(old(ready), old(timers), woken, ready, timers)
        invariant forall i | 0 <= i < |woken| :: woken[i].expire <= now
        invariant InOrder(woken) && NotAfter(woken, timers)
        decreases |timers|
      {
        var k := Peek();
        if timers[k].expire > now {
          break;
        }
        ghost var before, woken0 := timers, woken;
        WokeMore(old(ready), old(timers), woken, ready, timers, k);
        NextOff(woken0, before, k);
        GoOff(k);
        woken := woken + [before[k]];
      }
      WokeAre(old(ready), old(timers), woken, ready, timers);
    }

    /** `sys_thread_create`. */
    method CreateThread() returns (tid: nat)
      requires Valid() && current.Some?
      modifies this
      ensures Valid() && current == old(current) && HasProcess(old(St()))
              && St() == Spawn(old(St()), old(tasks[current.value].proc))
      ensures var p, n := old(tasks)[current.value].proc, |old(tasks)|;
              && tasks == old(tasks) + [Task(p, tid, Ready, None)] && ready == old(ready) + [n]
              && !old(procs)[p].tids.Live(tid) && |procs| == |old(procs)| && procs[p].zombie == old(procs)[p].zombie
              && tid < |procs[p].threads| && procs[p].threads[tid] == Some(n)
              && (forall i: nat | i < |procs[p].threads| && i != tid ::
                    procs[p].threads[i] == if i < |old(procs)[p].threads| then old(procs)[p].threads[i] else None)
              && |old(procs)[p].threads| <= |procs[p].threads|
              && (forall x: nat :: procs[p].tids.Live(x) <==> old(procs)[p].tids.Live(x) || x == tid)
              && (forall r: nat | r < |procs| && r != p :: procs[r] == old(procs)[r])
      ensures timers == old(timers) && objects == old(objects)
    {
      hide Inv;
      CanRetire(St(), place);
      var p := tasks[current.value].proc;
      SpawnKeeps(St(), place, p);
      var n := |tasks|;
      var (tids, id) := procs[p].tids.Alloc();
      tid := id;
      tasks := tasks + [Task(p, tid, Ready, None)];
      ready := ready + [n];
      var threads := procs[p].threads;
      while |threads| < tid + 1
        invariant |old(procs[p].threads)| <= |threads|
        invariant |threads| <= tid + 1 || threads == old(procs[p].threads)
        invariant forall i | 0 <= i < |threads| ::
                  threads[i] == if i < |old(procs[p].threads)| then old(procs[p].threads[i]) else None
      {
        threads := threads + [None];
      }
      threads := threads[tid := Some(n)];
      assert threads == WithSlot(procs[p].threads, tid, n);
      procs := procs[p := procs[p].(threads := threads, tids := tids)];
      place := place[n := InReady];
    }

    /** A new process with a main thread, ready to run. */
    method CreateProcess()
      requires Valid()
      modifies this
      ensures Valid() && current == old(current) && St() == NewProcess(old(St()))
      ensures tasks == old(tasks) + [Task(|old(procs)|, 0, Ready, None)] && ready == old(ready) + [|old(tasks)|]
      ensures |procs| == |old(procs)| + 1 && procs[..|old(procs)|] == old(procs)
      ensures !procs[|old(procs)|].zombie && procs[|old(procs)|].threads == [Some(|old(tasks)|)]
      ensures forall x: nat :: procs[|old(procs)|].tids.Live(x) <==> x == 0
      ensures timers == old(timers) && objects == old(objects)
    {
      hide Inv;
      NewProcessKeeps(St(), place);
      var n, p := |tasks|, |procs|;
      var (tids, tid) := NewAllocator().Alloc();
      tasks := tasks + [Task(p, tid, Ready, None)];
      procs := procs + [Proc(false, [Some(n)], tids)];
      ready := ready + [n];
      place := place[n := InReady];
      assert WithSlot([], 0, n) == [Some(n)];
      assert St().procs == NewProcess(old(St())).procs;
    }

    /** A new object of the current thread's process, with nobody waiting. */
    method CreateObject(kind: Kind) returns (q: nat)
      requires Valid() && current.Some? && (kind.Semaphore? ==> kind.count >= 0) && (kind.Mutex? ==> !kind.locked)
      modifies this`objects
      ensures Valid() && q == |old(objects)| && HasProcess(old(St()))
      ensures St() == NewObject(old(St()), tasks[current.value].proc, kind)
      ensures objects == old(objects) + [Object(tasks[current.value].proc, kind, [])]
    {
      hide Inv;
      CanRetire(St(), place);
      NewObjectKeeps(St(), place, tasks[current.value].proc, kind);
      q := |objects|;
      objects := objects + [Object(tasks[current.value].proc, kind, [])];
    }

    /** `exit_current_and_run_next` up to the switch: the thread gives its tid back, and its slot keeps it for
      * `waittid`. Where the main thread exits, every thread of its process leaves the ready queue and the timers, the
      * others keep their order, and the slots are dropped. */
    method Exit(code: int)
      requires Valid() && current.Some?
      modifies this
      ensures Valid() && current == None && objects == old(objects) && |tasks| == |old(tasks)|
              && |procs| == |old(procs)|
      ensures Retirable(old(St()))
      ensures var t := old(current).value;
              var p := old(tasks)[t].proc;
              && tasks == old(tasks)[t := old(tasks)[t].(exit := Some(code))]
              && (forall r: nat | r < |procs| && r != p :: procs[r] == old(procs)[r])
              && if old(tasks)[t].tid != 0 then
                   && ready == old(ready) && timers == old(timers)
                   && !procs[p].zombie && procs[p].threads == old(procs)[p].threads
                   && (forall x: nat :: procs[p].tids.Live(x) <==> old(procs)[p].tids.Live(x) && x != old(tasks)[t].tid)
                 else
                   && ready == Keep(old(ready), tasks, p) && timers == KeepTimers(old(timers), tasks, p)
                   && procs[p].zombie && procs[p].threads == []
                   && (forall x: nat :: procs[p].tids.Live(x) <==>
                         old(procs)[p].tids.Live(x) && x != 0 && !HasRunning(old(procs)[p], tasks, x))
    {
      hide Inv;
      CanRetire(St(), place);
      RetireKeeps(St(), place, code);
      var t := current.value;
      var task := tasks[t];
      var p := task.proc;
      current := None;
      tasks := tasks[t := task.(exit := Some(code))];
      procs := procs[p := procs[p].(tids := procs[p].tids.Dealloc(task.tid))];
      place := place - {t};
      if task.tid == 0 {
        TakeDown(p);
      }
    }

    /** The part of the main thread's exit that concerns the other threads of its process. */
    method TakeDown(p: nat)
      requires Valid() && current == None && p < |procs| && !procs[p].zombie
      modifies this`ready, this`timers, this`procs, this`place
      ensures Valid() && |procs| == |old(procs)| && procs[p].zombie && procs[p].threads == []
      ensures forall x: nat :: procs[p].tids.Live(x) <==>
                old(procs)[p].tids.Live(x) && !HasRunning(old(procs)[p], tasks, x)
      ensures forall r: nat | r < |procs| && r != p :: procs[r] == old(procs)[r]
      ensures ready == Keep(old(ready), tasks, p) && timers == KeepTimers(old(timers), tasks, p)
    {
      hide Inv, Dying, RecycleAllocator.Dealloc, RecycleAllocator.Live, RecycleAllocator.Valid;
      MarkKeeps(St(), place, p);
      procs := procs[p := procs[p].(zombie := true)];
      for k := 0 to |procs[p].threads|
        invariant |procs| == |old(procs)| && procs[p].zombie && procs[p].threads == old(procs[p].threads)
        invariant forall r: nat | r < |procs| && r != p :: procs[r] == old(procs)[r]
        invariant Dying(St(), place, p, k)
        invariant forall x: nat :: procs[p].tids.Live(x) <==>
                    old(procs)[p].tids.Live(x) && !(x < k && HasRunning(old(procs)[p], tasks, x))
        invariant Keep(ready, tasks, p) == Keep(old(ready), tasks, p)
        invariant KeepTimers(timers, tasks, p) == KeepTimers(old(timers), tasks, p)
      {
        PurgeSlot(p, k);
      }
      BuryKeeps(St(), place, p);
      NoneLeft(ready, timers, tasks, p);
      procs := procs[p := procs[p].(threads := [])];
    }

    /** What the main thread's exit does about slot `k`: its thread, if it has one, leaves the ready queue and the
      * timers, and gives its tid back if it has not exited. */
    method PurgeSlot(p: nat, k: nat)
      requires p < |procs| && Dying(St(), place, p, k) && k < |procs[p].threads|
      modifies this`ready, this`timers, this`procs, this`place
      ensures Dying(St(), place, p, k + 1) && |procs| == |old(procs)|
      ensures procs[p] == old(procs)[p].(tids := procs[p].tids)
      ensures forall r: nat | r < |procs| && r != p :: procs[r] == old(procs)[r]
      ensures forall x: nat :: procs[p].tids.Live(x) <==>
                old(procs)[p].tids.Live(x) && !(x == k && HasRunning(old(procs)[p], tasks, x))
      ensures Keep(ready, tasks, p) == Keep(old(ready), tasks, p)
      ensures KeepTimers(timers, tasks, p) == KeepTimers(old(timers), tasks, p)
    {
      hide Inv, Dying, RecycleAllocator.Dealloc, RecycleAllocator.Live, RecycleAllocator.Valid, HasRunning;
      hide Keep, KeepTimers, RemoveFirst, WithoutTimer, Purged;
      SlotOk(St(), place, p, k);
      PurgeOneKeeps(St(), place, p, k);
      PurgedSlot(St(), p, k);
      if procs[p].threads[k].Some? {
        var t := procs[p].threads[k].value;
        RemoveTask(t);
        RemoveTimer(t);
        if tasks[t].exit == None {
          procs := procs[p := procs[p].(tids := procs[p].tids.Dealloc(k))];
        }
        place := Purged(place, t);
      }
      assert St() == PurgeOne(old(St()), p, k);
    }

    /** `TaskManager::remove`. */
    method RemoveTask(t: nat)
      modifies this`ready
      ensures ready == RemoveFirst(old(ready), t)
    {
      var k := 0;
      while k < |ready| && ready[k] != t
        invariant k <= |ready| && forall i | 0 <= i < k :: ready[i] != t
      {
        k := k + 1;
      }
      if k < |ready| {
        RemoveFirstCuts(ready, t, k);
        ready := ready[..k] + ready[k + 1..];
      } else {
        RemoveFirstNone(ready, t);
      }
    }

    /** `remove_timer`. */
    method RemoveTimer(t: nat)
      modifies this`timers
      ensures timers == WithoutTimer(old(timers), t)
    {
      var temp: seq<Timer> := [];
      for i := 0 to |timers|
        invariant temp + WithoutTimer(timers[i..], t) == WithoutTimer(timers, t)
      {
        ghost var rest := WithoutTimer(timers[i + 1..], t);
        assert timers[i..][1..] == timers[i + 1..];
        assert WithoutTimer(timers[i..], t) == (if timers[i].task == t then [] else [timers[i]]) + rest;
        assert temp + ([timers[i]] + rest) == temp + [timers[i]] + rest;
        if timers[i].task != t {
          temp := temp + [timers[i]];
        }
      }
      timers := temp;
    }

    /** `sys_waittid`: -1 for itself or an empty slot, -2 while the thread lives, else its exit code, and the slot is
      * empty from then on. A tid beyond the thread table makes the code panic. */
    method WaitTid(tid: nat) returns (r: int)
      requires Valid() && Retirable(St()) && tid < |procs[tasks[current.value].proc].threads|
      modifies this`procs
      ensures Valid() && |procs| == |old(procs)|
      ensures var p := tasks[current.value].proc;
              var slot := old(procs)[p].threads[tid];
              if tasks[current.value].tid == tid || slot == None then r == -1 && procs == old(procs)
              else
                && slot.value < |tasks|
                && match tasks[slot.value].exit
                   case None => r == -2 && procs == old(procs)
                   case Some(code) =>
                     && r == code
                     && procs == old(procs)[p := old(procs)[p].(threads := old(procs)[p].threads[tid := None])]
    {
      hide Inv;
      var p := tasks[current.value].proc;
      if tasks[current.value].tid == tid || procs[p].threads[tid] == None {
        return -1;
      }
      var t := procs[p].threads[tid].value;
      SlotTask(St(), place, p, tid);
      if tasks[t].exit == None {
        return -2;
      }
      ClearSlotKeeps(St(), place, p, tid);
      r := tasks[t].exit.value;
      procs := procs[p := procs[p].(threads := procs[p].threads[tid := None])];
    }
  }

  ghost predicate InOrder(timers: seq<Timer>)
  {
    forall i, j | 0 <= i < j < |timers| :: timers[i].expire <= timers[j].expire
  }

  ghost predicate NotAfter(woken: seq<Timer>, timers: seq<Timer>)
  {
    forall i, j | 0 <= i < |woken| && 0 <= j < |timers| :: woken[i].expire <= timers[j].expire
  }

  lemma InOrderEmpty(timers: seq<Timer>)
    ensures InOrder([]) && NotAfter([], timers)
  {
  }

  /** The threads of `woken` have joined the ready queue, and their timers are gone. */
  ghost predicate Woke(ready0: seq<nat>, timers0: seq<Timer>, woken: seq<Timer>, ready: seq<nat>, timers: seq<Timer>)
  {
    ready == ready0 + Sleepers(woken) && multiset(woken) + multiset(timers) == multiset(timers0)
  }

  lemma NoneWoken(ready: seq<nat>, timers: seq<Timer>)
    ensures Woke(ready, timers, [], ready, timers)
  {
    assert Sleepers([]) == [];
  }

  lemma WokeMore(ready0: seq<nat>, timers0: seq<Timer>, woken: seq<Timer>, ready: seq<nat>, timers: seq<Timer>, k: nat)
    requires Woke(ready0, timers0, woken, ready, timers) && k < |timers|
    ensures Woke(ready0, timers0, woken + [timers[k]], ready + [timers[k].task], timers[..k] + timers[k + 1..])
  {
    assert timers == timers[..k] + [timers[k]] + timers[k + 1..];
    assert Sleepers(woken + [timers[k]]) == Sleepers(woken) + [timers[k].task];
  }

  lemma WokeAre(ready0: seq<nat>, timers0: seq<Timer>, woken: seq<Timer>, ready: seq<nat>, timers: seq<Timer>)
    requires Woke(ready0, timers0, woken, ready, timers)
    ensures ready == ready0 + Sleepers(woken) && multiset(woken) + multiset(timers) == multiset(timers0)
  {
  }

  lemma NextOff(woken: seq<Timer>, timers: seq<Timer>, k: nat)
    requires InOrder(woken) && NotAfter(woken, timers) && k < |timers|
    requires forall i | 0 <= i < |timers| :: timers[k].expire <= timers[i].expire
    ensures InOrder(woken + [timers[k]]) && NotAfter(woken + [timers[k]], timers[..k] + timers[k + 1..])
  {
  }

  /** The current thread is there, and so is its process. */
  ghost predicate HasProcess(s: State)
  {
    s.current.Some? && s.current.value < |s.tasks| && s.tasks[s.current.value].proc < |s.procs|
    && s.procs[s.tasks[s.current.value].proc].tids.Valid()
  }

  lemma SlotOk(s: State, place: Places, p: nat, k: nat)
    requires Dying(s, place, p, k) && k < |s.procs[p].threads|
    ensures ProcOk(s, p)
    ensures s.procs[p].threads[k].Some? ==>
              var t := s.procs[p].threads[k].value;
              IsOf(s.tasks, t, p) && (s.tasks[t].exit == None ==> s.procs[p].tids.Live(k))
  {
    assert ProcOk(s, p);
  }

  /** Treating slot `k` of process `p`: the tid goes back if the thread has not exited, and no thread of another process
    * is concerned. */
  lemma PurgedSlot(s: State, p: nat, k: nat)
    requires p < |s.procs| && k < |s.procs[p].threads| && s.procs[p].tids.Valid()
    requires s.procs[p].threads[k].Some? ==>
               && IsOf(s.tasks, s.procs[p].threads[k].value, p)
               && (s.tasks[s.procs[p].threads[k].value].exit == None ==> s.procs[p].tids.Live(k))
    ensures var s' := PurgeOne(s, p, k);
            && |s'.procs| == |s.procs| && s'.procs[p] == s.procs[p].(tids := s'.procs[p].tids)
            && (forall r: nat | r < |s.procs| && r != p :: s'.procs[r] == s.procs[r])
            && (forall x: nat :: s'.procs[p].tids.Live(x) <==>
                  s.procs[p].tids.Live(x) && !(x == k && HasRunning(s.procs[p], s.tasks, x)))
            && Keep(s'.ready, s.tasks, p) == Keep(s.ready, s.tasks, p)
            && KeepTimers(s'.timers, s.tasks, p) == KeepTimers(s.timers, s.tasks, p)
  {
    hide RecycleAllocator.Dealloc, RecycleAllocator.Live, RecycleAllocator.Valid;
    if s.procs[p].threads[k].Some? {
      KeepRemoved(s.ready, s.tasks, p, s.procs[p].threads[k].value);
      KeepTimersRemoved(s.timers, s.tasks, p, s.procs[p].threads[k].value);
    }
  }

  lemma NoneLeft(ready: seq<nat>, timers: seq<Timer>, tasks: seq<Task>, p: nat)
    requires forall t | t in ready || t in Sleepers(timers) :: !IsOf(tasks, t, p)
    ensures Keep(ready, tasks, p) == ready && KeepTimers(timers, tasks, p) == timers
  {
    forall i | 0 <= i < |timers|
      ensures !IsOf(tasks, timers[i].task, p)
    {
      assert Sleepers(timers)[i] == timers[i].task;
    }
    KeepAll(ready, tasks, p);
    KeepAllTimers(timers, tasks, p);
  }

  lemma SlotTask(s: State, place: Places, p: nat, i: nat)
    requires Inv(s, place) && p < |s.procs| && i < |s.procs[p].threads| && s.procs[p].threads[i].Some?
    ensures s.procs[p].threads[i].value < |s.tasks| && s.tasks[s.procs[p].threads[i].value].tid == i
  {
    assert ProcOk(s, p);
  }

  lemma ClearSlotKeeps(s: State, place: Places, p: nat, i: nat)
    requires Inv(s, place) && p < |s.procs| && i < |s.procs[p].threads| && s.procs[p].threads[i].Some?
    requires s.procs[p].threads[i].value < |s.tasks| && s.tasks[s.procs[p].threads[i].value].exit.Some?
    ensures Inv(s.(procs := s.procs[p := s.procs[p].(threads := s.procs[p].threads[i := None])]), place)
  {
    hide Holds, QueuesOk, CpuOk;
    var s' := s.(procs := s.procs[p := s.procs[p].(threads := s.procs[p].threads[i := None])]);
    forall r: nat | r < |s'.procs| ensures ProcOk(s', r) { assert ProcOk(s, r); }
    forall t | t in place ensures TaskOk(s', t, place[t]) { assert TaskOk(s, t, place[t]); }
    forall t: nat | Unexited(s', t)
      ensures t in place && Listed(s'.procs[s'.tasks[t].proc], s'.tasks[t].tid, t)
    {
      assert Unexited(s, t);
    }
  }
}
