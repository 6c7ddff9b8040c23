/** Whole runs of the scheduler: every thread is in one place at a time, and a process that is gone never runs again. */
module SchedRun {
  import opened Counting
  import opened Wrappers
  import opened Sched
  import opened Threads
  import opened Purge
  import opened Scheduler

  // ---------------------------------------------------------------- one place at a time

  function CountAll(objects: seq<Object>, t: nat): (n: nat)
  {
    if objects == [] then 0 else CountAll(objects[..|objects| - 1], t) + Count(objects[|objects| - 1].queue, t)
  }

  /** How often task `t` stands on the processor, in the ready queue, among the timers and in wait queues, in all. */
  function Occurrences(s: State, t: nat): (n: nat)
  {
    (if s.current == Some(t) then 1 else 0) + Count(s.ready, t) + Count(Sleepers(s.timers), t) + CountAll(s.objects, t)
  }

  lemma CountHolds(queue: seq<nat>, at: Place, place: Places, t: nat)
    requires Holds(queue, at, place)
    ensures Count(queue, t) == if t in place && place[t] == at then 1 else 0
  {
    CountUnique(queue, t);
  }

  lemma {:induction false} CountQueues(objects: seq<Object>, place: Places, t: nat)
    requires QueuesOk(objects, place)
    ensures CountAll(objects, t) == if t in place && place[t].InQueue? && place[t].obj < |objects| then 1 else 0
  {
    hide Holds;
    if objects != [] {
      var n := |objects| - 1;
      CountQueues(objects[..n], place, t);
      CountHolds(objects[n].queue, InQueue(n), place, t);
    }
  }

  /** Every unexited thread of a process that is not gone is in exactly one place, and its status says which kind. Any
    * other thread is at most in one queue of its own process, and neither running, ready nor asleep. */
  lemma OnePlace(s: State, place: Places, t: nat)
    requires Inv(s, place)
    ensures Unexited(s, t) ==>
              && Occurrences(s, t) == 1
              && (s.tasks[t].status == Running <==> s.current == Some(t))
              && (s.tasks[t].status == Ready <==> t in s.ready)
    ensures !Unexited(s, t) ==>
              && s.current != Some(t) && t !in s.ready && t !in Sleepers(s.timers) && Occurrences(s, t) <= 1
              && forall q: nat | q < |s.objects| && t in s.objects[q].queue ::
                   t < |s.tasks| && s.objects[q].proc == s.tasks[t].proc
  {
    hide Holds, QueuesOk;
    Membership(s, place, t);
    CountHolds(s.ready, InReady, place, t);
    CountHolds(Sleepers(s.timers), InTimers, place, t);
    CountQueues(s.objects, place, t);
  }

  // ---------------------------------------------------------------- runs

  /** What the threads, the programs and the clock may ask for. */
  datatype Event =
    | Run | YieldNow | DownOn(q: nat) | UpOn(q: nat) | LockOn(q: nat) | UnlockOn(q: nat)
    | SignalOn(q: nat) | SignalAllOn(q: nat) | WaitFor(q: nat, m: nat)
    | SleepFor(expire: nat) | Clock(now: nat) | NewThread | NewProc | NewObj(kind: Kind)
    | ExitWith(code: int) | Join(tid: nat)

  predicate NewKind(kind: Kind)
  {
    (kind.Semaphore? ==> kind.count >= 0) && (kind.Mutex? ==> !kind.locked)
  }

  /** When an event can happen without the code panicking: the processor is free for `Run`, a thread is on it for what
    * threads ask for, and the object is of its process and of the right sort. */
  predicate Possible(s: State, e: Event)
  {
    match e
    case Run => s.current == None
    case Clock(_) => true
    case NewProc => true
    case DownOn(q) => Own(s, q) && s.objects[q].kind.Semaphore?
    case UpOn(q) => Own(s, q) && s.objects[q].kind.Semaphore?
    case LockOn(q) => Own(s, q) && s.objects[q].kind.Mutex?
    case UnlockOn(q) => Own(s, q) && s.objects[q].kind == Mutex(true)
    case SignalOn(q) => Own(s, q) && s.objects[q].kind.Condvar?
    case SignalAllOn(q) => Own(s, q) && s.objects[q].kind.Condvar?
    case WaitFor(q, m) => Own(s, q) && s.objects[q].kind.Condvar? && Own(s, m) && s.objects[m].kind == Mutex(true)
    case Join(tid) => Retirable(s) && tid < |s.procs[s.tasks[s.current.value].proc].threads|
    case NewObj(kind) => HasThread(s) && NewKind(kind)
    case _ => HasThread(s)
  }

  predicate HasThread(s: State)
  {
    s.current.Some? && s.current.value < |s.tasks| && s.tasks[s.current.value].proc < |s.procs|
  }

  /** How an event changes the state. */
  ghost predicate Stepped(s: State, e: Event, s': State)
    requires Possible(s, e)
  {
    match e
    case Run => if s.ready == [] then s' == s else s.ready[0] < |s.tasks| && s' == Dispatch(s)
    case YieldNow => s' == Suspend(s)
    case DownOn(q) => s' == DownStep(s, q)
    case UpOn(q) => Wakable(s, q) && s' == UpStep(s, q)
    case LockOn(q) => s' == LockStep(s, q)
    case UnlockOn(q) => Wakable(s, q) && s' == UnlockStep(s, q)
    case SignalOn(q) => Wakable(s, q) && s' == WakeFront(s, q)
    case SignalAllOn(q) =>
      && s' == s.(tasks := s'.tasks, ready := s.ready + s.objects[q].queue,
                  objects := s.objects[q := s.objects[q].(queue := [])])
      && SameTasks(s.tasks, s'.tasks)
    case WaitFor(q, m) => Wakable(s, m) && Own(UnlockStep(s, m), q) && s' == Enqueue(UnlockStep(s, m), q)
    case SleepFor(expire) => s' == Sleep(s, expire)
    case Clock(now) =>
      && s' == s.(tasks := s'.tasks, ready := s'.ready, timers := s'.timers) && WentOff(s, now, s')
      && SameTasks(s.tasks, s'.tasks)
    case NewThread => s.procs[s.tasks[s.current.value].proc].tids.Valid()
         && s' == Spawn(s, s.tasks[s.current.value].proc)
    case NewProc => s' == NewProcess(s)
    case NewObj(kind) => s' == NewObject(s, s.tasks[s.current.value].proc, kind)
    case ExitWith(code) =>
      var t := s.current.value;
      var p := s.tasks[t].proc;
      && s' == s.(current := None, tasks := s.tasks[t := s.tasks[t].(exit := Some(code))],
                  ready := if s.tasks[t].tid == 0 then Keep(s.ready, s.tasks, p) else s.ready,
                  timers := if s.tasks[t].tid == 0 then KeepTimers(s.timers, s.tasks, p) else s.timers,
                  procs := s'.procs)
      && |s'.procs| == |s.procs| && (forall r: nat | r < |s.procs| && r != p :: s'.procs[r] == s.procs[r])
      && (if s.tasks[t].tid == 0 then s'.procs[p].zombie && s'.procs[p].threads == []
          else
            && !s'.procs[p].zombie && s'.procs[p].threads == s.procs[p].threads
            && forall x: nat :: s'.procs[p].tids.Live(x) <==> s.procs[p].tids.Live(x) && x != s.tasks[t].tid)
    case Join(tid) =>
      s' == if Joinable(s, tid) then EmptySlot(s, s.tasks[s.current.value].proc, tid) else s
  }

  /** The slot of `tid` holds a thread that has exited. */
  predicate Joinable(s: State, tid: nat)
    requires Possible(s, Join(tid))
  {
    var slot := s.procs[s.tasks[s.current.value].proc].threads[tid];
    && s.tasks[s.current.value].tid != tid && slot.Some? && slot.value < |s.tasks|
    && s.tasks[slot.value].exit.Some?
  }

  function EmptySlot(s: State, p: nat, tid: nat): (s': State)
    requires p < |s.procs| && tid < |s.procs[p].threads|
  {
    s.(procs := s.procs[p := s.procs[p].(threads := s.procs[p].threads[tid := None])])
  }

  /** What `waittid` answers: the exit code, -1 for itself or an empty slot, -2 for a thread that has not exited. */
  function JoinAnswer(s: State, tid: nat): (r: int)
    requires Possible(s, Join(tid))
  {
    var slot := s.procs[s.tasks[s.current.value].proc].threads[tid];
    if Joinable(s, tid) then s.tasks[slot.value].exit.value
    else if s.tasks[s.current.value].tid == tid || slot == None then -1 else -2
  }

  /** The timers due by `now` went off, earliest first. */
  ghost predicate WentOff(s: State, now: nat, s': State)
  {
    exists woken: seq<Timer> :: TheseWentOff(s, now, s', woken)
  }

  ghost predicate TheseWentOff(s: State, now: nat, s': State, woken: seq<Timer>)
  {
    && s'.ready == s.ready + Sleepers(woken) && multiset(woken) + multiset(s'.timers) == multiset(s.timers)
    && (forall i | 0 <= i < |woken| :: woken[i].expire <= now) && InOrder(woken)
    && (forall i | 0 <= i < |s'.timers| :: s'.timers[i].expire > now)
  }

  /** What is seen from outside: thread `task` of process `proc` gets the processor, process `proc` ends, or `waittid`
    * by a thread of process `proc` returns. */
  datatype Seen = Ran(task: nat, proc: nat) | Ended(proc: nat) | Joined(proc: nat, tid: nat, answer: int)

  /** A thread is seen when it gets the processor, a process when its main thread exits, a join when it returns. */
  function Observed(s: State, e: Event): (seen: seq<Seen>)
    requires Possible(s, e)
  {
    match e
    case Run => if s.ready != [] && s.ready[0] < |s.tasks| then [Ran(s.ready[0], s.tasks[s.ready[0]].proc)] else []
    case ExitWith(_) => if s.tasks[s.current.value].tid == 0 then [Ended(s.tasks[s.current.value].proc)] else []
    case Join(tid) => [Joined(s.tasks[s.current.value].proc, tid, JoinAnswer(s, tid))]
    case _ => []
  }

  /** A run through `states`: events that are not possible when their turn comes do not happen. */
  ghost predicate IsRun(states: seq<State>, events: seq<Event>)
  {
    && |states| == |events| + 1
    && forall n | 0 <= n < |events| ::
         if Possible(states[n], events[n]) then Stepped(states[n], events[n], states[n + 1])
         else states[n + 1] == states[n]
  }

  ghost function TraceOf(states: seq<State>, events: seq<Event>): (trace: seq<Seen>)
    requires |states| >= |events|
  {
    if events == [] then []
    else
      var n := |events| - 1;
      TraceOf(states, events[..n]) + if Possible(states[n], events[n]) then Observed(states[n], events[n]) else []
  }

  /** Every end in the trace is the end of a process that is a zombie now. */
  ghost predicate Remembers(s: State, trace: seq<Seen>)
  {
    forall i | 0 <= i < |trace| && trace[i].Ended? :: trace[i].proc < |s.procs| && s.procs[trace[i].proc].zombie
  }

  ghost predicate ZombiesStay(s: State, s': State)
  {
    |s.procs| <= |s'.procs| && forall p: nat | p < |s.procs| && s.procs[p].zombie :: s'.procs[p].zombie
  }

  ghost predicate NoneAfterEnd(trace: seq<Seen>)
  {
    forall i, j | 0 <= i < j < |trace| && trace[i].Ended? && trace[j].Ran? :: trace[i].proc != trace[j].proc
  }

  ghost predicate AfterStep(s': State, seen: seq<Seen>)
  {
    && |seen| <= 1
    && forall i | 0 <= i < |seen| ::
         match seen[i]
         case Ran(t, p) => Unexited(s', t) && p == s'.tasks[t].proc
         case Ended(p) => p < |s'.procs| && s'.procs[p].zombie
         case Joined(_, _, _) => true
  }

  lemma SeeMore(s: State, s': State, trace: seq<Seen>, seen: seq<Seen>)
    requires Remembers(s, trace) && NoneAfterEnd(trace) && ZombiesStay(s, s') && AfterStep(s', seen)
    ensures Remembers(s', trace + seen) && NoneAfterEnd(trace + seen)
  {
  }

  predicate Blocking(e: Event)
  {
    e.DownOn? || e.UpOn? || e.LockOn? || e.UnlockOn? || e.SignalOn? || e.SignalAllOn? || e.WaitFor?
  }

  predicate Moving(e: Event)
  {
    e.Run? || e.YieldNow? || e.SleepFor? || e.Clock?
  }

  /** One event, and what is seen of it. */
  method Perform(k: Scheduler, e: Event) returns (seen: seq<Seen>)
    requires k.Valid() && Possible(k.St(), e)
    modifies k
    ensures k.Valid() && Stepped(old(k.St()), e, k.St()) && ZombiesStay(old(k.St()), k.St())
    ensures seen == Observed(old(k.St()), e) && AfterStep(k.St(), seen)
  {
    hide *;
    if Blocking(e) {
      seen := PerformBlocking(k, e);
    } else if Moving(e) {
      seen := PerformMoving(k, e);
    } else {
      seen := PerformLife(k, e);
    }
  }

  method PerformBlocking(k: Scheduler, e: Event) returns (seen: seq<Seen>)
    requires k.Valid() && Possible(k.St(), e) && Blocking(e)
    modifies k
    ensures k.Valid() && Stepped(old(k.St()), e, k.St()) && ZombiesStay(old(k.St()), k.St())
    ensures seen == Observed(old(k.St()), e) && AfterStep(k.St(), seen)
  {
    hide Inv, KindsOk, Keep, KeepTimers, SameTasks;
    seen := [];
    match e
    case DownOn(q) => k.Down(q);
    case UpOn(q) => k.Up(q);
    case LockOn(q) => k.Lock(q);
    case UnlockOn(q) => k.Unlock(q);
    case SignalOn(q) => k.Signal(q);
    case SignalAllOn(q) => k.SignalAll(q);
    case WaitFor(q, m) => k.CondWait(q, m);
  }

  method PerformMoving(k: Scheduler, e: Event) returns (seen: seq<Seen>)
    requires k.Valid() && Possible(k.St(), e) && Moving(e)
    modifies k
    ensures k.Valid() && Stepped(old(k.St()), e, k.St()) && ZombiesStay(old(k.St()), k.St())
    ensures seen == Observed(old(k.St()), e) && AfterStep(k.St(), seen)
  {
    hide Inv, KindsOk, InOrder, SameTasks;
    seen := [];
    match e
    case Run =>
      var r := k.RunNext();
      if r.Some? {
        seen := [Ran(r.value, k.tasks[r.value].proc)];
      }
    case YieldNow => k.Yield();
    case SleepFor(expire) => k.SleepUntil(expire);
    case Clock(now) =>
      ghost var woken := k.Tick(now);
      assert TheseWentOff(old(k.St()), now, k.St(), woken);
  }

  method PerformLife(k: Scheduler, e: Event) returns (seen: seq<Seen>)
    requires k.Valid() && Possible(k.St(), e) && !Blocking(e) && !Moving(e)
    modifies k
    ensures k.Valid() && Stepped(old(k.St()), e, k.St()) && ZombiesStay(old(k.St()), k.St())
    ensures seen == Observed(old(k.St()), e) && AfterStep(k.St(), seen)
  {
    hide Inv, KindsOk, Keep, KeepTimers;
    seen := [];
    match e
    case NewThread => var _ := k.CreateThread();
    case NewProc => k.CreateProcess();
    case NewObj(kind) => var _ := k.CreateObject(kind);
    case ExitWith(code) =>
      var task := k.tasks[k.current.value];
      k.Exit(code);
      KeepSame(old(k.ready), old(k.timers), old(k.tasks), k.tasks, old(k.tasks[k.current.value].proc));
      if task.tid == 0 {
        seen := [Ended(task.proc)];
      }
    case Join(tid) =>
      var r := k.WaitTid(tid);
      seen := [Joined(k.tasks[k.current.value].proc, tid, r)];
  }

  /** Exit codes do not matter to which threads are of a process. */
  lemma KeepSame(ready: seq<nat>, timers: seq<Timer>, tasks: seq<Task>, tasks': seq<Task>, p: nat)
    requires |tasks| == |tasks'| && forall t: nat | t < |tasks| :: tasks[t].proc == tasks'[t].proc
    ensures Keep(ready, tasks, p) == Keep(ready, tasks', p)
            && KeepTimers(timers, tasks, p) == KeepTimers(timers, tasks', p)
  {
  }

  /** Any run at all: the invariant holds in every state of it, and once a process has ended none of its threads runs
    * again. */
  method RunAll(events: seq<Event>) returns (k: Scheduler, seen: seq<Seen>, ghost states: seq<State>)
    ensures fresh(k) && k.Valid() && IsRun(states, events) && states[0] == State([], None, [], [], [], [])
    ensures AllOk(states) && seen == TraceOf(states, events) && NoneAfterEnd(seen)
  {
    hide *;
    k := new Scheduler();
    seen, states := RunFrom(k, events);
  }

  ghost predicate Good(s: State)
  {
    exists place :: Inv(s, place)
  }

  ghost predicate AllOk(states: seq<State>)
  {
    forall n | 0 <= n < |states| :: Good(states[n])
  }

  lemma RunStart(s: State, events: seq<Event>)
    requires Good(s)
    ensures IsRun([s], events[..0]) && AllOk([s])
  {
  }

  lemma RunMore(states: seq<State>, s: State, events: seq<Event>, n: nat)
    requires n < |events| && IsRun(states, events[..n]) && AllOk(states) && Good(s)
    requires if Possible(states[n], events[n]) then Stepped(states[n], events[n], s) else s == states[n]
    ensures IsRun(states + [s], events[..n + 1]) && AllOk(states + [s])
  {
    hide Good, Possible, Stepped;
    var more, es := states + [s], events[..n + 1];
    forall m | 0 <= m < |es|
      ensures if Possible(more[m], es[m]) then Stepped(more[m], es[m], more[m + 1]) else more[m + 1] == more[m]
    {
      assert es[m] == events[m] && more[m] == states[m];
      if m < n { assert events[..n][m] == events[m]; }
    }
  }

  method RunFrom(k: Scheduler, events: seq<Event>) returns (seen: seq<Seen>, ghost states: seq<State>)
    requires k.Valid()
    modifies k
    ensures k.Valid() && IsRun(states, events) && states[0] == old(k.St()) && AllOk(states)
    ensures seen == TraceOf(states, events) && NoneAfterEnd(seen)
  {
    hide Inv, KindsOk, Remembers, NoneAfterEnd, ZombiesStay, Stepped, AfterStep, Possible, Observed, IsRun, AllOk;
    states := [k.St()];
    assert Good(k.St());
    RunStart(k.St(), events);
    NothingSeen(k.St());
    seen := [];
    for n := 0 to |events|
      invariant |states| == n + 1 && states[0] == old(k.St()) && states[n] == k.St()
      invariant k.Valid() && IsRun(states, events[..n]) && AllOk(states)
      invariant seen == TraceOf(states, events[..n]) && Remembers(k.St(), seen) && NoneAfterEnd(seen)
    {
      var e := events[n];
      ghost var before := states;
      if Possible(State(k.tasks, k.current, k.ready, k.timers, k.objects, k.procs), e) {
        ghost var s := k.St();
        var more := Perform(k, e);
        SeeMore(s, k.St(), seen, more);
        seen := seen + more;
      }
      assert Good(k.St());
      RunMore(before, k.St(), events, n);
      states := states + [k.St()];
      TraceStep(before, k.St(), events, n);
    }
    assert events[..|events|] == events;
  }

  lemma {:induction false} TracePrefix(states: seq<State>, s: State, events: seq<Event>)
    requires |states| >= |events|
    ensures TraceOf(states + [s], events) == TraceOf(states, events)
  {
    if events != [] {
      TracePrefix(states, s, events[..|events| - 1]);
    }
  }

  lemma TraceStep(states: seq<State>, s: State, events: seq<Event>, n: nat)
    requires |states| == n + 1 && n < |events|
    ensures TraceOf(states + [s], events[..n + 1])
         == if Possible(states[n], events[n]) then TraceOf(states, events[..n]) + Observed(states[n], events[n])
            else TraceOf(states, events[..n])
  {
    TracePrefix(states, s, events[..n]);
    assert events[..n + 1][..n] == events[..n];
  }

  lemma NothingSeen(s: State)
    ensures Remembers(s, []) && NoneAfterEnd([])
  {
  }
}
