/** The end of a process: its main thread exits, and every other thread of it leaves the ready queue and the timers. */
module Purge {
  import opened Wrappers
  import opened Sched
  import opened Threads

  /** `TaskManager::remove`: the first occurrence goes. */
  function RemoveFirst(queue: seq<nat>, t: nat): (r: seq<nat>)
  {
    if queue == [] then [] else if queue[0] == t then queue[1..] else [queue[0]] + RemoveFirst(queue[1..], t)
  }

  /** `remove_timer`: the entries of task `t` go. */
  function WithoutTimer(timers: seq<Timer>, t: nat): (r: seq<Timer>)
  {
    if timers == [] then [] else (if timers[0].task == t then [] else [timers[0]]) + WithoutTimer(timers[1..], t)
  }

  predicate IsOf(tasks: seq<Task>, t: nat, p: nat)
  {
    t < |tasks| && tasks[t].proc == p
  }

  /** The queue without the threads of process `p`, in the same order. */
  function Keep(queue: seq<nat>, tasks: seq<Task>, p: nat): (r: seq<nat>)
  {
    if queue == [] then [] else (if IsOf(tasks, queue[0], p) then [] else [queue[0]]) + Keep(queue[1..], tasks, p)
  }

  function KeepTimers(timers: seq<Timer>, tasks: seq<Task>, p: nat): (r: seq<Timer>)
  {
    if timers == [] then []
    else (if IsOf(tasks, timers[0].task, p) then [] else [timers[0]]) + KeepTimers(timers[1..], tasks, p)
  }

  // ---------------------------------------------------------------- queues without a thread

  lemma {:induction false} RemoveFirstCuts(queue: seq<nat>, t: nat, k: nat)
    requires k < |queue| && queue[k] == t && forall i | 0 <= i < k :: queue[i] != t
    ensures RemoveFirst(queue, t) == queue[..k] + queue[k + 1..]
  {
    if k > 0 {
      RemoveFirstCuts(queue[1..], t, k - 1);
    }
  }

  lemma {:induction false} RemoveFirstNone(queue: seq<nat>, t: nat)
    requires t !in queue
    ensures RemoveFirst(queue, t) == queue
  {
    if queue != [] {
      RemoveFirstNone(queue[1..], t);
    }
  }

  ghost function Off(place: Places, t: nat, at: Place): (place': Places)
  {
    if t in place && place[t] == at then place - {t} else place
  }

  lemma HoldsErase(queue: seq<nat>, at: Place, place: Places, t: nat, p: Place)
    requires Holds(queue, at, place[t := p]) && p != at
    ensures Holds(queue, at, place - {t})
  {
  }

  lemma HoldsRemove(queue: seq<nat>, at: Place, place: Places, t: nat)
    requires Holds(queue, at, place)
    ensures Holds(RemoveFirst(queue, t), at, Off(place, t, at))
  {
    if t in queue {
      var k :| 0 <= k < |queue| && queue[k] == t;
      RemoveFirstCuts(queue, t, k);
      var elsewhere := if at == OnCpu then InReady else OnCpu;
      HoldsCut(queue, at, place, k, elsewhere);
      HoldsErase(RemoveFirst(queue, t), at, place, t, elsewhere);
    } else {
      RemoveFirstNone(queue, t);
    }
  }

  lemma {:induction false} TimersWithout(timers: seq<Timer>, t: nat)
    requires forall i, j | 0 <= i < j < |timers| :: timers[i].task != timers[j].task
    ensures Sleepers(WithoutTimer(timers, t)) == RemoveFirst(Sleepers(timers), t)
  {
    if timers != [] {
      assert Sleepers(timers)[1..] == Sleepers(timers[1..]);
      TimersWithout(timers[1..], t);
      if timers[0].task == t {
        assert t !in Sleepers(timers[1..]);
        RemoveFirstNone(Sleepers(timers[1..]), t);
      }
    }
  }

  /** Threads of `p` do not matter to what is kept. */
  lemma {:induction false} KeepRemoved(queue: seq<nat>, tasks: seq<Task>, p: nat, t: nat)
    requires IsOf(tasks, t, p)
    ensures Keep(RemoveFirst(queue, t), tasks, p) == Keep(queue, tasks, p)
  {
    if queue != [] && queue[0] != t {
      KeepRemoved(queue[1..], tasks, p, t);
    }
  }

  lemma {:induction false} KeepTimersRemoved(timers: seq<Timer>, tasks: seq<Task>, p: nat, t: nat)
    requires IsOf(tasks, t, p)
    ensures KeepTimers(WithoutTimer(timers, t), tasks, p) == KeepTimers(timers, tasks, p)
  {
    if timers != [] {
      var rest := WithoutTimer(timers[1..], t);
      KeepTimersRemoved(timers[1..], tasks, p, t);
      assert WithoutTimer(timers, t) == if timers[0].task == t then rest else [timers[0]] + rest;
      assert ([timers[0]] + rest)[1..] == rest;
      assert KeepTimers(timers, tasks, p)
          == if IsOf(tasks, timers[0].task, p) then KeepTimers(timers[1..], tasks, p)
             else [timers[0]] + KeepTimers(timers[1..], tasks, p);
    }
  }

  lemma {:induction false} KeepAll(queue: seq<nat>, tasks: seq<Task>, p: nat)
    requires forall i | 0 <= i < |queue| :: !IsOf(tasks, queue[i], p)
    ensures Keep(queue, tasks, p) == queue
  {
    if queue != [] {
      KeepAll(queue[1..], tasks, p);
    }
  }

  lemma {:induction false} KeepAllTimers(timers: seq<Timer>, tasks: seq<Task>, p: nat)
    requires forall i | 0 <= i < |timers| :: !IsOf(tasks, timers[i].task, p)
    ensures KeepTimers(timers, tasks, p) == timers
  {
    if timers != [] {
      KeepAllTimers(timers[1..], tasks, p);
    }
  }

  // ---------------------------------------------------------------- a process being taken down

  /** As `TaskOk`, but threads of `dying` from slot `k` on may still be ready or asleep. */
  ghost predicate DyingTaskOk(s: State, t: nat, at: Place, dying: nat, k: nat)
    requires dying < |s.procs|
  {
    && t < |s.tasks| && s.tasks[t].exit == None && s.tasks[t].status == StatusAt(at)
    && s.tasks[t].proc < |s.procs|
    && (at.InQueue? ==> at.obj < |s.objects| && s.objects[at.obj].proc == s.tasks[t].proc)
    && (s.procs[s.tasks[t].proc].zombie ==>
          || at.InQueue?
          || (s.tasks[t].proc == dying && at != OnCpu && k <= s.tasks[t].tid < |s.procs[dying].threads|
              && s.procs[dying].threads[s.tasks[t].tid] == Some(t)))
  }

  /** The unexited threads from slot `k` on still have their tids. */
  ghost predicate TidsLeft(s: State, p: nat, k: nat)
    requires p < |s.procs|
  {
    forall i: nat | k <= i < |s.procs[p].threads| && s.procs[p].threads[i].Some? ::
      var t := s.procs[p].threads[i].value;
      t < |s.tasks| && (s.tasks[t].exit == None ==> s.procs[p].tids.Live(i))
  }

  ghost predicate DyingTasks(s: State, place: Places, p: nat, k: nat)
    requires p < |s.procs|
  {
    forall t | t in place :: DyingTaskOk(s, t, place[t], p, k)
  }

  ghost predicate Dying(s: State, place: Places, p: nat, k: nat)
  {
    && p < |s.procs| && s.procs[p].zombie
    && CpuOk(s.current, place) && Holds(s.ready, InReady, place) && Holds(Sleepers(s.timers), InTimers, place)
    && QueuesOk(s.objects, place) && AllPlaced(s, place) && ProcsOk(s)
    && DyingTasks(s, place, p, k) && TidsLeft(s, p, k)
  }

  function MarkZombie(s: State, p: nat): (s': State)
    requires p < |s.procs|
  {
    s.(procs := s.procs[p := s.procs[p].(zombie := true)])
  }

  /** `remove_inactive_task` for slot `k`, whose thread also loses its tid if it has not exited. */
  function PurgeOne(s: State, p: nat, k: nat): (s': State)
    requires p < |s.procs| && k < |s.procs[p].threads| && s.procs[p].tids.Valid()
    requires s.procs[p].threads[k].Some? ==>
               && s.procs[p].threads[k].value < |s.tasks|
               && (s.tasks[s.procs[p].threads[k].value].exit == None ==> s.procs[p].tids.Live(k))
  {
    match s.procs[p].threads[k]
    case None => s
    case Some(t) =>
      s.(ready := RemoveFirst(s.ready, t), timers := WithoutTimer(s.timers, t),
         procs := if s.tasks[t].exit == None
                  then s.procs[p := s.procs[p].(tids := s.procs[p].tids.Dealloc(k))] else s.procs)
  }

  ghost function Purged(place: Places, t: nat): (place': Places)
  {
    if t in place && (place[t] == InReady || place[t] == InTimers) then place - {t} else place
  }

  lemma MarkKeeps(s: State, place: Places, p: nat)
    requires Inv(s, place) && p < |s.procs| && !s.procs[p].zombie && s.current == None
    ensures Dying(MarkZombie(s, p), place, p, 0)
  {
    hide Holds, QueuesOk;
    var s' := MarkZombie(s, p);
    forall r: nat | r < |s'.procs| ensures ProcOk(s', r) { assert ProcOk(s, r); }
    forall t: nat | Unexited(s', t)
      ensures t in place && Listed(s'.procs[s'.tasks[t].proc], s'.tasks[t].tid, t)
    {
      assert Unexited(s, t);
    }
    forall t | t in place
      ensures DyingTaskOk(s', t, place[t], p, 0)
    {
      assert TaskOk(s, t, place[t]);
      assert !s.procs[s.tasks[t].proc].zombie ==> Unexited(s, t);
    }
    forall i: nat | i < |s'.procs[p].threads| && s'.procs[p].threads[i].Some?
      ensures var t := s'.procs[p].threads[i].value;
              t < |s'.tasks| && (s'.tasks[t].exit == None ==> s'.procs[p].tids.Live(i))
    {
      assert ProcOk(s, p);
      var t := s.procs[p].threads[i].value;
      assert s.tasks[t].exit == None ==> Unexited(s, t);
    }
  }

  /** The slot just treated leaves no thread of the process ready or asleep. */
  lemma PurgeOneKeeps(s: State, place: Places, p: nat, k: nat)
    requires Dying(s, place, p, k) && k < |s.procs[p].threads| && ProcOk(s, p)
    ensures s.procs[p].threads[k].None? ==> Dying(s, place, p, k + 1)
    ensures s.procs[p].threads[k].Some? ==>
              Dying(PurgeOne(s, p, k), Purged(place, s.procs[p].threads[k].value), p, k + 1)
  {
    hide Holds, QueuesOk, CpuOk, AllPlaced, ProcsOk;
    PurgeTasks(s, place, p, k);
    if s.procs[p].threads[k].Some? {
      var t := s.procs[p].threads[k].value;
      PurgeQueues(s, place, t);
      PurgeProcs(s, place, p, k);
    }
  }

  lemma PurgeTasks(s: State, place: Places, p: nat, k: nat)
    requires p < |s.procs| && DyingTasks(s, place, p, k) && TidsLeft(s, p, k) && k < |s.procs[p].threads|
             && ProcOk(s, p)
    ensures s.procs[p].threads[k].None? ==> DyingTasks(s, place, p, k + 1) && TidsLeft(s, p, k + 1)
    ensures s.procs[p].threads[k].Some? ==>
              var s' := PurgeOne(s, p, k);
              DyingTasks(s', Purged(place, s.procs[p].threads[k].value), p, k + 1) && TidsLeft(s', p, k + 1)
  {
    var s' := PurgeOne(s, p, k);
    var place' := if s.procs[p].threads[k].Some? then Purged(place, s.procs[p].threads[k].value) else place;
    forall t | t in place'
      ensures DyingTaskOk(s', t, place'[t], p, k + 1)
    {
      assert DyingTaskOk(s, t, place[t], p, k);
    }
  }

  lemma PurgeQueues(s: State, place: Places, t: nat)
    requires CpuOk(s.current, place) && QueuesOk(s.objects, place)
    requires Holds(s.ready, InReady, place) && Holds(Sleepers(s.timers), InTimers, place)
    ensures var place' := Purged(place, t);
            && CpuOk(s.current, place') && QueuesOk(s.objects, place')
            && Holds(RemoveFirst(s.ready, t), InReady, place')
            && Holds(Sleepers(WithoutTimer(s.timers, t)), InTimers, place')
  {
    var sleepers := Sleepers(s.timers);
    InHolds(s.ready, InReady, place, t);
    InHolds(sleepers, InTimers, place, t);
    assert forall i, j | 0 <= i < j < |s.timers| :: s.timers[i].task != s.timers[j].task by {
      assert forall i | 0 <= i < |s.timers| :: s.timers[i].task == sleepers[i];
    }
    TimersWithout(s.timers, t);
    hide Holds, QueuesOk;
    HoldsRemove(s.ready, InReady, place, t);
    HoldsRemove(sleepers, InTimers, place, t);
    if Purged(place, t) != place {
      QueuesGone(s.objects, place, t);
      if place[t] == InReady {
        RemoveFirstNone(sleepers, t);
        HoldsGone(sleepers, InTimers, place, t);
      } else {
        RemoveFirstNone(s.ready, t);
        HoldsGone(s.ready, InReady, place, t);
      }
    }
  }

  lemma PurgeProcs(s: State, place: Places, p: nat, k: nat)
    requires p < |s.procs| && s.procs[p].zombie && AllPlaced(s, place) && ProcsOk(s) && TidsLeft(s, p, k)
    requires k < |s.procs[p].threads| && s.procs[p].threads[k].Some? && ProcOk(s, p)
    ensures AllPlaced(PurgeOne(s, p, k), Purged(place, s.procs[p].threads[k].value)) && ProcsOk(PurgeOne(s, p, k))
  {
    var s' := PurgeOne(s, p, k);
    forall r: nat | r < |s'.procs| ensures ProcOk(s', r) { assert ProcOk(s, r); }
    forall u: nat | Unexited(s', u)
      ensures u in Purged(place, s.procs[p].threads[k].value) && Listed(s'.procs[s'.tasks[u].proc], s'.tasks[u].tid, u)
    {
      assert Unexited(s, u);
    }
  }

  /** Every slot treated: the thread table is dropped and the process is gone. */
  function Bury(s: State, p: nat): (s': State)
    requires p < |s.procs|
  {
    s.(procs := s.procs[p := s.procs[p].(threads := [])])
  }

  lemma BuryKeeps(s: State, place: Places, p: nat)
    requires p < |s.procs| && Dying(s, place, p, |s.procs[p].threads|)
    ensures Inv(Bury(s, p), place)
    ensures forall t | t in s.ready || t in Sleepers(s.timers) :: !IsOf(s.tasks, t, p)
  {
    hide Holds, QueuesOk, CpuOk;
    var s' := Bury(s, p);
    forall t | t in place
      ensures TaskOk(s', t, place[t])
    {
      assert DyingTaskOk(s, t, place[t], p, |s.procs[p].threads|);
    }
    forall r: nat | r < |s'.procs| ensures ProcOk(s', r) { assert ProcOk(s, r); }
    forall u: nat | Unexited(s', u)
      ensures u in place && Listed(s'.procs[s'.tasks[u].proc], s'.tasks[u].tid, u)
    {
      assert Unexited(s, u);
    }
    assert Inv(s', place);
    forall t | t in s.ready || t in Sleepers(s.timers)
      ensures !IsOf(s.tasks, t, p)
    {
      Membership(s', place, t);
    }
  }
}
