/** What threads may rely on over whole runs: a join returns the exit code, a sleep lasts until its time, and no ready
  * thread overtakes another. */
module ThreadRun {
  import opened Wrappers
  import opened Sched
  import opened Purge
  import opened Scheduler
  import opened SchedRun

  // ---------------------------------------------------------------- one event

  /** Threads keep their process and their tid, and an exit code once set stays. */
  lemma TaskStep(s: State, e: Event, s': State, t: nat)
    requires Possible(s, e) && Stepped(s, e, s') && t < |s.tasks|
    ensures t < |s'.tasks| && s'.tasks[t].proc == s.tasks[t].proc && s'.tasks[t].tid == s.tasks[t].tid
    ensures s'.tasks[t].exit == if e.ExitWith? && s.current == Some(t) then Some(e.code) else s.tasks[t].exit
  {
    hide Keep, KeepTimers, WentOff;
  }

  /** A process that is gone stays gone. */
  lemma ProcStep(s: State, e: Event, s': State, p: nat)
    requires Good(s) && Possible(s, e) && Stepped(s, e, s') && p < |s.procs|
    ensures p < |s'.procs| && (s.procs[p].zombie ==> s'.procs[p].zombie)
  {
    hide Keep, KeepTimers, WentOff, SameTasks, Inv;
    if e.ExitWith? {
      CurrentOk(s);
    }
  }

  /** The thread on the processor has not exited, its process is not gone, and its slot holds it. */
  lemma CurrentOk(s: State)
    requires Good(s) && s.current.Some?
    ensures Unexited(s, s.current.value)
    ensures Listed(s.procs[s.tasks[s.current.value].proc], s.tasks[s.current.value].tid, s.current.value)
  {
    var place :| Inv(s, place);
    Membership(s, place, s.current.value);
    assert Unexited(s, s.current.value);
  }

  /** A new thread of process `p` is given `tid`. */
  ghost predicate Gives(s: State, e: Event, s': State, p: nat, tid: nat)
  {
    && e.NewThread? && Possible(s, e) && s.tasks[s.current.value].proc == p
    && |s.tasks| < |s'.tasks| && s'.tasks[|s.tasks|].tid == tid
  }

  /** A thread of process `p` waits for `tid`. */
  ghost predicate Joins(s: State, e: Event, p: nat, tid: nat)
  {
    e == Join(tid) && Possible(s, e) && s.tasks[s.current.value].proc == p
  }

  /** What becomes of slot `tid` of a process that goes on. */
  lemma SlotStep(s: State, e: Event, s': State, p: nat, tid: nat)
    requires Good(s) && Possible(s, e) && Stepped(s, e, s')
    requires p < |s.procs| && tid < |s.procs[p].threads| && p < |s'.procs| && !s'.procs[p].zombie
    requires !Gives(s, e, s', p, tid)
    ensures tid < |s'.procs[p].threads|
    ensures s'.procs[p].threads[tid]
         == if Joins(s, e, p, tid) && Joinable(s, tid) then None else s.procs[p].threads[tid]
  {
    hide Keep, KeepTimers, WentOff, SameTasks, Inv;
  }

  // ---------------------------------------------------------------- joins

  ghost predicate GivesAt(states: seq<State>, events: seq<Event>, m: nat, p: nat, tid: nat)
  {
    m < |events| && m + 1 < |states| && Gives(states[m], events[m], states[m + 1], p, tid)
  }

  ghost predicate JoinsAt(states: seq<State>, events: seq<Event>, m: nat, p: nat, tid: nat)
  {
    m < |events| && m < |states| && Joins(states[m], events[m], p, tid)
  }

  /** Some thread of `p` has waited for `tid` between events `x` and `i`. */
  ghost predicate JoinedBetween(states: seq<State>, events: seq<Event>, x: nat, i: nat, p: nat, tid: nat)
  {
    exists m: nat :: x < m < i && JoinsAt(states, events, m, p, tid)
  }

  /** Thread `t` of process `p` has exited with `code`; its slot holds it, or is empty if `taken`. */
  ghost predicate Kept(s: State, t: nat, p: nat, tid: nat, code: int, taken: bool)
  {
    && t < |s.tasks| && s.tasks[t].proc == p && s.tasks[t].tid == tid && s.tasks[t].exit == Some(code)
    && p < |s.procs| && tid < |s.procs[p].threads|
    && s.procs[p].threads[tid] == if taken then None else Some(t)
  }

  /** The joining thread has another tid, and finds what the slot holds. */
  lemma JoinFinds(s: State, t: nat, p: nat, tid: nat, code: int, taken: bool)
    requires Good(s) && Kept(s, t, p, tid, code, taken) && Joins(s, Join(tid), p, tid)
    ensures Joinable(s, tid) == !taken && JoinAnswer(s, tid) == if taken then -1 else code
  {
    CurrentOk(s);
  }

  lemma KeptStep(s: State, e: Event, s': State, t: nat, p: nat, tid: nat, code: int, taken: bool)
    requires Good(s) && Possible(s, e) && Stepped(s, e, s') && Kept(s, t, p, tid, code, taken)
    requires p < |s'.procs| && !s'.procs[p].zombie && !Gives(s, e, s', p, tid)
    ensures Kept(s', t, p, tid, code, taken || Joins(s, e, p, tid))
  {
    hide Good, Stepped, Gives;
    TaskStep(s, e, s', t);
    SlotStep(s, e, s', p, tid);
    if s.current.Some? { CurrentOk(s); }
    if Joins(s, e, p, tid) { JoinFinds(s, t, p, tid, code, taken); }
  }

  lemma {:induction false} NotGoneBefore(states: seq<State>, events: seq<Event>, i: nat, j: nat, p: nat)
    requires IsRun(states, events) && AllOk(states) && i <= j < |states| && p < |states[i].procs|
    ensures p < |states[j].procs| && (states[i].procs[p].zombie ==> states[j].procs[p].zombie)
    decreases j
  {
    hide Possible, Stepped, Good;
    if i < j {
      NotGoneBefore(states, events, i, j - 1, p);
      if Possible(states[j - 1], events[j - 1]) { ProcStep(states[j - 1], events[j - 1], states[j], p); }
    }
  }

  lemma {:induction false} KeptUntil(states: seq<State>, events: seq<Event>, x: nat, i: nat,
                                     t: nat, p: nat, tid: nat, code: int)
    requires IsRun(states, events) && AllOk(states) && x < i < |states|
    requires Kept(states[x + 1], t, p, tid, code, false)
    requires p < |states[i].procs| && !states[i].procs[p].zombie
    requires forall m: nat | x < m < i :: !GivesAt(states, events, m, p, tid)
    ensures Kept(states[i], t, p, tid, code, JoinedBetween(states, events, x, i, p, tid))
    decreases i
  {
    hide Possible, Stepped, Good, Gives, Joins;
    if x + 1 < i {
      KeptProc(states[x + 1], t, p, tid, code, false);
      NotGoneBefore(states, events, x + 1, i - 1, p);
      NotGoneBefore(states, events, i - 1, i, p);
      KeptUntil(states, events, x, i - 1, t, p, tid, code);
      var before := JoinedBetween(states, events, x, i - 1, p, tid);
      JoinedMore(states, events, x, i, p, tid);
      hide Kept, JoinedBetween;
      assert !GivesAt(states, events, i - 1, p, tid);
      if Possible(states[i - 1], events[i - 1]) {
        KeptStep(states[i - 1], events[i - 1], states[i], t, p, tid, code, before);
      } else {
        CannotJoin(states[i - 1], events[i - 1], p, tid);
      }
    }
  }

  lemma KeptProc(s: State, t: nat, p: nat, tid: nat, code: int, taken: bool)
    requires Kept(s, t, p, tid, code, taken)
    ensures p < |s.procs|
  {
  }

  lemma CannotJoin(s: State, e: Event, p: nat, tid: nat)
    requires !Possible(s, e)
    ensures !Joins(s, e, p, tid)
  {
  }

  lemma JoinedMore(states: seq<State>, events: seq<Event>, x: nat, i: nat, p: nat, tid: nat)
    requires x + 1 < i <= |events| && i <= |states|
    ensures JoinedBetween(states, events, x, i, p, tid)
       <==> JoinedBetween(states, events, x, i - 1, p, tid) || Joins(states[i - 1], events[i - 1], p, tid)
  {
    hide Joins;
    if JoinedBetween(states, events, x, i, p, tid) {
      var m: nat :| x < m < i && JoinsAt(states, events, m, p, tid);
    }
    if Joins(states[i - 1], events[i - 1], p, tid) { assert JoinsAt(states, events, i - 1, p, tid); }
  }

  lemma ExitKeepsSlot(s: State, code: int, s': State)
    requires Good(s) && s.current.Some? && Possible(s, ExitWith(code)) && Stepped(s, ExitWith(code), s')
    requires s.tasks[s.current.value].tid != 0
    ensures var t := s.current.value;
            Kept(s', t, s.tasks[t].proc, s.tasks[t].tid, code, false)
  {
    hide Good;
    CurrentOk(s);
  }

  /** Thread `t` exits with `code`. As long as no new thread is given its tid, the first `waittid` for it by a thread of
    * its process returns `code`, and every later one -1. */
  lemma JoinReturns(states: seq<State>, events: seq<Event>, x: nat, j: nat, t: nat, code: int)
    requires IsRun(states, events) && AllOk(states) && x < j < |events|
    requires events[x] == ExitWith(code) && Possible(states[x], events[x]) && states[x].current == Some(t)
    requires states[x].tasks[t].tid != 0
    requires var p, tid := states[x].tasks[t].proc, states[x].tasks[t].tid;
             && JoinsAt(states, events, j, p, tid)
             && forall m: nat | x < m < j :: !GivesAt(states, events, m, p, tid)
    ensures var p, tid := states[x].tasks[t].proc, states[x].tasks[t].tid;
            Observed(states[j], events[j])
            == [Joined(p, tid, if JoinedBetween(states, events, x, j, p, tid) then -1 else code)]
  {
    hide Stepped, Good, Gives, JoinedBetween, Kept;
    var p, tid := states[x].tasks[t].proc, states[x].tasks[t].tid;
    ExitKeepsSlot(states[x], code, states[x + 1]);
    CurrentOk(states[j]);
    KeptUntil(states, events, x, j, t, p, tid, code);
    JoinFinds(states[j], t, p, tid, code, JoinedBetween(states, events, x, j, p, tid));
  }

  // ---------------------------------------------------------------- sleeps

  lemma {:induction false} KeepTimersHolds(timers: seq<Timer>, tasks: seq<Task>, q: nat, tm: Timer)
    requires tm in timers && !IsOf(tasks, tm.task, q)
    ensures tm in KeepTimers(timers, tasks, q)
  {
    if timers[0] != tm {
      KeepTimersHolds(timers[1..], tasks, q, tm);
    }
  }

  /** A timer that is not due stays as it is. */
  lemma ClockSpares(s: State, now: nat, s': State, tm: Timer)
    requires WentOff(s, now, s') && tm in s.timers && tm.expire > now
    ensures tm in s'.timers
  {
    var woken: seq<Timer> :| TheseWentOff(s, now, s', woken);
    assert forall i | 0 <= i < |woken| :: woken[i] != tm;
    assert tm !in multiset(woken) && tm in multiset(s.timers);
    assert tm in multiset(s'.timers);
  }

  /** One that is due makes its thread ready. */
  lemma ClockWakes(s: State, now: nat, s': State, tm: Timer)
    requires WentOff(s, now, s') && tm in s.timers && tm.expire <= now
    ensures tm.task in s'.ready
  {
    var woken: seq<Timer> :| TheseWentOff(s, now, s', woken);
    assert forall i | 0 <= i < |s'.timers| :: s'.timers[i] != tm;
    assert tm !in multiset(s'.timers) && tm in multiset(s.timers);
    assert tm in multiset(woken);
    var i :| 0 <= i < |woken| && woken[i] == tm;
    assert Sleepers(woken)[i] == tm.task;
  }

  /** An event other than a clock that reaches its time, or the end of its process, leaves a timer set. */
  lemma TimerStep(s: State, e: Event, s': State, tm: Timer)
    requires Possible(s, e) && Stepped(s, e, s') && tm in s.timers && tm.task < |s.tasks|
    requires e.Clock? ==> e.now < tm.expire
    requires var p := s.tasks[tm.task].proc; p < |s'.procs| && !s'.procs[p].zombie
    ensures tm in s'.timers
  {
    hide KeepTimers, Keep, WentOff, SameTasks;
    if e.Clock? { ClockSpares(s, e.now, s', tm); }
    if e.ExitWith? && s.tasks[s.current.value].tid == 0 {
      KeepTimersHolds(s.timers, s.tasks, s.tasks[s.current.value].proc, tm);
    }
  }

  /** A clock at event `m` shows `expire` or more. */
  ghost predicate ReachedAt(events: seq<Event>, m: nat, expire: nat)
  {
    m < |events| && events[m].Clock? && events[m].now >= expire
  }

  lemma {:induction false} TimerStays(states: seq<State>, events: seq<Event>, i: nat, j: nat, tm: Timer)
    requires IsRun(states, events) && AllOk(states) && i <= j < |states|
    requires tm in states[i].timers && tm.task < |states[i].tasks|
    requires states[i].tasks[tm.task].proc < |states[i].procs|
    requires forall m: nat | i <= m < j :: !ReachedAt(events, m, tm.expire)
    requires var p := states[i].tasks[tm.task].proc; p < |states[j].procs| && !states[j].procs[p].zombie
    ensures tm in states[j].timers && tm.task < |states[j].tasks|
    ensures states[j].tasks[tm.task].proc == states[i].tasks[tm.task].proc
    decreases j
  {
    hide Possible, Stepped, Good;
    if i < j {
      var p := states[i].tasks[tm.task].proc;
      NotGoneBefore(states, events, i, j - 1, p);
      NotGoneBefore(states, events, j - 1, j, p);
      TimerStays(states, events, i, j - 1, tm);
      assert !ReachedAt(events, j - 1, tm.expire);
      if Possible(states[j - 1], events[j - 1]) {
        TimerStep(states[j - 1], events[j - 1], states[j], tm);
        TaskStep(states[j - 1], events[j - 1], states[j], tm.task);
      }
    }
  }

  lemma SleepSets(s: State, expire: nat, s': State)
    requires Good(s) && s.current.Some? && Possible(s, SleepFor(expire)) && Stepped(s, SleepFor(expire), s')
    ensures var t := s.current.value;
            && Timer(expire, t) in s'.timers && t < |s'.tasks| && s'.tasks[t].proc == s.tasks[t].proc
            && s'.tasks[t].proc < |s'.procs|
  {
    hide Good;
    CurrentOk(s);
    var t := s.current.value;
    assert s'.timers[|s.timers|] == Timer(expire, t);
  }

  lemma Asleep(s: State, tm: Timer)
    requires Good(s) && tm in s.timers
    ensures tm.task !in s.ready && s.current != Some(tm.task)
    ensures forall q: nat | q < |s.objects| :: tm.task !in s.objects[q].queue
  {
    var place :| Inv(s, place);
    var i :| 0 <= i < |s.timers| && s.timers[i] == tm;
    assert Sleepers(s.timers)[i] == tm.task;
    Membership(s, place, tm.task);
  }

  /** Thread `t` sleeps until `expire`. Until a clock shows that time, or its process ends, it is asleep: not running,
    * not ready, and in no queue; and the first such clock makes it ready. */
  lemma SleepsUntil(states: seq<State>, events: seq<Event>, i: nat, j: nat, t: nat, expire: nat)
    requires IsRun(states, events) && AllOk(states) && i < j < |states|
    requires events[i] == SleepFor(expire) && Possible(states[i], events[i]) && states[i].current == Some(t)
    requires forall m: nat | i < m < j :: !ReachedAt(events, m, expire)
    requires var p := states[i].tasks[t].proc; p < |states[j].procs| && !states[j].procs[p].zombie
    ensures Timer(expire, t) in states[j].timers && t !in states[j].ready && states[j].current != Some(t)
    ensures forall q: nat | q < |states[j].objects| :: t !in states[j].objects[q].queue
    ensures j < |events| && ReachedAt(events, j, expire) ==> t in states[j + 1].ready
  {
    hide Stepped, Good, Inv;
    SleepSets(states[i], expire, states[i + 1]);
    TimerStays(states, events, i + 1, j, Timer(expire, t));
    Asleep(states[j], Timer(expire, t));
    if j < |events| && ReachedAt(events, j, expire) {
      assert Possible(states[j], events[j]) && Stepped(states[j], events[j], states[j + 1]);
      ClockIs(states[j], events[j].now, states[j + 1]);
      ClockWakes(states[j], events[j].now, states[j + 1], Timer(expire, t));
    }
  }

  lemma ClockIs(s: State, now: nat, s': State)
    requires Stepped(s, Clock(now), s')
    ensures WentOff(s, now, s')
  {
  }

  // ---------------------------------------------------------------- the ready queue

  /** `t` comes before `u`. */
  ghost predicate Ahead(queue: seq<nat>, t: nat, u: nat)
  {
    exists a, b :: 0 <= a < b < |queue| && queue[a] == t && queue[b] == u
  }

  lemma AheadMore(queue: seq<nat>, more: seq<nat>, t: nat, u: nat)
    requires Ahead(queue, t, u)
    ensures Ahead(queue + more, t, u)
  {
    var a, b :| 0 <= a < b < |queue| && queue[a] == t && queue[b] == u;
    assert (queue + more)[a] == t && (queue + more)[b] == u;
  }

  lemma AheadPop(queue: seq<nat>, t: nat, u: nat)
    requires Ahead(queue, t, u) && queue[0] != t
    ensures Ahead(queue[1..], t, u)
  {
    var a, b :| 0 <= a < b < |queue| && queue[a] == t && queue[b] == u;
    assert queue[1..][a - 1] == t && queue[1..][b - 1] == u;
  }

  lemma {:induction false} KeepHolds(queue: seq<nat>, tasks: seq<Task>, q: nat, t: nat)
    requires t in queue && !IsOf(tasks, t, q)
    ensures t in Keep(queue, tasks, q)
  {
    if queue[0] != t {
      KeepHolds(queue[1..], tasks, q, t);
    }
  }

  lemma {:induction false} AheadKept(queue: seq<nat>, tasks: seq<Task>, q: nat, t: nat, u: nat)
    requires Ahead(queue, t, u) && !IsOf(tasks, t, q) && !IsOf(tasks, u, q)
    ensures Ahead(Keep(queue, tasks, q), t, u)
  {
    var rest := Keep(queue[1..], tasks, q);
    if queue[0] == t {
      var a, b :| 0 <= a < b < |queue| && queue[a] == t && queue[b] == u;
      assert queue[1..][b - 1] == u;
      KeepHolds(queue[1..], tasks, q, u);
      var k :| 0 <= k < |rest| && rest[k] == u;
      assert ([t] + rest)[0] == t && ([t] + rest)[k + 1] == u;
    } else {
      AheadPop(queue, t, u);
      AheadKept(queue[1..], tasks, q, t, u);
      AheadBehind(if IsOf(tasks, queue[0], q) then [] else [queue[0]], rest, t, u);
    }
  }

  lemma AheadBehind(front: seq<nat>, queue: seq<nat>, t: nat, u: nat)
    requires Ahead(queue, t, u)
    ensures Ahead(front + queue, t, u)
  {
    var a, b :| 0 <= a < b < |queue| && queue[a] == t && queue[b] == u;
    assert (front + queue)[|front| + a] == t && (front + queue)[|front| + b] == u;
  }

  /** Event `m` gives the processor to thread `t`. */
  ghost predicate RunsAt(states: seq<State>, events: seq<Event>, m: nat, t: nat)
  {
    && m < |events| && m < |states| && events[m] == Event.Run && Possible(states[m], events[m])
    && states[m].ready != [] && states[m].ready[0] == t
  }

  predicate Goes(s: State, t: nat)
  {
    t < |s.tasks| && s.tasks[t].proc < |s.procs| && !s.procs[s.tasks[t].proc].zombie
  }

  /** Every event but the one that runs `t` leaves `t` ahead of `u`, if the processes of both go on. */
  lemma AheadStep(s: State, e: Event, s': State, t: nat, u: nat)
    requires Possible(s, e) && Stepped(s, e, s') && Ahead(s.ready, t, u) && t < |s.tasks| && u < |s.tasks|
    requires Goes(s', t) && Goes(s', u) && !(e == Event.Run && s.ready[0] == t)
    ensures Ahead(s'.ready, t, u)
  {
    hide Keep, KeepTimers, SameTasks, Ahead;
    TaskStep(s, e, s', t);
    TaskStep(s, e, s', u);
    if e.ExitWith? {
      if s.tasks[s.current.value].tid == 0 { AheadKept(s.ready, s.tasks, s.tasks[s.current.value].proc, t, u); }
    } else if e == Event.Run {
      ReadyThere(s.ready, t, u);
      AheadPop(s.ready, t, u);
    } else {
      var more := JoinsReady(s, e, s');
      AheadMore(s.ready, more, t, u);
    }
  }

  lemma ReadyThere(queue: seq<nat>, t: nat, u: nat)
    requires Ahead(queue, t, u)
    ensures queue != []
  {
  }

  /** Threads become ready at the end of the queue. */
  lemma JoinsReady(s: State, e: Event, s': State) returns (more: seq<nat>)
    requires Possible(s, e) && Stepped(s, e, s') && !e.ExitWith? && e != Event.Run
    ensures s'.ready == s.ready + more
  {
    hide Keep, KeepTimers, SameTasks;
    more := [];
    if e.Clock? {
      var woken: seq<Timer> :| TheseWentOff(s, e.now, s', woken);
      more := Sleepers(woken);
    } else {
      assert |s.ready| <= |s'.ready| && s'.ready[..|s.ready|] == s.ready;
      more := s'.ready[|s.ready|..];
    }
  }

  /** A thread runs only while its process goes on. */
  lemma RunnerGoes(s: State)
    requires Good(s) && s.ready != []
    ensures Goes(s, s.ready[0])
  {
    var place :| Inv(s, place);
    Membership(s, place, s.ready[0]);
  }

  lemma ReadyTasks(s: State, t: nat)
    requires Good(s) && t in s.ready
    ensures t < |s.tasks| && s.tasks[t].proc < |s.procs|
  {
    var place :| Inv(s, place);
    Membership(s, place, t);
  }

  /** As long as `t` has not run and the processes of both go on, `t` stays ahead of `u`. */
  lemma {:induction false} StaysAhead(states: seq<State>, events: seq<Event>, i: nat, j: nat, t: nat, u: nat)
    requires IsRun(states, events) && AllOk(states) && i <= j < |states| && Ahead(states[i].ready, t, u)
    requires t < |states[i].tasks| && u < |states[i].tasks|
    requires Goes(states[i], t) && Goes(states[i], u)
    requires Goes(states[j], t) && Goes(states[j], u)
    requires forall m: nat | i <= m < j :: !RunsAt(states, events, m, t)
    ensures Ahead(states[j].ready, t, u)
    decreases j
  {
    hide Possible, Stepped, Good, Ahead;
    if i < j {
      GoesBefore(states, events, i, j - 1, t);
      GoesBefore(states, events, i, j - 1, u);
      GoesBefore(states, events, j - 1, j, t);
      GoesBefore(states, events, j - 1, j, u);
      StaysAhead(states, events, i, j - 1, t, u);
      ReadyThere(states[j - 1].ready, t, u);
      assert !RunsAt(states, events, j - 1, t);
      if Possible(states[j - 1], events[j - 1]) {
        AheadStep(states[j - 1], events[j - 1], states[j], t, u);
      }
    }
  }

  lemma {:induction false} GoesBefore(states: seq<State>, events: seq<Event>, i: nat, j: nat, t: nat)
    requires IsRun(states, events) && AllOk(states) && i <= j < |states|
    requires t < |states[i].tasks| && states[i].tasks[t].proc < |states[i].procs|
    ensures t < |states[j].tasks| && states[j].tasks[t].proc == states[i].tasks[t].proc < |states[j].procs|
    ensures Goes(states[j], t) ==> Goes(states[i], t)
    decreases j
  {
    hide Possible, Stepped, Good;
    if i < j {
      GoesBefore(states, events, i, j - 1, t);
      if Possible(states[j - 1], events[j - 1]) {
        TaskStep(states[j - 1], events[j - 1], states[j], t);
        ProcStep(states[j - 1], events[j - 1], states[j], states[i].tasks[t].proc);
      }
    }
  }

  /** The ready queue is fair: if `t` waits ahead of `u`, then before `u` gets the processor `t` has had it, or the
    * process of `t` has ended. */
  lemma NoOvertaking(states: seq<State>, events: seq<Event>, i: nat, j: nat, t: nat, u: nat)
    requires IsRun(states, events) && AllOk(states) && i <= j < |events| && Ahead(states[i].ready, t, u)
    requires RunsAt(states, events, j, u) && t < |states[j].tasks|
    ensures (exists m: nat :: i <= m < j && RunsAt(states, events, m, t)) || !Goes(states[j], t)
  {
    if (forall m: nat | i <= m < j :: !RunsAt(states, events, m, t)) && Goes(states[j], t) {
      var a, b :| 0 <= a < b < |states[i].ready| && states[i].ready[a] == t && states[i].ready[b] == u;
      assert t in states[i].ready && u in states[i].ready;
      ReadyTasks(states[i], t);
      ReadyTasks(states[i], u);
      RunnerGoes(states[j]);
      hide Possible, Stepped, Good;
      GoesBefore(states, events, i, j, t);
      GoesBefore(states, events, i, j, u);
      StaysAhead(states, events, i, j, t, u);
      FrontIsNotBehind(states[j], t, u);
    }
  }

  lemma FrontIsNotBehind(s: State, t: nat, u: nat)
    requires Good(s) && Ahead(s.ready, t, u)
    ensures s.ready != [] && s.ready[0] != u
  {
    var place :| Inv(s, place);
    assert Holds(s.ready, InReady, place);
  }
}
