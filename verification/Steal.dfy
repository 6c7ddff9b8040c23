/** A run from boot in which a thread that never had a mutex unlocks it, and two threads hold it. */
module Steal {
  import opened Wrappers
  import opened Ids
  import opened Sched
  import opened Threads
  import opened SchedRun
  import opened SyncRun

  function Tasks(a: Status, b: Status, c: Status): (ts: seq<Task>)
  {
    [Task(0, 0, a, None), Task(0, 1, b, None), Task(0, 2, c, None)]
  }

  /** One process with three threads in the given states, and its objects. */
  function Three(a: Status, b: Status, c: Status, current: Option<nat>, ready: seq<nat>, objects: seq<Object>)
    : (s: State)
  {
    State(Tasks(a, b, c), current, ready, [], objects,
      [Proc(false, [Some(0), Some(1), Some(2)], RecycleAllocator(3, []))])
  }

  lemma SetTask(a: Status, b: Status, c: Status, i: nat, x: Status)
    requires i < 3
    ensures var ts := Tasks(a, b, c);
            ts[i := ts[i].(status := x)]
              == Tasks(if i == 0 then x else a, if i == 1 then x else b, if i == 2 then x else c)
  {
  }

  /** A process whose threads have the tids 0 up to `n` gets thread `n` next. */
  lemma SpawnNext(s: State, n: nat)
    requires |s.procs| == 1 && s.procs[0].tids == RecycleAllocator(n, []) && |s.procs[0].threads| == n
    ensures s.procs[0].tids.Valid()
    ensures Spawn(s, 0) == s.(tasks := s.tasks + [Task(0, n, Ready, None)], ready := s.ready + [|s.tasks|],
                              procs := [Proc(s.procs[0].zombie, s.procs[0].threads + [Some(|s.tasks|)],
                                             RecycleAllocator(n + 1, []))])
  {
    var p := s.procs[0];
    var got := p.tids.Alloc();
    assert got.0 == RecycleAllocator(n + 1, []) && got.1 == n;
    assert WithSlot(p.threads, n, |s.tasks|) == p.threads + [Some(|s.tasks|)];
    assert Spawn(s, 0).procs == [p.(threads := p.threads + [Some(|s.tasks|)], tids := RecycleAllocator(n + 1, []))];
  }

  function One(status: Status, current: Option<nat>, ready: seq<nat>): (s: State)
  {
    State([Task(0, 0, status, None)], current, ready, [], [], [Proc(false, [Some(0)], RecycleAllocator(1, []))])
  }

  function Two(): (s: State)
  {
    State([Task(0, 0, Running, None), Task(0, 1, Ready, None)], Some(0), [1], [], [],
          [Proc(false, [Some(0), Some(1)], RecycleAllocator(2, []))])
  }

  const NOTHING: State := State([], None, [], [], [], [])

  lemma FirstProcess()
    ensures Possible(NOTHING, NewProc) && Stepped(NOTHING, NewProc, One(Ready, None, [0]))
  {
    var bare := NOTHING.(procs := [Proc(false, [], RecycleAllocator(0, []))]);
    assert NOTHING.procs + [Proc(false, [], NewAllocator())] == bare.procs;
    SpawnNext(bare, 0);
    assert bare.tasks + [Task(0, 0, Ready, None)] == One(Ready, None, [0]).tasks;
    assert bare.ready + [0] == [0] && bare.procs[0].threads + [Some(0)] == [Some(0)];
  }

  lemma FirstDispatch()
    ensures Possible(One(Ready, None, [0]), Run) && Stepped(One(Ready, None, [0]), Run, One(Running, Some(0), []))
  {
    var s := One(Ready, None, [0]);
    assert s.ready[1..] == [] && s.tasks[0 := s.tasks[0].(status := Running)] == One(Running, Some(0), []).tasks;
  }

  lemma FirstThread()
    ensures Possible(One(Running, Some(0), []), NewThread) && Stepped(One(Running, Some(0), []), NewThread, Two())
  {
    var s := One(Running, Some(0), []);
    SpawnNext(s, 1);
    assert s.tasks + [Task(0, 1, Ready, None)] == Two().tasks && s.ready + [1] == [1];
    assert s.procs[0].threads + [Some(1)] == [Some(0), Some(1)];
  }

  lemma SecondThread()
    ensures Possible(Two(), NewThread) && Stepped(Two(), NewThread, Three(Running, Ready, Ready, Some(0), [1, 2], []))
  {
    var s := Two();
    SpawnNext(s, 2);
    assert s.tasks + [Task(0, 2, Ready, None)] == Tasks(Running, Ready, Ready) && s.ready + [2] == [1, 2];
    assert s.procs[0].threads + [Some(2)] == [Some(0), Some(1), Some(2)];
  }

  function Held(queue: seq<nat>): (objects: seq<Object>)
  {
    [Object(0, Mutex(true), queue)]
  }

  lemma MutexMade()
    ensures var s, s' := Three(Running, Ready, Ready, Some(0), [1, 2], []),
                         Three(Running, Ready, Ready, Some(0), [1, 2], [Object(0, Mutex(false), [])]);
            Possible(s, NewObj(Mutex(false))) && Stepped(s, NewObj(Mutex(false)), s')
  {
    var none: seq<Object> := [];
    assert none + [Object(0, Mutex(false), [])] == [Object(0, Mutex(false), [])];
  }

  lemma FirstLocks()
    ensures var s, s' := Three(Running, Ready, Ready, Some(0), [1, 2], [Object(0, Mutex(false), [])]),
                         Three(Running, Ready, Ready, Some(0), [1, 2], Held([]));
            Possible(s, LockOn(0)) && Stepped(s, LockOn(0), s')
  {
    var objects := [Object(0, Mutex(false), [])];
    assert objects[0 := Object(0, Mutex(true), [])] == Held([]);
  }

  lemma FirstYields()
    ensures var s, s' := Three(Running, Ready, Ready, Some(0), [1, 2], Held([])),
                         Three(Ready, Ready, Ready, None, [1, 2, 0], Held([]));
            Possible(s, YieldNow) && Stepped(s, YieldNow, s')
  {
    SetTask(Running, Ready, Ready, 0, Ready);
    assert [1, 2] + [0] == [1, 2, 0];
  }

  lemma SecondRuns()
    ensures var s, s' := Three(Ready, Ready, Ready, None, [1, 2, 0], Held([])),
                         Three(Ready, Running, Ready, Some(1), [2, 0], Held([]));
            Possible(s, Run) && Stepped(s, Run, s')
  {
    SetTask(Ready, Ready, Ready, 1, Running);
    assert [1, 2, 0][1..] == [2, 0];
  }

  lemma SecondWaits()
    ensures var s, s' := Three(Ready, Running, Ready, Some(1), [2, 0], Held([])),
                         Three(Ready, Blocked, Ready, None, [2, 0], Held([1]));
            Possible(s, LockOn(0)) && Stepped(s, LockOn(0), s')
  {
    SetTask(Ready, Running, Ready, 1, Blocked);
    var queue: seq<nat> := [];
    assert queue + [1] == [1] && Held([])[0 := Object(0, Mutex(true), [1])] == Held([1]);
  }

  lemma ThirdRuns()
    ensures var s, s' := Three(Ready, Blocked, Ready, None, [2, 0], Held([1])),
                         Three(Ready, Blocked, Running, Some(2), [0], Held([1]));
            Possible(s, Run) && Stepped(s, Run, s')
  {
    SetTask(Ready, Blocked, Ready, 2, Running);
    assert [2, 0][1..] == [0];
  }

  lemma ThirdUnlocks()
    ensures var s, s' := Three(Ready, Blocked, Running, Some(2), [0], Held([1])),
                         Three(Ready, Ready, Running, Some(2), [0, 1], Held([]));
            Possible(s, UnlockOn(0)) && Stepped(s, UnlockOn(0), s')
  {
    SetTask(Ready, Blocked, Running, 1, Ready);
    assert [1][1..] == [] && [0] + [1] == [0, 1];
    assert Held([1])[0 := Object(0, Mutex(true), [])] == Held([]);
  }

  // ---------------------------------------------------------------- the run

  lemma Extend(states: seq<State>, events: seq<Event>, e: Event, s': State)
    requires IsRun(states, events) && Possible(states[|events|], e) && Stepped(states[|events|], e, s')
    ensures IsRun(states + [s'], events + [e])
    ensures HistoryOf(states + [s'], events + [e], 0) == Record(HistoryOf(states, events, 0), states[|events|], e, 0)
  {
    hide Possible, Stepped, Record;
    var states', events' := states + [s'], events + [e];
    assert events'[..|events|] == events && states'[..|states|] == states;
    HistoryPrefix(states', |states|, events, 0);
  }

  /** Up to one process with three threads, the first running: the mutex has no history yet. */
  lemma ThreeThreads() returns (states: seq<State>, events: seq<Event>)
    ensures IsRun(states, events) && states[0] == NOTHING
    ensures states[|events|] == Three(Running, Ready, Ready, Some(0), [1, 2], [])
    ensures HistoryOf(states, events, 0) == History(0, 0, [], [], {}, true)
  {
    hide Possible, Stepped, One, Two, Three;
    states, events := [NOTHING], [];
    FirstProcess();
    Extend(states, events, NewProc, One(Ready, None, [0]));
    states, events := states + [One(Ready, None, [0])], events + [NewProc];
    FirstDispatch();
    Extend(states, events, Run, One(Running, Some(0), []));
    states, events := states + [One(Running, Some(0), [])], events + [Run];
    FirstThread();
    Extend(states, events, NewThread, Two());
    states, events := states + [Two()], events + [NewThread];
    SecondThread();
    Extend(states, events, NewThread, Three(Running, Ready, Ready, Some(0), [1, 2], []));
    states, events := states + [Three(Running, Ready, Ready, Some(0), [1, 2], [])], events + [NewThread];
  }

  /** The first thread makes the mutex, locks it and yields; the second wants it and waits. */
  /** The first thread makes a mutex, takes it and yields. */
  lemma MutexTaken() returns (states: seq<State>, events: seq<Event>)
    ensures IsRun(states, events) && states[0] == NOTHING
    ensures states[|events|] == Three(Ready, Ready, Ready, None, [1, 2, 0], Held([]))
    ensures HistoryOf(states, events, 0) == History(0, 0, [0], [0], {0}, true)
  {
    hide Possible, Stepped;
    states, events := ThreeThreads();
    MutexMade();
    var s := Three(Running, Ready, Ready, Some(0), [1, 2], [Object(0, Mutex(false), [])]);
    Extend(states, events, NewObj(Mutex(false)), s);
    states, events := states + [s], events + [NewObj(Mutex(false))];
    FirstLocks();
    s := Three(Running, Ready, Ready, Some(0), [1, 2], Held([]));
    Extend(states, events, LockOn(0), s);
    states, events := states + [s], events + [LockOn(0)];
    FirstYields();
    s := Three(Ready, Ready, Ready, None, [1, 2, 0], Held([]));
    Extend(states, events, YieldNow, s);
    states, events := states + [s], events + [YieldNow];
  }

  lemma OneHolder() returns (states: seq<State>, events: seq<Event>)
    ensures IsRun(states, events) && states[0] == NOTHING
    ensures states[|events|] == Three(Ready, Blocked, Ready, None, [2, 0], Held([1]))
    ensures HistoryOf(states, events, 0) == History(0, 0, [0, 1], [0], {0}, true)
  {
    hide Possible, Stepped;
    states, events := MutexTaken();
    SecondRuns();
    var s := Three(Ready, Running, Ready, Some(1), [2, 0], Held([]));
    Extend(states, events, Run, s);
    states, events := states + [s], events + [Run];
    SecondWaits();
    s := Three(Ready, Blocked, Ready, None, [2, 0], Held([1]));
    Extend(states, events, LockOn(0), s);
    states, events := states + [s], events + [LockOn(0)];
  }

  /** The third thread unlocks the mutex it never had: now the first and the second hold it. */
  lemma TwoHolders() returns (states: seq<State>, events: seq<Event>)
    ensures IsRun(states, events) && states[0] == NOTHING
    ensures HistoryOf(states, events, 0).holders == {0, 1} && states[|events|].objects == Held([])
  {
    states, events := OneHolder();
    hide Possible, Stepped;
    ThirdRuns();
    var s := Three(Ready, Blocked, Running, Some(2), [0], Held([1]));
    Extend(states, events, Run, s);
    states, events := states + [s], events + [Run];
    ThirdUnlocks();
    s := Three(Ready, Ready, Running, Some(2), [0, 1], Held([]));
    Extend(states, events, UnlockOn(0), s);
    states, events := states + [s], events + [UnlockOn(0)];
  }
}
