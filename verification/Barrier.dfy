/** The barrier of `barrier_condvar`, for any number of threads: a counter under a spin mutex, and a condition variable
  * that the last thread signals. A step is one memory access or one system call of one thread, in any order. */
module Barrier {
  import opened Phases

  // Where a thread stands in `block`: 0 before taking the mutex, 1 before reading the counter, 2 before storing it, 3
  // before comparing it, 4 before `signal_all`, 5 before `wait`, 6 queued on the condition variable, 7 woken and before
  // taking the mutex again, 8 before releasing it, 9 out.

  /** The mutex, the counter and the queue of the condition variable. */
  datatype Sys = Sys(threads: seq<Thread>, locked: bool, count: nat, queue: seq<nat>)

  function Move(s: Sys, i: nat, pc: nat): (s': Sys)
    requires i < |s.threads|
  {
    s.(threads := s.threads[i := s.threads[i].(pc := pc)])
  }

  /** Every queued thread is woken. */
  function WakeAll(ts: seq<Thread>, queue: seq<nat>): (ts': seq<Thread>)
    ensures |ts'| == |ts|
  {
    if queue == [] then ts
    else
      var rest := WakeAll(ts, queue[..|queue| - 1]);
      var j := queue[|queue| - 1];
      if j < |ts| then rest[j := rest[j].(pc := 7)] else rest
  }

  /** The thread is not queued, not out, and not spinning on a mutex that is held. */
  predicate CanStep(s: Sys, i: nat)
  {
    && i < |s.threads| && s.threads[i].pc != 6 && s.threads[i].pc < 9
    && (s.threads[i].pc == 0 || s.threads[i].pc == 7 ==> !s.locked)
  }

  /** A thread that finds the mutex held yields and tries again, which changes nothing. `wait` releases the mutex,
    * queues and blocks its caller in one step: the kernel does not switch threads in between. */
  function Step(s: Sys, i: nat): (s': Sys)
  {
    if !CanStep(s, i) then s
    else
      var t := s.threads[i];
      match t.pc
      case 0 => Move(s, i, 1).(locked := true)
      case 1 => s.(threads := s.threads[i := t.(pc := 2, reg := s.count)])
      case 2 => Move(s, i, 3).(count := t.reg + 1)
      case 3 => Move(s, i, if s.count == |s.threads| then 4 else 5)
      case 4 => s.(threads := WakeAll(s.threads[i := t.(pc := 8)], s.queue), queue := [])
      case 5 => Move(s, i, 6).(locked := false, queue := s.queue + [i])
      case 7 => Move(s, i, 8).(locked := true)
      case _ => Move(s, i, 9).(locked := false)
  }

  /** Holding the mutex. */
  function Holders(ts: seq<Thread>): (n: nat)
  {
    CountIn(ts, 1, 5) + CountIn(ts, 8, 8)
  }

  ghost predicate QueueOk(s: Sys)
  {
    && (forall a, b | 0 <= a < b < |s.queue| :: s.queue[a] != s.queue[b])
    && (forall k | 0 <= k < |s.queue| :: s.queue[k] < |s.threads| && s.threads[s.queue[k]].pc == 6)
    && (forall i: nat | i < |s.threads| && s.threads[i].pc == 6 :: i in s.queue)
  }

  ghost predicate CountOk(s: Sys)
  {
    s.count == CountIn(s.threads, 3, 9) && Holders(s.threads) == if s.locked then 1 else 0
  }

  /** What a thread's place says about the counter: it can only be past the wait once all have come. */
  ghost predicate ThreadOk(s: Sys, i: nat)
    requires i < |s.threads|
  {
    var t := s.threads[i];
    && t.pc <= 9
    && (t.pc == 2 ==> t.reg == s.count)
    && (t.pc == 5 ==> s.count < |s.threads|)
    && (t.pc == 4 ==> s.count == |s.threads|)
    && (7 <= t.pc ==> s.count == |s.threads| && s.queue == [])
  }

  /** Once all have come, someone is about to signal or has signalled. */
  ghost predicate Signalled(s: Sys)
  {
    s.count == |s.threads| > 0 ==> CountIn(s.threads, 3, 4) + CountIn(s.threads, 7, 9) > 0
  }

  ghost predicate Inv(s: Sys)
  {
    QueueOk(s) && CountOk(s) && Signalled(s) && forall i: nat | i < |s.threads| :: ThreadOk(s, i)
  }

  // ---------------------------------------------------------------- counting

  lemma {:induction false} CountAtMost(ts: seq<Thread>, lo: nat, hi: nat)
    ensures CountIn(ts, lo, hi) <= |ts|
  {
    if ts != [] {
      CountAtMost(ts[..|ts| - 1], lo, hi);
    }
  }

  lemma {:induction false} CountFull(ts: seq<Thread>, lo: nat, hi: nat, i: nat)
    requires CountIn(ts, lo, hi) == |ts| && i < |ts|
    ensures lo <= ts[i].pc <= hi
  {
    CountAtMost(ts[..|ts| - 1], lo, hi);
    if i < |ts| - 1 {
      CountFull(ts[..|ts| - 1], lo, hi, i);
    }
  }

  lemma {:induction false} CountBelow(ts: seq<Thread>, lo: nat, hi: nat, i: nat)
    requires i < |ts| && !(lo <= ts[i].pc <= hi)
    ensures CountIn(ts, lo, hi) < |ts|
  {
    CountAtMost(ts[..|ts| - 1], lo, hi);
    if i < |ts| - 1 {
      CountBelow(ts[..|ts| - 1], lo, hi, i);
    }
  }

  /** Two threads never hold the mutex at once. */
  lemma Exclusion(s: Sys, i: nat, j: nat)
    requires CountOk(s) && i < |s.threads| && j < |s.threads| && i != j
    requires 1 <= s.threads[i].pc <= 5 || s.threads[i].pc == 8
    ensures s.locked && !(1 <= s.threads[j].pc <= 5 || s.threads[j].pc == 8)
  {
    var ts := s.threads;
    CountOne(ts, i, 1, 5);
    CountOne(ts, i, 8, 8);
    CountOne(ts, j, 1, 5);
    CountOne(ts, j, 8, 8);
    if i < j {
      CountTwo(ts, i, j, 1, 5);
      CountTwo(ts, i, j, 8, 8);
    } else {
      CountTwo(ts, j, i, 1, 5);
      CountTwo(ts, j, i, 8, 8);
    }
  }

  /** The counts after thread `i` has moved to `t`. */
  lemma CountsMove(ts: seq<Thread>, i: nat, t: Thread)
    requires i < |ts|
    ensures Holders(ts[i := t])
         == Holders(ts) - At(ts[i], 1, 5) - At(ts[i], 8, 8) + At(t, 1, 5) + At(t, 8, 8)
    ensures CountIn(ts[i := t], 3, 9) == CountIn(ts, 3, 9) - At(ts[i], 3, 9) + At(t, 3, 9)
    ensures CountIn(ts[i := t], 3, 4) == CountIn(ts, 3, 4) - At(ts[i], 3, 4) + At(t, 3, 4)
    ensures CountIn(ts[i := t], 7, 9) == CountIn(ts, 7, 9) - At(ts[i], 7, 9) + At(t, 7, 9)
  {
    CountUpdate(ts, i, t, 1, 5);
    CountUpdate(ts, i, t, 8, 8);
    CountUpdate(ts, i, t, 3, 9);
    CountUpdate(ts, i, t, 3, 4);
    CountUpdate(ts, i, t, 7, 9);
  }

  // ---------------------------------------------------------------- steps keep the invariant

  /** Every step but the signal. */
  lemma StepQuiet(s: Sys, i: nat)
    requires Inv(s) && CanStep(s, i) && s.threads[i].pc != 4
    ensures Inv(Step(s, i))
  {
    hide CountIn, Holders;
    var s', ts := Step(s, i), s.threads;
    CountsMove(ts, i, s'.threads[i]);
    CountAtMost(ts, 3, 9);
    if ts[i].pc < 3 {
      CountBelow(ts, 3, 9, i);
    }
    assert ThreadOk(s, i);
    forall j: nat | j < |ts|
      ensures ThreadOk(s', j)
    {
      assert ThreadOk(s, j);
      if j != i && (1 <= ts[i].pc <= 5 || ts[i].pc == 8) {
        Exclusion(s, i, j);
      }
    }
    QueueQuiet(s, i);
  }

  lemma QueueQuiet(s: Sys, i: nat)
    requires Inv(s) && CanStep(s, i) && s.threads[i].pc != 4
    ensures QueueOk(Step(s, i))
  {
    hide CountIn, Holders;
    var s' := Step(s, i);
    assert forall j: nat | j < |s.threads| && j != i :: s'.threads[j] == s.threads[j];
    assert s.threads[i].pc != 6 && i !in s.queue;
  }

  /** Who was queued is woken, and nobody else moves. */
  lemma {:induction false} WakeAllAt(ts: seq<Thread>, queue: seq<nat>, j: nat)
    requires j < |ts|
    ensures WakeAll(ts, queue)[j] == if j in queue then ts[j].(pc := 7) else ts[j]
  {
    if queue != [] {
      WakeAllAt(ts, queue[..|queue| - 1], j);
      assert queue == queue[..|queue| - 1] + [queue[|queue| - 1]];
    }
  }

  /** Waking threads at 6 does not change who holds the mutex or who has come. */
  lemma {:induction false} WakeAllCounts(ts: seq<Thread>, queue: seq<nat>)
    requires forall a, b | 0 <= a < b < |queue| :: queue[a] != queue[b]
    requires forall k | 0 <= k < |queue| :: queue[k] < |ts| && ts[queue[k]].pc == 6
    ensures Holders(WakeAll(ts, queue)) == Holders(ts) && CountIn(WakeAll(ts, queue), 3, 9) == CountIn(ts, 3, 9)
    ensures CountIn(WakeAll(ts, queue), 7, 9) == CountIn(ts, 7, 9) + |queue|
  {
    hide CountIn, Holders;
    if queue != [] {
      var n := |queue| - 1;
      WakeAllCounts(ts, queue[..n]);
      WakeAllAt(ts, queue[..n], queue[n]);
      CountsMove(WakeAll(ts, queue[..n]), queue[n], WakeAll(ts, queue[..n])[queue[n]].(pc := 7));
    }
  }

  /** The last thread's signal empties the queue, and nobody queues after it. */
  lemma StepSignal(s: Sys, i: nat)
    requires Inv(s) && i < |s.threads| && s.threads[i].pc == 4
    ensures Inv(Step(s, i)) && Step(s, i).queue == []
  {
    hide CountIn, Holders;
    var s', ts := Step(s, i), s.threads;
    var ts1 := ts[i := ts[i].(pc := 8)];
    assert ThreadOk(s, i);
    CountsMove(ts, i, ts1[i]);
    WakeAllCounts(ts1, s.queue);
    forall j: nat | j < |ts|
      ensures ThreadOk(s', j) && s'.threads[j].pc != 6
    {
      WakeAllAt(ts1, s.queue, j);
      assert ThreadOk(s, j);
      if j != i {
        Exclusion(s, i, j);
        CountFull(ts, 3, 9, j);
      }
    }
  }

  lemma StepKeeps(s: Sys, i: nat)
    requires Inv(s)
    ensures Inv(Step(s, i))
  {
    hide Inv;
    if CanStep(s, i) {
      if s.threads[i].pc == 4 {
        StepSignal(s, i);
      } else {
        StepQuiet(s, i);
      }
    }
  }

  // ---------------------------------------------------------------- runs

  /** `n` threads about to call `block`. */
  function Start(n: nat): (s: Sys)
  {
    Sys(seq(n, _ => Thread(0, 0, 0)), false, 0, [])
  }

  function Run(s: Sys, schedule: seq<nat>): (s': Sys)
  {
    if schedule == [] then s else Step(Run(s, schedule[..|schedule| - 1]), schedule[|schedule| - 1])
  }

  lemma {:induction false} RunKeeps(n: nat, schedule: seq<nat>)
    ensures Inv(Run(Start(n), schedule)) && |Run(Start(n), schedule).threads| == n
  {
    if schedule == [] {
      var ts := Start(n).threads;
      CountNone(ts, 1, 5);
      CountNone(ts, 8, 8);
      CountNone(ts, 3, 9);
    } else {
      hide Inv;
      var s := Run(Start(n), schedule[..|schedule| - 1]);
      RunKeeps(n, schedule[..|schedule| - 1]);
      StepKeeps(s, schedule[|schedule| - 1]);
    }
  }

  /** No thread leaves the barrier before every thread has come to it, whatever the interleaving; and from the moment
    * one is past the wait, nobody is queued. */
  lemma NobodyLeavesEarly(n: nat, schedule: seq<nat>, i: nat, j: nat)
    requires var s := Run(Start(n), schedule); i < n && j < n && |s.threads| == n && s.threads[i].pc >= 7
    ensures var s := Run(Start(n), schedule);
            s.count == n && s.threads[j].pc >= 3 && s.threads[j].pc != 6 && s.queue == []
  {
    RunKeeps(n, schedule);
    var s := Run(Start(n), schedule);
    assert ThreadOk(s, i);
    CountFull(s.threads, 3, 9, j);
  }

  /** Nobody waits for ever: if no thread can go on, all are through. */
  lemma NeverStuck(n: nat, schedule: seq<nat>)
    requires forall i: nat | i < n :: !CanStep(Run(Start(n), schedule), i)
    ensures forall i: nat | i < n :: i < |Run(Start(n), schedule).threads| && Run(Start(n), schedule).threads[i].pc == 9
  {
    RunKeeps(n, schedule);
    StuckIsDone(Run(Start(n), schedule));
  }

  lemma StuckIsDone(s: Sys)
    requires Inv(s) && forall i: nat | i < |s.threads| :: !CanStep(s, i)
    ensures forall i: nat | i < |s.threads| :: s.threads[i].pc == 9
  {
    hide CountIn;
    var ts := s.threads;
    forall i: nat | i < |ts|
      ensures ts[i].pc == 6 || ts[i].pc == 9 || ts[i].pc == 0 || ts[i].pc == 7
    {
      assert ThreadOk(s, i) && !CanStep(s, i);
    }
    CountNone(ts, 1, 5);
    CountNone(ts, 8, 8);
    assert forall i: nat | i < |ts| :: ts[i].pc == 6 || ts[i].pc == 9 by {
      forall i: nat | i < |ts| ensures ts[i].pc == 6 || ts[i].pc == 9 { assert !CanStep(s, i); }
    }
    CountNone(ts, 3, 4);
    CountEvery(ts, 3, 9);
    forall i: nat | i < |ts|
      ensures ts[i].pc == 9
    {
      if exists j: nat :: j < |ts| && ts[j].pc == 9 {
        var j: nat :| j < |ts| && ts[j].pc == 9;
        assert ThreadOk(s, j);
      } else {
        CountNone(ts, 7, 9);
      }
    }
  }

  lemma {:induction false} CountEvery(ts: seq<Thread>, lo: nat, hi: nat)
    requires forall i | 0 <= i < |ts| :: lo <= ts[i].pc <= hi
    ensures CountIn(ts, lo, hi) == |ts|
  {
    if ts != [] {
      CountEvery(ts[..|ts| - 1], lo, hi);
    }
  }

  // ---------------------------------------------------------------- why one step matters

  /** As `Step`, but `wait` first releases the mutex (place 10) and only then queues its caller. */
  function SplitStep(s: Sys, i: nat): (s': Sys)
  {
    if i < |s.threads| && s.threads[i].pc == 5 then Move(s, i, 10).(locked := false)
    else if i < |s.threads| && s.threads[i].pc == 10 then Move(s, i, 6).(queue := s.queue + [i])
    else Step(s, i)
  }

  function SplitRun(s: Sys, schedule: seq<nat>): (s': Sys)
    decreases |schedule|
  {
    if schedule == [] then s else SplitStep(SplitRun(s, schedule[..|schedule| - 1]), schedule[|schedule| - 1])
  }

  lemma SplitMore(s: Sys, schedule: seq<nat>, i: nat)
    ensures SplitRun(s, schedule + [i]) == SplitStep(SplitRun(s, schedule), i)
  {
    assert (schedule + [i])[..|schedule|] == schedule;
  }

  /** The first thread counts itself and releases the mutex in its wait. */
  lemma SplitFirst() returns (schedule: seq<nat>)
    ensures SplitRun(Start(2), schedule) == Sys([Thread(10, 0, 0), Thread(0, 0, 0)], false, 1, [])
  {
    hide SplitRun, CountIn;
    var s := Start(2);
    assert SplitRun(s, []) == s by { SplitNothing(s); }
    SplitMore(s, [], 0);
    SplitMore(s, [] + [0], 0);
    SplitMore(s, [] + [0] + [0], 0);
    SplitMore(s, [] + [0] + [0] + [0], 0);
    SplitMore(s, [] + [0] + [0] + [0] + [0], 0);
    assert SplitStep(SplitStep(s, 0), 0) == Sys([Thread(2, 0, 0), Thread(0, 0, 0)], true, 0, []);
    assert SplitStep(Sys([Thread(2, 0, 0), Thread(0, 0, 0)], true, 0, []), 0)
           == Sys([Thread(3, 0, 0), Thread(0, 0, 0)], true, 1, []);
    schedule := [] + [0] + [0] + [0] + [0] + [0];
  }

  lemma SplitNothing(s: Sys)
    ensures SplitRun(s, []) == s
  {
  }

  /** The second thread comes, signals an empty queue and leaves; then the first is queued. */
  lemma SplitSecond(s0: Sys, before: seq<nat>) returns (schedule: seq<nat>)
    requires SplitRun(s0, before) == Sys([Thread(10, 0, 0), Thread(0, 0, 0)], false, 1, [])
    ensures SplitRun(s0, schedule) == Sys([Thread(6, 0, 0), Thread(9, 1, 0)], false, 2, [0])
  {
    hide SplitRun, CountIn;
    var s := Sys([Thread(10, 0, 0), Thread(0, 0, 0)], false, 1, []);
    SplitMore(s0, before, 1);
    SplitMore(s0, before + [1], 1);
    SplitMore(s0, before + [1] + [1], 1);
    assert SplitStep(SplitStep(s, 1), 1) == Sys([Thread(10, 0, 0), Thread(2, 1, 0)], true, 1, []);
    var s3 := Sys([Thread(10, 0, 0), Thread(3, 1, 0)], true, 2, []);
    assert SplitStep(Sys([Thread(10, 0, 0), Thread(2, 1, 0)], true, 1, []), 1) == s3;
    var half := before + [1] + [1] + [1];
    SplitMore(s0, half, 1);
    SplitMore(s0, half + [1], 1);
    SplitMore(s0, half + [1] + [1], 1);
    assert SplitStep(SplitStep(s3, 1), 1) == Sys([Thread(10, 0, 0), Thread(8, 1, 0)], true, 2, []);
    SplitMore(s0, half + [1] + [1] + [1], 0);
    schedule := half + [1] + [1] + [1] + [0];
  }

  /** Two threads, and a run after which one is out and the other waits for ever. */
  lemma SplitWaitLosesSignal()
    ensures exists schedule: seq<nat> ::
              var s := SplitRun(Start(2), schedule);
              |s.threads| == 2 && s.threads[0].pc == 6 && s.threads[1].pc == 9 && forall i: nat :: SplitStep(s, i) == s
  {
    var first := SplitFirst();
    var schedule := SplitSecond(Start(2), first);
    var s := SplitRun(Start(2), schedule);
    forall i: nat ensures SplitStep(s, i) == s { }
  }
}
