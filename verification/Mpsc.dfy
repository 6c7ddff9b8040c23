/** The bounded buffer of `mpsc_sem`: any number of producers and one consumer around a ring of eight slots, kept
  * apart by three kernel semaphores. A step is one memory access or one system call of one thread, and any thread
  * that is not waiting may take the next step, so every interleaving the scheduler can produce is covered. */
module Mpsc {
  import opened Sched
  import opened SyncRun
  import opened Phases

  const BUFFER_SIZE: nat := 8

  // Where a thread stands in its loop: 0 before `down` on its permit and 1 waiting in it, 2 before `down` on the mutex
  // and 3 waiting in it, 4 before reading its index, 5 before the access to the buffer, 6 before reading its index
  // again, 7 before storing it, 8 before `up` on the mutex, 9 before `up` on the other side's permit.

  /** What a producer puts in: its number, and which of its rounds it is. */
  type Item = (nat, nat)

  /** The last thread is the consumer. Beside the program's own variables: the items put in so far, how many were taken
    * out, and how often each permit was passed on. */
  datatype Sys = Sys(threads: seq<Thread>, rounds: nat, mutex: Object, produce: Object, consume: Object,
                     buffer: seq<Item>, front: nat, tail: nat, output: seq<Item>,
                     written: seq<Item>, got: nat, given: nat, taken: nat) {

    predicate Shape()
    {
      && |threads| >= 1 && |buffer| == BUFFER_SIZE && (forall i | 0 <= i < |threads| :: threads[i].pc <= 9)
      && (forall i | 0 <= i < |threads| :: threads[i].pc != 0 ==> threads[i].left > 0)
      && (forall i | 0 <= i < |threads| - 1 :: threads[i].left <= rounds)
      && mutex.kind.Semaphore? && produce.kind.Semaphore? && consume.kind.Semaphore?
    }

    function Last(): (c: nat)
      requires Shape()
    {
      |threads| - 1
    }

    function Producers(): (ts: seq<Thread>)
      requires Shape()
    {
      threads[..|threads| - 1]
    }

    function Consumer(): (t: Thread)
      requires Shape()
    {
      threads[|threads| - 1]
    }

    /** What producer `i` puts in this round. */
    function ItemOf(i: nat): (x: Item)
      requires Shape() && i < Last() && threads[i].pc != 0
    {
      (i, rounds - threads[i].left)
    }
  }

  function Set(s: Sys, i: nat, t: Thread): (s': Sys)
    requires i < |s.threads|
  {
    s.(threads := s.threads[i := t])
  }

  /** Where `down` leaves its caller, `w` being the waiting place. */
  function Through(o: Object, w: nat): (pc: nat)
    requires o.kind.Semaphore?
  {
    if o.kind.count <= 0 then w else w + 1
  }

  /** `up` on `o` lets the first thread waiting at `w` through. */
  function Wake(ts: seq<Thread>, o: Object, w: nat): (ts': seq<Thread>)
    ensures |ts'| == |ts|
  {
    if o.queue != [] && o.queue[0] < |ts| then ts[o.queue[0] := ts[o.queue[0]].(pc := w + 1)] else ts
  }

  /** Thread `i` is not waiting and has something left to do. */
  predicate Enabled(s: Sys, i: nat)
  {
    i < |s.threads| && s.threads[i].pc != 1 && s.threads[i].pc != 3 && (s.threads[i].pc == 0 ==> s.threads[i].left > 0)
  }

  function ProducerStep(s: Sys, i: nat): (s': Sys)
    requires s.Shape() && i < s.Last() && Enabled(s, i) && (s.threads[i].pc == 5 ==> s.threads[i].reg < BUFFER_SIZE)
  {
    var t := s.threads[i];
    match t.pc
    case 0 => Set(s, i, t.(pc := Through(s.produce, 1))).(produce := Downed(s.produce, i))
    case 2 => Set(s, i, t.(pc := Through(s.mutex, 3))).(mutex := Downed(s.mutex, i))
    case 4 => Set(s, i, t.(pc := 5, reg := s.tail))
    case 5 => Set(s, i, t.(pc := 6)).(buffer := s.buffer[t.reg := s.ItemOf(i)])
    case 6 => Set(s, i, t.(pc := 7, reg := s.tail))
    case 7 => Set(s, i, t.(pc := 8)).(tail := (t.reg + 1) % BUFFER_SIZE, written := s.written + [s.ItemOf(i)])
    case 8 => s.(threads := Wake(s.threads[i := t.(pc := 9)], s.mutex, 3), mutex := Upped(s.mutex))
    case _ => s.(threads := Wake(s.threads[i := t.(pc := 0, left := t.left - 1)], s.consume, 1),
                 consume := Upped(s.consume), given := s.given + 1)
  }

  function ConsumerStep(s: Sys): (s': Sys)
    requires s.Shape() && Enabled(s, s.Last()) && (s.Consumer().pc == 5 ==> s.Consumer().reg < BUFFER_SIZE)
  {
    var i, t := s.Last(), s.Consumer();
    match t.pc
    case 0 => Set(s, i, t.(pc := Through(s.consume, 1))).(consume := Downed(s.consume, i))
    case 2 => Set(s, i, t.(pc := Through(s.mutex, 3))).(mutex := Downed(s.mutex, i))
    case 4 => Set(s, i, t.(pc := 5, reg := s.front))
    case 5 => Set(s, i, t.(pc := 6)).(output := s.output + [s.buffer[t.reg]])
    case 6 => Set(s, i, t.(pc := 7, reg := s.front))
    case 7 => Set(s, i, t.(pc := 8)).(front := (t.reg + 1) % BUFFER_SIZE, got := s.got + 1)
    case 8 => s.(threads := Wake(s.threads[i := t.(pc := 9)], s.mutex, 3), mutex := Upped(s.mutex))
    case _ => s.(threads := Wake(s.threads[i := t.(pc := 0, left := t.left - 1)], s.produce, 1),
                 produce := Upped(s.produce), taken := s.taken + 1)
  }

  // ---------------------------------------------------------------- the invariant

  /** Exactly the threads at `w` wait in `o`, each once, as many as the count is below zero. */
  ghost predicate Waiting(o: Object, ts: seq<Thread>, w: nat)
  {
    && o.kind.Semaphore?
    && (forall i, j | 0 <= i < j < |o.queue| :: o.queue[i] != o.queue[j])
    && (forall k | 0 <= k < |o.queue| :: o.queue[k] < |ts| && ts[o.queue[k]].pc == w)
    && |o.queue| == CountIn(ts, w, w)
    && |o.queue| == if o.kind.count < 0 then -o.kind.count else 0
  }

  ghost predicate MutexVal(mutex: Object, ts: seq<Thread>)
  {
    Waiting(mutex, ts, 3) && mutex.kind.count == 1 - CountIn(ts, 3, 8)
  }

  ghost predicate ProduceVal(produce: Object, ps: seq<Thread>, given: nat, taken: nat)
  {
    Waiting(produce, ps, 1) && produce.kind.count == BUFFER_SIZE - CountIn(ps, 1, 9) - given + taken
  }

  ghost predicate ConsumeVal(consume: Object, c: Thread, last: nat, given: nat, taken: nat)
  {
    && consume.kind.Semaphore? && consume.kind.count == given - taken - At(c, 1, 9)
    && consume.queue == (if c.pc == 1 then [last] else [])
    && |consume.queue| == if consume.kind.count < 0 then -consume.kind.count else 0
  }

  ghost predicate Progress(s: Sys)
    requires s.Shape()
  {
    |s.written| == s.given + CountIn(s.Producers(), 8, 9) && s.got == s.taken + At(s.Consumer(), 8, 9)
  }

  ghost predicate SemInv(s: Sys)
  {
    && s.Shape() && MutexVal(s.mutex, s.threads) && ProduceVal(s.produce, s.Producers(), s.given, s.taken)
    && ConsumeVal(s.consume, s.Consumer(), s.Last(), s.given, s.taken) && Progress(s)
  }

  // ---------------------------------------------------------------- consequences

  /** At most one thread is between its two mutex calls. */
  lemma Exclusion(s: Sys, i: nat, j: nat)
    requires SemInv(s) && i < |s.threads| && j < |s.threads|
    requires 4 <= s.threads[i].pc <= 8 && 4 <= s.threads[j].pc <= 8
    ensures i == j
  {
    CountJoin(s.threads, 3, 3, 8);
    if i < j {
      CountTwo(s.threads, i, j, 4, 8);
    } else if j < i {
      CountTwo(s.threads, j, i, 4, 8);
    }
  }

  /** A producer that has its permit, until it has passed it on, finds room. */
  lemma Room(s: Sys, i: nat)
    requires SemInv(s) && i < s.Last() && 2 <= s.threads[i].pc <= 7
    ensures |s.written| < s.got + BUFFER_SIZE
  {
    var ps := s.Producers();
    CountJoin(ps, 1, 1, 9);
    CountJoin(ps, 2, 7, 9);
    CountOne(ps, i, 2, 7);
  }

  /** The ring never holds more than it has slots for. */
  lemma Bounded(s: Sys)
    requires SemInv(s)
    ensures |s.written| <= s.got + BUFFER_SIZE
  {
    var ps := s.Producers();
    CountJoin(ps, 1, 1, 9);
    CountJoin(ps, 2, 7, 9);
  }

  /** The consumer, once it has its permit, finds an item; and it never takes out more than was put in. */
  lemma Available(s: Sys)
    requires SemInv(s)
    ensures s.got <= |s.written| && (2 <= s.Consumer().pc <= 7 ==> s.got < |s.written|)
  {
  }

  // ---------------------------------------------------------------- semaphores and waiting threads

  lemma WaitingDown(o: Object, ts: seq<Thread>, w: nat, i: nat, t: Thread)
    requires Waiting(o, ts, w) && i < |ts| && ts[i].pc != w && t.pc == Through(o, w)
    ensures Waiting(Downed(o, i), ts[i := t], w)
  {
    CountUpdate(ts, i, t, w, w);
  }

  lemma WaitingOther(o: Object, ts: seq<Thread>, w: nat, i: nat, t: Thread)
    requires Waiting(o, ts, w) && i < |ts| && ts[i].pc != w && t.pc != w
    ensures Waiting(o, ts[i := t], w)
  {
    CountUpdate(ts, i, t, w, w);
  }

  lemma WaitingUp(o: Object, ts: seq<Thread>, w: nat)
    requires Waiting(o, ts, w)
    ensures Waiting(Upped(o), Wake(ts, o, w), w)
  {
    CountWake(ts, o, w, w, w);
  }

  /** Waking moves one thread from `w` to `w + 1`, if one waits. */
  lemma CountWake(ts: seq<Thread>, o: Object, w: nat, lo: nat, hi: nat)
    requires Waiting(o, ts, w)
    ensures CountIn(Wake(ts, o, w), lo, hi)
         == if o.queue == [] then CountIn(ts, lo, hi)
            else CountIn(ts, lo, hi) - (if lo <= w <= hi then 1 else 0) + (if lo <= w + 1 <= hi then 1 else 0)
  {
    if o.queue != [] {
      CountUpdate(ts, o.queue[0], ts[o.queue[0]].(pc := w + 1), lo, hi);
    }
  }

  // ---------------------------------------------------------------- the three semaphores

  lemma MutexMove(mutex: Object, ts: seq<Thread>, i: nat, t: Thread)
    requires MutexVal(mutex, ts) && i < |ts| && ts[i].pc != 3 && t.pc != 3 && At(ts[i], 3, 8) == At(t, 3, 8)
    ensures MutexVal(mutex, ts[i := t])
  {
    WaitingOther(mutex, ts, 3, i, t);
    CountUpdate(ts, i, t, 3, 8);
  }

  lemma MutexDown(mutex: Object, ts: seq<Thread>, i: nat, t: Thread)
    requires MutexVal(mutex, ts) && i < |ts| && ts[i].pc == 2 && t.pc == Through(mutex, 3)
    ensures MutexVal(Downed(mutex, i), ts[i := t])
  {
    WaitingDown(mutex, ts, 3, i, t);
    CountUpdate(ts, i, t, 3, 8);
  }

  lemma MutexUp(mutex: Object, ts: seq<Thread>, i: nat, t: Thread)
    requires MutexVal(mutex, ts) && i < |ts| && ts[i].pc == 8 && t.pc == 9
    ensures MutexVal(Upped(mutex), Wake(ts[i := t], mutex, 3))
  {
    WaitingOther(mutex, ts, 3, i, t);
    CountUpdate(ts, i, t, 3, 8);
    CountWake(ts[i := t], mutex, 3, 3, 8);
    WaitingUp(mutex, ts[i := t], 3);
  }

  lemma ProduceMove(produce: Object, ps: seq<Thread>, given: nat, taken: nat, i: nat, t: Thread)
    requires ProduceVal(produce, ps, given, taken) && i < |ps| && ps[i].pc != 1 && t.pc != 1
    requires At(ps[i], 1, 9) == At(t, 1, 9)
    ensures ProduceVal(produce, ps[i := t], given, taken)
  {
    WaitingOther(produce, ps, 1, i, t);
    CountUpdate(ps, i, t, 1, 9);
  }

  lemma ProduceDown(produce: Object, ps: seq<Thread>, given: nat, taken: nat, i: nat, t: Thread)
    requires ProduceVal(produce, ps, given, taken) && i < |ps| && ps[i].pc == 0 && t.pc == Through(produce, 1)
    ensures ProduceVal(Downed(produce, i), ps[i := t], given, taken)
  {
    WaitingDown(produce, ps, 1, i, t);
    CountUpdate(ps, i, t, 1, 9);
  }

  /** A producer passes its permit on to the consumer. */
  lemma ProduceGive(produce: Object, ps: seq<Thread>, given: nat, taken: nat, i: nat, t: Thread)
    requires ProduceVal(produce, ps, given, taken) && i < |ps| && ps[i].pc == 9 && t.pc == 0
    ensures ProduceVal(produce, ps[i := t], given + 1, taken)
  {
    WaitingOther(produce, ps, 1, i, t);
    CountUpdate(ps, i, t, 1, 9);
  }

  /** The consumer passes it back. */
  lemma ProduceTake(produce: Object, ps: seq<Thread>, given: nat, taken: nat)
    requires ProduceVal(produce, ps, given, taken)
    ensures ProduceVal(Upped(produce), Wake(ps, produce, 1), given, taken + 1)
  {
    WaitingUp(produce, ps, 1);
    CountWake(ps, produce, 1, 1, 9);
  }

  /** Waking a thread at the mutex does not concern the permits. */
  lemma ProduceApart(produce: Object, ps: seq<Thread>, given: nat, taken: nat, mutex: Object)
    requires ProduceVal(produce, ps, given, taken)
    requires mutex.queue != [] && mutex.queue[0] < |ps| ==> ps[mutex.queue[0]].pc == 3
    ensures ProduceVal(produce, Wake(ps, mutex, 3), given, taken)
  {
    if mutex.queue != [] && mutex.queue[0] < |ps| {
      ProduceMove(produce, ps, given, taken, mutex.queue[0], ps[mutex.queue[0]].(pc := 4));
    }
  }

  lemma MutexApart(mutex: Object, ts: seq<Thread>, permit: Object)
    requires MutexVal(mutex, ts) && (permit.queue != [] && permit.queue[0] < |ts| ==> ts[permit.queue[0]].pc == 1)
    ensures MutexVal(mutex, Wake(ts, permit, 1))
  {
    if permit.queue != [] && permit.queue[0] < |ts| {
      MutexMove(mutex, ts, permit.queue[0], ts[permit.queue[0]].(pc := 2));
    }
  }

  // ---------------------------------------------------------------- all but the last thread

  lemma FrontUpdate(ts: seq<Thread>, i: nat, t: Thread)
    requires i < |ts|
    ensures ts[i := t][..|ts| - 1] == if i < |ts| - 1 then ts[..|ts| - 1][i := t] else ts[..|ts| - 1]
  {
  }

  lemma FrontWake(ts: seq<Thread>, o: Object, w: nat)
    requires ts != []
    ensures Wake(ts, o, w)[..|ts| - 1] == Wake(ts[..|ts| - 1], o, w)
    ensures Wake(ts, o, w)[|ts| - 1]
         == if o.queue != [] && o.queue[0] == |ts| - 1 then ts[|ts| - 1].(pc := w + 1) else ts[|ts| - 1]
  {
  }

  lemma CountApart(ps: seq<Thread>, o: Object, w: nat, lo: nat, hi: nat)
    requires (o.queue != [] && o.queue[0] < |ps| ==> ps[o.queue[0]].pc == w) && w + 1 < lo
    ensures CountIn(Wake(ps, o, w), lo, hi) == CountIn(ps, lo, hi)
  {
    if o.queue != [] && o.queue[0] < |ps| {
      CountUpdate(ps, o.queue[0], ps[o.queue[0]].(pc := w + 1), lo, hi);
    }
  }
}
