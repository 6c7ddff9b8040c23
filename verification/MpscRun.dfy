/** Every run of the bounded buffer: nothing is overwritten before it is read, nothing is read before it is written, and
  * what comes out is what went in, in order. */
module MpscRun {
  import opened Sched
  import opened SyncRun
  import opened Mpsc
  import opened Phases

  lemma ConsumeMove(consume: Object, c: Thread, c': Thread, last: nat, given: nat, taken: nat)
    requires ConsumeVal(consume, c, last, given, taken) && c.pc != 1 && c'.pc != 1 && At(c, 1, 9) == At(c', 1, 9)
    ensures ConsumeVal(consume, c', last, given, taken)
  {
  }

  lemma ConsumeDown(consume: Object, c: Thread, c': Thread, last: nat, given: nat, taken: nat)
    requires ConsumeVal(consume, c, last, given, taken) && c.pc == 0 && c'.pc == Through(consume, 1)
    ensures ConsumeVal(Downed(consume, last), c', last, given, taken)
  {
  }

  lemma ConsumeGive(consume: Object, c: Thread, last: nat, given: nat, taken: nat)
    requires ConsumeVal(consume, c, last, given, taken)
    ensures ConsumeVal(Upped(consume), if c.pc == 1 then c.(pc := 2) else c, last, given + 1, taken)
  {
  }

  lemma ConsumeTake(consume: Object, c: Thread, c': Thread, last: nat, given: nat, taken: nat)
    requires ConsumeVal(consume, c, last, given, taken) && c.pc == 9 && c'.pc == 0
    ensures ConsumeVal(consume, c', last, given, taken + 1)
  {
  }

  lemma MutexFirst(mutex: Object, ts: seq<Thread>)
    requires MutexVal(mutex, ts) && mutex.queue != []
    ensures mutex.queue[0] < |ts| && ts[mutex.queue[0]].pc == 3
  {
  }

  lemma ProduceFirst(produce: Object, ps: seq<Thread>, given: nat, taken: nat)
    requires ProduceVal(produce, ps, given, taken) && produce.queue != []
    ensures produce.queue[0] < |ps| && ps[produce.queue[0]].pc == 1
  {
  }

  /** A thread's own step stays in bounds. */
  predicate CanStep(s: Sys, i: nat)
  {
    s.Shape() && Enabled(s, i) && (s.threads[i].pc == 5 ==> s.threads[i].reg < BUFFER_SIZE)
  }

  lemma SemProducerMove(s: Sys, i: nat)
    requires SemInv(s) && CanStep(s, i) && i < s.Last() && s.threads[i].pc <= 7
    ensures SemInv(ProducerStep(s, i))
  {
    hide MutexVal, ProduceVal, ConsumeVal, CountIn;
    var s', ts, ps := ProducerStep(s, i), s.threads, s.Producers();
    var t' := s'.threads[i];
    FrontUpdate(ts, i, t');
    CountUpdate(ps, i, t', 8, 9);
    if ts[i].pc == 0 {
      MutexMove(s.mutex, ts, i, t');
      ProduceDown(s.produce, ps, s.given, s.taken, i, t');
    } else {
      ProduceMove(s.produce, ps, s.given, s.taken, i, t');
      if ts[i].pc == 2 {
        MutexDown(s.mutex, ts, i, t');
      } else {
        MutexMove(s.mutex, ts, i, t');
      }
    }
  }

  lemma SemProducerUnlock(s: Sys, i: nat)
    requires SemInv(s) && CanStep(s, i) && i < s.Last() && s.threads[i].pc == 8
    ensures SemInv(ProducerStep(s, i))
  {
    hide MutexVal, ProduceVal, ConsumeVal, CountIn;
    var ts, ps, t' := s.threads, s.Producers(), s.threads[i].(pc := 9);
    FrontUpdate(ts, i, t');
    MutexUp(s.mutex, ts, i, t');
    ProduceMove(s.produce, ps, s.given, s.taken, i, t');
    CountUpdate(ps, i, t', 8, 9);
    if s.mutex.queue != [] {
      MutexFirst(s.mutex, ts);
    }
    FrontWake(ts[i := t'], s.mutex, 3);
    ProduceApart(s.produce, ps[i := t'], s.given, s.taken, s.mutex);
    CountApart(ps[i := t'], s.mutex, 3, 8, 9);
    if s.Consumer().pc == 3 {
      ConsumeMove(s.consume, s.Consumer(), ProducerStep(s, i).threads[s.Last()], s.Last(), s.given, s.taken);
    }
  }

  lemma ConsumeFirst(consume: Object, c: Thread, last: nat, given: nat, taken: nat)
    requires ConsumeVal(consume, c, last, given, taken)
    ensures consume.queue == if c.pc == 1 then [last] else []
  {
  }

  /** The threads after producer `i` has passed its permit on: itself, and the consumer if it waited. */
  lemma GiveThreads(s: Sys, i: nat)
    requires SemInv(s) && CanStep(s, i) && i < s.Last() && s.threads[i].pc == 9
    ensures var s', c := ProducerStep(s, i), s.Consumer();
            && s'.Shape() && s'.Producers() == s.Producers()[i := s.threads[i].(pc := 0, left := s.threads[i].left - 1)]
            && s'.Consumer() == if c.pc == 1 then c.(pc := 2) else c
  {
    hide MutexVal, ProduceVal, ConsumeVal, CountIn;
    ConsumeFirst(s.consume, s.Consumer(), s.Last(), s.given, s.taken);
  }

  lemma SemProducerGive(s: Sys, i: nat)
    requires SemInv(s) && CanStep(s, i) && i < s.Last() && s.threads[i].pc == 9
    ensures SemInv(ProducerStep(s, i))
  {
    hide MutexVal, ProduceVal, ConsumeVal, CountIn, Wake;
    var ts, ps, c := s.threads, s.Producers(), s.Consumer();
    var t' := ts[i].(pc := 0, left := ts[i].left - 1);
    ConsumeFirst(s.consume, c, s.Last(), s.given, s.taken);
    GiveThreads(s, i);
    FrontUpdate(ts, i, t');
    MutexMove(s.mutex, ts, i, t');
    MutexApart(s.mutex, ts[i := t'], s.consume);
    ProduceGive(s.produce, ps, s.given, s.taken, i, t');
    CountUpdate(ps, i, t', 8, 9);
    ConsumeGive(s.consume, c, s.Last(), s.given, s.taken);
  }

  lemma SemConsumerMove(s: Sys)
    requires SemInv(s) && CanStep(s, s.Last()) && s.Consumer().pc <= 7
    ensures SemInv(ConsumerStep(s))
  {
    hide MutexVal, ProduceVal, ConsumeVal, CountIn;
    var s', ts, i := ConsumerStep(s), s.threads, s.Last();
    var t' := s'.threads[i];
    FrontUpdate(ts, i, t');
    if ts[i].pc == 0 {
      MutexMove(s.mutex, ts, i, t');
      ConsumeDown(s.consume, ts[i], t', i, s.given, s.taken);
    } else {
      ConsumeMove(s.consume, ts[i], t', i, s.given, s.taken);
      if ts[i].pc == 2 {
        MutexDown(s.mutex, ts, i, t');
      } else {
        MutexMove(s.mutex, ts, i, t');
      }
    }
  }

  lemma SemConsumerUnlock(s: Sys)
    requires SemInv(s) && CanStep(s, s.Last()) && s.Consumer().pc == 8
    ensures SemInv(ConsumerStep(s))
  {
    hide MutexVal, ProduceVal, ConsumeVal, CountIn;
    var ts, ps, i := s.threads, s.Producers(), s.Last();
    var t' := ts[i].(pc := 9);
    FrontUpdate(ts, i, t');
    MutexUp(s.mutex, ts, i, t');
    if s.mutex.queue != [] {
      MutexFirst(s.mutex, ts);
    }
    FrontWake(ts[i := t'], s.mutex, 3);
    ProduceApart(s.produce, ps, s.given, s.taken, s.mutex);
    CountApart(ps, s.mutex, 3, 8, 9);
    ConsumeMove(s.consume, ts[i], t', i, s.given, s.taken);
  }

  lemma SemConsumerTake(s: Sys)
    requires SemInv(s) && CanStep(s, s.Last()) && s.Consumer().pc == 9
    ensures SemInv(ConsumerStep(s))
  {
    hide MutexVal, ProduceVal, ConsumeVal, CountIn;
    var s', ts, ps, i := ConsumerStep(s), s.threads, s.Producers(), s.Last();
    var t' := ts[i].(pc := 0, left := ts[i].left - 1);
    FrontUpdate(ts, i, t');
    MutexMove(s.mutex, ts, i, t');
    if s.produce.queue != [] {
      ProduceFirst(s.produce, ps, s.given, s.taken);
    }
    MutexApart(s.mutex, ts[i := t'], s.produce);
    FrontWake(ts[i := t'], s.produce, 1);
    ProduceTake(s.produce, ps, s.given, s.taken);
    CountApart(ps, s.produce, 1, 8, 9);
    ConsumeTake(s.consume, ts[i], t', i, s.given, s.taken);
  }

  lemma SemProducer(s: Sys, i: nat)
    requires SemInv(s) && CanStep(s, i) && i < s.Last()
    ensures SemInv(ProducerStep(s, i))
  {
    hide SemInv;
    if s.threads[i].pc <= 7 {
      SemProducerMove(s, i);
    } else if s.threads[i].pc == 8 {
      SemProducerUnlock(s, i);
    } else {
      SemProducerGive(s, i);
    }
  }

  lemma SemConsumer(s: Sys)
    requires SemInv(s) && CanStep(s, s.Last())
    ensures SemInv(ConsumerStep(s))
  {
    hide SemInv;
    if s.Consumer().pc <= 7 {
      SemConsumerMove(s);
    } else if s.Consumer().pc == 8 {
      SemConsumerUnlock(s);
    } else {
      SemConsumerTake(s);
    }
  }

  // ---------------------------------------------------------------- the ring

  /** Whoever read its index and holds the mutex has the right one. */
  ghost predicate Registers(s: Sys)
    requires s.Shape()
  {
    && s.tail == |s.written| % BUFFER_SIZE && s.front == s.got % BUFFER_SIZE
    && (forall i: nat | i < s.Last() && (s.threads[i].pc == 5 || s.threads[i].pc == 7) :: s.threads[i].reg == s.tail)
    && (s.Consumer().pc == 5 || s.Consumer().pc == 7 ==> s.Consumer().reg == s.front)
  }

  /** The slots between front and tail hold the items not read yet, and a producer about to move the tail has its item
    * there. */
  ghost predicate Ring(s: Sys)
    requires s.Shape() && s.tail < BUFFER_SIZE
  {
    && (forall k: nat | s.got <= k < |s.written| :: s.buffer[k % BUFFER_SIZE] == s.written[k])
    && (forall i: nat | i < s.Last() && 6 <= s.threads[i].pc <= 7 :: s.buffer[s.tail] == s.ItemOf(i))
  }

  /** What came out is what went in, as far as it was read. */
  ghost predicate Delivered(s: Sys)
    requires s.Shape()
  {
    var n := s.got + At(s.Consumer(), 6, 7);
    n <= |s.written| && s.output == s.written[..n]
  }

  ghost predicate Inv(s: Sys)
  {
    SemInv(s) && Registers(s) && Ring(s) && Delivered(s)
  }

  lemma SlotsDiffer(a: nat, b: nat)
    requires a < b < a + BUFFER_SIZE
    ensures a % BUFFER_SIZE != b % BUFFER_SIZE
  {
  }

  /** A producer's store hits no slot that is still to be read. */
  lemma NoOverwrite(s: Sys, i: nat, k: nat)
    requires Inv(s) && i < s.Last() && s.threads[i].pc == 5 && s.got <= k < |s.written|
    ensures s.threads[i].reg < BUFFER_SIZE && s.threads[i].reg != k % BUFFER_SIZE
  {
    Room(s, i);
    SlotsDiffer(k, |s.written|);
  }

  /** The consumer's load finds the next item. */
  lemma ReadsNext(s: Sys)
    requires Inv(s) && s.Consumer().pc == 5
    ensures s.got < |s.written| && s.Consumer().reg < BUFFER_SIZE && s.buffer[s.Consumer().reg] == s.written[s.got]
  {
    Available(s);
  }

  lemma NextSlot(n: nat)
    ensures (n % BUFFER_SIZE + 1) % BUFFER_SIZE == (n + 1) % BUFFER_SIZE
  {
  }

  ghost predicate DataInv(s: Sys)
    requires s.Shape()
  {
    Registers(s) && Ring(s) && Delivered(s)
  }

  /** Steps that touch no shared variable and bring nobody next to the buffer. */
  lemma DataSame(s: Sys, s': Sys)
    requires s.Shape() && s'.Shape() && DataInv(s) && |s'.threads| == |s.threads| && s'.rounds == s.rounds
    requires s'.tail == s.tail && s'.front == s.front && s'.buffer == s.buffer && s'.written == s.written
    requires s'.got == s.got && s'.output == s.output && At(s'.Consumer(), 6, 7) == At(s.Consumer(), 6, 7)
    requires forall j: nat | j < |s.threads| && 5 <= s'.threads[j].pc <= 7 :: s'.threads[j] == s.threads[j]
    ensures DataInv(s')
  {
  }

  /** While a thread is next to the buffer, no other is. */
  lemma Alone(s: Sys, i: nat)
    requires SemInv(s) && i < |s.threads| && 4 <= s.threads[i].pc <= 8
    ensures forall j: nat | j < |s.threads| && j != i :: !(4 <= s.threads[j].pc <= 8)
  {
    forall j: nat | j < |s.threads| && j != i
      ensures !(4 <= s.threads[j].pc <= 8)
    {
      if 4 <= s.threads[j].pc <= 8 {
        Exclusion(s, i, j);
      }
    }
  }

  lemma ProducerStore(s: Sys, i: nat)
    requires Inv(s) && CanStep(s, i) && i < s.Last() && s.threads[i].pc == 5
    ensures ProducerStep(s, i).Shape() && DataInv(ProducerStep(s, i))
  {
    Alone(s, i);
    var s' := ProducerStep(s, i);
    hide SemInv;
    forall k: nat | s.got <= k < |s.written|
      ensures s'.buffer[k % BUFFER_SIZE] == s.written[k]
    {
      NoOverwrite(s, i, k);
    }
  }

  lemma ProducerAdvance(s: Sys, i: nat)
    requires Inv(s) && CanStep(s, i) && i < s.Last() && s.threads[i].pc == 7
    ensures ProducerStep(s, i).Shape() && DataInv(ProducerStep(s, i))
  {
    hide SemInv;
    Alone(s, i);
    NextSlot(|s.written|);
    var s', n := ProducerStep(s, i), |s.written|;
    forall k: nat | s.got <= k < |s'.written|
      ensures s'.buffer[k % BUFFER_SIZE] == s'.written[k]
    {
      assert k < n ==> s'.written[k] == s.written[k];
    }
    var m := s.got + At(s.Consumer(), 6, 7);
    assert s'.written[..m] == s.written[..m];
  }

  lemma ProducerReads(s: Sys, i: nat)
    requires Inv(s) && CanStep(s, i) && i < s.Last() && (s.threads[i].pc == 4 || s.threads[i].pc == 6)
    ensures ProducerStep(s, i).Shape() && DataInv(ProducerStep(s, i))
  {
    hide SemInv;
    var s' := ProducerStep(s, i);
    assert s'.Shape() && s'.Consumer() == s.Consumer();
  }

  lemma ConsumerReads(s: Sys)
    requires Inv(s) && CanStep(s, s.Last()) && (s.Consumer().pc == 4 || s.Consumer().pc == 6)
    ensures ConsumerStep(s).Shape() && DataInv(ConsumerStep(s))
  {
    hide SemInv;
    var s' := ConsumerStep(s);
    assert s'.Shape() && forall j: nat | j < s.Last() :: s'.threads[j] == s.threads[j];
  }

  lemma DataProducer(s: Sys, i: nat)
    requires Inv(s) && CanStep(s, i) && i < s.Last() && SemInv(ProducerStep(s, i))
    ensures DataInv(ProducerStep(s, i))
  {
    hide SemInv, DataInv;
    var t := s.threads[i];
    if t.pc == 5 {
      ProducerStore(s, i);
    } else if t.pc == 7 {
      ProducerAdvance(s, i);
    } else if t.pc == 4 || t.pc == 6 {
      ProducerReads(s, i);
    } else {
      ProducerOutside(s, i);
    }
  }

  lemma HasShape(s: Sys)
    requires SemInv(s)
    ensures s.Shape()
  {
  }

  /** Who is first in each queue stands where it waits. */
  lemma Firsts(s: Sys)
    requires SemInv(s)
    ensures s.mutex.queue != [] ==> s.mutex.queue[0] < |s.threads| && s.threads[s.mutex.queue[0]].pc == 3
    ensures s.produce.queue != [] ==> s.produce.queue[0] < s.Last() && s.threads[s.produce.queue[0]].pc == 1
    ensures s.consume.queue != [] ==> s.consume.queue[0] == s.Last() && s.Consumer().pc == 1
  {
    hide MutexVal, ProduceVal;
    if s.mutex.queue != [] { MutexFirst(s.mutex, s.threads); }
    if s.produce.queue != [] { ProduceFirst(s.produce, s.Producers(), s.given, s.taken); }
  }

  /** A wake-up only moves a thread out of its waiting place. */
  ghost predicate Woken(t: Thread, t': Thread)
  {
    t' == t || ((t.pc == 1 || t.pc == 3) && t' == t.(pc := t.pc + 1))
  }

  /** Waking after thread `i` has moved on. */
  lemma WakeOthers(ts: seq<Thread>, i: nat, t: Thread, o: Object, w: nat)
    requires i < |ts| && (w == 1 || w == 3) && ts[i].pc != w
    requires o.queue != [] ==> o.queue[0] < |ts| && ts[o.queue[0]].pc == w
    ensures Wake(ts[i := t], o, w)[i] == t && forall j | 0 <= j < |ts| && j != i ::
            Woken(ts[j], Wake(ts[i := t], o, w)[j])
  {
  }

  /** Away from the buffer. */
  lemma ProducerOutside(s: Sys, i: nat)
    requires Inv(s) && CanStep(s, i) && i < s.Last() && SemInv(ProducerStep(s, i))
    requires s.threads[i].pc < 4 || s.threads[i].pc > 7
    ensures DataInv(ProducerStep(s, i))
  {
    hide SemInv, Registers, Ring, Delivered, Wake;
    Firsts(s);
    var ts, t := s.threads, s.threads[i];
    if t.pc == 8 {
      WakeOthers(ts, i, t.(pc := 9), s.mutex, 3);
    } else if t.pc == 9 {
      WakeOthers(ts, i, t.(pc := 0, left := t.left - 1), s.consume, 1);
    }
    HasShape(ProducerStep(s, i));
    DataSame(s, ProducerStep(s, i));
  }

  lemma ConsumerOutside(s: Sys)
    requires Inv(s) && CanStep(s, s.Last()) && SemInv(ConsumerStep(s))
    requires s.Consumer().pc < 4 || s.Consumer().pc > 7
    ensures DataInv(ConsumerStep(s))
  {
    hide SemInv, Registers, Ring, Delivered, Wake;
    Firsts(s);
    var ts, i, t := s.threads, s.Last(), s.Consumer();
    if t.pc == 8 {
      WakeOthers(ts, i, t.(pc := 9), s.mutex, 3);
    } else if t.pc == 9 {
      WakeOthers(ts, i, t.(pc := 0, left := t.left - 1), s.produce, 1);
    }
    HasShape(ConsumerStep(s));
    DataSame(s, ConsumerStep(s));
  }

  lemma ConsumerLoad(s: Sys)
    requires Inv(s) && CanStep(s, s.Last()) && s.Consumer().pc == 5
    ensures ConsumerStep(s).Shape() && DataInv(ConsumerStep(s))
  {
    ReadsNext(s);
    hide SemInv;
    assert s.written[..s.got] + [s.written[s.got]] == s.written[..s.got + 1];
  }

  lemma ConsumerAdvance(s: Sys)
    requires Inv(s) && CanStep(s, s.Last()) && s.Consumer().pc == 7
    ensures ConsumerStep(s).Shape() && DataInv(ConsumerStep(s))
  {
    NextSlot(s.got);
    hide SemInv;
  }

  lemma DataConsumer(s: Sys)
    requires Inv(s) && CanStep(s, s.Last()) && SemInv(ConsumerStep(s))
    ensures DataInv(ConsumerStep(s))
  {
    hide SemInv, DataInv;
    var t := s.Consumer();
    if t.pc == 5 {
      ConsumerLoad(s);
    } else if t.pc == 7 {
      ConsumerAdvance(s);
    } else if t.pc == 4 || t.pc == 6 {
      ConsumerReads(s);
    } else {
      ConsumerOutside(s);
    }
  }

  // ---------------------------------------------------------------- each item once

  /** The items of producer `i`, in order. */
  function Mine(items: seq<Item>, i: nat): (r: seq<Item>)
  {
    if items == [] then []
    else
      var n := |items| - 1;
      Mine(items[..n], i) + if items[n].0 == i then [items[n]] else []
  }

  /** The items of producer `i` in its first `n` rounds. */
  function FirstRounds(i: nat, n: nat): (r: seq<Item>)
    ensures |r| == n
  {
    seq(n, k => (i, k))
  }

  function SumMine(items: seq<Item>, p: nat): (n: nat)
  {
    if p == 0 then 0 else SumMine(items, p - 1) + |Mine(items, p - 1)|
  }

  lemma MineMore(items: seq<Item>, x: Item, i: nat)
    ensures Mine(items + [x], i) == Mine(items, i) + if x.0 == i then [x] else []
  {
    assert (items + [x])[..|items|] == items;
  }

  lemma {:induction false} SumMore(items: seq<Item>, x: Item, p: nat)
    ensures SumMine(items + [x], p) == SumMine(items, p) + if x.0 < p then 1 else 0
  {
    if p > 0 {
      SumMore(items, x, p - 1);
      MineMore(items, x, p - 1);
    }
  }

  lemma {:induction false} SumAll(items: seq<Item>, p: nat)
    requires forall k | 0 <= k < |items| :: items[k].0 < p
    ensures SumMine(items, p) == |items|
  {
    if items == [] {
      SumNone(p);
    } else {
      var n := |items| - 1;
      SumAll(items[..n], p);
      SumMore(items[..n], items[n], p);
      assert items[..n] + [items[n]] == items;
    }
  }

  lemma {:induction false} SumNone(p: nat)
    ensures SumMine([], p) == 0
  {
    if p > 0 {
      SumNone(p - 1);
    }
  }

  lemma {:induction false} SumEqual(items: seq<Item>, p: nat, n: nat)
    requires forall i: nat | i < p :: |Mine(items, i)| == n
    ensures SumMine(items, p) == p * n
  {
    if p > 0 {
      SumEqual(items, p - 1, n);
    }
  }

  /** Each producer put in exactly the items of the rounds it has done; the consumer took `total` less what it has
    * left. */
  ghost predicate Items(s: Sys, total: nat)
    requires s.Shape()
  {
    && (forall k | 0 <= k < |s.written| :: s.written[k].0 < s.Last())
    && (forall i: nat | i < s.Last() ::
          Mine(s.written, i) == FirstRounds(i, s.rounds - s.threads[i].left + At(s.threads[i], 8, 9)))
    && s.taken + s.Consumer().left == total
  }

  lemma MoreRounds(i: nat, n: nat)
    ensures FirstRounds(i, n + 1) == FirstRounds(i, n) + [(i, n)]
  {
  }

  lemma ItemsProducer(s: Sys, i: nat, total: nat)
    requires SemInv(s) && Items(s, total) && CanStep(s, i) && i < s.Last() && SemInv(ProducerStep(s, i))
    ensures Items(ProducerStep(s, i), total)
  {
    hide SemInv, Mine, Wake, FirstRounds;
    Firsts(s);
    var s', t := ProducerStep(s, i), s.threads[i];
    if t.pc == 8 {
      WakeOthers(s.threads, i, t.(pc := 9), s.mutex, 3);
    } else if t.pc == 9 {
      WakeOthers(s.threads, i, t.(pc := 0, left := t.left - 1), s.consume, 1);
    } else if t.pc == 7 {
      forall j: nat | j < s.Last()
        ensures Mine(s'.written, j) == FirstRounds(j, s'.rounds - s'.threads[j].left + At(s'.threads[j], 8, 9))
      {
        MineMore(s.written, s.ItemOf(i), j);
        MoreRounds(j, s.rounds - s.threads[j].left);
      }
    }
  }

  lemma ItemsConsumer(s: Sys, total: nat)
    requires SemInv(s) && Items(s, total) && CanStep(s, s.Last()) && SemInv(ConsumerStep(s))
    ensures Items(ConsumerStep(s), total)
  {
    hide SemInv, Mine, Wake, FirstRounds;
    Firsts(s);
    var i, t := s.Last(), s.Consumer();
    if t.pc == 8 {
      WakeOthers(s.threads, i, t.(pc := 9), s.mutex, 3);
    } else if t.pc == 9 {
      WakeOthers(s.threads, i, t.(pc := 0, left := t.left - 1), s.produce, 1);
    }
  }

  // ---------------------------------------------------------------- runs

  /** `p` producers with `rounds` rounds each, and a consumer for all of it; `junk` is what the ring holds at first. */
  function Start(p: nat, rounds: nat, junk: Item): (s: Sys)
  {
    Sys(seq(p, _ => Thread(0, 0, rounds)) + [Thread(0, 0, p * rounds)], rounds,
        Object(0, Semaphore(1), []), Object(0, Semaphore(BUFFER_SIZE), []), Object(0, Semaphore(0), []),
        seq(BUFFER_SIZE, _ => junk), 0, 0, [], [], 0, 0, 0)
  }

  /** Thread `i` takes a step if it can. */
  function Step(s: Sys, i: nat): (s': Sys)
  {
    if !CanStep(s, i) then s else if i < s.Last() then ProducerStep(s, i) else ConsumerStep(s)
  }

  function Run(s: Sys, schedule: seq<nat>): (s': Sys)
  {
    if schedule == [] then s else Step(Run(s, schedule[..|schedule| - 1]), schedule[|schedule| - 1])
  }

  ghost predicate Safe(s: Sys, total: nat)
  {
    Inv(s) && Items(s, total)
  }

  lemma StartSafe(p: nat, rounds: nat, junk: Item)
    ensures Safe(Start(p, rounds, junk), p * rounds)
  {
    var s := Start(p, rounds, junk);
    CountNone(s.threads, 3, 3);
    CountNone(s.threads, 3, 8);
    CountNone(s.Producers(), 1, 1);
    CountNone(s.Producers(), 1, 9);
    CountNone(s.Producers(), 8, 9);
    assert forall i :: Mine([], i) == FirstRounds(i, 0);
  }

  lemma StepSafe(s: Sys, i: nat, total: nat)
    requires Safe(s, total)
    ensures Safe(Step(s, i), total)
  {
    hide SemInv, Items, Registers, Ring, Delivered;
    if CanStep(s, i) {
      if i < s.Last() {
        SemProducer(s, i);
        DataProducer(s, i);
        ItemsProducer(s, i, total);
      } else {
        SemConsumer(s);
        DataConsumer(s);
        ItemsConsumer(s, total);
      }
    }
  }

  /** Whatever the interleaving, the invariant holds: the output is always a prefix of what was put in, at most eight
    * items wait, and nobody is beside the one thread next to the ring. */
  lemma {:induction false} RunSafe(p: nat, rounds: nat, junk: Item, schedule: seq<nat>)
    ensures var s := Run(Start(p, rounds, junk), schedule);
            && Safe(s, p * rounds) && s.output <= s.written && s.got <= |s.written| <= s.got + BUFFER_SIZE
  {
    hide SemInv, Items, Registers, Ring;
    if schedule == [] {
      StartSafe(p, rounds, junk);
    } else {
      RunSafe(p, rounds, junk, schedule[..|schedule| - 1]);
      StepSafe(Run(Start(p, rounds, junk), schedule[..|schedule| - 1]), schedule[|schedule| - 1], p * rounds);
    }
    var s := Run(Start(p, rounds, junk), schedule);
    Bounded(s);
    Available(s);
  }

  /** When all threads are done, every item of every producer came out exactly once, each producer's in its order. */
  lemma AllDelivered(p: nat, rounds: nat, junk: Item, schedule: seq<nat>)
    requires var s := Run(Start(p, rounds, junk), schedule);
             forall i | 0 <= i < |s.threads| :: s.threads[i].pc == 0 && s.threads[i].left == 0
    ensures var s := Run(Start(p, rounds, junk), schedule);
            && |s.threads| == p + 1 && s.output == s.written && |s.output| == p * rounds
            && forall i: nat | i < p :: Mine(s.output, i) == FirstRounds(i, rounds)
  {
    RunSafe(p, rounds, junk, schedule);
    SameThreads(p, rounds, junk, schedule);
    var s := Run(Start(p, rounds, junk), schedule);
    CountNone(s.Producers(), 8, 9);
    SumAll(s.written, p);
    SumEqual(s.written, p, rounds);
  }

  lemma SameThreadsStep(s: Sys, i: nat)
    ensures |Step(s, i).threads| == |s.threads| && Step(s, i).rounds == s.rounds
  {
    hide Wake;
  }

  lemma {:induction false} SameThreads(p: nat, rounds: nat, junk: Item, schedule: seq<nat>)
    ensures var s := Run(Start(p, rounds, junk), schedule); |s.threads| == p + 1 && s.rounds == rounds
  {
    if schedule != [] {
      SameThreads(p, rounds, junk, schedule[..|schedule| - 1]);
      SameThreadsStep(Run(Start(p, rounds, junk), schedule[..|schedule| - 1]), schedule[|schedule| - 1]);
    }
  }

  // ---------------------------------------------------------------- no deadlock

  lemma IndexInRing(s: Sys, i: nat)
    requires Inv(s) && i < |s.threads|
    ensures s.threads[i].pc == 5 ==> s.threads[i].reg < BUFFER_SIZE
  {
    hide SemInv;
  }

  /** Where no thread can step, nobody is at the mutex. */
  lemma StuckMutex(s: Sys)
    requires Inv(s) && forall i: nat | i < |s.threads| :: !CanStep(s, i)
    ensures forall i: nat | i < |s.threads| :: s.threads[i].pc == 1 || (s.threads[i].pc == 0 && s.threads[i].left == 0)
  {
    forall i: nat | i < |s.threads|
      ensures s.threads[i].pc == 1 || s.threads[i].pc == 3 || (s.threads[i].pc == 0 && s.threads[i].left == 0)
    {
      assert !CanStep(s, i);
      IndexInRing(s, i);
    }
    CountNone(s.threads, 4, 8);
    CountJoin(s.threads, 3, 3, 8);
    forall i: nat | i < |s.threads|
      ensures s.threads[i].pc != 3
    {
      CountOne(s.threads, i, 3, 3);
    }
  }

  lemma {:induction false} SumAtMost(items: seq<Item>, p: nat, n: nat)
    requires forall i: nat | i < p :: |Mine(items, i)| <= n
    ensures SumMine(items, p) <= p * n
  {
    if p > 0 {
      SumAtMost(items, p - 1, n);
    }
  }

  /** The threads never block each other for good: if none can step, all are done. */
  lemma NeverStuck(p: nat, rounds: nat, junk: Item, schedule: seq<nat>)
    requires var s := Run(Start(p, rounds, junk), schedule); forall i: nat | i < |s.threads| :: !CanStep(s, i)
    ensures var s := Run(Start(p, rounds, junk), schedule);
            forall i: nat | i < |s.threads| :: s.threads[i].pc == 0 && s.threads[i].left == 0
  {
    RunSafe(p, rounds, junk, schedule);
    SameThreads(p, rounds, junk, schedule);
    StuckIsDone(Run(Start(p, rounds, junk), schedule), p, rounds);
  }

  lemma StuckIsDone(s: Sys, p: nat, rounds: nat)
    requires Safe(s, p * rounds) && |s.threads| == p + 1 && s.rounds == rounds
    requires forall i: nat | i < |s.threads| :: !CanStep(s, i)
    ensures forall i: nat | i < |s.threads| :: s.threads[i].pc == 0 && s.threads[i].left == 0
  {
    StuckMutex(s);
    var ps := s.Producers();
    CountNone(ps, 8, 9);
    CountNone(ps, 2, 9);
    CountJoin(ps, 1, 1, 9);
    SumAll(s.written, p);
    SumAtMost(s.written, p, rounds);
    forall i: nat | i < p
      ensures s.threads[i].pc == 0
    {
      CountOne(ps, i, 1, 1);
    }
    SumEqual(s.written, p, rounds);
  }
}
