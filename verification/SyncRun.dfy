/** What semaphores and blocking mutexes guarantee over whole runs of the scheduler: grants follow the order of the
  * calls, a semaphore grants no more than it was given, and a mutex that only its holder unlocks has one holder. */
module SyncRun {
  import opened Sched
  import opened SchedRun

  /** What happened to object `q` so far: the count it started with, the `up` calls, the threads that called `down` or
    * `lock`, the threads let through, both in order, those of them that have not released it since, and whether every
    * release was made by one of those. */
  datatype History = History(initial: int, ups: nat, asked: seq<nat>, granted: seq<nat>, holders: set<nat>,
                             orderly: bool)

  function Front(o: Object): (ts: seq<nat>)
  {
    if o.queue == [] then [] else [o.queue[0]]
  }

  function Ask(h: History, t: nat, through: bool): (h': History)
  {
    h.(asked := h.asked + [t], granted := h.granted + (if through then [t] else []),
       holders := if through then h.holders + {t} else h.holders)
  }

  /** Thread `t` releases the object, which lets `next` through. */
  function Release(h: History, t: nat, next: seq<nat>): (h': History)
  {
    h.(granted := h.granted + next, holders := h.holders - {t} + (set x | x in next),
       orderly := h.orderly && t in h.holders)
  }

  function Record(h: History, s: State, e: Event, q: nat): (h': History)
    requires Possible(s, e)
  {
    match e
    case NewObj(Semaphore(count)) => if |s.objects| == q then h.(initial := count) else h
    case DownOn(r) => if r == q then Ask(h, s.current.value, s.objects[q].kind.count > 0) else h
    case UpOn(r) => if r == q then h.(ups := h.ups + 1, granted := h.granted + Front(s.objects[q])) else h
    case LockOn(r) => if r == q then Ask(h, s.current.value, !s.objects[q].kind.locked) else h
    case UnlockOn(r) => if r == q then Release(h, s.current.value, Front(s.objects[q])) else h
    case WaitFor(_, m) => if m == q then Release(h, s.current.value, Front(s.objects[q])) else h
    case _ => h
  }

  ghost function HistoryOf(states: seq<State>, events: seq<Event>, q: nat): (h: History)
    requires |states| >= |events|
  {
    if events == [] then History(0, 0, [], [], {}, true)
    else
      var n := |events| - 1;
      var h := HistoryOf(states, events[..n], q);
      if Possible(states[n], events[n]) then Record(h, states[n], events[n], q) else h
  }

  /** Everyone who asked was let through or waits, in the order they asked. */
  ghost predicate Fifo(o: Object, h: History)
  {
    h.asked == h.granted + o.queue
  }

  ghost predicate SemaphoreOk(o: Object, h: History)
  {
    o.kind.Semaphore? ==>
      && Fifo(o, h) && o.kind.count == h.initial + h.ups - |h.asked| && h.initial >= 0
      && |o.queue| == if o.kind.count < 0 then -o.kind.count else 0
  }

  ghost predicate MutexOk(o: Object, h: History)
  {
    o.kind.Mutex? ==>
      && Fifo(o, h) && (o.queue != [] ==> o.kind.locked)
      && (h.orderly ==> h.holders == if o.kind.locked && h.granted != [] then {h.granted[|h.granted| - 1]} else {})
      && (o.kind.locked ==> h.granted != [])
  }

  ghost predicate Fresh(h: History)
  {
    h.asked == [] && h.granted == [] && h.ups == 0 && h.holders == {} && h.orderly
  }

  ghost predicate ObjectOk(s: State, q: nat, h: History)
  {
    if q < |s.objects| then SemaphoreOk(s.objects[q], h) && MutexOk(s.objects[q], h) else Fresh(h)
  }

  function Tail(queue: seq<nat>): (r: seq<nat>)
  {
    if queue == [] then [] else queue[1..]
  }

  /** A semaphore after `down` by thread `t`, and after `up`. */
  function Downed(o: Object, t: nat): (o': Object)
    requires o.kind.Semaphore?
  {
    o.(kind := Semaphore(o.kind.count - 1), queue := if o.kind.count <= 0 then o.queue + [t] else o.queue)
  }

  function Upped(o: Object): (o': Object)
    requires o.kind.Semaphore?
  {
    o.(kind := Semaphore(o.kind.count + 1), queue := Tail(o.queue))
  }

  /** A mutex after `unlock`. */
  function Unlocked(o: Object): (o': Object)
  {
    if o.queue != [] then o.(queue := o.queue[1..]) else o.(kind := Mutex(false))
  }

  /** Object `q` after an event. */
  function After(s: State, e: Event, q: nat): (o: Object)
    requires Possible(s, e) && q < |s.objects|
  {
    var o := s.objects[q];
    match e
    case DownOn(r) => if r == q then Downed(o, s.current.value) else o
    case UpOn(r) => if r == q then Upped(o) else o
    case LockOn(r) =>
      if r != q then o else if o.kind.locked then o.(queue := o.queue + [s.current.value]) else o.(kind := Mutex(true))
    case UnlockOn(r) => if r == q then Unlocked(o) else o
    case SignalOn(r) => if r == q then o.(queue := Tail(o.queue)) else o
    case SignalAllOn(r) => if r == q then o.(queue := []) else o
    case WaitFor(r, m) => if r == q then o.(queue := o.queue + [s.current.value]) else if m == q then Unlocked(o) else o
    case _ => o
  }

  lemma ObjectAfter(s: State, e: Event, s': State, q: nat)
    requires Possible(s, e) && Stepped(s, e, s') && q < |s.objects|
    ensures |s.objects| <= |s'.objects| && s'.objects[q] == After(s, e, q)
  {
  }

  lemma NoNewObject(s: State, e: Event, s': State)
    requires Possible(s, e) && Stepped(s, e, s')
    ensures |s'.objects| == |s.objects| + if e.NewObj? then 1 else 0
    ensures e.NewObj? ==> s'.objects[|s.objects|] == Object(s.tasks[s.current.value].proc, e.kind, [])
  {
  }

  lemma SemaphoreStep(s: State, e: Event, q: nat, h: History)
    requires Possible(s, e) && q < |s.objects| && SemaphoreOk(s.objects[q], h)
    ensures SemaphoreOk(After(s, e, q), Record(h, s, e, q))
  {
    var o := s.objects[q];
    assert o.queue != [] ==> o.queue == [o.queue[0]] + Tail(o.queue);
  }

  lemma MutexReleased(o: Object, h: History, t: nat)
    requires o.kind == Mutex(true) && MutexOk(o, h)
    ensures MutexOk(Unlocked(o), Release(h, t, Front(o)))
  {
    if o.queue != [] {
      assert o.queue == [o.queue[0]] + o.queue[1..];
      assert h.granted + o.queue == h.granted + [o.queue[0]] + o.queue[1..];
    } else {
      assert h.granted + Front(o) == h.granted;
    }
  }

  lemma MutexStep(s: State, e: Event, q: nat, h: History)
    requires Possible(s, e) && q < |s.objects| && MutexOk(s.objects[q], h)
    ensures MutexOk(After(s, e, q), Record(h, s, e, q))
  {
    if (e.UnlockOn? && e.q == q) || (e.WaitFor? && e.m == q) {
      hide MutexOk, Unlocked, Release;
      MutexReleased(s.objects[q], h, s.current.value);
    }
  }

  /** What events do to object `q` agrees with its history. */
  lemma ObjectStep(s: State, e: Event, s': State, q: nat, h: History)
    requires Possible(s, e) && Stepped(s, e, s') && ObjectOk(s, q, h)
    ensures ObjectOk(s', q, Record(h, s, e, q))
  {
    hide Stepped, SemaphoreOk, MutexOk, After;
    NoNewObject(s, e, s');
    if q < |s.objects| {
      ObjectAfter(s, e, s', q);
      SemaphoreStep(s, e, q, h);
      MutexStep(s, e, q, h);
    } else {
      NewStep(s, e, q, h);
    }
  }

  /** An object that is not there yet has no history, and starts with none. */
  lemma NewStep(s: State, e: Event, q: nat, h: History)
    requires Possible(s, e) && q >= |s.objects| && Fresh(h)
    ensures Fresh(Record(h, s, e, q))
    ensures e.NewObj? && q == |s.objects| ==>
              var o := Object(s.tasks[s.current.value].proc, e.kind, []);
              SemaphoreOk(o, Record(h, s, e, q)) && MutexOk(o, Record(h, s, e, q))
  {
  }

  lemma {:induction false} HistoryPrefix(states: seq<State>, m: nat, events: seq<Event>, q: nat)
    requires |events| <= m <= |states|
    ensures HistoryOf(states[..m], events, q) == HistoryOf(states, events, q)
  {
    if events != [] {
      HistoryPrefix(states, m, events[..|events| - 1], q);
    }
  }

  /** The invariant of one object over any run. */
  lemma {:induction false} ObjectRun(states: seq<State>, events: seq<Event>, q: nat)
    requires IsRun(states, events) && states[0].objects == []
    ensures ObjectOk(states[|events|], q, HistoryOf(states, events, q))
  {
    hide Possible, Stepped, Record, SemaphoreOk, MutexOk;
    if events != [] {
      var n := |events| - 1;
      assert IsRun(states[..n + 1], events[..n]);
      ObjectRun(states[..n + 1], events[..n], q);
      HistoryPrefix(states, n + 1, events[..n], q);
      if Possible(states[n], events[n]) {
        ObjectStep(states[n], events[n], states[n + 1], q, HistoryOf(states, events[..n], q));
      }
    }
  }

  /** A semaphore lets threads through in the order of their calls, and exactly as many as it can: all of them, or as
    * many as the initial count and the `up` calls allow. */
  lemma SemaphoreGrants(states: seq<State>, events: seq<Event>, q: nat)
    requires IsRun(states, events) && states[0].objects == []
    requires q < |states[|events|].objects| && states[|events|].objects[q].kind.Semaphore?
    ensures var h := HistoryOf(states, events, q);
            && h.granted <= h.asked
            && |h.granted| == (if |h.asked| <= h.initial + h.ups then |h.asked| else h.initial + h.ups)
            && states[|events|].objects[q].queue == h.asked[|h.granted|..]
  {
    ObjectRun(states, events, q);
    var o, h := states[|events|].objects[q], HistoryOf(states, events, q);
    assert Fifo(o, h);
  }

  /** A mutex released only by its holders has at most one holder, the last thread let through, and is open exactly when
    * it has none. */
  lemma MutexHolder(states: seq<State>, events: seq<Event>, q: nat)
    requires IsRun(states, events) && states[0].objects == []
    requires q < |states[|events|].objects| && states[|events|].objects[q].kind.Mutex?
    ensures var o, h := states[|events|].objects[q], HistoryOf(states, events, q);
            && h.granted <= h.asked && o.queue == h.asked[|h.granted|..]
            && (h.orderly ==> |h.holders| <= 1 && (h.holders == {} <==> !o.kind.locked))
  {
    ObjectRun(states, events, q);
    assert Fifo(states[|events|].objects[q], HistoryOf(states, events, q));
  }

  /** One holder while locked, none while open. */
  ghost predicate Exclusive(o: Object, h: History)
  {
    |h.holders| <= 1 && (o.kind == Mutex(true) <==> h.holders != {})
  }

  /** `unlock` does not look at its caller: exclusion survives it exactly when the caller is the holder. */
  lemma UnlockExact(o: Object, h: History, holder: nat, t: nat)
    requires o.kind == Mutex(true) && h.holders == {holder} && holder !in o.queue
    ensures Exclusive(Unlocked(o), Release(h, t, Front(o))) <==> t == holder
  {
    var h' := Release(h, t, Front(o));
    if t != holder && o.queue != [] {
      assert h'.holders == {holder, o.queue[0]};
    } else if t == holder && o.queue != [] {
      assert h'.holders == {o.queue[0]};
    } else {
      assert h'.holders == {holder} - {t};
    }
  }
}
