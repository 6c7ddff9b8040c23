/** Pipes: the ring buffer, the read and write loops that give up the processor when it is empty or full, and every
  * interleaving of such calls. */
module Pipe {
  import opened Bytes

  const RING_BUFFER_SIZE: nat := 32

  datatype Status = Full | Empty | Normal

  function Slot(head: nat, i: nat): (k: nat)
    ensures k < RING_BUFFER_SIZE
  {
    (head + i) % RING_BUFFER_SIZE
  }

  /** The `n` bytes of the ring from `head` on. */
  ghost function RingFrom(a: seq<byte>, head: nat, n: nat): (s: seq<byte>)
    requires |a| == RING_BUFFER_SIZE
    ensures |s| == n && forall i | 0 <= i < n :: s[i] == a[Slot(head, i)]
  {
    seq(n, i requires 0 <= i < n => a[Slot(head, i)])
  }

  class PipeRingBuffer {
    const arr: array<byte>
    var head: nat
    var tail: nat
    var status: Status

    constructor ()
      ensures Valid() && Contents() == [] && fresh(arr)
    {
      arr := new byte[RING_BUFFER_SIZE](_ => 0);
      head, tail, status := 0, 0, Empty;
    }

    predicate Valid()
      reads this
    {
      && arr.Length == RING_BUFFER_SIZE && head < RING_BUFFER_SIZE && tail < RING_BUFFER_SIZE
      && (status == Normal <==> head != tail)
    }

    function AvailableRead(): (n: nat)
      requires Valid()
      reads this
      ensures n <= RING_BUFFER_SIZE && Slot(head, n) == tail
      ensures (n == 0 <==> status == Empty) && (n == RING_BUFFER_SIZE <==> status == Full)
    {
      if status == Empty then 0 else if tail > head then tail - head else tail + RING_BUFFER_SIZE - head
    }

    function AvailableWrite(): (n: nat)
      requires Valid()
      reads this
      ensures n + AvailableRead() == RING_BUFFER_SIZE
    {
      if status == Full then 0 else RING_BUFFER_SIZE - AvailableRead()
    }

    /** The bytes in the ring, oldest first. */
    ghost function Contents(): (s: seq<byte>)
      requires Valid()
      reads this, arr
      ensures |s| == AvailableRead()
    {
      RingFrom(arr[..], head, AvailableRead())
    }

    method WriteByte(b: byte)
      requires Valid() && status != Full
      modifies this, arr
      ensures Valid() && Contents() == old(Contents()) + [b]
    {
      ghost var n := AvailableRead();
      status := Normal;
      arr[tail] := b;
      tail := (tail + 1) % RING_BUFFER_SIZE;
      if tail == head {
        status := Full;
      }
      assert AvailableRead() == n + 1;
      RingPut(old(arr[..]), head, n, b);
      assert arr[..] == old(arr[..])[Slot(head, n) := b];
    }

    method ReadByte() returns (b: byte)
      requires Valid() && status != Empty
      modifies this
      ensures Valid() && old(Contents()) == [b] + Contents()
    {
      ghost var n, h := AvailableRead(), head;
      status := Normal;
      b := arr[head];
      head := (head + 1) % RING_BUFFER_SIZE;
      if head == tail {
        status := Empty;
      }
      assert AvailableRead() == n - 1;
      RingTake(arr[..], h, n);
    }
  }

  lemma RingPut(a: seq<byte>, head: nat, n: nat, b: byte)
    requires |a| == RING_BUFFER_SIZE && n < RING_BUFFER_SIZE
    ensures RingFrom(a[Slot(head, n) := b], head, n + 1) == RingFrom(a, head, n) + [b]
  {
    forall i | 0 <= i < n ensures Slot(head, i) != Slot(head, n) { SlotsDiffer(head, i, n); }
  }

  lemma RingTake(a: seq<byte>, head: nat, n: nat)
    requires |a| == RING_BUFFER_SIZE && n > 0 && head < RING_BUFFER_SIZE
    ensures RingFrom(a, head, n) == [a[head]] + RingFrom(a, (head + 1) % RING_BUFFER_SIZE, n - 1)
  {
    var rest := RingFrom(a, (head + 1) % RING_BUFFER_SIZE, n - 1);
    forall i | 0 <= i < n - 1 ensures rest[i] == RingFrom(a, head, n)[i + 1] { Shift(head, i); }
  }

  lemma Shift(head: nat, i: nat)
    ensures ((head + 1) % RING_BUFFER_SIZE + i) % RING_BUFFER_SIZE == (head + i + 1) % RING_BUFFER_SIZE
  {
  }

  lemma SlotsDiffer(head: nat, i: nat, n: nat)
    requires i < n < RING_BUFFER_SIZE
    ensures Slot(head, i) != Slot(head, n)
  {
  }

  // ---------------------------------------------------------------- calls

  /** A `read` for `want` bytes, with what it has so far, or a `write`, with how much of it is in the pipe. */
  datatype Call =
    | Reader(want: nat, got: seq<byte>, done: bool)
    | Writer(data: seq<byte>, put: nat, done: bool)

  function Done(c: Call): (c': Call)
  {
    match c
    case Reader(want, got, _) => Reader(want, got, true)
    case Writer(data, put, _) => Writer(data, put, true)
  }

  /** What a `read` has after it ran on a ring holding `was`: as much as there is and it wants. It returns when it
    * has all it wants of a ring that was not empty, or when the ring is empty and the pipe closed. */
  ghost predicate ReadRan(c: Call, was: seq<byte>, closed: bool, c': Call, now: seq<byte>)
    requires c.Reader? && |c.got| <= c.want
  {
    var m := Min(|was|, c.want - |c.got|);
    && now == was[m..]
    && c' == Reader(c.want, c.got + was[..m], (was != [] && |c.got| + m == c.want) || (now == [] && closed))
  }

  /** What a `write` has put in after it ran: as much as there is room for and it has left. */
  ghost predicate WriteRan(c: Call, was: seq<byte>, c': Call, now: seq<byte>)
    requires c.Writer? && c.put <= |c.data| && |was| <= RING_BUFFER_SIZE
  {
    var room, left := RING_BUFFER_SIZE - |was|, |c.data| - c.put;
    var m := Min(room, left);
    now == was + c.data[c.put..c.put + m] && c' == Writer(c.data, c.put + m, room > 0 && m == left)
  }

  /** A byte that went in or came out, and the call it was for. */
  datatype Mark = Mark(call: nat, value: byte)

  function Values(ms: seq<Mark>): (s: seq<byte>)
    ensures |s| == |ms| && forall i | 0 <= i < |s| :: s[i] == ms[i].value
  {
    seq(|ms|, i requires 0 <= i < |ms| => ms[i].value)
  }

  /** The bytes of one call, in order. */
  function Of(ms: seq<Mark>, call: nat): (s: seq<byte>)
  {
    if ms == [] then []
    else
      var n := |ms| - 1;
      Of(ms[..n], call) + if ms[n].call == call then [ms[n].value] else []
  }

  lemma OfMore(ms: seq<Mark>, m: Mark, call: nat)
    ensures Of(ms + [m], call) == Of(ms, call) + if m.call == call then [m.value] else []
  {
    assert (ms + [m])[..|ms|] == ms;
  }

  lemma {:induction false} OfNone(ms: seq<Mark>, call: nat)
    requires forall i | 0 <= i < |ms| :: ms[i].call != call
    ensures Of(ms, call) == []
  {
    if ms != [] {
      OfNone(ms[..|ms| - 1], call);
    }
  }

  /** What a call has is what came out for it, and what it has put in is what went in for it. */
  ghost predicate CallOk(c: Call, i: nat, accepted: seq<Mark>, delivered: seq<Mark>)
  {
    match c
    case Reader(want, got, _) => got == Of(delivered, i) && |got| <= want
    case Writer(data, put, done) => put <= |data| && data[..put] == Of(accepted, i) && (done ==> put == |data|)
  }

  ghost predicate CallsOk(calls: seq<Call>, accepted: seq<Mark>, delivered: seq<Mark>)
  {
    && (forall i: nat | i < |calls| :: CallOk(calls[i], i, accepted, delivered))
    && (forall k | 0 <= k < |accepted| :: accepted[k].call < |calls|)
    && (forall k | 0 <= k < |delivered| :: delivered[k].call < |calls|)
  }

  /** No write end is open, and no `write` still holds one. */
  predicate Closed(calls: seq<Call>, writers: nat)
  {
    writers == 0 && forall i | 0 <= i < |calls| && calls[i].Writer? :: calls[i].done
  }

  /** A `read` that returned less than it was asked for. */
  predicate Short(c: Call)
  {
    c.Reader? && c.done && |c.got| < c.want
  }

  ghost predicate Conserved(delivered: seq<Mark>, contents: seq<byte>, accepted: seq<Mark>)
  {
    Values(delivered) + contents == Values(accepted)
  }

  ghost predicate ShortsOk(calls: seq<Call>, writers: nat, status: Status)
  {
    forall i | 0 <= i < |calls| && Short(calls[i]) :: Closed(calls, writers) && status == Empty
  }

  lemma CallGot(calls: seq<Call>, accepted: seq<Mark>, delivered: seq<Mark>, i: nat, b: byte)
    requires CallsOk(calls, accepted, delivered) && i < |calls| && calls[i].Reader? && |calls[i].got| < calls[i].want
    ensures CallsOk(calls[i := calls[i].(got := calls[i].got + [b])], accepted, delivered + [Mark(i, b)])
  {
    var calls' := calls[i := calls[i].(got := calls[i].got + [b])];
    forall j: nat | j < |calls|
      ensures CallOk(calls'[j], j, accepted, delivered + [Mark(i, b)])
    {
      assert CallOk(calls[j], j, accepted, delivered);
      OfMore(delivered, Mark(i, b), j);
    }
  }

  lemma CallPut(calls: seq<Call>, accepted: seq<Mark>, delivered: seq<Mark>, i: nat)
    requires CallsOk(calls, accepted, delivered) && i < |calls| && calls[i].Writer? && !calls[i].done
    requires calls[i].put < |calls[i].data|
    ensures CallsOk(calls[i := calls[i].(put := calls[i].put + 1)], accepted + [Mark(i, calls[i].data[calls[i].put])],
            delivered)
  {
    var c := calls[i];
    var calls', b := calls[i := c.(put := c.put + 1)], c.data[c.put];
    assert c.data[..c.put + 1] == c.data[..c.put] + [b];
    forall j: nat | j < |calls|
      ensures CallOk(calls'[j], j, accepted + [Mark(i, b)], delivered)
    {
      assert CallOk(calls[j], j, accepted, delivered);
      OfMore(accepted, Mark(i, b), j);
    }
  }

  lemma ValuesMore(ms: seq<Mark>, m: Mark)
    ensures Values(ms + [m]) == Values(ms) + [m.value]
  {
  }

  class Pipe {
    const ring: PipeRingBuffer
    var writers: nat
    var calls: seq<Call>
    ghost var accepted: seq<Mark>
    ghost var delivered: seq<Mark>

    /** `make_pipe`: one write end. */
    constructor ()
      ensures Valid() && Shows() == View([], 1, []) && fresh(ring) && fresh(ring.arr)
    {
      ring := new PipeRingBuffer();
      writers, calls, accepted, delivered := 1, [], [], [];
      new;
      assert Values([]) + ring.Contents() == Values([]);
    }

    /** What came out, followed by what is in the ring, is what went in, in order; and a short read means that the
      * pipe is closed and everything came out. */
    ghost predicate Valid()
      reads this, ring, ring.arr
    {
      && ring.Valid() && Conserved(delivered, ring.Contents(), accepted)
      && CallsOk(calls, accepted, delivered) && ShortsOk(calls, writers, ring.status)
    }

    ghost function Shows(): (v: View)
      requires ring.Valid()
      reads this, ring, ring.arr
    {
      View(calls, writers, ring.Contents())
    }

    /** One byte from the ring to `read` number `i`. */
    method TakeByte(i: nat)
      requires Valid() && i < |calls| && calls[i].Reader? && !calls[i].done && |calls[i].got| < calls[i].want
      requires ring.status != Empty
      modifies this`calls, this`delivered, ring
      ensures Valid() && old(ring.Contents()) != [] && ring.Contents() == old(ring.Contents())[1..]
      ensures calls == old(calls)[i := old(calls[i]).(got := old(calls[i].got) + [old(ring.Contents())[0]])]
    {
      hide CallsOk, RingFrom, Values;
      assert forall j | 0 <= j < |calls| :: !Short(calls[j]);
      var b := ring.ReadByte();
      CallGot(calls, accepted, delivered, i, b);
      ValuesMore(delivered, Mark(i, b));
      assert Values(delivered) + old(ring.Contents()) == Values(delivered + [Mark(i, b)]) + ring.Contents();
      calls := calls[i := calls[i].(got := calls[i].got + [b])];
      delivered := delivered + [Mark(i, b)];
    }

    /** One byte of `write` number `i` into the ring. */
    method PutByte(i: nat)
      requires Valid() && i < |calls| && calls[i].Writer? && !calls[i].done && calls[i].put < |calls[i].data|
      requires ring.status != Full
      modifies this`calls, this`accepted, ring, ring.arr
      ensures Valid() && ring.Contents() == old(ring.Contents()) + [old(calls[i]).data[old(calls[i]).put]]
      ensures calls == old(calls)[i := old(calls[i]).(put := old(calls[i].put) + 1)]
    {
      hide CallsOk, RingFrom, Values;
      var b := calls[i].data[calls[i].put];
      assert !Closed(calls, writers);
      assert forall j | 0 <= j < |calls| :: !Short(calls[j]);
      CallPut(calls, accepted, delivered, i);
      ValuesMore(accepted, Mark(i, b));
      ring.WriteByte(b);
      assert Values(delivered) + ring.Contents() == Values(delivered) + old(ring.Contents()) + [b];
      calls := calls[i := calls[i].(put := calls[i].put + 1)];
      accepted := accepted + [Mark(i, b)];
    }

    /** `read` number `i` from where it is until it returns or gives up the processor. */
    method ReadStep(i: nat)
      requires Valid() && i < |calls| && calls[i].Reader? && !calls[i].done
      modifies this`calls, this`delivered, ring
      ensures Valid() && |calls| == |old(calls)| && (forall j | 0 <= j < |calls| && j != i :: calls[j] == old(calls[j]))
      ensures |old(calls[i]).got| <= old(calls[i]).want
      ensures ReadRan(old(calls[i]), old(ring.Contents()), Closed(old(calls), writers), calls[i], ring.Contents())
      ensures calls[i].Reader? && calls[i].want == old(calls[i]).want >= |calls[i].got| >= |old(calls[i]).got|
      ensures calls[i].got + ring.Contents() == old(calls[i]).got + old(ring.Contents())
      ensures ring.Contents() != [] ==> |calls[i].got| == calls[i].want
      ensures calls[i].done <==> (old(ring.Contents()) != [] && |calls[i].got| == calls[i].want)
                                 || (ring.Contents() == [] && writers == 0
                                     && forall j | 0 <= j < |calls| && calls[j].Writer? :: calls[j].done)
    {
      hide CallsOk, RingFrom, Conserved, ShortsOk, Closed, ReadRan, Short;
      hide PipeRingBuffer.AvailableRead, PipeRingBuffer.Contents;
      ghost var was, c, before := ring.Contents(), calls[i], calls;
      WantLeft(calls, accepted, delivered, i);
      var n := ring.AvailableRead();
      assert c.got + was[..0] == c.got && before[i := c] == before;
      for k := 0 to n
        invariant Valid() && ring.Contents() == was[k..] && k <= c.want - |c.got| && (k > 0 ==> k < c.want - |c.got|)
        invariant |calls| == |before| && calls[i] == Reader(c.want, c.got + was[..k], false)
        invariant forall j | 0 <= j < |calls| && j != i :: calls[j] == before[j]
      {
        if |calls[i].got| == calls[i].want {
          Finish(i);
          ReadEnds(c, was, k, Closed(before, writers), calls[i], ring.Contents());
          ReadShows(c, was, before, calls, writers, i, ring.Contents());
          return;
        }
        TakeByte(i);
        assert c.got + was[..k] + [was[k]] == c.got + was[..k + 1];
        if |calls[i].got| == calls[i].want {
          Finish(i);
          ReadEnds(c, was, k + 1, Closed(before, writers), calls[i], ring.Contents());
          ReadShows(c, was, before, calls, writers, i, ring.Contents());
          return;
        }
      }
      SameClosed(before, calls, writers, i);
      if Closed(calls, writers) {
        Finish(i);
      }
      ReadEnds(c, was, n, Closed(before, writers), calls[i], ring.Contents());
      ReadShows(c, was, before, calls, writers, i, ring.Contents());
    }

    /** `write` number `i` from where it is until it returns or gives up the processor. */
    method WriteStep(i: nat)
      requires Valid() && i < |calls| && calls[i].Writer? && !calls[i].done
      modifies this`calls, this`accepted, ring, ring.arr
      ensures Valid() && |calls| == |old(calls)| && (forall j | 0 <= j < |calls| && j != i :: calls[j] == old(calls[j]))
      ensures old(calls[i]).put <= |old(calls[i]).data|
      ensures WriteRan(old(calls[i]), old(ring.Contents()), calls[i], ring.Contents())
      ensures calls[i].Writer? && calls[i].data == old(calls[i]).data
      ensures |calls[i].data| >= calls[i].put >= old(calls[i]).put
      ensures ring.Contents() == old(ring.Contents()) + calls[i].data[old(calls[i]).put..calls[i].put]
      ensures calls[i].put < |calls[i].data| ==> |ring.Contents()| == RING_BUFFER_SIZE
      ensures calls[i].done <==> |old(ring.Contents())| < RING_BUFFER_SIZE && calls[i].put == |calls[i].data|
    {
      hide CallsOk, RingFrom, Conserved, ShortsOk, WriteRan, Closed;
      hide PipeRingBuffer.AvailableRead, PipeRingBuffer.AvailableWrite, PipeRingBuffer.Contents;
      ghost var was, c, before := ring.Contents(), calls[i], calls;
      WantLeft(calls, accepted, delivered, i);
      ghost var rest := c.data[c.put..];
      var n := ring.AvailableWrite();
      assert was + rest[..0] == was;
      for k := 0 to n
        invariant Valid() && k <= |rest| && (k > 0 ==> k < |rest|) && ring.Contents() == was + rest[..k]
        invariant |calls| == |before| && calls[i] == Writer(c.data, c.put + k, false)
        invariant forall j | 0 <= j < |calls| && j != i :: calls[j] == before[j]
      {
        if calls[i].put == |calls[i].data| {
          Finish(i);
          WriteEnds(c, was, rest, k, calls[i], ring.Contents());
          WriteShows(c, was, calls[i], ring.Contents());
          return;
        }
        PutByte(i);
        assert rest[..k + 1] == rest[..k] + [rest[k]];
        assert was + rest[..k] + [rest[k]] == was + rest[..k + 1];
        if calls[i].put == |calls[i].data| {
          Finish(i);
          WriteEnds(c, was, rest, k + 1, calls[i], ring.Contents());
          WriteShows(c, was, calls[i], ring.Contents());
          return;
        }
      }
      WriteEnds(c, was, rest, n, calls[i], ring.Contents());
      WriteShows(c, was, calls[i], ring.Contents());
    }

    /** A call returns. */
    method Finish(i: nat)
      requires Valid() && i < |calls| && !calls[i].done
      requires match calls[i]
               case Writer(data, put, _) => put == |data|
               case Reader(want, got, _) => |got| == want || (Closed(calls, writers) && ring.status == Empty)
      modifies this`calls
      ensures Valid() && calls == old(calls)[i := Done(old(calls[i]))]
    {
      ghost var before := calls;
      if calls[i].Reader? {
        SameClosed(calls, calls[i := Done(calls[i])], writers, i);
      } else {
        assert !Closed(calls, writers);
      }
      calls := calls[i := Done(calls[i])];
      forall j: nat | j < |calls| ensures CallOk(calls[j], j, accepted, delivered) {
        assert CallOk(before[j], j, accepted, delivered);
      }
    }

    /** A `read` call begins. */
    method StartRead(want: nat)
      requires Valid()
      modifies this`calls
      ensures Valid() && calls == old(calls) + [Reader(want, [], false)]
    {
      NewCall(calls, accepted, delivered, Reader(want, [], false));
      calls := calls + [Reader(want, [], false)];
    }

    /** A `write` call begins, on an open write end. */
    method StartWrite(data: seq<byte>)
      requires Valid() && writers > 0
      modifies this`calls
      ensures Valid() && calls == old(calls) + [Writer(data, 0, false)]
    {
      NewCall(calls, accepted, delivered, Writer(data, 0, false));
      calls := calls + [Writer(data, 0, false)];
    }

    /** Another reference to the write end, from an open one. */
    method ShareWriter()
      requires Valid() && writers > 0
      modifies this`writers
      ensures Valid() && writers == old(writers) + 1
    {
      writers := writers + 1;
    }

    method CloseWriter()
      requires Valid() && writers > 0
      modifies this`writers
      ensures Valid() && writers == old(writers) - 1
    {
      writers := writers - 1;
    }
  }

  lemma WantLeft(calls: seq<Call>, accepted: seq<Mark>, delivered: seq<Mark>, i: nat)
    requires CallsOk(calls, accepted, delivered) && i < |calls|
    ensures match calls[i]
            case Reader(want, got, _) => |got| <= want
            case Writer(data, put, _) => put <= |data|
  {
    assert CallOk(calls[i], i, accepted, delivered);
  }

  lemma ReadEnds(c: Call, was: seq<byte>, k: nat, closed: bool, c': Call, now: seq<byte>)
    requires c.Reader? && k <= |was| && |c.got| + k <= c.want && now == was[k..]
    requires c' == Reader(c.want, c.got + was[..k], (was != [] && |c.got| + k == c.want) || (k == |was| && closed))
    requires k == |was| || |c.got| + k == c.want
    ensures ReadRan(c, was, closed, c', now)
  {
  }

  lemma ReadShows(c: Call, was: seq<byte>, before: seq<Call>, calls: seq<Call>, writers: nat, i: nat, now: seq<byte>)
    requires c.Reader? && |c.got| <= c.want && i < |calls| == |before| && before[i].Reader?
    requires forall j | 0 <= j < |calls| && j != i :: calls[j] == before[j]
    requires ReadRan(c, was, Closed(before, writers), calls[i], now)
    ensures calls[i].Reader? && calls[i].want == c.want >= |calls[i].got| >= |c.got|
    ensures calls[i].got + now == c.got + was && (now != [] ==> |calls[i].got| == c.want)
    ensures calls[i].done <==> (was != [] && |calls[i].got| == c.want)
                               || (now == [] && writers == 0
                                   && forall j | 0 <= j < |calls| && calls[j].Writer? :: calls[j].done)
  {
    SameClosed(before, calls, writers, i);
  }

  lemma WriteShows(c: Call, was: seq<byte>, c': Call, now: seq<byte>)
    requires c.Writer? && c.put <= |c.data| && |was| <= RING_BUFFER_SIZE && WriteRan(c, was, c', now)
    ensures c'.Writer? && c'.data == c.data && |c.data| >= c'.put >= c.put && now == was + c.data[c.put..c'.put]
    ensures c'.put < |c.data| ==> |now| == RING_BUFFER_SIZE
    ensures c'.done <==> |was| < RING_BUFFER_SIZE && c'.put == |c.data|
  {
  }

  lemma WriteEnds(c: Call, was: seq<byte>, rest: seq<byte>, k: nat, c': Call, now: seq<byte>)
    requires c.Writer? && |was| <= RING_BUFFER_SIZE && c.put + k <= |c.data| && k <= RING_BUFFER_SIZE - |was|
    requires rest == c.data[c.put..] && now == was + rest[..k]
    requires c' == Writer(c.data, c.put + k, |was| < RING_BUFFER_SIZE && c.put + k == |c.data|)
    requires k == RING_BUFFER_SIZE - |was| || c.put + k == |c.data|
    ensures WriteRan(c, was, c', now)
  {
  }

  /** Reading does not close or open anything. */
  lemma SameClosed(calls: seq<Call>, calls': seq<Call>, writers: nat, i: nat)
    requires |calls'| == |calls| && i < |calls| && calls[i].Reader? && calls'[i].Reader?
    requires forall j | 0 <= j < |calls| && j != i :: calls'[j] == calls[j]
    ensures Closed(calls', writers) <==> Closed(calls, writers)
  {
  }

  lemma NewCall(calls: seq<Call>, accepted: seq<Mark>, delivered: seq<Mark>, c: Call)
    requires CallsOk(calls, accepted, delivered)
    requires match c case Reader(_, got, done) => got == [] && !done case Writer(_, put, done) => put == 0 && !done
    ensures CallsOk(calls + [c], accepted, delivered)
  {
    OfNone(accepted, |calls|);
    OfNone(delivered, |calls|);
    var calls' := calls + [c];
    forall i: nat | i < |calls'|
      ensures CallOk(calls'[i], i, accepted, delivered)
    {
      if i < |calls| { assert CallOk(calls[i], i, accepted, delivered); }
    }
  }

  // ---------------------------------------------------------------- runs

  datatype Event = BeginRead(want: nat) | BeginWrite(data: seq<byte>) | Go(i: nat) | Share | Close

  /** What a pipe shows: its calls, its open write ends and the bytes in the ring. */
  datatype View = View(calls: seq<Call>, writers: nat, contents: seq<byte>)

  /** How an event changes a pipe; one that is not possible changes nothing. */
  ghost predicate Next(v: View, e: Event, v': View)
  {
    match e
    case BeginRead(want) => v' == v.(calls := v.calls + [Reader(want, [], false)])
    case BeginWrite(data) => v' == if v.writers > 0 then v.(calls := v.calls + [Writer(data, 0, false)]) else v
    case Share => v' == if v.writers > 0 then v.(writers := v.writers + 1) else v
    case Close => v' == if v.writers > 0 then v.(writers := v.writers - 1) else v
    case Go(i) =>
      if i < |v.calls| && !v.calls[i].done then
        && |v'.calls| == |v.calls| && v'.writers == v.writers
        && (forall j | 0 <= j < |v.calls| && j != i :: v'.calls[j] == v.calls[j])
        && Ran(v, v.calls[i], v'.calls[i], v'.contents)
      else v' == v
  }

  ghost predicate Ran(v: View, c: Call, c': Call, now: seq<byte>)
  {
    match c
    case Reader(want, got, _) => |got| <= want && ReadRan(c, v.contents, Closed(v.calls, v.writers), c', now)
    case Writer(data, put, _) => put <= |data| && |v.contents| <= RING_BUFFER_SIZE && WriteRan(c, v.contents, c', now)
  }

  ghost predicate IsRun(views: seq<View>, events: seq<Event>)
  {
    |views| == |events| + 1 && forall n | 0 <= n < |events| :: Next(views[n], events[n], views[n + 1])
  }

  /** Any interleaving of reads and writes that give up the processor and go on: what came out followed by what is in
    * the ring is what went in, in order and with at most 32 bytes waiting; each `read` has the bytes that came out
    * for it, each `write` put in a prefix of its data, all of it when it returned; and a `read` that returned short
    * did so with the pipe closed and empty. */
  method RunAll(events: seq<Event>) returns (p: Pipe, ghost views: seq<View>)
    ensures fresh(p) && p.Valid()
    ensures Values(p.delivered) + p.ring.Contents() == Values(p.accepted) && |p.ring.Contents()| <= RING_BUFFER_SIZE
    ensures forall i: nat | i < |p.calls| ::
              match p.calls[i]
              case Reader(want, got, done) =>
                && got == Of(p.delivered, i) && |got| <= want
                && (done && |got| < want ==> Closed(p.calls, p.writers) && p.ring.Contents() == [])
              case Writer(data, put, done) =>
                put <= |data| && data[..put] == Of(p.accepted, i) && (done ==> put == |data|)
    ensures IsRun(views, events) && views[0] == View([], 1, []) && views[|events|] == p.Shows()
  {
    p := new Pipe();
    views := RunFrom(p, events);
    forall i: nat | i < |p.calls| && p.calls[i].Reader? && p.calls[i].done && |p.calls[i].got| < p.calls[i].want
      ensures Closed(p.calls, p.writers) && p.ring.Contents() == []
    {
      assert Short(p.calls[i]);
    }
    assert forall i: nat | i < |p.calls| :: CallOk(p.calls[i], i, p.accepted, p.delivered);
  }

  method RunFrom(p: Pipe, events: seq<Event>) returns (ghost views: seq<View>)
    requires p.Valid()
    modifies p, p.ring, p.ring.arr
    ensures p.Valid() && IsRun(views, events) && views[0] == old(p.Shows()) && views[|events|] == p.Shows()
  {
    hide Next, CallsOk, Conserved, RingFrom, ShortsOk;
    views := [p.Shows()];
    for n := 0 to |events|
      invariant p.Valid() && IsRun(views, events[..n]) && views[0] == old(p.Shows()) && views[n] == p.Shows()
    {
      Perform(p, events[n]);
      views := views + [p.Shows()];
    }
    assert events[..|events|] == events;
  }

  method Perform(p: Pipe, e: Event)
    requires p.Valid()
    modifies p, p.ring, p.ring.arr
    ensures p.Valid() && Next(old(p.Shows()), e, p.Shows())
  {
    hide CallsOk, Conserved, RingFrom, ShortsOk, ReadRan, WriteRan;
    match e
    case BeginRead(want) => p.StartRead(want);
    case BeginWrite(data) => if p.writers > 0 { p.StartWrite(data); }
    case Go(i) =>
      if i < |p.calls| && !p.calls[i].done {
        if p.calls[i].Reader? { p.ReadStep(i); } else { p.WriteStep(i); }
      }
    case Share => if p.writers > 0 { p.ShareWriter(); }
    case Close => if p.writers > 0 { p.CloseWriter(); }
  }

  /** One `write` of `data` and one `read` for as much, taking turns, after `j` turns each. */
  ghost predicate Turned(v: View, data: seq<byte>, j: nat)
  {
    var put := Min(RING_BUFFER_SIZE * j, |data|);
    v == View([Writer(data, put, put == |data|), Reader(|data|, data[..put], put == |data|)], 1, [])
  }

  /** Taking turns, a `write` and a `read` of the same length both return, and the `read` has the data. */
  lemma {:induction false} TurnsDeliver(views: seq<View>, events: seq<Event>, data: seq<byte>, turns: nat)
    requires IsRun(views, events) && views[0] == View([], 1, [])
    requires |events| == 2 + 2 * turns && events[0] == BeginWrite(data) && events[1] == BeginRead(|data|)
    requires forall j: nat | j < turns :: events[2 + 2 * j] == Go(0) && events[3 + 2 * j] == Go(1)
    requires 0 < |data| <= RING_BUFFER_SIZE * turns
    ensures views[|events|] == View([Writer(data, |data|, true), Reader(|data|, data, true)], 1, [])
  {
    hide Ran;
    assert Next(views[0], events[0], views[1]) && Next(views[1], events[1], views[2]);
    assert data[..0] == [];
    for j := 0 to turns
      invariant Turned(views[2 + 2 * j], data, j)
    {
      assert Next(views[2 + 2 * j], events[2 + 2 * j], views[3 + 2 * j]);
      assert Next(views[3 + 2 * j], events[3 + 2 * j], views[4 + 2 * j]);
      Turn(views[2 + 2 * j], views[3 + 2 * j], views[4 + 2 * j], data, j);
    }
    assert data[..|data|] == data;
  }

  lemma Turn(v: View, w: View, v': View, data: seq<byte>, j: nat)
    requires Turned(v, data, j) && Next(v, Go(0), w) && Next(w, Go(1), v') && |data| > 0
    ensures Turned(v', data, j + 1)
  {
    var put := Min(RING_BUFFER_SIZE * j, |data|);
    if put < |data| {
      hide Next, Ran;
      WriteTurn(v, w, data, put, Reader(|data|, data[..put], false));
      var put' := Min(put + RING_BUFFER_SIZE, |data|);
      ReadTurn(w, v', Writer(data, put', put' == |data|), data, put, put');
    }
  }

  lemma WriteTurn(v: View, w: View, data: seq<byte>, put: nat, reader: Call)
    requires put < |data| && v == View([Writer(data, put, false), reader], 1, []) && Next(v, Go(0), w)
    ensures var put' := Min(put + RING_BUFFER_SIZE, |data|);
            w == View([Writer(data, put', put' == |data|), reader], 1, data[put..put'])
  {
    assert w.calls == [w.calls[0], v.calls[1]];
  }

  lemma ReadTurn(w: View, v': View, writer: Call, data: seq<byte>, put: nat, put': nat)
    requires put < put' <= |data| && Next(w, Go(1), v')
    requires w == View([writer, Reader(|data|, data[..put], false)], 1, data[put..put'])
    ensures v' == View([writer, Reader(|data|, data[..put'], put' == |data|)], 1, [])
  {
    var was := data[put..put'];
    assert was[..|was|] == was && data[..put] + was == data[..put'];
    assert v'.calls == [w.calls[0], v'.calls[1]];
  }

  /** Once the pipe is closed and empty, everything that was ever put in has come out, in order. */
  lemma EverythingDelivered(p: Pipe, i: nat)
    requires p.Valid() && i < |p.calls| && Short(p.calls[i])
    ensures Values(p.delivered) == Values(p.accepted) && Closed(p.calls, p.writers)
  {
    assert p.ring.Contents() == [];
  }

  /** With one reader at work, what it has is what came out. */
  lemma SoleReader(p: Pipe, i: nat)
    requires p.Valid() && i < |p.calls| && p.calls[i].Reader? && forall k | 0 <= k < |p.delivered| ::
             p.delivered[k].call == i
    ensures p.calls[i].got == Values(p.delivered) && p.calls[i].got <= Values(p.accepted)
  {
    assert CallOk(p.calls[i], i, p.accepted, p.delivered);
    OfAll(p.delivered, i);
  }

  lemma {:induction false} OfAll(ms: seq<Mark>, call: nat)
    requires forall k | 0 <= k < |ms| :: ms[k].call == call
    ensures Of(ms, call) == Values(ms)
  {
    if ms != [] {
      OfAll(ms[..|ms| - 1], call);
    }
  }
}
