/** Threads of a user program, by where they stand in it. */
module Phases {

  /** The next thing the thread does is `pc`; `reg` is the value it read last, `left` the rounds it has left. */
  datatype Thread = Thread(pc: nat, reg: nat, left: nat)

  /** How many threads stand between `lo` and `hi`. */
  function CountIn(ts: seq<Thread>, lo: nat, hi: nat): (n: nat)
  {
    if ts == [] then 0 else CountIn(ts[..|ts| - 1], lo, hi) + if lo <= ts[|ts| - 1].pc <= hi then 1 else 0
  }

  function At(t: Thread, lo: nat, hi: nat): (n: nat)
  {
    if lo <= t.pc <= hi then 1 else 0
  }

  lemma {:induction false} CountUpdate(ts: seq<Thread>, i: nat, t: Thread, lo: nat, hi: nat)
    requires i < |ts|
    ensures CountIn(ts[i := t], lo, hi) == CountIn(ts, lo, hi) - At(ts[i], lo, hi) + At(t, lo, hi)
  {
    var n := |ts| - 1;
    if i < n {
      assert ts[i := t][..n] == ts[..n][i := t];
      CountUpdate(ts[..n], i, t, lo, hi);
    } else {
      assert ts[i := t][..n] == ts[..n];
    }
  }

  lemma {:induction false} CountJoin(ts: seq<Thread>, a: nat, b: nat, c: nat)
    requires a <= b <= c
    ensures CountIn(ts, a, c) == CountIn(ts, a, b) + CountIn(ts, b + 1, c)
  {
    if ts != [] {
      CountJoin(ts[..|ts| - 1], a, b, c);
    }
  }

  lemma {:induction false} CountOne(ts: seq<Thread>, i: nat, lo: nat, hi: nat)
    requires i < |ts|
    ensures CountIn(ts, lo, hi) >= At(ts[i], lo, hi)
  {
    if i < |ts| - 1 {
      CountOne(ts[..|ts| - 1], i, lo, hi);
    }
  }

  lemma {:induction false} CountTwo(ts: seq<Thread>, i: nat, j: nat, lo: nat, hi: nat)
    requires i < j < |ts|
    ensures CountIn(ts, lo, hi) >= At(ts[i], lo, hi) + At(ts[j], lo, hi)
  {
    var n := |ts| - 1;
    if j < n {
      CountTwo(ts[..n], i, j, lo, hi);
    } else {
      CountOne(ts[..n], i, lo, hi);
    }
  }

  lemma {:induction false} CountNone(ts: seq<Thread>, lo: nat, hi: nat)
    requires forall i | 0 <= i < |ts| :: !(lo <= ts[i].pc <= hi)
    ensures CountIn(ts, lo, hi) == 0
  {
    if ts != [] {
      CountNone(ts[..|ts| - 1], lo, hi);
    }
  }
}
