/** How often something stands in a list. */
module Counting {

  function Count(queue: seq<nat>, t: nat): (n: nat)
  {
    if queue == [] then 0 else (if queue[0] == t then 1 else 0) + Count(queue[1..], t)
  }

  /** In a list without repetitions: once or not at all. */
  lemma {:induction false} CountUnique(queue: seq<nat>, t: nat)
    requires forall i, j | 0 <= i < j < |queue| :: queue[i] != queue[j]
    ensures Count(queue, t) == if t in queue then 1 else 0
  {
    if queue != [] {
      CountUnique(queue[1..], t);
      assert queue == [queue[0]] + queue[1..];
    }
  }
}
