/** Recycling number allocators, used for pids and for the tids of each process. */
module Ids {

  datatype RecycleAllocator = RecycleAllocator(current: nat, recycled: seq<nat>) {

    ghost predicate Valid()
    {
      && (forall i, j | 0 <= i < j < |recycled| :: recycled[i] != recycled[j])
      && (forall i | 0 <= i < |recycled| :: recycled[i] < current)
    }

    /** Handed out and not given back. */
    predicate Live(id: nat)
    {
      id < current && id !in recycled
    }

    /** Hands out a number nobody has. */
    function Alloc(): (r: (RecycleAllocator, nat))
      requires Valid()
      ensures r.0.Valid() && !Live(r.1)
      ensures forall id: nat :: r.0.Live(id) <==> Live(id) || id == r.1
    {
      if recycled != [] then
        var last := |recycled| - 1;
        assert forall id :: id in recycled <==> id in recycled[..last] || id == recycled[last];
        (RecycleAllocator(current, recycled[..last]), recycled[last])
      else
        (RecycleAllocator(current + 1, recycled), current)
    }

    /** Takes a number back; one that is not out makes the code panic. */
    function Dealloc(id: nat): (r: RecycleAllocator)
      requires Valid() && Live(id)
      ensures r.Valid()
      ensures forall x: nat :: r.Live(x) <==> Live(x) && x != id
    {
      RecycleAllocator(current, recycled + [id])
    }
  }

  /** What is given back last is handed out first, and then everything is as before. */
  lemma LastBackFirstOut(a: RecycleAllocator, id: nat)
    requires a.Valid() && a.Live(id)
    ensures a.Dealloc(id).Alloc() == (a, id)
  {
    assert (a.recycled + [id])[..|a.recycled|] == a.recycled;
  }

  /** Without anything given back, the numbers come in order. */
  lemma NextNumber(a: RecycleAllocator)
    requires a.Valid() && forall id: nat | id < a.current :: a.Live(id)
    ensures a.Alloc().1 == a.current && a.Alloc().0.current == a.current + 1
    ensures forall id: nat | id <= a.current :: a.Alloc().0.Live(id)
  {
    assert a.recycled != [] ==> !a.Live(a.recycled[0]);
  }

  function NewAllocator(): (r: RecycleAllocator)
    ensures r.Valid() && forall id :: !r.Live(id)
  {
    RecycleAllocator(0, [])
  }
}
