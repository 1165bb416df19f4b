/**
 LogStoreT of src/core/log_store.h: one bounded queue and one dropped counter per task. The
 queue of a task is the sequence RingBuffers.RingBuffer shows as Contents().
*/
module LogStores {

  datatype PerTaskStore<E> = PerTaskStore(queue: seq<E>, dropped: nat)

  /** What append does to the store of its task. */
  function Appended<E>(s: PerTaskStore<E>, capacity: nat, entry: E): PerTaskStore<E> {
    if |s.queue| < capacity then s.(queue := s.queue + [entry]) else s.(dropped := s.dropped + 1)
  }

  class LogStore<TaskId(==,!new), E> {
    const capacity: nat
    var stores: map<TaskId, PerTaskStore<E>>

    constructor (cap: nat)
      ensures stores == map[] && capacity == cap
    {
      capacity := cap;
      stores := map[];
    }

    ghost function Store(id: TaskId): PerTaskStore<E>
      reads this
    {
      if id in stores then stores[id] else PerTaskStore([], 0)
    }

    method Append(id: TaskId, entry: E)
      modifies this
      ensures Store(id) == Appended(old(Store(id)), capacity, entry)
      ensures forall other :: other != id ==> Store(other) == old(Store(other))
    {
      if id !in stores {
        stores := stores[id := PerTaskStore([], 0)];
      }
      var s := stores[id];
      if |s.queue| < capacity {
        stores := stores[id := s.(queue := s.queue + [entry])];
      } else {
        stores := stores[id := s.(dropped := s.dropped + 1)];
      }
    }

    method Snapshot(id: TaskId, maxCount: nat) returns (result: seq<E>)
      ensures |result| == if maxCount < |Store(id).queue| then maxCount else |Store(id).queue|
      ensures result <= Store(id).queue
    {
      if id !in stores {
        return [];
      }
      var queue := stores[id].queue;
      var count := if maxCount < |queue| then maxCount else |queue|;
      result := [];
      for i := 0 to count
        invariant result == queue[..i]
      {
        result := result + [queue[i]];
      }
    }

    method DroppedCount(id: TaskId) returns (n: nat)
      ensures n == Store(id).dropped
    {
      n := if id in stores then stores[id].dropped else 0;
    }

    method Clear(id: TaskId)
      modifies this
      ensures Store(id) == PerTaskStore([], 0)
      ensures forall other :: other != id ==> Store(other) == old(Store(other))
    {
      if id !in stores {
        return;
      }
      while stores[id].queue != []
        invariant id in stores
        invariant forall other :: other != id ==> Store(other) == old(Store(other))
        decreases |stores[id].queue|
      {
        stores := stores[id := stores[id].(queue := stores[id].queue[1..])];
      }
      stores := stores[id := stores[id].(dropped := 0)];
    }
  }

  datatype Call<TaskId, E> = Append(id: TaskId, entry: E) | Clear(id: TaskId)

  /** The stores after a history of calls, by the contracts above. */
  function After<TaskId(==), E>(capacity: nat, calls: seq<Call<TaskId, E>>, id: TaskId): PerTaskStore<E>
    decreases |calls|
  {
    if calls == [] then PerTaskStore([], 0)
    else
      var before := After(capacity, calls[..|calls| - 1], id);
      match calls[|calls| - 1]
      case Append(i, entry) => if i == id then Appended(before, capacity, entry) else before
      case Clear(i) => if i == id then PerTaskStore([], 0) else before
  }

  /** The entries appended to a task since it was last cleared, in order. */
  function SinceClear<TaskId(==), E>(calls: seq<Call<TaskId, E>>, id: TaskId): seq<E>
    decreases |calls|
  {
    if calls == [] then []
    else
      var before := SinceClear(calls[..|calls| - 1], id);
      match calls[|calls| - 1]
      case Append(i, entry) => if i == id then before + [entry] else before
      case Clear(i) => if i == id then [] else before
  }

  /** A task keeps the oldest `capacity` entries since its last clear and counts every later one
      as dropped; the calls for other tasks make no difference. */
  lemma {:induction false} KeepsOldestCountsRest<TaskId, E>(capacity: nat, calls: seq<Call<TaskId, E>>, id: TaskId)
    ensures var all := SinceClear(calls, id);
            var kept := if |all| < capacity then |all| else capacity;
            After(capacity, calls, id) == PerTaskStore(all[..kept], |all| - kept)
    decreases |calls|
  {
    if calls != [] {
      KeepsOldestCountsRest(capacity, calls[..|calls| - 1], id);
      var all, before := SinceClear(calls, id), SinceClear(calls[..|calls| - 1], id);
      if |all| == |before| + 1 && |before| < capacity {
        assert all[..|all|] == before[..|before|] + [all[|before|]];
      } else if |all| == |before| + 1 {
        assert all[..capacity] == before[..capacity];
      }
    }
  }
}
