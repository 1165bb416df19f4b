/**
 RingBuffer of src/base/ring_buffer.h as an object, for callers between which no other access
 runs. The retry loops go round only under interference, which is the subject of RingProtocol;
 here each call is its one successful round.
*/
module RingBuffers {
  import opened Sequences
  import opened RingProtocol

  class RingBuffer<T> {
    const capacity: nat
    const buffer: array<Cell<T>>
    const sequences: array<nat>
    var head: nat
    var tail: nat

    ghost predicate Valid()
      reads this, buffer, sequences
    {
      && capacity >= 2 && buffer.Length == sequences.Length == capacity
      && tail <= head <= tail + capacity
      && (forall t: nat :: tail <= t < head ==> sequences[Pos(capacity, t)] == t + 1 && buffer[Pos(capacity, t)].Full?)
      && (forall t: nat :: head <= t < tail + capacity ==> sequences[Pos(capacity, t)] == t)
    }

    /** The queued items, oldest first. */
    ghost function Contents(): (c: seq<T>)
      requires Valid()
      reads this, buffer, sequences
    {
      seq(head - tail, (i: int) requires 0 <= i < head - tail && Valid() reads this, buffer, sequences =>
        buffer[Pos(capacity, tail + i)].item)
    }

    constructor (cap: nat)
      requires cap >= 2
      ensures Valid() && Contents() == [] && capacity == cap
      ensures fresh(buffer) && fresh(sequences)
    {
      capacity := cap;
      buffer := new Cell<T>[cap](_ => Empty);
      sequences := new nat[cap](i => i);
      head, tail := 0, 0;
      new;
      forall t: nat | t < cap ensures sequences[Pos(cap, t)] == t {
        assert Pos(cap, t) == t;
      }
    }

    method Push(item: T) returns (ok: bool)
      requires Valid()
      modifies this`head, buffer, sequences
      ensures Valid()
      ensures ok <==> |old(Contents())| < capacity
      ensures Contents() == if ok then old(Contents()) + [item] else old(Contents())
    {
      var pos := Pos(capacity, head);
      var diff := sequences[pos] - head;
      if head == tail + capacity {
        PosPeriod(capacity, tail);
      }
      if diff == 0 {
        SlotIsOnly(capacity, tail, head);
        head := head + 1;
        buffer[pos] := Full(item);
        sequences[pos] := head;
        assert Contents() == old(Contents()) + [item];
        return true;
      }
      return false;
    }

    method TryPop() returns (result: Option<T>)
      requires Valid()
      modifies this`tail, buffer, sequences
      ensures Valid()
      ensures old(Contents()) == [] ==> result == None && Contents() == []
      ensures old(Contents()) != [] ==> result == Some(old(Contents())[0]) && Contents() == old(Contents())[1..]
    {
      var pos := Pos(capacity, tail);
      var diff := sequences[pos] - (tail + 1);
      PosPeriod(capacity, tail);
      if diff == 0 {
        assert tail < head;
        SlotIsOnly(capacity, tail, tail);
        ghost var was := Contents();
        tail := tail + 1;
        result := Some(buffer[pos].item);
        buffer[pos] := MovedFrom;
        sequences[pos] := tail - 1 + capacity;
        assert Contents() == was[1..];
        return;
      }
      return None;
    }

    /** Takes the oldest items, at most `maxCount` of them. */
    method TryPopBatch(maxCount: nat) returns (result: seq<T>)
      requires Valid()
      modifies this`tail, buffer, sequences
      ensures Valid()
      ensures |result| == if maxCount < |old(Contents())| then maxCount else |old(Contents())|
      ensures old(Contents()) == result + Contents()
    {
      result := [];
      for i := 0 to maxCount
        invariant Valid()
        invariant |result| == i
        invariant old(Contents()) == result + Contents()
      {
        var item := TryPop();
        if item.None? {
          break;
        }
        result := result + [item.value];
      }
    }

    method PeekAt(index: nat) returns (result: Option<T>)
      requires Valid()
      ensures result == if index < |Contents()| then Some(Contents()[index]) else None
    {
      if tail > head || index >= head - tail {
        return None;
      }
      var pos := Pos(capacity, tail + index);
      if sequences[pos] - (tail + index + 1) >= 0 && buffer[pos].Full? {
        return Some(buffer[pos].item);
      }
      return None;
    }

    method PeekLatest() returns (result: Option<T>)
      requires Valid()
      ensures var c := Contents(); result == if c == [] then None else Some(c[|c| - 1])
    {
      if tail >= head {
        return None;
      }
      result := PeekAt(head - tail - 1);
    }

    method Size() returns (n: int)
      requires Valid()
      ensures n == |Contents()|
    {
      n := if head >= tail then head - tail else 0;
    }
  }
}
