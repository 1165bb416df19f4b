/**
 The 64-bit counters behind the tickets of RingProtocol: size_t wraps, the masks take the
 slot, and the verdicts subtract two counters after casting each to intptr_t.
*/
module RingCounters {
  import opened Arith
  import opened Bits
  import opened RingProtocol

  const TWO64 := 0x1_0000_0000_0000_0000
  const TWO63 := 0x8000_0000_0000_0000

  function Wrap(t: nat): (u: nat) { t % TWO64 }

  /** static_cast<intptr_t> of a size_t */
  function Signed(u: nat): int
    requires u < TWO64
  {
    if u < TWO63 then u else u - TWO64
  }

  /** The mathematical difference of the two casts. */
  function RawDiff(a: nat, b: nat): int { Signed(Wrap(a)) - Signed(Wrap(b)) }

  /** The difference as a two's complement intptr_t. */
  function SignedDiff(a: nat, b: nat): int { Signed(RawDiff(a, b) % TWO64) }

  /** How often a counter has passed from 2^63 - 1 to 2^63. */
  function HalfLaps(t: nat): nat { (t + TWO63) / TWO64 }

  lemma SignedOfWrap(t: nat)
    ensures Signed(Wrap(t)) == t - TWO64 * HalfLaps(t)
  {
  }

  /** The test works on wrapped counters exactly while the tickets are less than 2^63 apart. */
  lemma SignedDiffExact(a: nat, b: nat)
    ensures SignedDiff(a, b) == a - b <==> -TWO63 <= a - b < TWO63
  {
    SignedOfWrap(a);
    SignedOfWrap(b);
    var k := HalfLaps(b) - HalfLaps(a);
    assert RawDiff(a, b) == a - b + TWO64 * k;
    var m := (a - b) % TWO64;
    DivModUnique(RawDiff(a, b), TWO64, (a - b) / TWO64 + k, m);
  }

  /** The subtraction itself leaves intptr_t exactly when an odd multiple of 2^63 lies between the
      counters, as for 2^63 and 2^63 - 1. */
  lemma RawDiffInRange(a: nat, b: nat)
    requires -TWO63 <= a - b < TWO63
    ensures -TWO63 <= RawDiff(a, b) < TWO63 <==> HalfLaps(a) == HalfLaps(b)
    ensures RawDiff(TWO63, TWO63 - 1) < -TWO63
  {
    SignedOfWrap(a);
    SignedOfWrap(b);
    var k := HalfLaps(b) - HalfLaps(a);
    MultipleIsFar(k, TWO64);
  }

  lemma SizeOfSizeT(n: nat, w: nat)
    requires n <= w == 64
    ensures Pow2(w - n) * Pow2(n) == TWO64
  {
    Pow2Add(w - n, n);
    Pow2Words();
  }

  /** Masking a wrapped counter with Capacity - 1 selects the slot of its ticket. */
  lemma MaskSelectsSlot(t: nat, n: nat)
    requires n < 64
    ensures And(Wrap(t), Pow2(n) - 1) == Pos(Pow2(n), t)
  {
    AndLowMask(Wrap(t), n);
    SizeOfSizeT(n, 64);
    ModOfMod(t, Pow2(n), Pow2(64 - n));
  }

  /** The three-way test sees the distance modulo 2^64, its upper half as negative. */
  lemma VerdictExact(a: nat, b: nat)
    ensures SignedDiff(a, b) == 0 <==> (a - b) % TWO64 == 0
    ensures SignedDiff(a, b) < 0 <==> (a - b) % TWO64 >= TWO63
  {
    SignedOfWrap(a);
    SignedOfWrap(b);
    var k := HalfLaps(b) - HalfLaps(a);
    assert RawDiff(a, b) == a - b + TWO64 * k;
    DivModUnique(RawDiff(a, b), TWO64, (a - b) / TWO64 + k, (a - b) % TWO64);
  }

  /** In every run TryPop's 64-bit test gives the unbounded verdict. PushImpl's does exactly while
      the slot is less than 2^63 ahead of the local head, which holds while that head is less than
      2^63 - Capacity tickets old. A slot from 2^63 to 2^64 ahead is taken for a full queue,
      although the head has moved on and a retry is called for. */
  lemma VerdictsSurviveWrapping<T(!new)>(s: State<T>, pid: nat)
    requires Reachable(s) && s.cap <= TWO63 - 1
    ensures Pc(s, pid).PLoadSeq? ==>
              var h := Pc(s, pid).head;
              var q := s.seqs[Pos(s.cap, h)];
              && (SignedDiff(q, h) == q - h <==> q - h < TWO63)
              && (s.head - h < TWO63 - s.cap ==> q - h < TWO63)
              && (TWO63 <= q - h < TWO64 ==> SignedDiff(q, h) < 0 && h < s.head)
    ensures s.consumer.CLoadSeq? ==>
              var t := s.consumer.tail;
              SignedDiff(s.seqs[Pos(s.cap, t)], t + 1) == s.seqs[Pos(s.cap, t)] - (t + 1)
  {
    ReachableInv(s);
    assert ProducerOk(s, pid);
    if Pc(s, pid).PLoadSeq? {
      PushTest(s, Pc(s, pid).head);
    }
    if s.consumer.CLoadSeq? {
      assert SlotOk(s, s.tail);
      SignedDiffExact(s.seqs[Pos(s.cap, s.tail)], s.tail + 1);
    }
  }

  lemma PushTest<T(!new)>(s: State<T>, h: nat)
    requires Inv(s) && s.cap <= TWO63 - 1 && h <= s.head
    ensures var q := s.seqs[Pos(s.cap, h)];
            && (SignedDiff(q, h) == q - h <==> q - h < TWO63)
            && (s.head - h < TWO63 - s.cap ==> q - h < TWO63)
            && (TWO63 <= q - h < TWO64 ==> SignedDiff(q, h) < 0 && h < s.head)
  {
    var q := s.seqs[Pos(s.cap, h)];
    SeqRange(s, h);
    SignedDiffExact(q, h);
    if TWO63 <= q - h < TWO64 {
      DivModUnique(q - h, TWO64, 0, q - h);
      VerdictExact(q, h);
    }
  }

  /** Size, and the number available to PeekAt and PeekLatest, as they compare the unsigned
      counters. */
  function WrappedSize(head: nat, tail: nat): nat {
    if Wrap(head) >= Wrap(tail) then Wrap(head) - Wrap(tail) else 0
  }

  lemma WrappedSizeExact(head: nat, tail: nat)
    requires 0 <= head - tail < TWO64
    ensures WrappedSize(head, tail) == (if head / TWO64 == tail / TWO64 then head - tail else 0)
  {
    if head / TWO64 != tail / TWO64 {
      LapsDiffer(head, tail);
    }
  }

  lemma LapsDiffer(head: nat, tail: nat)
    requires 0 <= head - tail < TWO64 && head / TWO64 != tail / TWO64
    ensures Wrap(head) < Wrap(tail)
  {
  }

  /** In every run the size that a snapshot reads, and the one that PeekAt compares its index
      with, is right exactly while head and tail are on the same lap of size_t. While head alone has
      wrapped, a queue with items in it looks empty. */
  lemma SizesSurviveWrapping<T(!new)>(s: State<T>)
    requires Reachable(s) && s.cap <= TWO63 - 1
    ensures s.consumer.SizeTail? ==>
              var h := s.consumer.head;
              && WrappedSize(h, s.tail) == (if h / TWO64 == s.tail / TWO64 then h - s.tail else 0)
              && (WrappedSize(h, s.tail) == h - s.tail <==> h / TWO64 == s.tail / TWO64)
    ensures s.consumer.PeekHead? ==>
              var t := s.consumer.tail;
              && WrappedSize(s.head, t) == (if s.head / TWO64 == t / TWO64 then s.head - t else 0)
              && (WrappedSize(s.head, t) == s.head - t <==> s.head / TWO64 == t / TWO64)
  {
    ReachableInv(s);
    if s.consumer.SizeTail? {
      WrappedSizeExact(s.consumer.head, s.tail);
    } else if s.consumer.PeekHead? {
      WrappedSizeExact(s.head, s.tail);
    }
  }

  /** No slot number is more than one capacity below a ticket in use, or above the window. */
  lemma SeqRange<T>(s: State<T>, h: nat)
    requires Inv(s) && h <= s.head
    ensures h - s.cap <= s.seqs[Pos(s.cap, h)] <= Released(s) + s.cap
    decreases s.head - h
  {
    var r := Released(s);
    if h == r + s.cap {
      PosPeriod(s.cap, r);
      assert SlotOk(s, r);
    } else if r <= h {
      assert SlotOk(s, h);
    } else {
      PosPeriod(s.cap, h);
      if h + s.cap <= s.head {
        SeqRange(s, h + s.cap);
      } else {
        assert SlotOk(s, h + s.cap);
      }
    }
  }
}
