/**
 The lock-free queue of src/base/ring_buffer.h as a transition system: any number of
 producers running PushImpl and one consumer running TryPop or a LogStore snapshot,
 interleaved at the granularity of one atomic access (or one access to the cell).

 Tickets are unbounded naturals here; module RingCounters relates them to the 64-bit
 counters of the source.
*/
module RingProtocol {
  import opened Arith

  /** A std::optional slot: moving the value out leaves the optional engaged. */
  datatype Cell<T> = Empty | Full(item: T) | MovedFrom

  datatype PushResult = NoCall | Pushed(ticket: nat) | Rejected

  /** Where a producer stands inside PushImpl. */
  datatype Producer<T> =
    | PIdle(last: PushResult)
    | PLoadHead(item: T)
    | PLoadSeq(item: T, head: nat)
    | PCas(item: T, head: nat)
    | PWrite(item: T, ticket: nat)
    | PPublish(item: T, ticket: nat)

  datatype PopResult<T> = NoPop | Nothing | Popped(cell: Cell<T>) | Snapshot(scan: Scan<T>)

  /** The loop state of LogStore::snapshot. `max`, `head`, `tickets` and `settled` are history:
      the number asked for and the head it saw, the tickets whose items were copied, and the
      tickets already published when the size was read. */
  datatype Scan<T> = Scan(
    max: nat,
    head: nat,
    count: nat,
    i: nat,
    acc: seq<T>,
    tickets: seq<nat>,
    settled: set<nat>)

  /** Where the consumer stands inside TryPop or snapshot. */
  datatype Consumer<T> =
    | CIdle(last: PopResult<T>)
    | CLoadTail
    | CRetry
    | CLoadSeq(tail: nat)
    | CStoreTail(tail: nat)
    | CMoveOut(tail: nat)
    | CRelease(tail: nat, cell: Cell<T>)
    | SizeHead(max: nat)
    | SizeTail(max: nat, head: nat)
    | PeekTail(scan: Scan<T>)
    | PeekHead(scan: Scan<T>, tail: nat)
    | PeekSeq(scan: Scan<T>, tail: nat)
    | PeekRead(scan: Scan<T>, tail: nat)

  datatype Claim<T> = Claim(pid: nat, item: T)

  /** Shared memory and program counters, plus two histories: `claims[k]` is the push that won
      ticket k, `popped[k]` is the result of the k-th successful pop. */
  datatype State<T> = State(
    cap: nat,
    head: nat,
    tail: nat,
    seqs: seq<nat>,
    buf: seq<Cell<T>>,
    producers: map<nat, Producer<T>>,
    consumer: Consumer<T>,
    claims: seq<Claim<T>>,
    popped: seq<Cell<T>>)

  datatype Event<T> =
    | Push(pid: nat, item: T)
    | Producer(pid: nat)
    | SpuriousCas(pid: nat)
    | TryPop
    | TakeSnapshot(max: nat)
    | Consumer

  function Pos(cap: nat, ticket: nat): (p: nat)
    requires cap > 0
    ensures p < cap
  {
    ticket % cap
  }

  predicate Shape<T>(s: State<T>) {
    s.cap > 0 && |s.seqs| == s.cap && |s.buf| == s.cap
  }

  function Pc<T>(s: State<T>, pid: nat): Producer<T> {
    if pid in s.producers then s.producers[pid] else PIdle(NoCall)
  }

  function Init<T>(cap: nat): State<T> {
    State(cap, 0, 0, seq(cap, i => i), seq(cap, i => Empty), map[], CIdle(NoPop), [], [])
  }

  function Goto<T>(s: State<T>, pid: nat, pc: Producer<T>): State<T> {
    s.(producers := s.producers[pid := pc])
  }

  function ProducerStep<T>(s: State<T>, pid: nat): (s': State<T>)
    requires Shape(s)
    ensures Shape(s') && s'.cap == s.cap
  {
    match Pc(s, pid)
    case PIdle(_) => s
    case PLoadHead(item) => Goto(s, pid, PLoadSeq(item, s.head))
    case PLoadSeq(item, h) =>
      var diff := s.seqs[Pos(s.cap, h)] - h;
      if diff == 0 then Goto(s, pid, PCas(item, h))
      else if diff < 0 then Goto(s, pid, PIdle(Rejected))
      else Goto(s, pid, PLoadHead(item))
    case PCas(item, h) =>
      if s.head == h then
        Goto(s, pid, PWrite(item, h)).(head := h + 1, claims := s.claims + [Claim(pid, item)])
      else
        Goto(s, pid, PLoadSeq(item, s.head))
    case PWrite(item, t) =>
      Goto(s, pid, PPublish(item, t)).(buf := s.buf[Pos(s.cap, t) := Full(item)])
    case PPublish(item, t) =>
      Goto(s, pid, PIdle(Pushed(t))).(seqs := s.seqs[Pos(s.cap, t) := t + 1])
  }

  /** Tickets below `limit` whose slot carries the published tag. */
  function PublishedBelow<T>(s: State<T>, limit: nat): set<nat>
    requires Shape(s)
  {
    set t | s.tail <= t < limit && s.seqs[Pos(s.cap, t)] == t + 1
  }

  /** PeekAt(i) returned nothing, or `item`; the loop of snapshot goes on. */
  function NextPeek<T>(k: Scan<T>, acc: seq<T>, tickets: seq<nat>): Consumer<T> {
    var k' := k.(i := k.i + 1, acc := acc, tickets := tickets);
    if k'.i < k'.count then PeekTail(k') else CIdle(Snapshot(k'))
  }

  function ConsumerStep<T>(s: State<T>): (s': State<T>)
    requires Shape(s)
    ensures Shape(s') && s'.cap == s.cap
  {
    match s.consumer
    case CIdle(_) => s
    case CLoadTail => s.(consumer := CLoadSeq(s.tail))
    case CRetry => s.(consumer := CLoadSeq(s.tail))
    case CLoadSeq(t) =>
      var diff := s.seqs[Pos(s.cap, t)] - (t + 1);
      if diff == 0 then s.(consumer := CStoreTail(t))
      else if diff < 0 then s.(consumer := CIdle(Nothing))
      else s.(consumer := CRetry)
    case CStoreTail(t) => s.(tail := t + 1, consumer := CMoveOut(t))
    case CMoveOut(t) =>
      var cell := s.buf[Pos(s.cap, t)];
      s.(consumer := CRelease(t, cell),
         buf := s.buf[Pos(s.cap, t) := if cell.Full? then MovedFrom else cell])
    case CRelease(t, cell) =>
      s.(consumer := CIdle(Popped(cell)),
         seqs := s.seqs[Pos(s.cap, t) := t + s.cap],
         popped := s.popped + [cell])
    case SizeHead(max) => s.(consumer := SizeTail(max, s.head))
    case SizeTail(max, head) =>
      var size := if head >= s.tail then head - s.tail else 0;
      var count := if max < size then max else size;
      var k := Scan(max, head, count, 0, [], [], PublishedBelow(s, s.tail + count));
      s.(consumer := if count == 0 then CIdle(Snapshot(k)) else PeekTail(k))
    case PeekTail(k) => s.(consumer := PeekHead(k, s.tail))
    case PeekHead(k, tail) =>
      if tail > s.head || k.i >= s.head - tail then s.(consumer := NextPeek(k, k.acc, k.tickets))
      else s.(consumer := PeekSeq(k, tail))
    case PeekSeq(k, tail) =>
      if s.seqs[Pos(s.cap, tail + k.i)] - (tail + k.i + 1) >= 0 then s.(consumer := PeekRead(k, tail))
      else s.(consumer := NextPeek(k, k.acc, k.tickets))
    case PeekRead(k, tail) =>
      match s.buf[Pos(s.cap, tail + k.i)]
      case Full(item) => s.(consumer := NextPeek(k, k.acc + [item], k.tickets + [tail + k.i]))
      case _ => s.(consumer := NextPeek(k, k.acc, k.tickets))
  }

  /** One scheduling step; an event that is not enabled leaves the state alone. */
  function Next<T>(s: State<T>, e: Event<T>): (s': State<T>)
    requires Shape(s)
    ensures Shape(s') && s'.cap == s.cap
  {
    match e
    case Push(pid, item) => if Pc(s, pid).PIdle? then Goto(s, pid, PLoadHead(item)) else s
    case Producer(pid) => ProducerStep(s, pid)
    case SpuriousCas(pid) =>
      // compare_exchange_weak may fail although the values are equal
      (match Pc(s, pid)
       case PCas(item, _) => Goto(s, pid, PLoadSeq(item, s.head))
       case _ => s)
    case TryPop => if s.consumer.CIdle? then s.(consumer := CLoadTail) else s
    case TakeSnapshot(max) => if s.consumer.CIdle? then s.(consumer := SizeHead(max)) else s
    case Consumer => ConsumerStep(s)
  }

  function Run<T>(s: State<T>, es: seq<Event<T>>): (s': State<T>)
    requires Shape(s)
    ensures Shape(s') && s'.cap == s.cap
    decreases |es|
  {
    if es == [] then s else Next(Run(s, es[..|es| - 1]), es[|es| - 1])
  }

  // ---------------------------------------------------------------- the invariant

  /** The number of tickets the consumer has handed back to producers. */
  function Released<T>(s: State<T>): nat { |s.popped| }

  ghost predicate Owns<T>(s: State<T>, pid: nat, t: nat) {
    match Pc(s, pid)
    case PWrite(_, ticket) => ticket == t
    case PPublish(_, ticket) => ticket == t
    case _ => false
  }

  /** The item of a published ticket is in its cell, or already in the consumer's hand. */
  ghost predicate Stored<T>(s: State<T>, t: nat)
    requires Shape(s) && t < |s.claims|
  {
    if s.consumer.CRelease? && s.consumer.tail == t then s.consumer.cell == Full(s.claims[t].item)
    else s.buf[Pos(s.cap, t)] == Full(s.claims[t].item)
  }

  /** The slot of a ticket in the current window is free for it, owned by the producer that
      claimed it, or published. */
  ghost predicate SlotOk<T>(s: State<T>, t: nat)
    requires Shape(s) && |s.claims| == s.head
  {
    var q := s.seqs[Pos(s.cap, t)];
    if t >= s.head then q == t
    else (q == t && Owns(s, s.claims[t].pid, t)) || (q == t + 1 && Stored(s, t))
  }

  /** The tickets from `h` on were won by other producers. */
  ghost predicate LostSince<T>(s: State<T>, pid: nat, h: nat) {
    forall k :: h <= k < |s.claims| ==> s.claims[k].pid != pid
  }

  ghost predicate ProducerOk<T>(s: State<T>, pid: nat)
    requires Shape(s) && |s.claims| == s.head
  {
    match Pc(s, pid)
    case PIdle(Pushed(t)) => t < s.head && s.claims[t].pid == pid
    case PLoadSeq(_, h) => h <= s.head && LostSince(s, pid, h)
    case PCas(_, h) => h <= s.head && LostSince(s, pid, h) && (h == s.head ==> s.head < Released(s) + s.cap)
    case PWrite(x, t) => s.tail <= t < s.head && s.claims[t] == Claim(pid, x) && s.seqs[Pos(s.cap, t)] == t
    case PPublish(x, t) =>
      && s.tail <= t < s.head && s.claims[t] == Claim(pid, x) && s.seqs[Pos(s.cap, t)] == t
      && s.buf[Pos(s.cap, t)] == Full(x)
    case _ => true
  }

  /** What a scan has collected: increasing tickets of the queue with their items, among them
      every ticket that was published when the scan began. */
  ghost predicate ScanOk<T>(s: State<T>, k: Scan<T>)
    requires |s.claims| == s.head
  {
    && k.i <= k.count && s.tail <= k.head <= s.head
    && k.count == (if k.max < k.head - s.tail then k.max else k.head - s.tail)
    && |k.acc| == |k.tickets|
    && (forall j :: 0 <= j < |k.tickets| ==>
          s.tail <= k.tickets[j] < s.tail + k.i && k.acc[j] == s.claims[k.tickets[j]].item)
    && (forall a, b :: 0 <= a < b < |k.tickets| ==> k.tickets[a] < k.tickets[b])
    && (forall t <- k.settled :: s.tail <= t < s.tail + k.count && (t < s.tail + k.i ==> t in k.tickets))
  }

  ghost predicate Published<T>(s: State<T>, t: nat)
    requires Shape(s)
  {
    s.seqs[Pos(s.cap, t)] == t + 1
  }

  ghost predicate SettledPublished<T>(s: State<T>, k: Scan<T>)
    requires Shape(s)
  {
    forall t <- k.settled :: Published(s, t)
  }

  ghost predicate ConsumerOk<T>(s: State<T>)
    requires Shape(s) && |s.claims| == s.head
  {
    match s.consumer
    case CRetry => false
    case CLoadSeq(t) => t == s.tail
    case CStoreTail(t) => t == s.tail < s.head && s.seqs[Pos(s.cap, t)] == t + 1
    case CMoveOut(t) => s.tail == t + 1 && s.seqs[Pos(s.cap, t)] == t + 1
    case CRelease(t, c) => s.tail == t + 1 && s.seqs[Pos(s.cap, t)] == t + 1
    case SizeTail(_, h) => s.tail <= h <= s.head
    case PeekTail(k) => k.i < k.count && ScanOk(s, k) && SettledPublished(s, k)
    case PeekHead(k, t) => t == s.tail && k.i < k.count && ScanOk(s, k) && SettledPublished(s, k)
    case PeekSeq(k, t) => t == s.tail && k.i < k.count && ScanOk(s, k) && SettledPublished(s, k)
    case PeekRead(k, t) =>
      t == s.tail && k.i < k.count && ScanOk(s, k) && SettledPublished(s, k) && Published(s, t + k.i)
    case CIdle(Snapshot(k)) => k.i == k.count && ScanOk(s, k)
    case _ => true
  }

  /** Tickets move from `head` to claims, and from the front of the claims to `popped`. */
  ghost predicate CountersOk<T>(s: State<T>) {
    && s.cap >= 2 && Shape(s)
    && |s.claims| == s.head
    && s.tail == Released(s) + (if s.consumer.CMoveOut? || s.consumer.CRelease? then 1 else 0)
    && s.tail <= s.head <= Released(s) + s.cap
  }

  ghost predicate Inv<T>(s: State<T>) {
    && CountersOk(s)
    && (forall t :: Released(s) <= t < Released(s) + s.cap ==> SlotOk(s, t))
    && (forall pid: nat :: ProducerOk(s, pid))
    && ConsumerOk(s)
    && (forall k :: 0 <= k < |s.popped| ==> s.popped[k] == Full(s.claims[k].item))
  }

  // ---------------------------------------------------------------- every step keeps it

  /** Two tickets less than a capacity apart never share a slot. */
  lemma PosDiffer(cap: nat, a: nat, b: nat)
    requires cap > 0 && a < b < a + cap
    ensures Pos(cap, a) != Pos(cap, b)
  {
    var q, r := a / cap, a % cap;
    if r + (b - a) < cap {
      DivModUnique(b, cap, q, r + (b - a));
    } else {
      assert (q + 1) * cap == q * cap + cap;
      DivModUnique(b, cap, q + 1, r + (b - a) - cap);
    }
  }

  lemma PosPeriod(cap: nat, a: nat)
    requires cap > 0
    ensures Pos(cap, a + cap) == Pos(cap, a)
  {
    var q := a / cap;
    assert (q + 1) * cap == q * cap + cap;
    DivModUnique(a + cap, cap, q + 1, a % cap);
  }

  /** Within the window, no other ticket has the slot of `t`. */
  lemma SlotIsOnly(cap: nat, lo: nat, t: nat)
    requires cap > 0 && lo <= t < lo + cap
    ensures forall a: nat :: lo <= a < lo + cap && a != t ==> Pos(cap, a) != Pos(cap, t)
  {
    forall a: nat | lo <= a < lo + cap && a != t ensures Pos(cap, a) != Pos(cap, t) {
      if a < t { PosDiffer(cap, a, t); } else { PosDiffer(cap, t, a); }
    }
  }

  /** A sequence number seen at a slot, against any ticket `h` not above `head`. */
  lemma SeqVersusTicket<T>(s: State<T>, h: nat)
    requires Inv(s) && h <= s.head
    ensures var q := s.seqs[Pos(s.cap, h)];
            && (q < h <==> h == s.head == Released(s) + s.cap)
            && (q == h && h == s.head ==> s.head < Released(s) + s.cap)
  {
    var r := Released(s);
    if h == r + s.cap {
      PosPeriod(s.cap, r);
      assert SlotOk(s, r);
    } else if r <= h {
      assert SlotOk(s, h);
    } else {
      BelowWindow(s, h);
    }
  }

  /** The slot of an already released ticket carries a later ticket's number. */
  lemma BelowWindow<T>(s: State<T>, h: nat)
    requires Inv(s) && h < Released(s)
    ensures s.seqs[Pos(s.cap, h)] > h
    decreases Released(s) - h
  {
    PosPeriod(s.cap, h);
    if h + s.cap < Released(s) {
      BelowWindow(s, h + s.cap);
    } else {
      assert SlotOk(s, h + s.cap);
    }
  }

  /** A step that leaves memory alone and drops no ownership keeps every slot as it was. */
  lemma KeepSlots<T>(s: State<T>, s': State<T>)
    requires Inv(s)
    requires s' == s.(producers := s'.producers)
          || (s' == s.(consumer := s'.consumer) && !s.consumer.CRelease? && !s'.consumer.CRelease?)
    requires forall q: nat, t: nat :: Owns(s, q, t) ==> Owns(s', q, t)
    ensures forall t :: Released(s') <= t < Released(s') + s'.cap ==> SlotOk(s', t)
  {
    forall t | Released(s') <= t < Released(s') + s'.cap ensures SlotOk(s', t) { assert SlotOk(s, t); }
  }

  lemma PrivateSlots<T>(s: State<T>, pid: nat, pc: Producer<T>)
    requires Inv(s) && forall t: nat :: !Owns(s, pid, t)
    ensures var s' := Goto(s, pid, pc);
            forall t :: Released(s') <= t < Released(s') + s'.cap ==> SlotOk(s', t)
  {
    var s' := Goto(s, pid, pc);
    forall q: nat, t: nat | Owns(s, q, t) ensures Owns(s', q, t) { assert q != pid; }
    KeepSlots(s, s');
  }

  lemma PrivateProducers<T>(s: State<T>, pid: nat, pc: Producer<T>)
    requires Inv(s)
    requires var s' := Goto(s, pid, pc); CountersOk(s') && ProducerOk(s', pid)
    ensures forall q: nat :: ProducerOk(Goto(s, pid, pc), q)
  {
    var s' := Goto(s, pid, pc);
    forall q: nat ensures ProducerOk(s', q) {
      assert ProducerOk(s, q);
      assert q != pid ==> Pc(s', q) == Pc(s, q);
    }
  }

  lemma PrivateConsumer<T>(s: State<T>, pid: nat, pc: Producer<T>)
    requires Inv(s)
    ensures ConsumerOk(Goto(s, pid, pc))
  {
  }

  /** A producer that neither gains nor drops a ticket only has to be in order itself. */
  lemma StepPrivate<T>(s: State<T>, pid: nat, pc: Producer<T>)
    requires Inv(s) && forall t: nat :: !Owns(s, pid, t)
    requires var s' := Goto(s, pid, pc); CountersOk(s') && ProducerOk(s', pid)
    ensures Inv(Goto(s, pid, pc))
  {
    PrivateSlots(s, pid, pc);
    PrivateProducers(s, pid, pc);
    PrivateConsumer(s, pid, pc);
  }

  lemma StepPush<T>(s: State<T>, pid: nat, item: T)
    requires Inv(s)
    ensures Inv(Next(s, Event.Push(pid, item)))
  {
    if Pc(s, pid).PIdle? { StepPrivate(s, pid, PLoadHead(item)); }
  }

  lemma StepSpurious<T>(s: State<T>, pid: nat)
    requires Inv(s)
    ensures Inv(Next(s, SpuriousCas(pid)))
  {
    if Pc(s, pid).PCas? { StepPrivate(s, pid, PLoadSeq(Pc(s, pid).item, s.head)); }
  }

  lemma StepProducerLoad<T>(s: State<T>, pid: nat)
    requires Inv(s) && (Pc(s, pid).PLoadHead? || Pc(s, pid).PLoadSeq?)
    ensures Inv(ProducerStep(s, pid))
  {
    assert ProducerOk(s, pid);
    if Pc(s, pid).PLoadSeq? { SeqVersusTicket(s, Pc(s, pid).head); }
    StepPrivate(s, pid, Pc(ProducerStep(s, pid), pid));
  }

  lemma StepProducerCas<T>(s: State<T>, pid: nat)
    requires Inv(s) && Pc(s, pid).PCas?
    ensures Inv(ProducerStep(s, pid))
  {
    assert ProducerOk(s, pid);
    if Pc(s, pid).head != s.head {
      StepPrivate(s, pid, PLoadSeq(Pc(s, pid).item, s.head));
    } else {
      ClaimSlots(s, pid);
      ClaimProducers(s, pid);
      ClaimConsumer(s, pid);
    }
  }

  lemma ClaimSlots<T>(s: State<T>, pid: nat)
    requires Inv(s) && Pc(s, pid).PCas? && Pc(s, pid).head == s.head
    ensures var s' := ProducerStep(s, pid);
            CountersOk(s') && forall t :: Released(s') <= t < Released(s') + s'.cap ==> SlotOk(s', t)
  {
    assert ProducerOk(s, pid);
    var s' := ProducerStep(s, pid);
    forall t | Released(s') <= t < Released(s') + s'.cap ensures SlotOk(s', t) { assert SlotOk(s, t); }
  }

  lemma ClaimProducers<T>(s: State<T>, pid: nat)
    requires Inv(s) && Pc(s, pid).PCas? && Pc(s, pid).head == s.head
    ensures var s' := ProducerStep(s, pid);
            |s'.claims| == s'.head && forall q: nat :: ProducerOk(s', q)
  {
    assert ProducerOk(s, pid);
    assert SlotOk(s, s.head);
    var s' := ProducerStep(s, pid);
    forall q: nat ensures ProducerOk(s', q) {
      assert ProducerOk(s, q);
      if q != pid { assert Pc(s', q) == Pc(s, q); }
    }
  }

  lemma ClaimConsumer<T>(s: State<T>, pid: nat)
    requires Inv(s) && Pc(s, pid).PCas? && Pc(s, pid).head == s.head
    ensures var s' := ProducerStep(s, pid);
            && |s'.claims| == s'.head && ConsumerOk(s')
            && forall k :: 0 <= k < |s'.popped| ==> s'.popped[k] == Full(s'.claims[k].item)
  {
    var s' := ProducerStep(s, pid);
    ScanGrows(s, s');
  }

  /** A snapshot in progress does not mind a further claim. */
  lemma ScanGrows<T>(s: State<T>, s': State<T>)
    requires |s.claims| == s.head && |s'.claims| == s'.head && s'.tail == s.tail && s.claims <= s'.claims
    ensures forall k: Scan<T> {:trigger ScanOk(s', k)} :: ScanOk(s, k) ==> ScanOk(s', k)
  {
  }

  lemma WriteSlots<T>(s: State<T>, pid: nat)
    requires Inv(s) && Pc(s, pid).PWrite?
    ensures var s' := ProducerStep(s, pid);
            |s'.claims| == s'.head && forall t :: Released(s') <= t < Released(s') + s'.cap ==> SlotOk(s', t)
  {
    var s' := ProducerStep(s, pid);
    assert ProducerOk(s, pid);
    SlotIsOnly(s.cap, Released(s), Pc(s, pid).ticket);
    forall t | Released(s') <= t < Released(s') + s'.cap ensures SlotOk(s', t) { assert SlotOk(s, t); }
  }

  lemma WriteProducers<T>(s: State<T>, pid: nat)
    requires Inv(s) && Pc(s, pid).PWrite?
    ensures var s' := ProducerStep(s, pid);
            |s'.claims| == s'.head && forall q: nat :: ProducerOk(s', q)
  {
    var s' := ProducerStep(s, pid);
    assert ProducerOk(s, pid);
    SlotIsOnly(s.cap, Released(s), Pc(s, pid).ticket);
    forall q: nat ensures ProducerOk(s', q) { assert ProducerOk(s, q); }
  }

  lemma WriteConsumer<T>(s: State<T>, pid: nat)
    requires Inv(s) && Pc(s, pid).PWrite?
    ensures CountersOk(ProducerStep(s, pid)) && ConsumerOk(ProducerStep(s, pid))
  {
  }

  lemma StepProducerWrite<T>(s: State<T>, pid: nat)
    requires Inv(s) && Pc(s, pid).PWrite?
    ensures Inv(ProducerStep(s, pid))
  {
    WriteSlots(s, pid);
    WriteProducers(s, pid);
    WriteConsumer(s, pid);
  }

  lemma StepProducerPublish<T>(s: State<T>, pid: nat)
    requires Inv(s) && Pc(s, pid).PPublish?
    ensures Inv(ProducerStep(s, pid))
  {
    assert ProducerOk(s, pid);
    PublishSlots(s, pid);
    PublishProducers(s, pid);
    PublishConsumer(s, pid);
  }

  lemma StaysPublished<T>(s: State<T>, pid: nat, t: nat)
    requires Inv(s) && Pc(s, pid).PPublish? && Released(s) <= t < s.head && Published(s, t)
    ensures Published(ProducerStep(s, pid), t)
  {
    assert ProducerOk(s, pid);
    SlotIsOnly(s.cap, Released(s), Pc(s, pid).ticket);
  }

  lemma PublishScan<T>(s: State<T>, pid: nat, k: Scan<T>)
    requires Inv(s) && Pc(s, pid).PPublish? && ScanOk(s, k) && SettledPublished(s, k)
    ensures ScanOk(ProducerStep(s, pid), k) && SettledPublished(ProducerStep(s, pid), k)
  {
    forall t | t in k.settled ensures Published(ProducerStep(s, pid), t) { StaysPublished(s, pid, t); }
  }

  lemma PublishPeeker<T>(s: State<T>, pid: nat)
    requires Inv(s) && Pc(s, pid).PPublish?
    requires s.consumer.PeekTail? || s.consumer.PeekHead? || s.consumer.PeekSeq? || s.consumer.PeekRead?
    ensures ConsumerOk(ProducerStep(s, pid))
  {
    PublishScan(s, pid, s.consumer.scan);
    if s.consumer.PeekRead? { StaysPublished(s, pid, s.consumer.tail + s.consumer.scan.i); }
  }

  lemma PublishPopper<T>(s: State<T>, pid: nat)
    requires Inv(s) && Pc(s, pid).PPublish? && (s.consumer.CStoreTail? || s.consumer.CMoveOut? || s.consumer.CRelease?)
    ensures ConsumerOk(ProducerStep(s, pid))
  {
    StaysPublished(s, pid, s.consumer.tail);
  }

  lemma PublishConsumer<T>(s: State<T>, pid: nat)
    requires Inv(s) && Pc(s, pid).PPublish?
    ensures CountersOk(ProducerStep(s, pid)) && ConsumerOk(ProducerStep(s, pid))
  {
    if s.consumer.CStoreTail? || s.consumer.CMoveOut? || s.consumer.CRelease? {
      PublishPopper(s, pid);
    } else if s.consumer.PeekTail? || s.consumer.PeekHead? || s.consumer.PeekSeq? || s.consumer.PeekRead? {
      PublishPeeker(s, pid);
    }
  }

  lemma PublishSlots<T>(s: State<T>, pid: nat)
    requires Inv(s) && Pc(s, pid).PPublish?
    ensures var s' := ProducerStep(s, pid);
            |s'.claims| == s'.head && forall t :: Released(s') <= t < Released(s') + s'.cap ==> SlotOk(s', t)
  {
    var s' := ProducerStep(s, pid);
    assert ProducerOk(s, pid);
    var me := Pc(s, pid).ticket;
    SlotIsOnly(s.cap, Released(s), me);
    forall t | Released(s') <= t < Released(s') + s'.cap ensures SlotOk(s', t) {
      assert SlotOk(s, t);
      if t != me { assert s'.seqs[Pos(s.cap, t)] == s.seqs[Pos(s.cap, t)]; }
    }
  }

  lemma PublishProducers<T>(s: State<T>, pid: nat)
    requires Inv(s) && Pc(s, pid).PPublish?
    ensures var s' := ProducerStep(s, pid);
            |s'.claims| == s'.head && forall q: nat :: ProducerOk(s', q)
  {
    var s' := ProducerStep(s, pid);
    assert ProducerOk(s, pid);
    var me := Pc(s, pid).ticket;
    SlotIsOnly(s.cap, Released(s), me);
    forall q: nat ensures ProducerOk(s', q) {
      assert ProducerOk(s, q);
      if q != pid && (Pc(s, q).PWrite? || Pc(s, q).PPublish?) {
        assert Pc(s, q).ticket != me;
      }
    }
  }

  lemma StepConsumerPop<T>(s: State<T>)
    requires Inv(s)
    requires s.consumer.CIdle? || s.consumer.CLoadTail? || s.consumer.CLoadSeq? || s.consumer.CStoreTail?
    ensures Inv(ConsumerStep(s))
  {
    var s' := ConsumerStep(s);
    if s.consumer.CLoadSeq? { assert SlotOk(s, s.tail); }
    forall t | Released(s') <= t < Released(s') + s'.cap ensures SlotOk(s', t) { assert SlotOk(s, t); }
    forall q: nat ensures ProducerOk(s', q) {
      assert ProducerOk(s, q);
      if s.consumer.CStoreTail? { SlotIsOnly(s.cap, Released(s), s.tail); }
    }
  }

  lemma StepConsumerMoveOut<T>(s: State<T>)
    requires Inv(s) && s.consumer.CMoveOut?
    ensures Inv(ConsumerStep(s))
  {
    var s' := ConsumerStep(s);
    SlotIsOnly(s.cap, Released(s), Released(s));
    assert SlotOk(s, Released(s));
    forall t | Released(s') <= t < Released(s') + s'.cap ensures SlotOk(s', t) { assert SlotOk(s, t); }
    forall q: nat ensures ProducerOk(s', q) { assert ProducerOk(s, q); }
  }

  lemma StepConsumerRelease<T>(s: State<T>)
    requires Inv(s) && s.consumer.CRelease?
    ensures Inv(ConsumerStep(s))
  {
    var s' := ConsumerStep(s);
    var r := Released(s);
    SlotIsOnly(s.cap, r, r);
    PosPeriod(s.cap, r);
    assert SlotOk(s, r);
    forall t | Released(s') <= t < Released(s') + s'.cap ensures SlotOk(s', t) {
      if t < r + s.cap { assert SlotOk(s, t); }
    }
    forall q: nat ensures ProducerOk(s', q) { assert ProducerOk(s, q); }
  }

  /** A consumer step that touches no memory keeps the invariant if its own part holds. */
  lemma StepReader<T>(s: State<T>, pc: Consumer<T>)
    requires Inv(s) && !s.consumer.CMoveOut? && !s.consumer.CRelease? && !pc.CMoveOut? && !pc.CRelease?
    requires var s' := s.(consumer := pc); CountersOk(s') && ConsumerOk(s')
    ensures Inv(s.(consumer := pc))
  {
    var s' := s.(consumer := pc);
    KeepSlots(s, s');
    forall q: nat ensures ProducerOk(s', q) { assert ProducerOk(s, q); }
  }

  lemma StepConsumerSize<T>(s: State<T>)
    requires Inv(s) && (s.consumer.SizeHead? || s.consumer.SizeTail?)
    ensures Inv(ConsumerStep(s))
  {
    StepReader(s, ConsumerStep(s).consumer);
  }

  lemma ScanSkip<T>(s: State<T>, k: Scan<T>)
    requires Inv(s) && k.i < k.count && ScanOk(s, k) && SettledPublished(s, k) && !Published(s, s.tail + k.i)
    ensures var k' := k.(i := k.i + 1); ScanOk(s, k') && SettledPublished(s, k')
  {
  }

  lemma ScanTake<T>(s: State<T>, k: Scan<T>)
    requires Inv(s) && k.i < k.count && ScanOk(s, k) && SettledPublished(s, k)
    ensures var t := s.tail + k.i;
            var k' := k.(i := k.i + 1, acc := k.acc + [s.claims[t].item], tickets := k.tickets + [t]);
            ScanOk(s, k') && SettledPublished(s, k')
  {
    var t := s.tail + k.i;
    var k' := k.(i := k.i + 1, acc := k.acc + [s.claims[t].item], tickets := k.tickets + [t]);
    assert k'.tickets[|k.tickets|] == t;
    forall u | u in k.settled && u < s.tail + k'.i ensures u in k'.tickets {
      assert u == t || u in k.tickets;
    }
  }

  lemma StepPeekSkip<T>(s: State<T>, k: Scan<T>)
    requires Inv(s) && !s.consumer.CMoveOut? && !s.consumer.CRelease?
    requires k.i < k.count && ScanOk(s, k) && SettledPublished(s, k) && !Published(s, s.tail + k.i)
    ensures Inv(s.(consumer := NextPeek(k, k.acc, k.tickets)))
  {
    ScanSkip(s, k);
    StepReader(s, NextPeek(k, k.acc, k.tickets));
  }

  lemma StepPeekTake<T>(s: State<T>, k: Scan<T>)
    requires Inv(s) && !s.consumer.CMoveOut? && !s.consumer.CRelease?
    requires k.i < k.count && ScanOk(s, k) && SettledPublished(s, k)
    ensures Inv(s.(consumer := NextPeek(k, k.acc + [s.claims[s.tail + k.i].item], k.tickets + [s.tail + k.i])))
  {
    ScanTake(s, k);
    StepReader(s, NextPeek(k, k.acc + [s.claims[s.tail + k.i].item], k.tickets + [s.tail + k.i]));
  }

  lemma StepPeekHit<T>(s: State<T>)
    requires Inv(s) && s.consumer.PeekSeq? && Published(s, s.tail + s.consumer.scan.i)
    ensures Inv(s.(consumer := PeekRead(s.consumer.scan, s.tail)))
  {
    StepReader(s, PeekRead(s.consumer.scan, s.tail));
  }

  lemma PeekSeqExact<T>(s: State<T>)
    requires Inv(s) && s.consumer.PeekSeq?
    ensures var k, t := s.consumer.scan, s.tail + s.consumer.scan.i;
            ConsumerStep(s).consumer ==
              if Published(s, t) then PeekRead(k, s.tail) else NextPeek(k, k.acc, k.tickets)
  {
    assert SlotOk(s, s.tail + s.consumer.scan.i);
  }

  lemma PeekReadExact<T>(s: State<T>)
    requires Inv(s) && s.consumer.PeekRead?
    ensures var k, t := s.consumer.scan, s.tail + s.consumer.scan.i;
            && t < |s.claims|
            && ConsumerStep(s).consumer == NextPeek(k, k.acc + [s.claims[t].item], k.tickets + [t])
  {
    assert SlotOk(s, s.tail + s.consumer.scan.i);
  }

  lemma StepPeekSeq<T>(s: State<T>)
    requires Inv(s) && s.consumer.PeekSeq?
    ensures Inv(ConsumerStep(s))
  {
    var k, tail := s.consumer.scan, s.consumer.tail;
    PeekSeqExact(s);
    if Published(s, tail + k.i) { StepPeekHit(s); } else { StepPeekSkip(s, k); }
  }

  lemma StepPeekRead<T>(s: State<T>)
    requires Inv(s) && s.consumer.PeekRead?
    ensures Inv(ConsumerStep(s))
  {
    PeekReadExact(s);
    StepPeekTake(s, s.consumer.scan);
  }

  lemma StepPeekLoad<T>(s: State<T>)
    requires Inv(s) && (s.consumer.PeekTail? || s.consumer.PeekHead?)
    ensures Inv(ConsumerStep(s))
  {
    StepReader(s, if s.consumer.PeekTail? then PeekHead(s.consumer.scan, s.tail) else PeekSeq(s.consumer.scan, s.tail));
  }

  /** Every scheduling step keeps the invariant. */
  lemma StepInv<T>(s: State<T>, e: Event<T>)
    requires Inv(s)
    ensures Inv(Next(s, e))
  {
    match e
    case Push(pid, item) => StepPush(s, pid, item);
    case SpuriousCas(pid) => StepSpurious(s, pid);
    case Producer(pid) =>
      match Pc(s, pid) {
        case PIdle(_) =>
        case PLoadHead(_) => StepProducerLoad(s, pid);
        case PLoadSeq(_, _) => StepProducerLoad(s, pid);
        case PCas(_, _) => StepProducerCas(s, pid);
        case PWrite(_, _) => StepProducerWrite(s, pid);
        case PPublish(_, _) => StepProducerPublish(s, pid);
      }
    case TryPop => if s.consumer.CIdle? { StepReader(s, CLoadTail); }
    case TakeSnapshot(max) => if s.consumer.CIdle? { StepReader(s, SizeHead(max)); }
    case Consumer =>
      if s.consumer.CMoveOut? { StepConsumerMoveOut(s); }
      else if s.consumer.CRelease? { StepConsumerRelease(s); }
      else if s.consumer.SizeHead? || s.consumer.SizeTail? { StepConsumerSize(s); }
      else if s.consumer.PeekTail? || s.consumer.PeekHead? { StepPeekLoad(s); }
      else if s.consumer.PeekSeq? { StepPeekSeq(s); }
      else if s.consumer.PeekRead? { StepPeekRead(s); }
      else { StepConsumerPop(s); }
  }

  lemma {:induction false} RunInv<T>(s: State<T>, es: seq<Event<T>>)
    requires Inv(s)
    ensures Inv(Run(s, es))
    decreases |es|
  {
    if es != [] {
      RunInv(s, es[..|es| - 1]);
      StepInv(Run(s, es[..|es| - 1]), es[|es| - 1]);
    }
  }

  lemma InitInv<T>(cap: nat)
    requires cap >= 2
    ensures Inv(Init<T>(cap))
  {
    var s := Init<T>(cap);
    forall t | Released(s) <= t < Released(s) + cap ensures SlotOk(s, t) {
      DivModUnique(t, cap, 0, t);
    }
  }

  /** What holds in every interleaving from the constructor's state. */
  ghost predicate Reachable<T(!new)>(s: State<T>) {
    exists cap: nat, es: seq<Event<T>> :: cap >= 2 && s == Run(Init<T>(cap), es)
  }

  lemma ReachableInv<T(!new)>(s: State<T>)
    requires Reachable(s)
    ensures Inv(s)
  {
    var cap: nat, es: seq<Event<T>> :| cap >= 2 && s == Run(Init<T>(cap), es);
    InitInv<T>(cap);
    RunInv(Init<T>(cap), es);
  }

  // ---------------------------------------------------------------- what the queue promises

  /** The slot a thread is about to read or write without synchronisation. */
  function ProducerTouches<T>(s: State<T>, pid: nat): set<nat>
    requires Shape(s)
  {
    match Pc(s, pid)
    case PWrite(_, t) => {Pos(s.cap, t)}
    case _ => {}
  }

  function ConsumerTouches<T>(s: State<T>): set<nat>
    requires Shape(s)
  {
    match s.consumer
    case CMoveOut(t) => {Pos(s.cap, t)}
    case PeekRead(k, t) => {Pos(s.cap, t + k.i)}
    case _ => {}
  }

  lemma ProducersApart<T(!new)>(s: State<T>, p: nat, q: nat)
    requires Inv(s) && p != q
    ensures ProducerTouches(s, p) !! ProducerTouches(s, q)
  {
    assert ProducerOk(s, p) && ProducerOk(s, q);
    match Pc(s, p) {
      case PWrite(_, t) => SlotIsOnly(s.cap, Released(s), t);
      case _ =>
    }
  }

  lemma ProducerAndConsumerApart<T(!new)>(s: State<T>, p: nat)
    requires Inv(s)
    ensures ProducerTouches(s, p) !! ConsumerTouches(s)
  {
    assert ProducerOk(s, p);
    match Pc(s, p) {
      case PWrite(_, t) => SlotIsOnly(s.cap, Released(s), t);
      case _ =>
    }
  }

  /** No two threads are ever about to access the same cell, and tickets in use never exceed
      the capacity. */
  lemma NoCellRace<T(!new)>(s: State<T>, p: nat, q: nat)
    requires Reachable(s) && p != q
    ensures ProducerTouches(s, p) !! ProducerTouches(s, q)
    ensures ProducerTouches(s, p) !! ConsumerTouches(s)
    ensures |s.claims| - |s.popped| <= s.cap
  {
    ReachableInv(s);
    ProducersApart(s, p, q);
    ProducerAndConsumerApart(s, p);
  }

  /** Every ticket in the window has exactly one owner: nobody, its claimant, or the queue. */
  lemma SlotOwnership<T(!new)>(s: State<T>, t: nat)
    requires Reachable(s) && |s.popped| <= t < |s.popped| + s.cap
    ensures t >= s.head ==> s.seqs[Pos(s.cap, t)] == t && forall p: nat :: !Owns(s, p, t)
    ensures t < s.head ==> (!Published(s, t) <==> exists p: nat :: Owns(s, p, t))
    ensures forall p: nat, q: nat :: Owns(s, p, t) && Owns(s, q, t) ==> p == q
  {
    ReachableInv(s);
    assert SlotOk(s, t);
    forall p: nat | Owns(s, p, t) ensures t < s.head && s.claims[t].pid == p && !Published(s, t) {
      assert ProducerOk(s, p);
    }
  }

  /** Nothing lost, duplicated or reordered: the pops so far are a prefix of the pushes in
      ticket order. */
  lemma PopsArePrefixOfPushes<T(!new)>(s: State<T>)
    requires Reachable(s)
    ensures |s.popped| <= |s.claims|
    ensures forall k :: 0 <= k < |s.popped| ==> s.popped[k] == Full(s.claims[k].item)
  {
    ReachableInv(s);
  }

  /** A published item stays in its cell, untouched, until the consumer takes it. */
  lemma PublishedIsNotOverwritten<T(!new)>(s: State<T>, e: Event<T>, t: nat)
    requires Reachable(s) && s.tail <= t < s.head && Published(s, t)
    ensures t < |s.claims| && s.buf[Pos(s.cap, t)] == Full(s.claims[t].item)
    ensures var s' := Next(s, e);
            s'.tail <= t ==> Published(s', t) && s'.buf[Pos(s.cap, t)] == s.buf[Pos(s.cap, t)]
  {
    ReachableInv(s);
    assert SlotOk(s, t);
    SlotIsOnly(s.cap, Released(s), t);
    if e.Producer? {
      assert ProducerOk(s, e.pid);
    }
  }

  /** The sequence test of PushImpl, taken at the moment of its load, is exact: it says "full"
      just when the local head is current and a whole capacity of tickets is out, and it says
      "free" for a current head just when there is room. */
  lemma PushVerdictExact<T(!new)>(s: State<T>, pid: nat)
    requires Reachable(s) && Pc(s, pid).PLoadSeq?
    ensures var h := Pc(s, pid).head;
            var pc' := Pc(Next(s, Event.Producer(pid)), pid);
            && h <= s.head
            && (pc' == PIdle(Rejected) <==> h == s.head && |s.claims| - |s.popped| == s.cap)
            && (h == s.head && |s.claims| - |s.popped| < s.cap ==> pc'.PCas?)
            && (pc'.PLoadHead? ==> h < s.head)
  {
    ReachableInv(s);
    assert ProducerOk(s, pid);
    SeqVersusTicket(s, Pc(s, pid).head);
    if Pc(s, pid).head == s.head && s.head < Released(s) + s.cap {
      assert SlotOk(s, s.head);
    }
  }

  /** A producer goes round its loop again only because the head moved on after it was read, that
      is because another push won a ticket (or the weak exchange failed spuriously). */
  lemma RetryMeansProgressElsewhere<T(!new)>(s: State<T>, pid: nat)
    requires Reachable(s) && (Pc(s, pid).PLoadSeq? || Pc(s, pid).PCas?)
    ensures var h := Pc(s, pid).head;
            var pc' := Pc(Next(s, Event.Producer(pid)), pid);
            pc'.PLoadHead? || pc'.PLoadSeq? ==> h < |s.claims| && s.claims[h].pid != pid
  {
    ReachableInv(s);
    assert ProducerOk(s, pid);
    SeqVersusTicket(s, Pc(s, pid).head);
    if Pc(s, pid).head == s.head && s.head < Released(s) + s.cap { assert SlotOk(s, s.head); }
  }

  /** TryPop's test is exact as well, and its retry branch is never taken. */
  lemma PopVerdictExact<T(!new)>(s: State<T>)
    requires Reachable(s)
    ensures !s.consumer.CRetry?
    ensures s.consumer.CLoadSeq? ==>
              var c' := Next(s, Event.Consumer).consumer;
              && (c' == CIdle(Nothing) <==> !Published(s, s.tail))
              && (c' == CStoreTail(s.tail) <==> Published(s, s.tail))
  {
    ReachableInv(s);
    assert SlotOk(s, s.tail);
  }

  /** What a pop answers: the call that took ticket k, as the k-th of its kind, returns the item of
      the push that won ticket k, and that is what the history records. */
  lemma PopAnswersItsItem<T(!new)>(s: State<T>)
    requires Reachable(s) && s.consumer.CRelease?
    ensures |s.popped| < |s.claims|
    ensures var s', item := Next(s, Event.Consumer), s.claims[|s.popped|].item;
            s'.consumer == CIdle(Popped(Full(item))) && s'.popped == s.popped + [Full(item)]
  {
    ReachableInv(s);
    assert SlotOk(s, s.consumer.tail);
  }

  /** What a push answers: the call that won ticket t reports t, and from then on the ticket is
      published with the item of the call. */
  lemma PushAnswersItsTicket<T(!new)>(s: State<T>, pid: nat)
    requires Reachable(s) && Pc(s, pid).PPublish?
    ensures var s', t := Next(s, Event.Producer(pid)), Pc(s, pid).ticket;
            && Pc(s', pid) == PIdle(Pushed(t)) && Published(s', t)
            && t < |s.claims| && s.claims[t] == Claim(pid, Pc(s, pid).item)
            && s'.buf[Pos(s.cap, t)] == Full(Pc(s, pid).item)
  {
    ReachableInv(s);
    assert ProducerOk(s, pid);
  }

  /** The same thread takes `n` steps in a row. */
  function Steps<T>(s: State<T>, e: Event<T>, n: nat): (s': State<T>)
    requires Shape(s)
    ensures Shape(s') && s'.cap == s.cap
    decreases n
  {
    if n == 0 then s else Steps(Next(s, e), e, n - 1)
  }

  lemma FirstStep<T>(s: State<T>, e: Event<T>, n: nat, s1: State<T>)
    requires Shape(s) && n > 0 && s1 == Next(s, e)
    ensures Steps(s, e, n) == Steps(s1, e, n - 1)
  {
  }

  lemma LoadStep<T>(s: State<T>)
    requires Shape(s) && s.seqs[Pos(s.cap, s.tail)] == s.tail + 1
    ensures s.consumer == CLoadTail ==> Next(s, Event<T>.Consumer) == s.(consumer := CLoadSeq(s.tail))
    ensures s.consumer == CLoadSeq(s.tail) ==> Next(s, Event<T>.Consumer) == s.(consumer := CStoreTail(s.tail))
  {
  }

  lemma PopSteps<T>(s: State<T>, item: T)
    requires Shape(s) && s.consumer == CLoadTail
    requires s.seqs[Pos(s.cap, s.tail)] == s.tail + 1 && s.buf[Pos(s.cap, s.tail)] == Full(item)
    ensures var s' := Steps(s, Event<T>.Consumer, 5);
            s'.tail == s.tail + 1 && s'.consumer == CIdle(Popped(Full(item)))
  {
    var c := Event<T>.Consumer;
    var s1, s2 := s.(consumer := CLoadSeq(s.tail)), s.(consumer := CStoreTail(s.tail));
    LoadStep(s);
    FirstStep(s, c, 5, s1);
    LoadStep(s1);
    FirstStep(s1, c, 4, s2);
    TakeSteps(s2, s.tail, item);
  }

  lemma TakeSteps<T>(s: State<T>, t: nat, item: T)
    requires Shape(s) && s.consumer == CStoreTail(t) && s.buf[Pos(s.cap, t)] == Full(item)
    ensures var s' := Steps(s, Event<T>.Consumer, 3);
            s'.tail == t + 1 && s'.consumer == CIdle(Popped(Full(item)))
  {
    var c := Event<T>.Consumer;
    var s1 := s.(tail := t + 1, consumer := CMoveOut(t));
    assert Steps(s, c, 3) == Steps(s1, c, 2);
    var s2 := Next(s1, c);
    assert s2.consumer == CRelease(t, Full(item)) && s2.tail == t + 1;
    assert Steps(s1, c, 2) == Steps(s2, c, 1) == Next(s2, c);
  }

  /** A pop that nobody disturbs takes the item of the next ticket if that is published, and answers
      nothing and changes nothing else otherwise. */
  lemma UndisturbedPop<T(!new)>(s: State<T>)
    requires Reachable(s) && s.consumer.CIdle?
    ensures var s1, c := Next(s, TryPop), Event<T>.Consumer;
            && (Published(s, s.tail) ==>
                  && s.tail < |s.claims| && Steps(s1, c, 5).tail == s.tail + 1
                  && Steps(s1, c, 5).consumer == CIdle(Popped(Full(s.claims[s.tail].item))))
            && (!Published(s, s.tail) ==> Steps(s1, c, 2) == s.(consumer := CIdle(Nothing)))
  {
    ReachableInv(s);
    assert SlotOk(s, s.tail);
    if Published(s, s.tail) {
      PopSteps(Next(s, TryPop), s.claims[s.tail].item);
    } else {
      EmptySteps(Next(s, TryPop));
    }
  }

  lemma EmptySteps<T>(s: State<T>)
    requires Shape(s) && s.consumer == CLoadTail && s.seqs[Pos(s.cap, s.tail)] < s.tail + 1
    ensures Steps(s, Event<T>.Consumer, 2) == s.(consumer := CIdle(Nothing))
  {
    var c := Event<T>.Consumer;
    var s1 := s.(consumer := CLoadSeq(s.tail));
    assert Steps(s, c, 2) == Steps(s1, c, 1) == Next(s1, c);
  }

  lemma ClaimStep<T>(s: State<T>, pid: nat, item: T)
    requires Shape(s) && s.seqs[Pos(s.cap, s.head)] == s.head
    ensures var s' := Next(s, Event<T>.Producer(pid));
            && (Pc(s, pid) == PLoadHead(item) ==> s' == Goto(s, pid, PLoadSeq(item, s.head)))
            && (Pc(s, pid) == PLoadSeq(item, s.head) ==> s' == Goto(s, pid, PCas(item, s.head)))
            && (Pc(s, pid) == PCas(item, s.head) ==>
                  s' == Goto(s, pid, PWrite(item, s.head)).(head := s.head + 1,
                                                            claims := s.claims + [Claim(pid, item)]))
  {
  }

  lemma PushSteps<T>(s: State<T>, pid: nat, item: T)
    requires Shape(s) && Pc(s, pid) == PLoadHead(item) && s.seqs[Pos(s.cap, s.head)] == s.head
    ensures var s' := Steps(s, Event<T>.Producer(pid), 5);
            && Pc(s', pid) == PIdle(Pushed(s.head)) && s'.claims == s.claims + [Claim(pid, item)]
            && Published(s', s.head) && s'.buf[Pos(s.cap, s.head)] == Full(item)
  {
    var p, h := Event<T>.Producer(pid), s.head;
    var s1, s2 := Goto(s, pid, PLoadSeq(item, h)), Goto(Goto(s, pid, PLoadSeq(item, h)), pid, PCas(item, h));
    ClaimStep(s, pid, item);
    FirstStep(s, p, 5, s1);
    ClaimStep(s1, pid, item);
    FirstStep(s1, p, 4, s2);
    ClaimStep(s2, pid, item);
    var s3 := Goto(s2, pid, PWrite(item, h)).(head := h + 1, claims := s.claims + [Claim(pid, item)]);
    FirstStep(s2, p, 3, s3);
    WriteSteps(s3, pid, item, h);
  }

  lemma WriteSteps<T>(s: State<T>, pid: nat, item: T, h: nat)
    requires Shape(s) && Pc(s, pid) == PWrite(item, h)
    ensures var s' := Steps(s, Event<T>.Producer(pid), 2);
            && Pc(s', pid) == PIdle(Pushed(h)) && s'.claims == s.claims
            && Published(s', h) && s'.buf[Pos(s.cap, h)] == Full(item)
  {
    var p := Event<T>.Producer(pid);
    var s1 := Next(s, p);
    assert Pc(s1, pid) == PPublish(item, h);
    assert Steps(s, p, 2) == Steps(s1, p, 1) == Next(s1, p);
  }

  lemma FullSteps<T>(s: State<T>, pid: nat, item: T)
    requires Shape(s) && Pc(s, pid) == PLoadHead(item) && s.seqs[Pos(s.cap, s.head)] < s.head
    ensures Steps(s, Event<T>.Producer(pid), 2) == Goto(s, pid, PIdle(Rejected))
  {
    var p := Event<T>.Producer(pid);
    var s1 := Goto(s, pid, PLoadSeq(item, s.head));
    assert Steps(s, p, 2) == Steps(s1, p, 1) == Next(s1, p);
  }

  /** A push that nobody disturbs gets the next ticket while the queue has room, and is rejected and
      changes nothing else when a whole capacity of tickets is out. */
  lemma UndisturbedPush<T(!new)>(s: State<T>, pid: nat, item: T)
    requires Reachable(s) && Pc(s, pid).PIdle?
    ensures var s1, p := Next(s, Event.Push(pid, item)), Event<T>.Producer(pid);
            && (|s.claims| - |s.popped| < s.cap ==>
                  var s' := Steps(s1, p, 5);
                  && Pc(s', pid) == PIdle(Pushed(s.head)) && s'.claims == s.claims + [Claim(pid, item)]
                  && Published(s', s.head) && s'.buf[Pos(s.cap, s.head)] == Full(item))
            && (|s.claims| - |s.popped| == s.cap ==> Steps(s1, p, 2) == Goto(s, pid, PIdle(Rejected)))
  {
    ReachableInv(s);
    SeqVersusTicket(s, s.head);
    var s1 := Next(s, Event.Push(pid, item));
    if s.head < Released(s) + s.cap {
      assert SlotOk(s, s.head);
      PushSteps(s1, pid, item);
    } else {
      FullSteps(s1, pid, item);
    }
  }

  /** Each look of a snapshot is exact too: its index is always within the queue, it takes an item
      just when the ticket is published at the load of its sequence number, and then the item is
      that of the push that won the ticket. */
  lemma PeekVerdictExact<T(!new)>(s: State<T>)
    requires Reachable(s)
    ensures s.consumer.PeekHead? ==> Next(s, Event.Consumer).consumer == PeekSeq(s.consumer.scan, s.tail)
    ensures s.consumer.PeekSeq? ==>
              var k, t := s.consumer.scan, s.tail + s.consumer.scan.i;
              Next(s, Event.Consumer).consumer ==
                if Published(s, t) then PeekRead(k, s.tail) else NextPeek(k, k.acc, k.tickets)
    ensures s.consumer.PeekRead? ==>
              var k, t := s.consumer.scan, s.tail + s.consumer.scan.i;
              && t < |s.claims|
              && Next(s, Event.Consumer).consumer == NextPeek(k, k.acc + [s.claims[t].item], k.tickets + [t])
  {
    ReachableInv(s);
    if s.consumer.PeekSeq? {
      PeekSeqExact(s);
    } else if s.consumer.PeekRead? {
      PeekReadExact(s);
    }
  }

  /** What a snapshot counts on: the number it will look at, and as settled exactly the tickets among
      those that are published when it has read the size. */
  lemma SizeReadExact<T(!new)>(s: State<T>)
    requires Reachable(s) && s.consumer.SizeTail?
    ensures var n, max := s.consumer.head - s.tail, s.consumer.max;
            var c' := Next(s, Event.Consumer).consumer;
            && (c'.CIdle? <==> n == 0 || max == 0)
            && (!c'.CIdle? ==>
                  && c'.PeekTail? && c'.scan.count == (if max < n then max else n) && c'.scan.i == 0
                  && forall t :: t in c'.scan.settled <==> s.tail <= t < s.tail + c'.scan.count && Published(s, t))
  {
    ReachableInv(s);
  }

  /** A finished snapshot has looked at the oldest min(max, size) tickets of the size it read. It
      lists their items in ticket order, without gaps among those that were published when it
      started; with quiet producers it is all of them. */
  lemma SnapshotIsOrderedAndComplete<T(!new)>(s: State<T>)
    requires Reachable(s) && s.consumer.CIdle? && s.consumer.last.Snapshot?
    ensures var k := s.consumer.last.scan;
            && s.tail <= k.head <= |s.claims|
            && k.count == (if k.max < k.head - s.tail then k.max else k.head - s.tail)
            && |k.acc| == |k.tickets| <= k.count
            && (forall j :: 0 <= j < |k.acc| ==>
                  s.tail <= k.tickets[j] < s.tail + k.count && k.acc[j] == s.claims[k.tickets[j]].item)
            && (forall a, b :: 0 <= a < b < |k.tickets| ==> k.tickets[a] < k.tickets[b])
            && (forall t <- k.settled :: t in k.tickets)
            && ((forall t :: s.tail <= t < s.tail + k.count ==> t in k.settled) ==>
                  |k.acc| == k.count && forall j :: 0 <= j < k.count ==> k.acc[j] == s.claims[s.tail + j].item)
  {
    ReachableInv(s);
    var k := s.consumer.last.scan;
    IncreasingIsShort(k.tickets, s.tail, s.tail + k.count);
    if forall t :: s.tail <= t < s.tail + k.count ==> t in k.settled {
      IncreasingIsInterval(k.tickets, s.tail, s.tail + k.count);
    }
  }

  lemma {:induction false} IncreasingIsShort(ts: seq<nat>, lo: nat, hi: nat)
    requires lo <= hi
    requires forall j :: 0 <= j < |ts| ==> lo <= ts[j] < hi
    requires forall a, b :: 0 <= a < b < |ts| ==> ts[a] < ts[b]
    ensures |ts| <= hi - lo
    decreases |ts|
  {
    if ts != [] {
      IncreasingIsShort(ts[..|ts| - 1], lo, ts[|ts| - 1]);
    }
  }

  /** An increasing sequence that misses nothing of [lo, hi) is lo, lo + 1, ... */
  lemma {:induction false} IncreasingIsInterval(ts: seq<nat>, lo: nat, hi: nat)
    requires lo <= hi
    requires forall j :: 0 <= j < |ts| ==> lo <= ts[j] < hi
    requires forall a, b :: 0 <= a < b < |ts| ==> ts[a] < ts[b]
    requires forall t :: lo <= t < hi ==> t in ts
    ensures |ts| == hi - lo && forall j :: 0 <= j < |ts| ==> ts[j] == lo + j
    decreases |ts|
  {
    if ts != [] {
      assert lo <= ts[|ts| - 1] <= hi - 1;
      assert hi - 1 in ts;
      assert ts[|ts| - 1] == hi - 1;
      var front := ts[..|ts| - 1];
      forall t | lo <= t < hi - 1 ensures t in front {
        assert t in ts;
      }
      IncreasingIsInterval(front, lo, hi - 1);
    } else {
      assert lo !in ts;
    }
  }

  // ---------------------------------------------------------------- capacity one

  ghost predicate PopsMatchPushes<T>(s: State<T>) {
    && |s.popped| <= |s.claims|
    && forall k :: 0 <= k < |s.popped| ==> s.popped[k] == Full(s.claims[k].item)
  }

  /** Two producers and one pop on a queue of capacity one, where the tag "published for ticket
      0" is also "free for ticket 1". */
  function CapacityOneTrace(): seq<Event<nat>> {
    FirstPush() + PopLoads() + SecondPush() + PopEnds()
  }

  function FirstPush(): seq<Event<nat>> {
    [Event.Push(0, 10), Event.Producer(0), Event.Producer(0), Event.Producer(0), Event.Producer(0), Event.Producer(0)]
  }

  function PopLoads(): seq<Event<nat>> { [TryPop, Event.Consumer, Event.Consumer] }

  function SecondPush(): seq<Event<nat>> {
    [Event.Push(1, 20), Event.Producer(1), Event.Producer(1), Event.Producer(1), Event.Producer(1)]
  }

  function PopEnds(): seq<Event<nat>> { [Event.Consumer, Event.Consumer, Event.Consumer] }

  lemma {:induction false} RunAppend<T>(s: State<T>, a: seq<Event<T>>, b: seq<Event<T>>)
    requires Shape(s)
    ensures Run(s, a + b) == Run(Run(s, a), b)
    decreases |b|
  {
    if b == [] {
      assert a + b == a;
    } else {
      var front := b[..|b| - 1];
      assert (a + b)[..|a + b| - 1] == a + front;
      RunAppend(s, a, front);
    }
  }

  lemma RunSix<T>(s: State<T>, a: Event<T>, b: Event<T>, c: Event<T>, d: Event<T>, e: Event<T>, f: Event<T>)
    requires Shape(s)
    ensures Run(s, [a, b, c]) == Next(Next(Next(s, a), b), c)
    ensures Run(s, [a, b, c, d, e]) == Next(Next(Run(s, [a, b, c]), d), e)
    ensures Run(s, [a, b, c, d, e, f]) == Next(Run(s, [a, b, c, d, e]), f)
  {
    assert [a, b, c, d, e, f][..5] == [a, b, c, d, e] && [a, b, c, d, e][..4] == [a, b, c, d];
    assert [a, b, c, d][..3] == [a, b, c] && [a, b, c][..2] == [a, b] && [a, b][..1] == [a] && [a][..0] == [];
    assert Run(s, []) == s;
    assert Run(s, [a]) == Next(s, a);
    assert Run(s, [a, b]) == Next(Run(s, [a]), b);
    assert Run(s, [a, b, c, d]) == Next(Run(s, [a, b, c]), d);
  }

  function One(head: nat, tail: nat, tag: nat, cell: Cell<nat>, producers: map<nat, Producer<nat>>,
               consumer: Consumer<nat>, claims: seq<Claim<nat>>, popped: seq<Cell<nat>>): State<nat>
  {
    State(1, head, tail, [tag], [cell], producers, consumer, claims, popped)
  }

  lemma CapacityOneFirstPush()
    ensures Run(Init<nat>(1), FirstPush())
         == One(1, 0, 1, Full(10), map[0 := PIdle(Pushed(0))], CIdle(NoPop), [Claim(0, 10)], [])
  {
    var s0, p := Init<nat>(1), Event<nat>.Producer(0);
    RunSix(s0, Event.Push(0, 10), p, p, p, p, p);
    var s1 := Next(s0, Event.Push(0, 10));
    assert s1 == One(0, 0, 0, Empty, map[0 := PLoadHead(10)], CIdle(NoPop), [], []);
    var s2 := Next(s1, p);
    assert s2 == One(0, 0, 0, Empty, map[0 := PLoadSeq(10, 0)], CIdle(NoPop), [], []);
    var s3 := Next(s2, p);
    assert s3 == One(0, 0, 0, Empty, map[0 := PCas(10, 0)], CIdle(NoPop), [], []);
    CapacityOneWrites(s3, p);
  }

  lemma CapacityOneWrites(s3: State<nat>, p: Event<nat>)
    requires s3 == One(0, 0, 0, Empty, map[0 := PCas(10, 0)], CIdle(NoPop), [], []) && p == Event.Producer(0)
    ensures Next(Next(Next(s3, p), p), p)
         == One(1, 0, 1, Full(10), map[0 := PIdle(Pushed(0))], CIdle(NoPop), [Claim(0, 10)], [])
  {
    var s4 := Next(s3, p);
    assert s4 == One(1, 0, 0, Empty, map[0 := PWrite(10, 0)], CIdle(NoPop), [Claim(0, 10)], []);
    var s5 := Next(s4, p);
    assert s5 == One(1, 0, 0, Full(10), map[0 := PPublish(10, 0)], CIdle(NoPop), [Claim(0, 10)], []);
  }

  lemma CapacityOnePopLoads(s: State<nat>)
    requires s == One(1, 0, 1, Full(10), map[0 := PIdle(Pushed(0))], CIdle(NoPop), [Claim(0, 10)], [])
    ensures Run(s, PopLoads()) == s.(consumer := CStoreTail(0))
  {
    var c := Event<nat>.Consumer;
    RunSix(s, TryPop, c, c, c, c, c);
  }

  lemma CapacityOneSecondPush(s: State<nat>)
    requires s == One(1, 0, 1, Full(10), map[0 := PIdle(Pushed(0))], CStoreTail(0), [Claim(0, 10)], [])
    ensures Run(s, SecondPush())
         == One(2, 0, 1, Full(20), map[0 := PIdle(Pushed(0)), 1 := PPublish(20, 1)], CStoreTail(0),
                [Claim(0, 10), Claim(1, 20)], [])
  {
    var q := Event<nat>.Producer(1);
    RunSix(s, Event.Push(1, 20), q, q, q, q, q);
    var s1 := Next(s, Event.Push(1, 20));
    assert s1 == s.(producers := map[0 := PIdle(Pushed(0)), 1 := PLoadHead(20)]);
    var s2 := Next(s1, q);
    assert s2 == s.(producers := map[0 := PIdle(Pushed(0)), 1 := PLoadSeq(20, 1)]);
    var s3 := Next(s2, q);
    assert s3 == s.(producers := map[0 := PIdle(Pushed(0)), 1 := PCas(20, 1)]);
    CapacityOneOverwriting(s3, q);
  }

  lemma CapacityOneOverwriting(s3: State<nat>, q: Event<nat>)
    requires s3 == One(1, 0, 1, Full(10), map[0 := PIdle(Pushed(0)), 1 := PCas(20, 1)], CStoreTail(0),
                       [Claim(0, 10)], [])
    requires q == Event.Producer(1)
    ensures Next(Next(s3, q), q)
         == One(2, 0, 1, Full(20), map[0 := PIdle(Pushed(0)), 1 := PPublish(20, 1)], CStoreTail(0),
                [Claim(0, 10), Claim(1, 20)], [])
  {
    var s4 := Next(s3, q);
    assert s4 == One(2, 0, 1, Full(10), map[0 := PIdle(Pushed(0)), 1 := PWrite(20, 1)], CStoreTail(0),
                     [Claim(0, 10), Claim(1, 20)], []);
  }

  lemma CapacityOnePopEnds(s: State<nat>)
    requires s == One(2, 0, 1, Full(20), map[0 := PIdle(Pushed(0)), 1 := PPublish(20, 1)], CStoreTail(0),
                      [Claim(0, 10), Claim(1, 20)], [])
    ensures Run(s, PopEnds()).claims == s.claims && Run(s, PopEnds()).popped == [Full(20)]
  {
    var c := Event<nat>.Consumer;
    RunSix(s, c, c, c, c, c, c);
    var s1 := Next(s, c);
    assert s1 == s.(tail := 1, consumer := CMoveOut(0));
    var s2 := Next(s1, c);
    assert s2 == s1.(buf := [MovedFrom], consumer := CRelease(0, Full(20)));
  }

  /** The consumer has seen the tag of ticket 0 when another push overwrites its item. */
  lemma CapacityOneOverwrites()
    ensures var s := Run(Init<nat>(1), CapacityOneTrace());
            |s.claims| == 2 && s.claims[0].item == 10 && s.popped == [Full(20)]
  {
    var s0 := Init<nat>(1);
    CapacityOneFirstPush();
    CapacityOnePopLoads(Run(s0, FirstPush()));
    RunAppend(s0, FirstPush(), PopLoads());
    CapacityOneSecondPush(Run(s0, FirstPush() + PopLoads()));
    RunAppend(s0, FirstPush() + PopLoads(), SecondPush());
    CapacityOnePopEnds(Run(s0, FirstPush() + PopLoads() + SecondPush()));
    RunAppend(s0, FirstPush() + PopLoads() + SecondPush(), PopEnds());
  }

  /** The static assertions admit capacity one, but pops return the pushed items in every
      interleaving exactly when the capacity is at least two. */
  lemma SafeExactlyFromCapacityTwo(cap: nat)
    requires cap > 0
    ensures (forall es: seq<Event<nat>> :: PopsMatchPushes(Run(Init<nat>(cap), es))) <==> cap >= 2
  {
    if cap == 1 {
      CapacityOneOverwrites();
      assert !PopsMatchPushes(Run(Init<nat>(cap), CapacityOneTrace()));
    } else {
      forall es: seq<Event<nat>> ensures PopsMatchPushes(Run(Init<nat>(cap), es)) {
        InitInv<nat>(cap);
        RunInv(Init<nat>(cap), es);
      }
    }
  }
}
