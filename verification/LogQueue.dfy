/** The bounded queue that feeds the writer thread of src/core/logger.cc. */
module LogQueue {
  import opened Sequences

  type Line = string

  /** A line with its place among all offered lines; `direct` when its caller wrote it itself. */
  datatype Entry = Entry(serial: nat, line: Line, direct: bool)

  /** A queued command; a barrier remembers how many lines had been accepted before it. */
  datatype Cmd = WriteLine(entry: Entry) | Barrier(after: nat)

  /** The queue, the command the writer has taken, the file, the lines the queue has accepted, the
      refused urgent lines whose callers are about to write them, how many lines were offered, the
      counter of refusals, and the barriers passed. */
  datatype Queue = Queue(
    cmds: seq<Cmd>,
    taken: Option<Cmd>,
    file: seq<Entry>,
    accepted: seq<Entry>,
    waiting: seq<Entry>,
    offered: nat,
    dropped: nat,
    passed: seq<nat>)

  datatype Action = Offer(line: Line, urgent: bool) | Fallback(i: nat) | AskBarrier | Take | Process

  const MAX_ASYNC_CMDS: nat := 8192

  predicate Full(q: Queue) { |q.cmds| >= MAX_ASYNC_CMDS }

  predicate Enabled(q: Queue, a: Action) {
    match a
    case Fallback(i) => i < |q.waiting|
    case Take => q.taken.None? && q.cmds != []
    case Process => q.taken.Some?
    case _ => true
  }

  /** A line that finds the queue full is dropped, unless it is urgent: then its caller writes it. */
  function Act(q: Queue, a: Action): Queue
    requires Enabled(q, a)
  {
    match a
    case Offer(line, urgent) => Offered(q, line, urgent)
    case Fallback(i) => q.(file := q.file + [q.waiting[i]], waiting := q.waiting[..i] + q.waiting[i + 1..])
    case AskBarrier => q.(cmds := q.cmds + [Barrier(|q.accepted|)])
    case Take => q.(cmds := q.cmds[1..], taken := Some(q.cmds[0]))
    case Process =>
      match q.taken.value {
        case WriteLine(e) => q.(taken := None, file := q.file + [e])
        case Barrier(n) => q.(taken := None, passed := q.passed + [n])
      }
  }

  function Offered(q: Queue, line: Line, urgent: bool): Queue {
    var e := Entry(q.offered, line, Full(q));
    var q' := q.(offered := q.offered + 1);
    if !Full(q) then q'.(cmds := q.cmds + [WriteLine(e)], accepted := q.accepted + [e])
    else q'.(waiting := if urgent then q.waiting + [e] else q.waiting, dropped := q.dropped + 1)
  }

  function Empty(): Queue { Queue([], None, [], [], [], 0, 0, []) }

  predicate Legal(run: seq<Action>)
    decreases |run|, 0
  {
    run == [] || (Legal(run[..|run| - 1]) && Enabled(Ran(run[..|run| - 1]), run[|run| - 1]))
  }

  function Ran(run: seq<Action>): Queue
    requires Legal(run)
    decreases |run|, 1
  {
    if run == [] then Empty() else Act(Ran(run[..|run| - 1]), run[|run| - 1])
  }

  // ---------------------------------------------------------------- lines in the queue

  function Lines(cmds: seq<Cmd>): seq<Entry> {
    if cmds == [] then []
    else Lines(cmds[..|cmds| - 1]) + if cmds[|cmds| - 1].WriteLine? then [cmds[|cmds| - 1].entry] else []
  }

  /** The lines that came through the queue. */
  function Queued(file: seq<Entry>): seq<Entry> {
    if file == [] then []
    else Queued(file[..|file| - 1]) + if file[|file| - 1].direct then [] else [file[|file| - 1]]
  }

  function Pending(q: Queue): seq<Cmd> { (if q.taken.Some? then [q.taken.value] else []) + q.cmds }

  lemma LinesOfOne(c: Cmd)
    ensures Lines([c]) == if c.WriteLine? then [c.entry] else []
  {
    assert [c][..0] == [];
  }

  lemma {:induction false} LinesSplit(a: seq<Cmd>, b: seq<Cmd>)
    ensures Lines(a + b) == Lines(a) + Lines(b)
    decreases |b|
  {
    if b == [] {
      assert a + b == a;
    } else {
      LinesSplit(a, b[..|b| - 1]);
      assert (a + b)[..|a + b| - 1] == a + b[..|b| - 1];
    }
  }

  lemma TailGrows(done: seq<Entry>, p: seq<Cmd>, c: Cmd)
    ensures done + Lines(p + [c]) == done + Lines(p) + if c.WriteLine? then [c.entry] else []
  {
    LinesSplit(p, [c]);
    LinesOfOne(c);
    assert done + (Lines(p) + Lines([c])) == done + Lines(p) + Lines([c]);
  }

  lemma HeadMoves(done: seq<Entry>, c: Cmd, rest: seq<Cmd>)
    ensures done + Lines([c] + rest) == done + Lines([c]) + Lines(rest)
  {
    LinesSplit([c], rest);
    assert done + (Lines([c]) + Lines(rest)) == done + Lines([c]) + Lines(rest);
  }

  lemma QueuedAppend(file: seq<Entry>, e: Entry)
    ensures Queued(file + [e]) == Queued(file) + if e.direct then [] else [e]
  {
    assert (file + [e])[..|file|] == file;
  }

  // ---------------------------------------------------------------- accepted lines and barriers

  /** A barrier in the queue has exactly the lines accepted before it ahead of it or in the file. */
  ghost predicate BarriersAt(p: seq<Cmd>, base: nat) {
    forall i :: 0 <= i < |p| && p[i].Barrier? ==> p[i].after == base + |Lines(p[..i])|
  }

  ghost predicate Marked(q: Queue) {
    && (forall i :: 0 <= i < |Pending(q)| && Pending(q)[i].WriteLine? ==> !Pending(q)[i].entry.direct)
    && (forall i :: 0 <= i < |q.waiting| ==> q.waiting[i].direct)
  }

  ghost predicate QueueInv(q: Queue) {
    && Queued(q.file) + Lines(Pending(q)) == q.accepted && Marked(q)
    && BarriersAt(Pending(q), |Queued(q.file)|)
    && (forall i :: 0 <= i < |q.passed| ==> q.passed[i] <= |Queued(q.file)|)
    && |q.accepted| + q.dropped == q.offered
  }

  lemma BarriersGrow(p: seq<Cmd>, base: nat, c: Cmd)
    requires BarriersAt(p, base) && (c.Barrier? ==> c.after == base + |Lines(p)|)
    ensures BarriersAt(p + [c], base)
  {
    var p' := p + [c];
    forall i | 0 <= i < |p'| && p'[i].Barrier? ensures p'[i].after == base + |Lines(p'[..i])| {
      assert p'[..i] == p[..i];
      if i == |p| { assert p[..i] == p; }
    }
  }

  lemma BarriersShrink(c: Cmd, rest: seq<Cmd>, base: nat)
    requires BarriersAt([c] + rest, base)
    ensures BarriersAt(rest, base + |Lines([c])|)
  {
    var p := [c] + rest;
    forall i | 0 <= i < |rest| && rest[i].Barrier? ensures rest[i].after == base + |Lines([c])| + |Lines(rest[..i])| {
      assert p[i + 1] == rest[i] && p[..i + 1] == [c] + rest[..i];
      LinesSplit([c], rest[..i]);
    }
  }

  lemma PendingGrows(q: Queue, q': Queue, c: Cmd)
    requires q'.cmds == q.cmds + [c] && q'.taken == q.taken && q'.waiting == q.waiting
    ensures Pending(q') == Pending(q) + [c]
    ensures Marked(q) && (c.WriteLine? ==> !c.entry.direct) ==> Marked(q')
  {
    assert Pending(q') == Pending(q) + [c];
  }

  lemma EnqueueInv(q: Queue, c: Cmd, accepted: seq<Entry>, offered: nat)
    requires QueueInv(q) && accepted == q.accepted + (if c.WriteLine? then [c.entry] else [])
    requires offered == q.offered + (if c.WriteLine? then 1 else 0)
    requires if c.Barrier? then c.after == |q.accepted| else !c.entry.direct
    ensures QueueInv(q.(cmds := q.cmds + [c], accepted := accepted, offered := offered))
  {
    PendingGrows(q, q.(cmds := q.cmds + [c], accepted := accepted, offered := offered), c);
    TailGrows(Queued(q.file), Pending(q), c);
    BarriersGrow(Pending(q), |Queued(q.file)|, c);
  }

  lemma ProcessedLines(q: Queue)
    requires q.taken.Some? && Marked(q)
    ensures Queued(Act(q, Process).file) == Queued(q.file) + Lines([q.taken.value])
    ensures q.taken.value.Barrier? ==> Lines([q.taken.value]) == []
  {
    var c := q.taken.value;
    LinesOfOne(c);
    assert Pending(q)[0] == c;
    if c.WriteLine? { QueuedAppend(q.file, c.entry); }
  }

  lemma ProcessMarked(q: Queue)
    requires q.taken.Some? && Marked(q)
    ensures Marked(Act(q, Process)) && Pending(q) == [q.taken.value] + q.cmds && Pending(Act(q, Process)) == q.cmds
  {
    assert forall i :: 0 <= i < |q.cmds| ==> Pending(q)[i + 1] == q.cmds[i];
  }

  lemma ProcessInv(q: Queue)
    requires QueueInv(q) && q.taken.Some?
    ensures QueueInv(Act(q, Process))
  {
    var c, q' := q.taken.value, Act(q, Process);
    ProcessMarked(q);
    ProcessedLines(q);
    HeadMoves(Queued(q.file), c, q.cmds);
    BarriersShrink(c, q.cmds, |Queued(q.file)|);
    if c.Barrier? {
      assert Pending(q)[0] == c && Pending(q)[..0] == [];
    } else {
      assert q'.passed == q.passed;
    }
  }

  lemma FallbackInv(q: Queue, i: nat)
    requires QueueInv(q) && i < |q.waiting|
    ensures QueueInv(Act(q, Fallback(i)))
  {
    var q' := Act(q, Fallback(i));
    assert Pending(q') == Pending(q);
    QueuedAppend(q.file, q.waiting[i]);
    assert forall j :: 0 <= j < |q'.waiting| ==> q'.waiting[j] == q.waiting[if j < i then j else j + 1];
  }

  lemma OfferInv(q: Queue, line: Line, urgent: bool)
    requires QueueInv(q)
    ensures QueueInv(Offered(q, line, urgent))
  {
    if !Full(q) {
      var e := Entry(q.offered, line, false);
      EnqueueInv(q, WriteLine(e), q.accepted + [e], q.offered + 1);
    } else {
      assert Pending(Offered(q, line, urgent)) == Pending(q);
    }
  }

  lemma ActInv(q: Queue, a: Action)
    requires QueueInv(q) && Enabled(q, a)
    ensures QueueInv(Act(q, a))
  {
    match a {
      case Offer(line, urgent) => OfferInv(q, line, urgent);
      case Fallback(i) => FallbackInv(q, i);
      case AskBarrier => EnqueueInv(q, Barrier(|q.accepted|), q.accepted, q.offered);
      case Take => assert Pending(Act(q, a)) == Pending(q);
      case Process => ProcessInv(q);
    }
  }

  lemma {:induction false} RunInv(run: seq<Action>)
    requires Legal(run)
    ensures QueueInv(Ran(run))
    decreases |run|
  {
    if run != [] {
      RunInv(run[..|run| - 1]);
      ActInv(Ran(run[..|run| - 1]), run[|run| - 1]);
    }
  }

  /** Accepted lines reach the file in the order they were accepted, none lost; when a barrier is
      passed, every line accepted before it has been written; and the counter has counted each line
      that was not accepted. */
  lemma QueueKeepsOrder(run: seq<Action>)
    requires Legal(run)
    ensures var q := Ran(run);
            && Queued(q.file) <= q.accepted
            && (q.taken.None? && q.cmds == [] ==> Queued(q.file) == q.accepted)
            && (forall n <- q.passed :: n <= |Queued(q.file)| && Queued(q.file)[..n] == q.accepted[..n])
            && |q.accepted| + q.dropped == q.offered
  {
    RunInv(run);
  }

  // ---------------------------------------------------------------- waiting for a barrier

  /** The marks of the barriers among the commands. */
  function Marks(cmds: seq<Cmd>): seq<nat> {
    if cmds == [] then []
    else Marks(cmds[..|cmds| - 1]) + if cmds[|cmds| - 1].Barrier? then [cmds[|cmds| - 1].after] else []
  }

  lemma {:induction false} MarksSplit(a: seq<Cmd>, b: seq<Cmd>)
    ensures Marks(a + b) == Marks(a) + Marks(b)
    decreases |b|
  {
    if b == [] {
      assert a + b == a;
    } else {
      assert (a + b)[..|a + b| - 1] == a + b[..|b| - 1];
      MarksSplit(a, b[..|b| - 1]);
    }
  }

  lemma MarksOfOne(c: Cmd)
    ensures Marks([c]) == if c.Barrier? then [c.after] else []
  {
    assert [c][..0] == [];
  }

  /** What the callers of the run wait for: how many lines had been accepted when each asked. */
  function Asked(run: seq<Action>): seq<nat>
    requires Legal(run)
    decreases |run|
  {
    if run == [] then []
    else Asked(run[..|run| - 1]) + if run[|run| - 1].AskBarrier? then [|Ran(run[..|run| - 1]).accepted|] else []
  }

  lemma MarksGrow(q: Queue, c: Cmd)
    ensures Marks(Pending(q.(cmds := q.cmds + [c]))) == Marks(Pending(q)) + if c.Barrier? then [c.after] else []
  {
    assert Pending(q.(cmds := q.cmds + [c])) == Pending(q) + [c];
    MarksSplit(Pending(q), [c]);
    MarksOfOne(c);
  }

  lemma PendingShrinks(q: Queue)
    requires q.taken.Some?
    ensures Marks(Pending(q))
         == (if q.taken.value.Barrier? then [q.taken.value.after] else []) + Marks(Pending(q.(taken := None)))
  {
    assert Pending(q) == [q.taken.value] + Pending(q.(taken := None));
    MarksSplit([q.taken.value], Pending(q.(taken := None)));
    MarksOfOne(q.taken.value);
  }

  lemma OfferKeepsMarks(q: Queue, line: Line, urgent: bool)
    ensures Offered(q, line, urgent).passed == q.passed
    ensures Marks(Pending(Offered(q, line, urgent))) == Marks(Pending(q))
  {
    var q' := Offered(q, line, urgent);
    if Full(q) {
      assert Pending(q') == Pending(q);
    } else {
      var c := WriteLine(Entry(q.offered, line, false));
      MarksGrow(q, c);
      assert Pending(q') == Pending(q.(cmds := q.cmds + [c]));
    }
  }

  /** The marks passed and those still to be. */
  function AllMarks(q: Queue): seq<nat> { q.passed + Marks(Pending(q)) }

  lemma AskAddsMark(q: Queue)
    ensures AllMarks(Act(q, AskBarrier)) == AllMarks(q) + [|q.accepted|]
  {
    MarksGrow(q, Barrier(|q.accepted|));
    assert q.passed + (Marks(Pending(q)) + [|q.accepted|]) == q.passed + Marks(Pending(q)) + [|q.accepted|];
  }

  lemma ProcessKeepsMarks(q: Queue)
    requires q.taken.Some?
    ensures AllMarks(Act(q, Process)) == AllMarks(q)
  {
    PendingShrinks(q);
    var rest := Marks(Pending(q.(taken := None)));
    assert Pending(Act(q, Process)) == Pending(q.(taken := None));
    if q.taken.value.Barrier? {
      assert q.passed + ([q.taken.value.after] + rest) == q.passed + [q.taken.value.after] + rest;
    } else {
      assert [] + rest == rest;
    }
  }

  lemma TakeKeepsMarks(q: Queue)
    requires q.taken.None? && q.cmds != []
    ensures AllMarks(Act(q, Take)) == AllMarks(q)
  {
    assert Pending(Act(q, Take)) == Pending(q);
  }

  /** A step hands the barriers on in order. */
  lemma MarksStep(q: Queue, a: Action)
    requires Enabled(q, a)
    ensures AllMarks(Act(q, a)) == AllMarks(q) + if a.AskBarrier? then [|q.accepted|] else []
  {
    match a {
      case Offer(line, urgent) => OfferKeepsMarks(q, line, urgent);
      case Fallback(i) => assert Pending(Act(q, a)) == Pending(q);
      case AskBarrier => AskAddsMark(q);
      case Take => TakeKeepsMarks(q);
      case Process => ProcessKeepsMarks(q);
    }
    assert AllMarks(q) + [] == AllMarks(q);
  }

  /** Nobody waits for ever: the barriers are passed in the order they were asked for, and all have
      been once the queue has drained. */
  lemma {:induction false} BarriersPass(run: seq<Action>)
    requires Legal(run)
    ensures var q := Ran(run);
            && AllMarks(q) == Asked(run)
            && (q.taken.None? && q.cmds == [] ==> q.passed == Asked(run))
    decreases |run|
  {
    if run != [] {
      BarriersPass(run[..|run| - 1]);
      MarksStep(Ran(run[..|run| - 1]), run[|run| - 1]);
    }
  }

  // ---------------------------------------------------------------- the whole file

  /** The file as it will be once the queue has drained. */
  function Drained(q: Queue): seq<Entry> { q.file + Lines(Pending(q)) }

  ghost predicate InOfferOrder(es: seq<Entry>) { forall i, j :: 0 <= i < j < |es| ==> es[i].serial < es[j].serial }

  /** A caller's own write falls in its place: no line offered before it is still pending, and no
      line offered after it has been written. */
  ghost predicate InPlace(q: Queue, e: Entry) {
    && (forall x <- Lines(Pending(q)) :: e.serial < x.serial)
    && (forall x <- q.file :: x.serial < e.serial)
  }

  ghost predicate SerialsBelow(es: seq<Entry>, n: nat) { forall e <- es :: e.serial < n }

  ghost predicate SerialInv(q: Queue) { SerialsBelow(Drained(q), q.offered) && SerialsBelow(q.waiting, q.offered) }

  lemma DrainedByOffer(q: Queue, line: Line, urgent: bool)
    ensures Drained(Offered(q, line, urgent))
         == if Full(q) then Drained(q) else Drained(q) + [Entry(q.offered, line, false)]
  {
    if Full(q) {
      assert Pending(Offered(q, line, urgent)) == Pending(q);
    } else {
      var c := WriteLine(Entry(q.offered, line, false));
      PendingGrows(q, Offered(q, line, urgent), c);
      TailGrows(q.file, Pending(q), c);
    }
  }

  lemma DrainedByBarrier(q: Queue)
    ensures Drained(Act(q, AskBarrier)) == Drained(q)
  {
    PendingGrows(q, Act(q, AskBarrier), Barrier(|q.accepted|));
    TailGrows(q.file, Pending(q), Barrier(|q.accepted|));
    assert Drained(q) + [] == Drained(q);
  }

  lemma DrainedByWriter(q: Queue, a: Action)
    requires (a.Take? || a.Process?) && Enabled(q, a)
    ensures Drained(Act(q, a)) == Drained(q)
  {
    if a.Take? {
      assert Pending(Act(q, a)) == Pending(q);
    } else {
      assert Pending(q) == [q.taken.value] + q.cmds && Pending(Act(q, a)) == q.cmds;
      HeadMoves(q.file, q.taken.value, q.cmds);
      LinesOfOne(q.taken.value);
      assert q.file + [] == q.file;
    }
  }

  /** What an action does to the file to come. */
  lemma DrainedStep(q: Queue, a: Action)
    requires Enabled(q, a)
    ensures var d, q' := Drained(q), Act(q, a);
            match a
            case Offer(line, _) => Drained(q') == if Full(q) then d else d + [Entry(q.offered, line, false)]
            case Fallback(i) => Drained(q') == q.file + [q.waiting[i]] + Lines(Pending(q))
            case _ => Drained(q') == d
  {
    match a {
      case Offer(line, urgent) => DrainedByOffer(q, line, urgent);
      case Fallback(i) => assert Pending(Act(q, a)) == Pending(q);
      case AskBarrier => DrainedByBarrier(q);
      case Take => DrainedByWriter(q, a);
      case Process => DrainedByWriter(q, a);
    }
  }

  lemma SerialStep(q: Queue, a: Action)
    requires Enabled(q, a) && SerialInv(q)
    ensures SerialInv(Act(q, a))
  {
    DrainedStep(q, a);
    forall e | e in q.file ensures e.serial < q.offered { assert e in Drained(q); }
    forall e | e in Lines(Pending(q)) ensures e.serial < q.offered { assert e in Drained(q); }
  }

  lemma OrderInserted(a: seq<Entry>, e: Entry, b: seq<Entry>)
    ensures InOfferOrder(a + [e] + b) <==>
              InOfferOrder(a + b) && (forall x <- a :: x.serial < e.serial) && (forall x <- b :: e.serial < x.serial)
  {
    var s, t := a + [e] + b, a + b;
    if InOfferOrder(s) {
      forall i, j | 0 <= i < j < |t| ensures t[i].serial < t[j].serial {
        assert t[i] == s[if i < |a| then i else i + 1] && t[j] == s[if j < |a| then j else j + 1];
      }
      forall x | x in a ensures x.serial < e.serial {
        var i :| 0 <= i < |a| && a[i] == x;
        assert s[i] == x && s[|a|] == e;
      }
      forall x | x in b ensures e.serial < x.serial {
        var i :| 0 <= i < |b| && b[i] == x;
        assert s[|a| + 1 + i] == x && s[|a|] == e;
      }
    } else if InOfferOrder(t) && (forall x <- a :: x.serial < e.serial) && (forall x <- b :: e.serial < x.serial) {
      forall i, j | 0 <= i < j < |s| ensures s[i].serial < s[j].serial {
        if i != |a| && j != |a| {
          assert s[i] == t[if i < |a| then i else i - 1] && s[j] == t[if j < |a| then j else j - 1];
        } else if i == |a| {
          assert s[j] == b[j - |a| - 1] && s[j] in b;
        } else {
          assert s[i] == a[i] && s[i] in a;
        }
      }
    }
  }

  lemma OrderStep(q: Queue, a: Action)
    requires Enabled(q, a) && SerialInv(q)
    ensures InOfferOrder(Drained(Act(q, a))) <==>
              InOfferOrder(Drained(q)) && (a.Fallback? ==> InPlace(q, q.waiting[a.i]))
  {
    DrainedStep(q, a);
    if a.Fallback? {
      OrderInserted(q.file, q.waiting[a.i], Lines(Pending(q)));
    } else if a.Offer? && !Full(q) {
      var e := Entry(q.offered, a.line, false);
      OrderInserted(Drained(q), e, []);
      assert Drained(q) + [e] + [] == Drained(q) + [e] && Drained(q) + [] == Drained(q);
    }
  }

  /** Every caller's own write of the run fell in its place. */
  ghost predicate FallbacksInPlace(run: seq<Action>)
    requires Legal(run)
    decreases |run|
  {
    run == [] || (
      var q, a := Ran(run[..|run| - 1]), run[|run| - 1];
      FallbacksInPlace(run[..|run| - 1]) && (a.Fallback? ==> InPlace(q, q.waiting[a.i])))
  }

  lemma {:induction false} SerialsInRun(run: seq<Action>)
    requires Legal(run)
    ensures SerialInv(Ran(run))
    decreases |run|
  {
    if run != [] {
      SerialsInRun(run[..|run| - 1]);
      SerialStep(Ran(run[..|run| - 1]), run[|run| - 1]);
    }
  }

  /** The file is in the order the lines were offered, and will be when the queue has drained,
      exactly when every caller that found the queue full wrote its line in its place. */
  lemma {:induction false} FileInOrderExactly(run: seq<Action>)
    requires Legal(run)
    ensures InOfferOrder(Drained(Ran(run))) <==> FallbacksInPlace(run)
    decreases |run|
  {
    if run != [] {
      FileInOrderExactly(run[..|run| - 1]);
      SerialsInRun(run[..|run| - 1]);
      OrderStep(Ran(run[..|run| - 1]), run[|run| - 1]);
    }
  }

  /** An urgent line written right after its refusal is in its place exactly when no line is
      pending: the full queue holds barriers only. */
  lemma PromptFallback(q: Queue, line: Line)
    requires SerialInv(q) && Full(q)
    ensures var q' := Act(q, Offer(line, true));
            |q'.waiting| == |q.waiting| + 1
            && (InPlace(q', q'.waiting[|q.waiting|]) <==> Lines(Pending(q)) == [])
  {
    var q' := Act(q, Offer(line, true));
    assert Pending(q') == Pending(q);
    forall x | x in q.file ensures x.serial < q.offered { assert x in Drained(q); }
    if Lines(Pending(q)) != [] {
      var x := Lines(Pending(q))[0];
      assert x in Drained(q) && x in Lines(Pending(q));
    }
  }

  // ---------------------------------------------------------------- nothing missing

  /** The line is in the file, in the queue, or in the hand of a caller about to write it. */
  ghost predicate Present(q: Queue, k: nat) {
    (exists e :: e in Drained(q) && e.serial == k) || (exists e :: e in q.waiting && e.serial == k)
  }

  ghost predicate AllPresent(q: Queue) { forall k: nat :: k < q.offered ==> Present(q, k) }

  lemma PresentStays(q: Queue, a: Action, k: nat)
    requires Enabled(q, a) && Present(q, k)
    ensures Present(Act(q, a), k)
  {
    DrainedStep(q, a);
    var q' := Act(q, a);
    if e :| e in Drained(q) && e.serial == k {
      assert e in q.file || e in Lines(Pending(q));
      assert e in Drained(q');
    } else {
      var e :| e in q.waiting && e.serial == k;
      var i :| 0 <= i < |q.waiting| && q.waiting[i] == e;
      if a.Fallback? && i == a.i {
        assert e in Drained(q');
      } else if a.Fallback? {
        assert q'.waiting[if i < a.i then i else i - 1] == e;
      }
    }
  }

  lemma AbsentStays(q: Queue, a: Action, k: nat)
    requires Enabled(q, a) && k < q.offered && Present(Act(q, a), k)
    ensures Present(q, k)
  {
    DrainedStep(q, a);
    var q' := Act(q, a);
    if e :| e in Drained(q') && e.serial == k {
      if e !in Drained(q) && a.Fallback? { assert e == q.waiting[a.i] || e in q.file || e in Lines(Pending(q)); }
    } else {
      var e :| e in q'.waiting && e.serial == k;
      assert e in q.waiting;
    }
  }

  lemma NewLinePresent(q: Queue, line: Line, urgent: bool)
    requires SerialInv(q)
    ensures Present(Act(q, Offer(line, urgent)), q.offered) <==> !Full(q) || urgent
  {
    var q' := Act(q, Offer(line, urgent));
    DrainedStep(q, Offer(line, urgent));
    var e := Entry(q.offered, line, Full(q));
    if !Full(q) {
      assert Drained(q')[|Drained(q)|] == e;
    } else if urgent {
      assert q'.waiting[|q.waiting|] == e;
    }
  }

  lemma OldLinesPresent(q: Queue, a: Action)
    requires Enabled(q, a)
    ensures forall k: nat :: k < q.offered ==> (Present(Act(q, a), k) <==> Present(q, k))
  {
    forall k: nat | k < q.offered ensures Present(Act(q, a), k) <==> Present(q, k) {
      if Present(q, k) { PresentStays(q, a, k); }
      if Present(Act(q, a), k) { AbsentStays(q, a, k); }
    }
  }

  lemma PresenceStep(q: Queue, a: Action)
    requires Enabled(q, a) && SerialInv(q)
    ensures AllPresent(Act(q, a)) <==> AllPresent(q) && !(a.Offer? && !a.urgent && Full(q))
  {
    OldLinesPresent(q, a);
    if a.Offer? {
      NewLinePresent(q, a.line, a.urgent);
    }
  }

  /** No line that is not urgent met a full queue. */
  ghost predicate NoPlainRefusal(run: seq<Action>)
    requires Legal(run)
    decreases |run|
  {
    run == [] || (
      var q, a := Ran(run[..|run| - 1]), run[|run| - 1];
      NoPlainRefusal(run[..|run| - 1]) && !(a.Offer? && !a.urgent && Full(q)))
  }

  /** Every line ever offered is in the file or on its way there, exactly when no line that is not
      urgent met a full queue. */
  lemma {:induction false} NothingMissingExactly(run: seq<Action>)
    requires Legal(run)
    ensures AllPresent(Ran(run)) <==> NoPlainRefusal(run)
    decreases |run|
  {
    if run != [] {
      NothingMissingExactly(run[..|run| - 1]);
      SerialsInRun(run[..|run| - 1]);
      PresenceStep(Ran(run[..|run| - 1]), run[|run| - 1]);
    }
  }

  // ---------------------------------------------------------------- an overtaking line

  function Burst(line: Line, n: nat): seq<Action> { if n == 0 then [] else Burst(line, n - 1) + [Offer(line, false)] }

  lemma RunExtends(run: seq<Action>, a: Action)
    requires Legal(run) && Enabled(Ran(run), a)
    ensures Legal(run + [a]) && Ran(run + [a]) == Act(Ran(run), a)
  {
    assert (run + [a])[..|run|] == run;
  }

  lemma {:induction false} BurstFills(line: Line, n: nat)
    requires n <= MAX_ASYNC_CMDS
    ensures Legal(Burst(line, n))
    ensures var q := Ran(Burst(line, n));
            && |q.cmds| == q.offered == n && q.taken.None? && q.file == [] && q.waiting == []
            && (n > 0 ==> q.cmds[0] == WriteLine(Entry(0, line, false)))
    decreases n
  {
    if n > 0 {
      BurstFills(line, n - 1);
      RunExtends(Burst(line, n - 1), Offer(line, false));
    }
  }

  /** A burst of lines fills the queue; an urgent line then is first in the file although it was
      offered last, and a plain one is nowhere. */
  lemma UrgentLineOvertakes(line: Line, last: Line)
    ensures var run := Burst(line, MAX_ASYNC_CMDS) + [Offer(last, true)] + [Fallback(0)];
            && Legal(run) && Ran(run).file == [Entry(MAX_ASYNC_CMDS, last, true)]
            && !InOfferOrder(Drained(Ran(run))) && AllPresent(Ran(run))
    ensures var run := Burst(line, MAX_ASYNC_CMDS) + [Offer(last, false)];
            Legal(run) && !Present(Ran(run), MAX_ASYNC_CMDS) && InOfferOrder(Drained(Ran(run)))
  {
    var burst := Burst(line, MAX_ASYNC_CMDS);
    BurstFills(line, MAX_ASYNC_CMDS);
    PlainBurst(line, MAX_ASYNC_CMDS);
    RunExtends(burst, Offer(last, true));
    RunExtends(burst + [Offer(last, true)], Fallback(0));
    var q := Ran(burst);
    PresenceStep(q, Offer(last, true));
    SerialStep(q, Offer(last, true));
    var q1 := Act(q, Offer(last, true));
    PresenceStep(q1, Fallback(0));
    HeadPends(q);
    PromptFallback(q, last);
    OrderStep(q1, Fallback(0));
    RunExtends(burst, Offer(last, false));
    PlainLoss(q, last);
  }

  lemma HeadPends(q: Queue)
    requires q.taken.None? && q.cmds != [] && q.cmds[0].WriteLine?
    ensures Lines(Pending(q)) != []
  {
    assert Pending(q) == [q.cmds[0]] + q.cmds[1..];
    LinesSplit([q.cmds[0]], q.cmds[1..]);
    LinesOfOne(q.cmds[0]);
  }

  lemma PlainLoss(q: Queue, line: Line)
    requires Full(q) && SerialInv(q) && InOfferOrder(Drained(q))
    ensures !Present(Act(q, Offer(line, false)), q.offered) && InOfferOrder(Drained(Act(q, Offer(line, false))))
  {
    DrainedStep(q, Offer(line, false));
  }

  /** What an unhurried queue shows: nothing missing, nothing out of order. */
  ghost predicate Tidy(q: Queue) { SerialInv(q) && InOfferOrder(Drained(q)) && AllPresent(q) }

  lemma PlainOfferKeepsTidy(q: Queue, line: Line)
    requires Tidy(q) && !Full(q)
    ensures Tidy(Act(q, Offer(line, false)))
  {
    SerialStep(q, Offer(line, false));
    OrderStep(q, Offer(line, false));
    PresenceStep(q, Offer(line, false));
  }

  lemma EmptyIsTidy()
    ensures Tidy(Empty())
  {
    assert Pending(Empty()) == [];
    assert Drained(Empty()) == [];
  }

  lemma BurstStep(line: Line, n: nat)
    requires n < MAX_ASYNC_CMDS && Legal(Burst(line, n)) && Tidy(Ran(Burst(line, n)))
    ensures Legal(Burst(line, n + 1)) && Tidy(Ran(Burst(line, n + 1)))
  {
    var q := Ran(Burst(line, n));
    BurstFills(line, n);
    RunExtends(Burst(line, n), Offer(line, false));
    PlainOfferKeepsTidy(q, line);
  }

  lemma {:induction false} PlainBurst(line: Line, n: nat)
    requires n <= MAX_ASYNC_CMDS
    ensures Legal(Burst(line, n)) && Tidy(Ran(Burst(line, n)))
    decreases n
  {
    if n == 0 {
      EmptyIsTidy();
    } else {
      PlainBurst(line, n - 1);
      BurstStep(line, n - 1);
    }
  }

  // ---------------------------------------------------------------- the code

  /** The command queue of Logger, with the file its writer appends to. */
  class Logger {
    var cmds: seq<Cmd>
    var taken: Option<Cmd>
    var file: seq<Entry>
    var droppedAsyncCmds: nat
    ghost var accepted: seq<Entry>
    ghost var waiting: seq<Entry>
    ghost var offered: nat
    ghost var passed: seq<nat>

    constructor ()
      ensures State() == Empty()
    {
      cmds, taken, file, droppedAsyncCmds := [], None, [], 0;
      accepted, waiting, offered, passed := [], [], 0, [];
    }

    ghost function State(): Queue
      reads this
    {
      Queue(cmds, taken, file, accepted, waiting, offered, droppedAsyncCmds, passed)
    }

    /** tryEnqueueLineToFile; `serial` numbers the lines offered. */
    method TryEnqueueLine(line: Line, serial: nat, ghost urgent: bool) returns (queued: bool)
      requires serial == offered
      modifies this
      ensures State() == Act(old(State()), Offer(line, urgent)) && queued == !Full(old(State()))
    {
      offered := offered + 1;
      if |cmds| >= MAX_ASYNC_CMDS {
        droppedAsyncCmds := droppedAsyncCmds + 1;
        if urgent { waiting := waiting + [Entry(serial, line, true)]; }
        return false;
      }
      accepted := accepted + [Entry(serial, line, false)];
      cmds := cmds + [WriteLine(Entry(serial, line, false))];
      return true;
    }

    /** The caller of a refused urgent line writes it. */
    method WriteDirectly(ghost i: nat, e: Entry)
      requires i < |waiting| && waiting[i] == e
      modifies this
      ensures State() == Act(old(State()), Fallback(i))
    {
      file := file + [e];
      waiting := waiting[..i] + waiting[i + 1..];
    }

    /** flush and waitUntilWriterIdle wait for a barrier. */
    method EnqueueBarrier(mark: nat)
      requires mark == |accepted|
      modifies this
      ensures State() == Act(old(State()), AskBarrier)
    {
      cmds := cmds + [Barrier(mark)];
    }

    /** One round of writerLoop: the command leaves the queue, and is carried out later. */
    method TakeCommand()
      requires taken.None? && cmds != []
      modifies this
      ensures State() == Act(old(State()), Take)
    {
      taken := Some(cmds[0]);
      cmds := cmds[1..];
    }

    method ProcessOneCmd()
      requires taken.Some?
      modifies this
      ensures State() == Act(old(State()), Process)
    {
      match taken.value {
        case WriteLine(e) => file := file + [e];
        case Barrier(n) => passed := passed + [n];
      }
      taken := None;
    }
  }
}
