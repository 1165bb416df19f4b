/**
 One queue of RssDownloadPipeline (src/app/rss_download_pipeline.cc). The magnet queue and the
 torrent queue run the same code on separate fields.
*/
module RssPipeline {
  import opened Sequences

  /** The fields behind one mutex. */
  datatype Half<T> = Half(queue: seq<T>, inFlight: int, maxInFlight: int, scheduled: bool)

  /** Which call posted a pump: the closures of the two differ in RssOrchestrator. */
  datatype Closure = FromEnqueue | FromFinish

  function Idle<T>(): Half<T> { Half([], 0, 8, false) }

  // ---------------------------------------------------------------- the critical sections

  function SetMax<T>(h: Half<T>, n: int): Half<T> { h.(maxInFlight := Max(1, n)) }

  function Push<T>(h: Half<T>, x: T): Half<T> { h.(queue := h.queue + [x]) }

  function Release<T>(h: Half<T>): Half<T> { h.(inFlight := Max(0, h.inFlight - 1)) }

  /** schedulePump: the flag is set, and the caller posts a pump unless it was set before. */
  function Schedule<T>(h: Half<T>): (Half<T>, bool) { (h.(scheduled := true), !h.scheduled) }

  /** The pump takes at most one item. */
  function TakeNext<T>(h: Half<T>): (Half<T>, Option<T>) {
    if h.inFlight >= h.maxInFlight || h.queue == [] then (h.(scheduled := false), None)
    else (Half(h.queue[1..], h.inFlight + 1, h.maxInFlight, false), Some(h.queue[0]))
  }

  /** RssDownloadPipeline with the pump calls it posted to the event loop. */
  class RssDownloadPipeline<M, U> {
    var magnetQueue: seq<M>
    var magnetInFlight: int
    var magnetMaxInFlight: int
    var magnetPumpScheduled: bool
    var magnetPosts: seq<Closure>
    var rssTorrentQueue: seq<U>
    var rssTorrentInFlight: int
    var rssTorrentMaxInFlight: int
    var rssTorrentPumpScheduled: bool
    var rssTorrentPosts: seq<Closure>

    constructor ()
      ensures Magnets() == Idle() && magnetPosts == [] && Torrents() == Idle() && rssTorrentPosts == []
    {
      magnetQueue, magnetInFlight, magnetMaxInFlight, magnetPumpScheduled, magnetPosts := [], 0, 8, false, [];
      rssTorrentQueue, rssTorrentInFlight, rssTorrentMaxInFlight := [], 0, 8;
      rssTorrentPumpScheduled, rssTorrentPosts := false, [];
    }

    ghost function Magnets(): Half<M>
      reads this
    {
      Half(magnetQueue, magnetInFlight, magnetMaxInFlight, magnetPumpScheduled)
    }

    ghost function Torrents(): Half<U>
      reads this
    {
      Half(rssTorrentQueue, rssTorrentInFlight, rssTorrentMaxInFlight, rssTorrentPumpScheduled)
    }

    method SetMagnetMaxInFlight(n: int)
      modifies this`magnetMaxInFlight
      ensures Magnets() == SetMax(old(Magnets()), n) && magnetMaxInFlight == (if n < 1 then 1 else n)
    {
      magnetMaxInFlight := Max(1, n);
    }

    method SchedulePumpMagnet(closure: Closure)
      modifies this`magnetPumpScheduled, this`magnetPosts
      ensures Magnets() == Schedule(old(Magnets())).0
      ensures magnetPosts == old(magnetPosts) + if Schedule(old(Magnets())).1 then [closure] else []
    {
      var shouldSchedule := false;
      if !magnetPumpScheduled {
        magnetPumpScheduled := true;
        shouldSchedule := true;
      }
      if shouldSchedule {
        magnetPosts := magnetPosts + [closure];
      }
    }

    method EnqueueMagnet(item: M)
      modifies this`magnetQueue, this`magnetPumpScheduled, this`magnetPosts
      ensures Magnets() == Schedule(Push(old(Magnets()), item)).0
      ensures magnetQueue == old(magnetQueue) + [item] && magnetInFlight == old(magnetInFlight)
      ensures magnetPosts == old(magnetPosts) + if old(magnetPumpScheduled) then [] else [FromEnqueue]
    {
      magnetQueue := magnetQueue + [item];
      SchedulePumpMagnet(FromEnqueue);
    }

    method FinishMagnet()
      modifies this`magnetInFlight, this`magnetPumpScheduled, this`magnetPosts
      ensures Magnets() == Schedule(Release(old(Magnets()))).0
      ensures magnetInFlight == (if old(magnetInFlight) > 0 then old(magnetInFlight) - 1 else 0)
                && magnetQueue == old(magnetQueue)
      ensures magnetPosts == old(magnetPosts) + if old(magnetPumpScheduled) then [] else [FromFinish]
    {
      magnetInFlight := Max(0, magnetInFlight - 1);
      SchedulePumpMagnet(FromFinish);
    }

    /** Runs the first posted pump; the caller applies its closure to the item. */
    method PumpMagnetQueue() returns (item: Option<M>)
      requires magnetPosts != []
      modifies this`magnetQueue, this`magnetInFlight, this`magnetPumpScheduled, this`magnetPosts
      ensures (Magnets(), item) == TakeNext(old(Magnets()))
      ensures old(magnetInFlight < magnetMaxInFlight && magnetQueue != []) ==>
                item == Some(old(magnetQueue)[0]) && magnetQueue == old(magnetQueue)[1..]
                    && magnetInFlight == old(magnetInFlight) + 1
      ensures old(magnetInFlight >= magnetMaxInFlight || magnetQueue == []) ==>
                item == None && magnetQueue == old(magnetQueue) && magnetInFlight == old(magnetInFlight)
      ensures magnetPosts == old(magnetPosts)[1..]
    {
      magnetPosts := magnetPosts[1..];
      magnetPumpScheduled := false;
      if magnetInFlight >= magnetMaxInFlight || magnetQueue == [] {
        return None;
      }
      item := Some(magnetQueue[0]);
      magnetQueue := magnetQueue[1..];
      magnetInFlight := magnetInFlight + 1;
    }

    method SetRssTorrentMaxInFlight(n: int)
      modifies this`rssTorrentMaxInFlight
      ensures Torrents() == SetMax(old(Torrents()), n) && rssTorrentMaxInFlight == (if n < 1 then 1 else n)
    {
      rssTorrentMaxInFlight := Max(1, n);
    }

    method SchedulePumpRssTorrent(closure: Closure)
      modifies this`rssTorrentPumpScheduled, this`rssTorrentPosts
      ensures Torrents() == Schedule(old(Torrents())).0
      ensures rssTorrentPosts == old(rssTorrentPosts) + if Schedule(old(Torrents())).1 then [closure] else []
    {
      var shouldSchedule := false;
      if !rssTorrentPumpScheduled {
        rssTorrentPumpScheduled := true;
        shouldSchedule := true;
      }
      if shouldSchedule {
        rssTorrentPosts := rssTorrentPosts + [closure];
      }
    }

    method EnqueueRssTorrentUrl(item: U)
      modifies this`rssTorrentQueue, this`rssTorrentPumpScheduled, this`rssTorrentPosts
      ensures Torrents() == Schedule(Push(old(Torrents()), item)).0
      ensures rssTorrentQueue == old(rssTorrentQueue) + [item] && rssTorrentInFlight == old(rssTorrentInFlight)
      ensures rssTorrentPosts == old(rssTorrentPosts) + if old(rssTorrentPumpScheduled) then [] else [FromEnqueue]
    {
      rssTorrentQueue := rssTorrentQueue + [item];
      SchedulePumpRssTorrent(FromEnqueue);
    }

    method FinishRssTorrent()
      modifies this`rssTorrentInFlight, this`rssTorrentPumpScheduled, this`rssTorrentPosts
      ensures Torrents() == Schedule(Release(old(Torrents()))).0
      ensures rssTorrentInFlight == (if old(rssTorrentInFlight) > 0 then old(rssTorrentInFlight) - 1 else 0)
                && rssTorrentQueue == old(rssTorrentQueue)
      ensures rssTorrentPosts == old(rssTorrentPosts) + if old(rssTorrentPumpScheduled) then [] else [FromFinish]
    {
      rssTorrentInFlight := Max(0, rssTorrentInFlight - 1);
      SchedulePumpRssTorrent(FromFinish);
    }

    method PumpRssTorrentUrlQueue() returns (item: Option<U>)
      requires rssTorrentPosts != []
      modifies this`rssTorrentQueue, this`rssTorrentInFlight, this`rssTorrentPumpScheduled, this`rssTorrentPosts
      ensures (Torrents(), item) == TakeNext(old(Torrents()))
      ensures old(rssTorrentInFlight < rssTorrentMaxInFlight && rssTorrentQueue != []) ==>
                item == Some(old(rssTorrentQueue)[0]) && rssTorrentQueue == old(rssTorrentQueue)[1..]
                    && rssTorrentInFlight == old(rssTorrentInFlight) + 1
      ensures old(rssTorrentInFlight >= rssTorrentMaxInFlight || rssTorrentQueue == []) ==>
                item == None && rssTorrentQueue == old(rssTorrentQueue) && rssTorrentInFlight == old(rssTorrentInFlight)
      ensures rssTorrentPosts == old(rssTorrentPosts)[1..]
    {
      rssTorrentPosts := rssTorrentPosts[1..];
      rssTorrentPumpScheduled := false;
      if rssTorrentInFlight >= rssTorrentMaxInFlight || rssTorrentQueue == [] {
        return None;
      }
      item := Some(rssTorrentQueue[0]);
      rssTorrentQueue := rssTorrentQueue[1..];
      rssTorrentInFlight := rssTorrentInFlight + 1;
    }
  }

  // ---------------------------------------------------------------- interleavings

  /**
   Calls in progress on any number of threads, by how far they have come: past their own critical
   section but not yet in schedulePump (`waking`), told to post (`posting`), in the event queue
   (`posted`), and taken from there but not yet inside the pump's critical section (`entering`).
  */
  datatype Calls = Calls(waking: seq<Closure>, posting: seq<Closure>, posted: seq<Closure>, entering: seq<Closure>)

  datatype History<T> = History(enqueued: seq<T>, started: seq<T>, finishes: nat)

  datatype State<T> = State(half: Half<T>, calls: Calls, running: seq<T>, past: History<T>)

  datatype Step<T> =
    | DoSetMax(n: int)
    | DoPush(item: T)
    | DoFinish(i: nat)
    | DoSchedule(i: nat)
    | DoPost(i: nat)
    | DoEnter(i: nat)
    | DoPump(i: nat)

  function Without<T>(s: seq<T>, i: nat): (r: seq<T>)
    requires i < |s|
    ensures |r| == |s| - 1
  {
    s[..i] + s[i + 1..]
  }

  function Start<T>(): State<T> { State(Idle(), Calls([], [], [], []), [], History([], [], 0)) }

  predicate Enabled<T>(s: State<T>, a: Step<T>) {
    match a
    case DoSetMax(_) => true
    case DoPush(_) => true
    case DoFinish(i) => i < |s.running|
    case DoSchedule(i) => i < |s.calls.waking|
    case DoPost(i) => i < |s.calls.posting|
    case DoEnter(i) => i < |s.calls.posted|
    case DoPump(i) => i < |s.calls.entering|
  }

  function Apply<T>(s: State<T>, a: Step<T>): State<T>
    requires Enabled(s, a)
  {
    var c := s.calls;
    match a
    case DoSetMax(n) => s.(half := SetMax(s.half, n))
    case DoPush(x) =>
      s.(half := Push(s.half, x), calls := c.(waking := c.waking + [FromEnqueue]),
         past := s.past.(enqueued := s.past.enqueued + [x]))
    case DoFinish(i) =>
      s.(half := Release(s.half), calls := c.(waking := c.waking + [FromFinish]), running := Without(s.running, i),
         past := s.past.(finishes := s.past.finishes + 1))
    case DoSchedule(i) =>
      var h := Schedule(s.half);
      s.(half := h.0, calls := c.(waking := Without(c.waking, i),
                                  posting := c.posting + if h.1 then [c.waking[i]] else []))
    case DoPost(i) => s.(calls := c.(posting := Without(c.posting, i), posted := c.posted + [c.posting[i]]))
    case DoEnter(i) => s.(calls := c.(posted := Without(c.posted, i), entering := c.entering + [c.posted[i]]))
    case DoPump(i) =>
      var h := TakeNext(s.half);
      var s' := s.(half := h.0, calls := c.(entering := Without(c.entering, i)));
      if h.1.None? then s'
      else s'.(running := s.running + [h.1.value], past := s.past.(started := s.past.started + [h.1.value]))
  }

  predicate Legal<T>(s: State<T>, run: seq<Step<T>>)
    decreases |run|, 0
  {
    run == [] || (Legal(s, run[..|run| - 1]) && Enabled(Exec(s, run[..|run| - 1]), run[|run| - 1]))
  }

  function Exec<T>(s: State<T>, run: seq<Step<T>>): State<T>
    requires Legal(s, run)
    decreases |run|, 1
  {
    if run == [] then s else Apply(Exec(s, run[..|run| - 1]), run[|run| - 1])
  }

  /** The pump calls on their way. */
  function Pumps(c: Calls): nat { |c.posting| + |c.posted| + |c.entering| }

  ghost predicate Inv<T>(s: State<T>) {
    && Pumps(s.calls) == (if s.half.scheduled then 1 else 0)
    && s.half.inFlight == |s.running| == |s.past.started| - s.past.finishes
    && s.past.started + s.half.queue == s.past.enqueued
    && s.half.maxInFlight >= 1
    && (s.half.queue != [] ==> s.half.scheduled || s.half.inFlight > 0 || s.calls.waking != [])
  }

  lemma StepInv<T>(s: State<T>, a: Step<T>)
    requires Inv(s) && Enabled(s, a)
    ensures Inv(Apply(s, a))
  {
    if a.DoPump? {
      var h := TakeNext(s.half);
      if h.1.Some? {
        assert s.half.queue == [h.1.value] + h.0.queue;
        assert s.past.started + [h.1.value] + h.0.queue == s.past.enqueued;
      }
    } else if a.DoPush? {
      assert s.past.started + (s.half.queue + [a.item]) == s.past.enqueued + [a.item];
    }
  }

  lemma {:induction false} ReachableInv<T>(run: seq<Step<T>>)
    requires Legal(Start(), run)
    ensures Inv(Exec(Start(), run))
    decreases |run|
  {
    if run == [] {
    } else {
      ReachableInv(run[..|run| - 1]);
      StepInv(Exec(Start(), run[..|run| - 1]), run[|run| - 1]);
    }
  }

  /** After any interleaving: at most one pump is on its way and the flag tells so; items start in
      the order they came, each once; the in-flight counter counts the unfinished starts; and a
      queued item never waits with nothing under way that would start it. */
  lemma NoLostWakeUp<T>(run: seq<Step<T>>)
    requires Legal(Start(), run)
    ensures var s := Exec(Start(), run);
            && (s.half.scheduled <==> Pumps(s.calls) == 1) && Pumps(s.calls) <= 1
            && s.past.started + s.half.queue == s.past.enqueued
            && s.half.inFlight == |s.past.started| - s.past.finishes == |s.running|
            && (s.half.queue != [] ==> Pumps(s.calls) == 1 || s.half.inFlight > 0 || s.calls.waking != [])
  {
    ReachableInv(run);
  }

  /** What a step starts: a pump starts the oldest queued item exactly when there is one and fewer
      than the current limit are in flight, and nothing else starts anything. */
  lemma StartsRespectTheLimit<T>(run: seq<Step<T>>, a: Step<T>)
    requires Legal(Start(), run) && Enabled(Exec(Start(), run), a)
    ensures var s := Exec(Start(), run);
            var s' := Apply(s, a);
            if a.DoPump? && s.half.queue != [] && |s.running| < s.half.maxInFlight
            then && s'.past.started == s.past.started + [s.half.queue[0]]
                 && s'.running == s.running + [s.half.queue[0]] && s'.half.queue == s.half.queue[1..]
            else s'.past.started == s.past.started
  {
    ReachableInv(run);
  }

  /** The limit last set, at least one; eight until one is set. */
  function LastLimit<T>(run: seq<Step<T>>): int
    decreases |run|
  {
    if run == [] then 8
    else if run[|run| - 1].DoSetMax? then if run[|run| - 1].n < 1 then 1 else run[|run| - 1].n
    else LastLimit(run[..|run| - 1])
  }

  lemma {:induction false} LimitIsLastSet<T>(run: seq<Step<T>>)
    requires Legal(Start(), run)
    ensures Exec(Start(), run).half.maxInFlight == LastLimit(run)
    decreases |run|
  {
    if run != [] { LimitIsLastSet(run[..|run| - 1]); }
  }

  function Is(x: Closure): Closure -> bool { (y: Closure) => y == x }

  function Occurrences(s: seq<Closure>, x: Closure): nat { Count(s, Is(x)) }

  /** The calls under way that carry the closure. */
  function Carrying(c: Calls, x: Closure): nat {
    Occurrences(c.waking, x) + Occurrences(c.posting, x) + Occurrences(c.posted, x) + Occurrences(c.entering, x)
  }

  lemma {:induction false} OccurrencesWithout(s: seq<Closure>, i: nat, x: Closure)
    requires i < |s|
    ensures Occurrences(Without(s, i), x) == Occurrences(s, x) - (if s[i] == x then 1 else 0)
    decreases |s|
  {
    var front, less := s[..|s| - 1], Without(s, i);
    if i < |front| {
      OccurrencesWithout(front, i, x);
      assert less[..|less| - 1] == Without(front, i);
    } else {
      assert less == front;
    }
  }

  lemma OccurrencesWith(s: seq<Closure>, last: Closure, x: Closure)
    ensures Occurrences(s + [last], x) == Occurrences(s, x) + (if last == x then 1 else 0)
  {
    assert (s + [last])[..|s|] == s;
  }

  lemma CarryingStep<T>(s: State<T>, a: Step<T>, x: Closure)
    requires Enabled(s, a)
    ensures Carrying(Apply(s, a).calls, x) <= Carrying(s.calls, x)
              + (if (x == FromEnqueue && a.DoPush?) || (x == FromFinish && a.DoFinish?) then 1 else 0)
  {
    var c := s.calls;
    match a {
      case DoPush(_) => OccurrencesWith(c.waking, FromEnqueue, x);
      case DoFinish(_) => OccurrencesWith(c.waking, FromFinish, x);
      case DoSchedule(i) =>
        OccurrencesWithout(c.waking, i, x);
        OccurrencesWith(c.posting, c.waking[i], x);
        assert c.posting + [] == c.posting;
      case DoPost(i) =>
        OccurrencesWithout(c.posting, i, x);
        OccurrencesWith(c.posted, c.posting[i], x);
      case DoEnter(i) =>
        OccurrencesWithout(c.posted, i, x);
        OccurrencesWith(c.entering, c.posted[i], x);
      case DoPump(i) => OccurrencesWithout(c.entering, i, x);
      case _ =>
    }
  }

  /** A pump carries the closure of the call that posted it: there are never more pumps and calls of
      either closure under way than there were calls of enqueue or of finish. */
  lemma {:induction false} ClosuresMatchCalls<T>(run: seq<Step<T>>)
    requires Legal(Start(), run)
    ensures var s := Exec(Start(), run);
            Carrying(s.calls, FromEnqueue) <= |s.past.enqueued| && Carrying(s.calls, FromFinish) <= s.past.finishes
    decreases |run|
  {
    if run != [] {
      var s, a := Exec(Start(), run[..|run| - 1]), run[|run| - 1];
      ClosuresMatchCalls(run[..|run| - 1]);
      CarryingStep(s, a, FromEnqueue);
      CarryingStep(s, a, FromFinish);
      PastStep(s, a);
    }
  }

  lemma PastStep<T>(s: State<T>, a: Step<T>)
    requires Enabled(s, a)
    ensures |Apply(s, a).past.enqueued| == |s.past.enqueued| + (if a.DoPush? then 1 else 0)
    ensures Apply(s, a).past.finishes == s.past.finishes + (if a.DoFinish? then 1 else 0)
  {
  }

  // ---------------------------------------------------------------- progress

  /** A step that brings no new work. */
  predicate Internal<T>(a: Step<T>) { !a.DoPush? && !a.DoSetMax? }

  function Measure<T>(s: State<T>): nat {
    6 * |s.half.queue| + 5 * |s.running|
    + 4 * |s.calls.waking| + 3 * |s.calls.posting| + 2 * |s.calls.posted| + |s.calls.entering|
  }

  lemma MeasureDecreases<T>(s: State<T>, a: Step<T>)
    requires Enabled(s, a) && Internal(a)
    ensures Measure(Apply(s, a)) < Measure(s)
  {
  }

  lemma {:induction false} RunIsShort<T>(s: State<T>, run: seq<Step<T>>)
    requires Legal(s, run) && forall a <- run :: Internal(a)
    ensures Measure(Exec(s, run)) + |run| <= Measure(s)
    decreases |run|
  {
    if run != [] {
      RunIsShort(s, run[..|run| - 1]);
      MeasureDecreases(Exec(s, run[..|run| - 1]), run[|run| - 1]);
    }
  }

  /** While an item is queued something can move without new calls from outside. */
  lemma CanMove<T>(s: State<T>)
    requires Inv(s) && s.half.queue != []
    ensures exists a :: Enabled(s, a) && Internal(a)
  {
    var a := if s.calls.waking != [] then DoSchedule(0) else if s.running != [] then DoFinish(0)
             else if s.calls.posting != [] then DoPost(0) else if s.calls.posted != [] then DoEnter(0) else DoPump(0);
    assert Enabled(s, a) && Internal(a);
  }

  lemma {:induction false} ExecInv<T>(s: State<T>, run: seq<Step<T>>)
    requires Inv(s) && Legal(s, run)
    ensures Inv(Exec(s, run))
    decreases |run|
  {
    if run != [] {
      ExecInv(s, run[..|run| - 1]);
      StepInv(Exec(s, run[..|run| - 1]), run[|run| - 1]);
    }
  }

  lemma {:induction false} InternalKeepsEnqueued<T>(s: State<T>, run: seq<Step<T>>)
    requires Legal(s, run) && forall a <- run :: Internal(a)
    ensures Exec(s, run).past.enqueued == s.past.enqueued
    decreases |run|
  {
    if run != [] {
      assert run[|run| - 1] in run;
      InternalKeepsEnqueued(s, run[..|run| - 1]);
    }
  }

  /** If every start finishes, every item starts: from any reachable state, whatever is scheduled
      next, the pipeline comes to rest after a bounded number of steps, and at rest all items ever
      enqueued have started in order. */
  lemma EverythingStarts<T>(before: seq<Step<T>>, run: seq<Step<T>>)
    requires Legal(Start(), before) && Legal(Exec(Start(), before), run) && forall a <- run :: Internal(a)
    ensures var s := Exec(Start(), before);
            var end := Exec(s, run);
            && |run| <= Measure(s)
            && (|run| == Measure(s) || !(exists a :: Enabled(end, a) && Internal(a)) ==>
                  end.half.queue == [] && end.past.started == s.past.enqueued)
  {
    var s := Exec(Start(), before);
    ReachableInv(before);
    RunIsShort(s, run);
    ExecInv(s, run);
    InternalKeepsEnqueued(s, run);
    if Exec(s, run).half.queue != [] {
      CanMove(Exec(s, run));
    }
  }

  // ---------------------------------------------------------------- how parallel it gets

  /** Running items and calls that may still start one. */
  function Activity<T>(s: State<T>): nat { |s.running| + |s.calls.waking| + Pumps(s.calls) }

  lemma {:induction false} ActivityNeverGrows<T>(s: State<T>, run: seq<Step<T>>)
    requires Legal(s, run) && forall a <- run :: !a.DoPush?
    ensures Activity(Exec(s, run)) <= Activity(s)
    decreases |run|
  {
    if run != [] {
      assert run[|run| - 1] in run;
      ActivityNeverGrows(s, run[..|run| - 1]);
    }
  }

  /** enqueue of every item in turn, each call complete before the next: how the dispatch loop
      feeds the queue. */
  function Batch<T>(items: seq<T>): seq<Step<T>>
    decreases |items|
  {
    if items == [] then [] else Batch(items[..|items| - 1]) + [DoPush(items[|items| - 1]), DoSchedule(0)]
  }

  lemma ExecTwo<T>(s: State<T>, run: seq<Step<T>>, a: Step<T>, b: Step<T>)
    requires Legal(s, run) && Enabled(Exec(s, run), a) && Enabled(Apply(Exec(s, run), a), b)
    ensures Legal(s, run + [a, b]) && Exec(s, run + [a, b]) == Apply(Apply(Exec(s, run), a), b)
  {
    var one, two := run + [a], run + [a, b];
    assert two[..|two| - 1] == one && one[..|one| - 1] == run;
    assert Legal(s, one) && Exec(s, one) == Apply(Exec(s, run), a);
  }

  /** Nothing runs and no call is in progress: then nothing is queued either. */
  lemma AtRest<T>(s: State<T>)
    requires Inv(s) && Activity(s) == 0
    ensures s.half.queue == [] && s.half.inFlight == 0 && !s.half.scheduled
  {
  }

  /** Within one event, only an enqueue that finds nothing scheduled posts a pump. */
  lemma EnqueueOne<T>(e: State<T>, item: T)
    requires e.calls.waking == []
    ensures Enabled(e, DoPush(item)) && Enabled(Apply(e, DoPush(item)), DoSchedule(0))
    ensures var r := Apply(Apply(e, DoPush(item)), DoSchedule(0));
            && r.half.queue == e.half.queue + [item] && r.running == e.running && r.calls.waking == []
            && r.half.scheduled && Pumps(r.calls) == Pumps(e.calls) + (if e.half.scheduled then 0 else 1)
  {
  }

  /** The batch has been enqueued and has left one pump posted. */
  ghost predicate BatchWaits<T>(s: State<T>, items: seq<T>) {
    && Legal(s, Batch(items))
    && var e := Exec(s, Batch(items));
       && e.half.queue == items && e.running == [] && e.calls.waking == []
       && e.half.scheduled == (items != []) && Pumps(e.calls) == (if items == [] then 0 else 1)
  }

  lemma BatchStep<T>(s: State<T>, front: seq<T>, item: T, items: seq<T>)
    requires BatchWaits(s, front) && items == front + [item]
    ensures BatchWaits(s, items)
  {
    assert items[..|front|] == front;
    EnqueueOne(Exec(s, Batch(front)), item);
    ExecTwo(s, Batch(front), DoPush(item), DoSchedule(0));
  }

  /** A batch can be enqueued whenever the queue is at rest, and leaves one pump posted. */
  lemma {:induction false} BatchOutcome<T>(s: State<T>, items: seq<T>)
    requires Inv(s) && Activity(s) == 0
    ensures BatchWaits(s, items)
    decreases |items|
  {
    if items == [] {
      AtRest(s);
    } else {
      var front := items[..|items| - 1];
      BatchOutcome(s, front);
      BatchStep(s, front, items[|items| - 1], items);
    }
  }

  /** A batch that reaches a resting queue within one event, at any time, is worked off one item at
      a time, whatever the in-flight limit, until something else is enqueued. */
  lemma BatchIsSerial<T>(before: seq<Step<T>>, items: seq<T>, run: seq<Step<T>>)
    requires Legal(Start(), before) && Activity(Exec(Start(), before)) == 0
    requires Legal(Exec(Start(), before), Batch(items))
    requires Legal(Exec(Exec(Start(), before), Batch(items)), run) && forall a <- run :: !a.DoPush?
    ensures |Exec(Exec(Exec(Start(), before), Batch(items)), run).running| <= 1
  {
    var s := Exec(Start(), before);
    ReachableInv(before);
    BatchOutcome(s, items);
    ActivityNeverGrows(Exec(s, Batch(items)), run);
  }
}
