/**
 The path of an RSS download through AppController, RssDownloadOrchestrator and RssDownloadPipeline
 back to RssService, as a machine whose steps are the events of the UI thread.
*/
module RssDownloads {
  import opened Sequences
  import opened RssTypes
  import opened RssScheduling
  import opened RssPipeline

  // ---------------------------------------------------------------- the orchestrator

  /** Which of the three callbacks of setHandlers are set; AppController sets all before any item. */
  datatype Handlers = Handlers(settle: bool, startMagnet: bool, startTorrent: bool)

  predicate Wired(h: Handlers) { h.settle && h.startMagnet && h.startTorrent }

  datatype Disposal = HandOver | SettleAndFinish | Drop

  /** What a pump closure of RssDownloadOrchestrator does with the item it is given. */
  function Dispose(closure: Closure, shuttingDown: bool, hasStart: bool): Disposal {
    match closure
    case FromEnqueue => if !shuttingDown && hasStart then HandOver else SettleAndFinish
    case FromFinish => if hasStart then HandOver else Drop
  }

  // ---------------------------------------------------------------- the machine

  /** One request on its way; `serial` is its place among all requests. */
  datatype Ticket = Ticket(serial: nat, itemId: string, uri: string)

  /** A queue, the pumps posted for it, and the started items that have not finished. */
  datatype Lane = Lane(half: Half<Ticket>, posts: seq<Closure>, flying: seq<Ticket>)

  /** Every request issued, and every call of settle and finish, in order. */
  datatype Log = Log(issued: seq<Ticket>, settled: seq<Ticket>, finished: seq<Ticket>)

  /** The settings that bound the magnets in flight. */
  datatype Limits = Limits(magnetMaxInFlight: int, maxConcurrent: int)

  datatype App = App(items: seq<RssItem>, magnets: Lane, torrents: Lane, log: Log, limits: Limits, shuttingDown: bool)

  /** QString::trimmed, validateMagnetUri and SavePathPolicy::resolve, left uninterpreted, and the
      handlers. */
  datatype Config = Config(trim: string -> string, validMagnet: string -> bool, savePath: string, handlers: Handlers)

  datatype Event =
    | Configure(limits: Limits)
    | Edit(items: seq<RssItem>)
    | Download(itemId: string)
    | PumpMagnet
    | PumpTorrent
    | TorrentDone(i: nat, ok: bool)
    | Shutdown

  function EmptyLane(): Lane { Lane(Idle(), [], []) }

  function Launched(items: seq<RssItem>, limits: Limits): App {
    App(items, EmptyLane(), EmptyLane(), Log([], [], []), limits, false)
  }

  // ---------------------------------------------------------------- lane operations

  function Enqueue(l: Lane, t: Ticket): Lane {
    var h := Schedule(Push(l.half, t));
    l.(half := h.0, posts := if h.1 then l.posts + [FromEnqueue] else l.posts)
  }

  function Finish(l: Lane): Lane {
    var h := Schedule(Release(l.half));
    l.(half := h.0, posts := if h.1 then l.posts + [FromFinish] else l.posts)
  }

  /** A pump event up to the call of its closure. */
  function Pumped(l: Lane): (Lane, Option<Ticket>)
    requires l.posts != []
  {
    var h := TakeNext(l.half);
    (l.(half := h.0, posts := l.posts[1..]), h.1)
  }

  // ---------------------------------------------------------------- steps

  function MagnetLimit(l: Limits, itemId: string): int {
    if itemId == "" then l.magnetMaxInFlight else Min(l.magnetMaxInFlight, Clamp(l.maxConcurrent, 1, 50))
  }

  function IssueMagnet(s: App, limit: int, t: Ticket): App {
    s.(magnets := Enqueue(s.magnets.(half := SetMax(s.magnets.half, limit)), t),
       log := s.log.(issued := s.log.issued + [t]))
  }

  function IssueTorrent(s: App, t: Ticket): App {
    s.(torrents := Enqueue(s.torrents, t), log := s.log.(issued := s.log.issued + [t]))
  }

  /** The download callback with the request of `it`. */
  function Deliver(c: Config, s: App, it: RssItem): App {
    var n := |s.log.issued|;
    if s.shuttingDown then s
    else if it.entry.magnet != "" then
      IssueMagnet(s, MagnetLimit(s.limits, it.entry.id), Ticket(n, it.entry.id, it.entry.magnet))
    else if it.entry.torrentUrl != "" then IssueTorrent(s, Ticket(n, it.entry.id, c.trim(it.entry.torrentUrl)))
    else s
  }

  /** settleRssDownloadIfNeeded, and the finish call that follows it on every path. */
  function Close(c: Config, s: App, t: Ticket, ok: bool): App {
    s.(items := ApplySettlement(s.items, t.itemId, ok, if ok then c.savePath else ""),
       log := s.log.(settled := s.log.settled + [t], finished := s.log.finished + [t]))
  }

  /** The enqueue closure when it does not hand over: settled as failed if it can be, and finished. */
  function Refuse(c: Config, s: App, t: Ticket): App {
    if c.handlers.settle then Close(c, s, t, false) else s.(log := s.log.(finished := s.log.finished + [t]))
  }

  /** startOneMagnetOnUi for an RSS item: done within the event. */
  function StartMagnet(c: Config, s: App, t: Ticket): App {
    Close(c, s, t, !s.shuttingDown && c.validMagnet(c.trim(t.uri))).(magnets := Finish(s.magnets))
  }

  /** startOneRssTorrentUrlOnUi: the fetch runs elsewhere unless there is nothing to fetch. */
  function StartTorrent(c: Config, s: App, t: Ticket): App {
    if c.trim(t.uri) == "" || s.shuttingDown then Close(c, s, t, false).(torrents := Finish(s.torrents))
    else s.(torrents := s.torrents.(flying := s.torrents.flying + [t]))
  }

  predicate Enabled(s: App, e: Event) {
    match e
    case PumpMagnet => s.magnets.posts != []
    case PumpTorrent => s.torrents.posts != []
    case TorrentDone(i, _) => i < |s.torrents.flying|
    case _ => true
  }

  ghost predicate Allowed(s: App, e: Event) {
    Enabled(s, e) && (e.Edit? ==> EditOf(s.items, e.items))
  }

  function Apply(c: Config, s: App, e: Event): App
    requires Enabled(s, e)
  {
    match e
    case Configure(limits) => s.(limits := limits)
    case Edit(items) => s.(items := items)
    case Download(id) =>
      var d := ApplyDownload(true, s.items, id);
      if d.1 then Deliver(c, s.(items := d.0), s.items[Find(s.items, id).value]) else s.(items := d.0)
    case PumpMagnet =>
      var p := Pumped(s.magnets);
      var s' := s.(magnets := p.0);
      if p.1.None? then s'
      else
        match Dispose(s.magnets.posts[0], s.shuttingDown, c.handlers.startMagnet) {
          case HandOver => StartMagnet(c, s', p.1.value)
          case SettleAndFinish => Refuse(c, s', p.1.value).(magnets := Finish(p.0))
          case Drop => s'
        }
    case PumpTorrent =>
      var p := Pumped(s.torrents);
      var s' := s.(torrents := p.0);
      if p.1.None? then s'
      else
        match Dispose(s.torrents.posts[0], s.shuttingDown, c.handlers.startTorrent) {
          case HandOver => StartTorrent(c, s', p.1.value)
          case SettleAndFinish => Refuse(c, s', p.1.value).(torrents := Finish(p.0))
          case Drop => s'
        }
    case TorrentDone(i, ok) =>
      var l := s.torrents;
      Close(c, s, l.flying[i], ok).(torrents := Finish(l.(flying := Without(l.flying, i))))
    case Shutdown => s.(shuttingDown := true)
  }

  ghost predicate Legal(c: Config, s: App, run: seq<Event>)
    decreases |run|
  {
    run == [] || (Allowed(s, run[0]) && Legal(c, Apply(c, s, run[0]), run[1..]))
  }

  ghost function Exec(c: Config, s: App, run: seq<Event>): App
    requires Legal(c, s, run)
    decreases |run|
  {
    if run == [] then s else Exec(c, Apply(c, s, run[0]), run[1..])
  }

  // ---------------------------------------------------------------- invariants

  ghost predicate LaneInv(l: Lane) {
    && |l.posts| == (if l.half.scheduled then 1 else 0)
    && l.half.inFlight == |l.flying|
    && l.half.maxInFlight >= 1
    && (l.half.queue != [] ==> l.half.scheduled || l.flying != [])
  }

  /** The requests that are queued or in flight. */
  ghost function Waiting(l: Lane): multiset<Ticket> { multiset(l.half.queue) + multiset(l.flying) }
  ghost function Outstanding(s: App): multiset<Ticket> { Waiting(s.magnets) + Waiting(s.torrents) }

  /** Each request is outstanding, or settled and finished; none is both or twice. */
  ghost predicate TicketInv(s: App) {
    && s.log.settled == s.log.finished
    && Outstanding(s) + multiset(s.log.settled) == multiset(s.log.issued)
    && forall k :: 0 <= k < |s.log.issued| ==> s.log.issued[k].serial == k
  }

  ghost predicate HasTicket(m: multiset<Ticket>, id: string) { exists t :: t in m && t.itemId == id }

  /** Every queued item waits for an outstanding request. */
  ghost predicate SlotInv(items: seq<RssItem>, m: multiset<Ticket>) {
    forall j :: 0 <= j < |items| && items[j].state.queued ==> HasTicket(m, items[j].entry.id)
  }

  ghost predicate Core(s: App) {
    LaneInv(s.magnets) && LaneInv(s.torrents) && s.magnets.flying == [] && TicketInv(s)
  }

  ghost predicate Inv(s: App) {
    && GoodIds(s.items) && Core(s)
    && (!s.shuttingDown ==> SlotInv(s.items, Outstanding(s)))
  }

  // ---------------------------------------------------------------- preservation

  lemma SameIdsStayGood(a: seq<RssItem>, b: seq<RssItem>)
    requires GoodIds(a) && SameEntries(a, b)
    ensures GoodIds(b)
  {
  }

  lemma EnqueueKeepsLane(l: Lane, t: Ticket, n: int)
    requires LaneInv(l)
    ensures LaneInv(Enqueue(l, t)) && LaneInv(l.(half := SetMax(l.half, n)))
    ensures Waiting(Enqueue(l, t)) == Waiting(l) + multiset{t} && Enqueue(l, t).flying == l.flying
  {
  }

  /** After a pump took `t`, the lane is back in order once `t` flies or has finished. */
  lemma PumpKeepsLane(l: Lane)
    requires LaneInv(l) && l.posts != []
    ensures var p := Pumped(l);
            p.0.flying == l.flying
            && (p.1.None? ==> LaneInv(p.0) && Waiting(p.0) == Waiting(l))
            && (p.1.Some? ==>
                  && LaneInv(Finish(p.0)) && LaneInv(p.0.(flying := l.flying + [p.1.value]))
                  && Waiting(l) == Waiting(Finish(p.0)) + multiset{p.1.value}
                  && Waiting(p.0.(flying := l.flying + [p.1.value])) == Waiting(l))
  {
    var p := Pumped(l);
    if p.1.Some? {
      assert l.half.queue == [p.1.value] + p.0.half.queue;
    }
  }

  lemma FinishKeepsLane(l: Lane, i: nat)
    requires LaneInv(l) && i < |l.flying|
    ensures var l' := Finish(l.(flying := Without(l.flying, i)));
            LaneInv(l') && Waiting(l) == Waiting(l') + multiset{l.flying[i]}
  {
    assert l.flying == l.flying[..i] + [l.flying[i]] + l.flying[i + 1..];
  }

  lemma SlotsGrow(items: seq<RssItem>, m: multiset<Ticket>, more: multiset<Ticket>)
    requires SlotInv(items, m)
    ensures SlotInv(items, m + more)
  {
    forall j | 0 <= j < |items| && items[j].state.queued ensures HasTicket(m + more, items[j].entry.id) {
      var t :| t in m && t.itemId == items[j].entry.id;
      assert t in m + more;
    }
  }

  lemma DownloadTakesSlot(items: seq<RssItem>, m: multiset<Ticket>, id: string, t: Ticket)
    requires SlotInv(items, m) && ApplyDownload(true, items, id).1 && t.itemId == id
    ensures SlotInv(ApplyDownload(true, items, id).0, m + multiset{t})
  {
    SlotsGrow(items, m, multiset{t});
    assert t in m + multiset{t};
  }

  lemma RefusalKeepsSlots(items: seq<RssItem>, m: multiset<Ticket>, id: string)
    requires SlotInv(items, m) && !ApplyDownload(true, items, id).1
    ensures SlotInv(ApplyDownload(true, items, id).0, m)
  {
  }

  lemma EditKeepsSlots(a: seq<RssItem>, b: seq<RssItem>, m: multiset<Ticket>)
    requires SlotInv(a, m) && QueuedFrom(a, b)
    ensures SlotInv(b, m)
  {
  }

  /** Settling frees the slot of the item, and only that one. */
  lemma SettlementFreesSlot(items: seq<RssItem>, m: multiset<Ticket>, t: Ticket, ok: bool, path: string)
    requires GoodIds(items) && SlotInv(items, m + multiset{t})
    ensures SlotInv(ApplySettlement(items, t.itemId, ok, path), m)
  {
    var after := ApplySettlement(items, t.itemId, ok, path);
    forall j | 0 <= j < |after| && after[j].state.queued ensures HasTicket(m, after[j].entry.id) {
      FindUnique(items, j);
      assert items[j].entry.id != t.itemId && items[j].state.queued;
      var u :| u in m + multiset{t} && u.itemId == items[j].entry.id;
      assert u in m;
    }
  }

  lemma IssueKeepsTickets(s: App, s': App, t: Ticket)
    requires TicketInv(s) && t.serial == |s.log.issued|
    requires s'.log == s.log.(issued := s.log.issued + [t]) && Outstanding(s') == Outstanding(s) + multiset{t}
    ensures TicketInv(s')
  {
  }

  lemma CloseKeepsTickets(s: App, s': App, t: Ticket)
    requires TicketInv(s) && s'.log == s.log.(settled := s.log.settled + [t], finished := s.log.finished + [t])
    requires Outstanding(s) == Outstanding(s') + multiset{t}
    ensures TicketInv(s')
  {
  }

  lemma IssueInv(s: App, limit: int, t: Ticket)
    requires Core(s) && t.serial == |s.log.issued|
    ensures Core(IssueMagnet(s, limit, t)) && Outstanding(IssueMagnet(s, limit, t)) == Outstanding(s) + multiset{t}
    ensures Core(IssueTorrent(s, t)) && Outstanding(IssueTorrent(s, t)) == Outstanding(s) + multiset{t}
  {
    var l := s.magnets.(half := SetMax(s.magnets.half, limit));
    EnqueueKeepsLane(s.magnets, t, limit);
    EnqueueKeepsLane(l, t, limit);
    EnqueueKeepsLane(s.torrents, t, limit);
    assert Waiting(l) == Waiting(s.magnets);
    IssueKeepsTickets(s, IssueMagnet(s, limit, t), t);
    IssueKeepsTickets(s, IssueTorrent(s, t), t);
  }

  /** A delivered request of an item is outstanding from then on. */
  lemma DeliverInv(c: Config, s: App, it: RssItem) returns (t: Ticket)
    requires Core(s) && !s.shuttingDown && HasResource(it)
    ensures Core(Deliver(c, s, it)) && t.itemId == it.entry.id && Deliver(c, s, it).items == s.items
    ensures Outstanding(Deliver(c, s, it)) == Outstanding(s) + multiset{t}
  {
    var n := |s.log.issued|;
    t := if it.entry.magnet != "" then Ticket(n, it.entry.id, it.entry.magnet)
         else Ticket(n, it.entry.id, c.trim(it.entry.torrentUrl));
    IssueInv(s, MagnetLimit(s.limits, it.entry.id), t);
  }

  /** The request of a delivered download. */
  lemma DeliveredInv(c: Config, s: App, id: string)
    requires Inv(s) && !s.shuttingDown && ApplyDownload(true, s.items, id).1
    ensures Inv(Apply(c, s, Download(id)))
  {
    var d := ApplyDownload(true, s.items, id);
    SameIdsStayGood(s.items, d.0);
    var it := s.items[Find(s.items, id).value];
    var s' := s.(items := d.0);
    assert Core(s') && Outstanding(s') == Outstanding(s);
    var t := DeliverInv(c, s', it);
    DownloadTakesSlot(s.items, Outstanding(s), id, t);
  }

  lemma DownloadInv(c: Config, s: App, id: string)
    requires Inv(s)
    ensures Inv(Apply(c, s, Download(id)))
  {
    var d := ApplyDownload(true, s.items, id);
    if d.1 && !s.shuttingDown {
      DeliveredInv(c, s, id);
    } else {
      SameIdsStayGood(s.items, d.0);
      if !s.shuttingDown { RefusalKeepsSlots(s.items, Outstanding(s), id); }
    }
  }

  /** The end of a request, whatever brought it about. */
  lemma CloseInv(c: Config, s: App, s': App, t: Ticket, ok: bool)
    requires Inv(s) && LaneInv(s'.magnets) && LaneInv(s'.torrents) && s'.magnets.flying == []
    requires s' == Close(c, s, t, ok).(magnets := s'.magnets, torrents := s'.torrents)
    requires Outstanding(s) == Outstanding(s') + multiset{t}
    ensures Inv(s')
  {
    SameIdsStayGood(s.items, s'.items);
    CloseKeepsTickets(s, s', t);
    if !s.shuttingDown {
      SettlementFreesSlot(s.items, Outstanding(s'), t, ok, if ok then c.savePath else "");
    }
  }

  lemma PumpMagnetCases(c: Config, s: App)
    requires Wired(c.handlers) && Enabled(s, PumpMagnet)
    ensures var p := Pumped(s.magnets);
            var s' := s.(magnets := p.0);
            var r := Apply(c, s, PumpMagnet);
            if p.1.None? then r == s' else exists ok :: r == Close(c, s', p.1.value, ok).(magnets := Finish(p.0))
  {
    var p := Pumped(s.magnets);
    if p.1.Some? {
      var ok := !s.shuttingDown && c.validMagnet(c.trim(p.1.value.uri));
      var s' := s.(magnets := p.0);
      assert StartMagnet(c, s', p.1.value) == Close(c, s', p.1.value, ok).(magnets := Finish(p.0));
      assert Refuse(c, s', p.1.value) == Close(c, s', p.1.value, false);
    }
  }

  lemma MagnetClosedInv(c: Config, s: App, t: Ticket, ok: bool)
    requires Inv(s) && s.magnets.posts != [] && Pumped(s.magnets).1 == Some(t)
    ensures Inv(Close(c, s.(magnets := Pumped(s.magnets).0), t, ok).(magnets := Finish(Pumped(s.magnets).0)))
  {
    var p := Pumped(s.magnets);
    PumpKeepsLane(s.magnets);
    var closed := Close(c, s.(magnets := p.0), t, ok).(magnets := Finish(p.0));
    assert Outstanding(s) == Outstanding(closed) + multiset{t};
    CloseInv(c, s, closed, t, ok);
  }

  lemma MagnetIdleInv(s: App)
    requires Inv(s) && s.magnets.posts != [] && Pumped(s.magnets).1.None?
    ensures Inv(s.(magnets := Pumped(s.magnets).0))
  {
    PumpKeepsLane(s.magnets);
    assert Outstanding(s.(magnets := Pumped(s.magnets).0)) == Outstanding(s);
  }

  lemma PumpMagnetInv(c: Config, s: App)
    requires Wired(c.handlers) && Inv(s) && Enabled(s, PumpMagnet)
    ensures Inv(Apply(c, s, PumpMagnet))
  {
    PumpMagnetCases(c, s);
    var p := Pumped(s.magnets);
    if p.1.Some? {
      var ok :| Apply(c, s, PumpMagnet) == Close(c, s.(magnets := p.0), p.1.value, ok).(magnets := Finish(p.0));
      MagnetClosedInv(c, s, p.1.value, ok);
    } else {
      MagnetIdleInv(s);
    }
  }

  /** An item taken from the queue is in flight once it flies, or else closed. */
  lemma StartTorrentInv(c: Config, s: App, t: Ticket)
    requires Inv(s) && s.torrents.posts != [] && Pumped(s.torrents).1 == Some(t)
    ensures var s' := s.(torrents := Pumped(s.torrents).0);
            && Inv(StartTorrent(c, s', t))
            && Inv(Close(c, s', t, false).(torrents := Finish(s'.torrents)))
  {
    var p := Pumped(s.torrents);
    PumpKeepsLane(s.torrents);
    var s' := s.(torrents := p.0);
    var closed := Close(c, s', t, false).(torrents := Finish(p.0));
    assert Outstanding(s) == Outstanding(closed) + multiset{t};
    CloseInv(c, s, closed, t, false);
    var flying := s'.(torrents := p.0.(flying := p.0.flying + [t]));
    assert Outstanding(flying) == Outstanding(s);
    assert Inv(flying);
  }

  lemma IdlePumpInv(s: App)
    requires Inv(s) && s.torrents.posts != [] && Pumped(s.torrents).1.None?
    ensures Inv(s.(torrents := Pumped(s.torrents).0))
  {
    PumpKeepsLane(s.torrents);
    assert Outstanding(s.(torrents := Pumped(s.torrents).0)) == Outstanding(s);
  }

  lemma PumpTorrentCases(c: Config, s: App)
    requires Wired(c.handlers) && Enabled(s, PumpTorrent)
    ensures var p := Pumped(s.torrents);
            var s' := s.(torrents := p.0);
            var r := Apply(c, s, PumpTorrent);
            if p.1.None? then r == s'
            else r == StartTorrent(c, s', p.1.value) || r == Close(c, s', p.1.value, false).(torrents := Finish(p.0))
  {
  }

  lemma PumpTorrentInv(c: Config, s: App)
    requires Wired(c.handlers) && Inv(s) && Enabled(s, PumpTorrent)
    ensures Inv(Apply(c, s, PumpTorrent))
  {
    PumpTorrentCases(c, s);
    var taken := Pumped(s.torrents).1;
    if taken.Some? {
      StartTorrentInv(c, s, taken.value);
    } else {
      IdlePumpInv(s);
    }
  }

  lemma TorrentDoneInv(c: Config, s: App, i: nat, ok: bool)
    requires Inv(s) && Enabled(s, TorrentDone(i, ok))
    ensures Inv(Apply(c, s, TorrentDone(i, ok)))
  {
    FinishKeepsLane(s.torrents, i);
    var s' := Apply(c, s, TorrentDone(i, ok));
    assert Outstanding(s) == Outstanding(s') + multiset{s.torrents.flying[i]};
    CloseInv(c, s, s', s.torrents.flying[i], ok);
  }

  lemma StepInv(c: Config, s: App, e: Event)
    requires Wired(c.handlers) && Inv(s) && Allowed(s, e)
    ensures Inv(Apply(c, s, e))
  {
    match e {
      case Configure(_) =>
      case Edit(items) =>
        if !s.shuttingDown { EditKeepsSlots(s.items, items, Outstanding(s)); }
      case Download(id) => DownloadInv(c, s, id);
      case PumpMagnet => PumpMagnetInv(c, s);
      case PumpTorrent => PumpTorrentInv(c, s);
      case TorrentDone(i, ok) => TorrentDoneInv(c, s, i, ok);
      case Shutdown =>
    }
  }

  lemma {:induction false} RunInv(c: Config, s: App, run: seq<Event>)
    requires Wired(c.handlers) && Inv(s) && Legal(c, s, run)
    ensures Inv(Exec(c, s, run))
    decreases |run|
  {
    if run != [] {
      StepInv(c, s, run[0]);
      RunInv(c, Apply(c, s, run[0]), run[1..]);
    }
  }

  /** The items as loadState leaves them. */
  ghost predicate Loaded(items: seq<RssItem>) {
    GoodIds(items) && forall i :: 0 <= i < |items| ==> !items[i].state.queued
  }

  lemma ReachableInv(c: Config, items: seq<RssItem>, limits: Limits, run: seq<Event>)
    requires Wired(c.handlers) && Loaded(items) && Legal(c, Launched(items, limits), run)
    ensures Inv(Exec(c, Launched(items, limits), run))
  {
    RunInv(c, Launched(items, limits), run);
  }

  // ---------------------------------------------------------------- main results

  /** No leaked download slot: in every run, until shutdown begins, each queued item has a request
      that is queued or in flight. Items may be cleared and fetched again at any time. */
  lemma NoLeakedSlot(c: Config, items: seq<RssItem>, limits: Limits, run: seq<Event>, j: nat)
    requires Wired(c.handlers) && Loaded(items) && Legal(c, Launched(items, limits), run)
    ensures var s := Exec(c, Launched(items, limits), run);
            !s.shuttingDown && j < |s.items| && s.items[j].state.queued ==>
              exists t :: t in Outstanding(s) && t.itemId == s.items[j].entry.id
  {
    ReachableInv(c, items, limits, run);
  }

  lemma {:induction false} DistinctSerials(issued: seq<Ticket>, k: nat)
    requires k < |issued| && forall i :: 0 <= i < |issued| ==> issued[i].serial == i
    ensures multiset(issued)[issued[k]] == 1
  {
    assert issued == issued[..k] + [issued[k]] + issued[k + 1..];
    assert multiset(issued) == multiset(issued[..k]) + multiset{issued[k]} + multiset(issued[k + 1..]);
    assert issued[k] !in issued[..k] && issued[k] !in issued[k + 1..];
  }

  /** Each request, at any time and also across a shutdown, is either still outstanding once and
      neither settled nor finished, or no longer outstanding and settled once and finished once. */
  lemma SettledAndFinishedOnce(c: Config, items: seq<RssItem>, limits: Limits, run: seq<Event>, k: nat)
    requires Wired(c.handlers) && Loaded(items) && Legal(c, Launched(items, limits), run)
    requires k < |Exec(c, Launched(items, limits), run).log.issued|
    ensures var s := Exec(c, Launched(items, limits), run);
            var t := s.log.issued[k];
            && multiset(s.log.settled)[t] == multiset(s.log.finished)[t]
            && multiset(s.log.settled)[t] + Outstanding(s)[t] == 1
            && t.serial == k
    ensures var log := Exec(c, Launched(items, limits), run).log;
            forall t <- log.settled :: t in log.issued
  {
    ReachableInv(c, items, limits, run);
    var s := Exec(c, Launched(items, limits), run);
    DistinctSerials(s.log.issued, k);
    forall t | t in s.log.settled ensures t in s.log.issued {
      assert t in multiset(s.log.settled);
      assert t in multiset(s.log.issued);
    }
  }

  // ---------------------------------------------------------------- coming to rest

  function LaneMeasure(l: Lane): nat { 3 * |l.half.queue| + 2 * |l.flying| + |l.posts| }
  function Measure(s: App): nat { LaneMeasure(s.magnets) + LaneMeasure(s.torrents) }

  predicate IsPending(e: Event) { e.PumpMagnet? || e.PumpTorrent? || e.TorrentDone? }

  lemma PendingDecreases(c: Config, s: App, e: Event)
    requires Enabled(s, e) && IsPending(e)
    ensures Measure(Apply(c, s, e)) < Measure(s) && Apply(c, s, e).shuttingDown == s.shuttingDown
  {
  }

  lemma {:induction false} PendingRunIsShort(c: Config, s: App, run: seq<Event>)
    requires Legal(c, s, run) && forall e <- run :: IsPending(e)
    ensures |run| + Measure(Exec(c, s, run)) <= Measure(s) && Exec(c, s, run).shuttingDown == s.shuttingDown
    decreases |run|
  {
    if run != [] {
      PendingDecreases(c, s, run[0]);
      PendingRunIsShort(c, Apply(c, s, run[0]), run[1..]);
    }
  }

  lemma RestIsEmpty(s: App)
    requires Inv(s) && (forall e :: IsPending(e) ==> !Enabled(s, e))
    ensures Outstanding(s) == multiset{}
  {
    assert !Enabled(s, PumpMagnet) && !Enabled(s, PumpTorrent) && !Enabled(s, TorrentDone(0, true));
  }

  /** Left to itself, with every fetch answered, the system comes to rest after a bounded number of
      events; then every request ever issued has been settled, and before shutdown no item is
      queued any more, so every slot is free again. */
  lemma EverySlotComesBack(c: Config, items: seq<RssItem>, limits: Limits, before: seq<Event>, run: seq<Event>)
    requires Wired(c.handlers) && Loaded(items) && Legal(c, Launched(items, limits), before)
    requires Legal(c, Exec(c, Launched(items, limits), before), run) && forall e <- run :: IsPending(e)
    ensures var s := Exec(c, Launched(items, limits), before);
            var end := Exec(c, s, run);
            && |run| <= Measure(s)
            && ((forall e :: IsPending(e) ==> !Enabled(end, e)) ==>
                  && multiset(end.log.settled) == multiset(end.log.issued)
                  && (!end.shuttingDown ==> forall j :: 0 <= j < |end.items| ==> !end.items[j].state.queued))
  {
    var s := Exec(c, Launched(items, limits), before);
    var end := Exec(c, s, run);
    ReachableInv(c, items, limits, before);
    RunInv(c, s, run);
    PendingRunIsShort(c, s, run);
    if forall e :: IsPending(e) ==> !Enabled(end, e) {
      RestIsEmpty(end);
    }
  }

  // ---------------------------------------------------------------- items without an id

  /** With ids that differ, a settlement frees the slot of the item it is for exactly when the id
      is not empty. */
  lemma SettlementNeedsAnId(items: seq<RssItem>, i: nat, ok: bool, path: string)
    requires UniqueIds(items) && i < |items| && items[i].state.queued
    ensures !ApplySettlement(items, items[i].entry.id, ok, path)[i].state.queued <==> items[i].entry.id != ""
  {
    FindUnique(items, i);
  }

  /** An item without an id, as a damaged state file may hold one, keeps its slot for good: after
      the only request has been settled and finished it is still queued. */
  lemma EmptyIdLeaks(c: Config, it: RssItem, limits: Limits)
    requires Wired(c.handlers) && it.entry.id == "" && it.entry.magnet != "" && !it.state.queued && !it.state.downloaded
    ensures var run := [Download(""), PumpMagnet];
            Legal(c, Launched([it], limits), run)
            && (var s := Exec(c, Launched([it], limits), run);
                && |s.items| == 1 && s.items[0].state.queued && Outstanding(s) == multiset{}
                && |s.log.finished| == |s.log.issued| == 1)
  {
    var s0 := Launched([it], limits);
    assert Find([it], "") == Some(0) by { assert [it][..0] == []; }
    var s1 := Apply(c, s0, Download(""));
    assert s1.magnets.posts == [FromEnqueue] && |s1.magnets.half.queue| == 1;
    PumpMagnetCases(c, s1);
    ExecTwo(c, s0, Download(""), PumpMagnet);
  }

  // ---------------------------------------------------------------- handlers that are not set

  /** Each request is outstanding once, or settled once and finished once. */
  ghost predicate Accounted(s: App) {
    forall k :: 0 <= k < |s.log.issued| ==>
      var t := s.log.issued[k];
      && multiset(s.log.settled)[t] == multiset(s.log.finished)[t]
      && multiset(s.log.settled)[t] + Outstanding(s)[t] == 1
  }

  /** In every run, from whatever state file, every request is accounted for. */
  ghost predicate EveryRunAccounts(c: Config, limits: Limits) {
    forall items: seq<RssItem>, run: seq<Event> ::
      Loaded(items) && Legal(c, Launched(items, limits), run) ==> Accounted(Exec(c, Launched(items, limits), run))
  }

  function Plain(id: string, magnet: string, url: string): RssItem {
    RssItem(Entry(id, "", "", "", "", None, magnet, url),
            RssTypes.State.State(false, false, false, false, false, 0, ""),
            Marker(Unknown, NoReason, false))
  }

  /** Two items to download, by magnet or by torrent URL. */
  function TwoItems(magnet: string, url: string): seq<RssItem> { [Plain("a", magnet, url), Plain("b", magnet, url)] }

  lemma TwoItemsLoaded(magnet: string, url: string)
    ensures Loaded(TwoItems(magnet, url))
    ensures Find(TwoItems(magnet, url), "a") == Some(0) && Find(TwoItems(magnet, url), "b") == Some(1)
  {
    FindUnique(TwoItems(magnet, url), 0);
    FindUnique(TwoItems(magnet, url), 1);
  }

  /** Two requests wait in a lane whose first pump is posted. */
  ghost predicate BothWait(s: App, l: Lane) {
    && |s.log.issued| == 2 && s.log.issued[0] != s.log.issued[1] && s.log.settled == [] && s.log.finished == []
    && l == Lane(Half(s.log.issued, 0, l.half.maxInFlight, true), [FromEnqueue], []) && l.half.maxInFlight >= 1
  }

  lemma BothRequested(c: Config, limits: Limits, magnet: string, url: string) returns (s: App)
    requires magnet != "" || url != ""
    ensures s == Apply(c, Apply(c, Launched(TwoItems(magnet, url), limits), Download("a")), Download("b"))
    ensures !s.shuttingDown && (magnet != "" ==> BothWait(s, s.magnets) && s.torrents == EmptyLane())
    ensures magnet == "" ==> BothWait(s, s.torrents) && s.magnets == EmptyLane()
  {
    TwoItemsLoaded(magnet, url);
    var s1 := Apply(c, Launched(TwoItems(magnet, url), limits), Download("a"));
    FindUnique(s1.items, 1);
    s := Apply(c, s1, Download("b"));
  }

  lemma ExecCons(c: Config, s: App, e: Event, rest: seq<Event>)
    requires Allowed(s, e) && Legal(c, Apply(c, s, e), rest)
    ensures Legal(c, s, [e] + rest) && Exec(c, s, [e] + rest) == Exec(c, Apply(c, s, e), rest)
  {
    assert ([e] + rest)[1..] == rest;
  }

  lemma ExecTwo(c: Config, s: App, e0: Event, e1: Event)
    requires Allowed(s, e0) && Allowed(Apply(c, s, e0), e1)
    ensures Legal(c, s, [e0, e1]) && Exec(c, s, [e0, e1]) == Apply(c, Apply(c, s, e0), e1)
  {
    var s1 := Apply(c, s, e0);
    assert Legal(c, Apply(c, s1, e1), []);
    ExecCons(c, s1, e1, []);
    ExecCons(c, s, e0, [e1]);
    assert [e1] + [] == [e1] && [e0] + [e1] == [e0, e1];
  }

  lemma ExecFour(c: Config, s: App, e0: Event, e1: Event, e2: Event, e3: Event)
    requires Allowed(s, e0) && Allowed(Apply(c, s, e0), e1) && Legal(c, Apply(c, Apply(c, s, e0), e1), [e2, e3])
    ensures Legal(c, s, [e0, e1, e2, e3])
    ensures Exec(c, s, [e0, e1, e2, e3]) == Exec(c, Apply(c, Apply(c, s, e0), e1), [e2, e3])
  {
    var s1 := Apply(c, s, e0);
    ExecCons(c, s1, e1, [e2, e3]);
    ExecCons(c, s, e0, [e1, e2, e3]);
    assert [e1] + [e2, e3] == [e1, e2, e3] && [e0] + [e1, e2, e3] == [e0, e1, e2, e3];
  }

  lemma FourSteps(c: Config, limits: Limits, items: seq<RssItem>, e0: Event, e1: Event, e2: Event, e3: Event)
    requires Loaded(items) && e0.Download? && e1.Download? && !e2.Edit? && !e3.Edit?
    requires var s2 := Apply(c, Apply(c, Launched(items, limits), e0), e1);
             Enabled(s2, e2) && Enabled(Apply(c, s2, e2), e3) && !Accounted(Apply(c, Apply(c, s2, e2), e3))
    ensures !EveryRunAccounts(c, limits)
  {
    var s0, run := Launched(items, limits), [e0, e1, e2, e3];
    ExecTwo(c, Apply(c, Apply(c, s0, e0), e1), e2, e3);
    ExecFour(c, s0, e0, e1, e2, e3);
    assert Legal(c, s0, run) && !Accounted(Exec(c, s0, run));
  }

  /** The run of both downloads and two more events. */
  lemma FourEvents(c: Config, limits: Limits, magnet: string, url: string, s2: App, e2: Event, e3: Event)
    requires s2 == Apply(c, Apply(c, Launched(TwoItems(magnet, url), limits), Download("a")), Download("b"))
    requires !e2.Edit? && !e3.Edit? && Enabled(s2, e2) && Enabled(Apply(c, s2, e2), e3)
    requires !Accounted(Apply(c, Apply(c, s2, e2), e3))
    ensures !EveryRunAccounts(c, limits)
  {
    TwoItemsLoaded(magnet, url);
    FourSteps(c, limits, TwoItems(magnet, url), Download("a"), Download("b"), e2, e3);
  }

  /** A request that is neither outstanding nor settled is not accounted for. */
  lemma LostRequest(s: App, t: Ticket)
    requires t in s.log.issued && t !in Outstanding(s) && t !in s.log.settled
    ensures !Accounted(s)
  {
    var k :| 0 <= k < |s.log.issued| && s.log.issued[k] == t;
  }

  /** A finished lane asks for the next request with a closure that cannot start it. */
  lemma LaneLoses(l: Lane, first: Ticket, second: Ticket)
    requires l == Lane(Half([first, second], 0, l.half.maxInFlight, true), [FromEnqueue], []) && l.half.maxInFlight >= 1
    ensures Pumped(l).1 == Some(first)
    ensures var next := Finish(Pumped(l).0);
            && next.posts == [FromFinish] && Pumped(next).1 == Some(second)
            && Waiting(Pumped(next).0) == multiset{}
  {
    assert [first, second][1..] == [second] && [second][1..] == [];
  }

  lemma RefusedMagnet(c: Config, s: App, t: Ticket)
    requires s.magnets.posts == [FromEnqueue] && Pumped(s.magnets).1 == Some(t)
    requires s.shuttingDown || !c.handlers.startMagnet
    ensures var r := Apply(c, s, PumpMagnet);
            && r.magnets == Finish(Pumped(s.magnets).0) && r.torrents == s.torrents && r.log.issued == s.log.issued
            && r.log.settled == s.log.settled + if c.handlers.settle then [t] else []
  {
  }

  lemma RefusedTorrent(c: Config, s: App, t: Ticket)
    requires s.torrents.posts == [FromEnqueue] && Pumped(s.torrents).1 == Some(t)
    requires s.shuttingDown || !c.handlers.startTorrent
    ensures var r := Apply(c, s, PumpTorrent);
            && r.torrents == Finish(Pumped(s.torrents).0) && r.magnets == s.magnets && r.log.issued == s.log.issued
            && r.log.settled == s.log.settled + if c.handlers.settle then [t] else []
  {
  }

  lemma SecondLostMagnet(c: Config, s2: App)
    requires !c.handlers.startMagnet && BothWait(s2, s2.magnets) && Waiting(s2.torrents) == multiset{}
    ensures Enabled(s2, PumpMagnet) && Enabled(Apply(c, s2, PumpMagnet), PumpMagnet)
    ensures !Accounted(Apply(c, Apply(c, s2, PumpMagnet), PumpMagnet))
  {
    var first, second := s2.log.issued[0], s2.log.issued[1];
    assert s2.log.issued == [first, second];
    LaneLoses(s2.magnets, first, second);
    RefusedMagnet(c, s2, first);
    var s3 := Apply(c, s2, PumpMagnet);
    var s4 := Apply(c, s3, PumpMagnet);
    assert s4 == s3.(magnets := Pumped(s3.magnets).0);
    LostRequest(s4, second);
  }

  lemma WithoutMagnetHandler(c: Config, limits: Limits)
    requires !c.handlers.startMagnet
    ensures !EveryRunAccounts(c, limits)
  {
    var s2 := BothRequested(c, limits, "m", "");
    SecondLostMagnet(c, s2);
    FourEvents(c, limits, "m", "", s2, PumpMagnet, PumpMagnet);
  }

  lemma SecondLostTorrent(c: Config, s2: App)
    requires !c.handlers.startTorrent && BothWait(s2, s2.torrents) && Waiting(s2.magnets) == multiset{}
    ensures Enabled(s2, PumpTorrent) && Enabled(Apply(c, s2, PumpTorrent), PumpTorrent)
    ensures !Accounted(Apply(c, Apply(c, s2, PumpTorrent), PumpTorrent))
  {
    var first, second := s2.log.issued[0], s2.log.issued[1];
    assert s2.log.issued == [first, second];
    LaneLoses(s2.torrents, first, second);
    RefusedTorrent(c, s2, first);
    var s3 := Apply(c, s2, PumpTorrent);
    var s4 := Apply(c, s3, PumpTorrent);
    assert s4 == s3.(torrents := Pumped(s3.torrents).0);
    LostRequest(s4, second);
  }

  lemma WithoutTorrentHandler(c: Config, limits: Limits)
    requires !c.handlers.startTorrent
    ensures !EveryRunAccounts(c, limits)
  {
    var s2 := BothRequested(c, limits, "", "u");
    SecondLostTorrent(c, s2);
    FourEvents(c, limits, "", "u", s2, PumpTorrent, PumpTorrent);
  }

  lemma OneWaits(l: Lane, first: Ticket, second: Ticket)
    requires l == Lane(Half([first, second], 0, l.half.maxInFlight, true), [FromEnqueue], []) && l.half.maxInFlight >= 1
    ensures Pumped(l).1 == Some(first) && Waiting(Finish(Pumped(l).0)) == multiset{second}
  {
    assert [first, second][1..] == [second];
  }

  lemma WithoutSettleHandler(c: Config, limits: Limits)
    requires !c.handlers.settle
    ensures !EveryRunAccounts(c, limits)
  {
    var s2 := BothRequested(c, limits, "m", "");
    var first, second := s2.log.issued[0], s2.log.issued[1];
    assert s2.log.issued == [first, second];
    OneWaits(s2.magnets, first, second);
    var s3 := Apply(c, s2, Shutdown);
    RefusedMagnet(c, s3, first);
    LostRequest(Apply(c, s3, PumpMagnet), first);
    FourEvents(c, limits, "m", "", s2, Shutdown, PumpMagnet);
  }

  /** Every run accounts for every request exactly when all three handlers are set. Without the
      handler of a lane the closure of a finish loses the next request; without the settle handler a
      request refused at shutdown is finished and never settled. */
  lemma HandlersMatter(c: Config, limits: Limits)
    ensures EveryRunAccounts(c, limits) <==> Wired(c.handlers)
  {
    if Wired(c.handlers) {
      forall items: seq<RssItem>, run: seq<Event> | Loaded(items) && Legal(c, Launched(items, limits), run)
        ensures Accounted(Exec(c, Launched(items, limits), run))
      {
        RunAccounts(c, items, limits, run);
      }
    } else if !c.handlers.startMagnet {
      WithoutMagnetHandler(c, limits);
    } else if !c.handlers.startTorrent {
      WithoutTorrentHandler(c, limits);
    } else {
      WithoutSettleHandler(c, limits);
    }
  }

  lemma RunAccounts(c: Config, items: seq<RssItem>, limits: Limits, run: seq<Event>)
    requires Wired(c.handlers) && Loaded(items) && Legal(c, Launched(items, limits), run)
    ensures Accounted(Exec(c, Launched(items, limits), run))
  {
    var s := Exec(c, Launched(items, limits), run);
    forall k | 0 <= k < |s.log.issued|
      ensures var t := s.log.issued[k];
              && multiset(s.log.settled)[t] == multiset(s.log.finished)[t]
              && multiset(s.log.settled)[t] + Outstanding(s)[t] == 1
    {
      SettledAndFinishedOnce(c, items, limits, run, k);
    }
  }

  // ---------------------------------------------------------------- the service operations as events

  /** A dispatch is a series of downloads: its loop is a run of this machine that ends with the
      same items and has issued one request for each it delivered. */
  lemma {:induction false} DispatchIsARun(c: Config, s: App, req: RssItem -> Request, backlog: seq<nat>, n: nat,
                                          left: int, sent: seq<Request>) returns (run: seq<Event>)
    requires InRange(backlog, |s.items|) && n <= |backlog| && !s.shuttingDown
    ensures Legal(c, s, run) && forall e <- run :: e.Download?
    ensures var d := DispatchFrom(req, true, s.items, backlog, n, left, sent);
            var end := Exec(c, s, run);
            end.items == d.0 && |end.log.issued| - |s.log.issued| == |d.1| - |sent| && !end.shuttingDown
    decreases |backlog| - n
  {
    run := [];
    if left > 0 && n < |backlog| {
      if !Passes(s.items[backlog[n]]) {
        run := DispatchIsARun(c, s, req, backlog, n + 1, left, sent);
      } else {
        var id := s.items[backlog[n]].entry.id;
        var d := ApplyDownload(true, s.items, id);
        var s' := Apply(c, s, Download(id));
        var more := if d.1 then sent + [req(s.items[Find(s.items, id).value])] else sent;
        DispatchTries(req, true, s.items, backlog, n, left, sent, d, more);
        var rest := DispatchIsARun(c, s', req, backlog, n + 1, if d.1 then left - 1 else left, more);
        run := [Download(id)] + rest;
        assert run[1..] == rest;
      }
    }
  }

  lemma {:induction false} LastEvent(c: Config, s: App, run: seq<Event>, e: Event)
    requires Legal(c, s, run) && Allowed(Exec(c, s, run), e)
    ensures Legal(c, s, run + [e]) && Exec(c, s, run + [e]) == Apply(c, Exec(c, s, run), e)
    decreases |run|
  {
    if run == [] {
      assert run + [e] == [e] && [e][1..] == [];
    } else {
      assert (run + [e])[1..] == run[1..] + [e];
      LastEvent(c, Apply(c, s, run[0]), run[1..], e);
    }
  }

  /** A deferred dispatch as a whole, with the diagnosis before its loop and the marker passes after
      it: an edit, a series of downloads, and an edit. */
  lemma DeferredDispatchIsARun(c: Config, s: App, req: RssItem -> Request, base: seq<RssItem>, backlog: seq<nat>,
                               left: int, items: seq<RssItem>) returns (run: seq<Event>)
    requires !s.shuttingDown && EditOf(s.items, base) && InRange(backlog, |base|) && |items| == |base|
    requires forall j :: 0 <= j < |items| ==>
               OnlyMarkers(items[j], DispatchFrom(req, true, base, backlog, 0, left, []).0[j])
    ensures Legal(c, s, run) && Exec(c, s, run).items == items
    ensures |Exec(c, s, run).log.issued| - |s.log.issued| == |DispatchFrom(req, true, base, backlog, 0, left, []).1|
  {
    var s1 := Apply(c, s, Edit(base));
    var loop := DispatchIsARun(c, s1, req, backlog, 0, left, []);
    var done := DispatchFrom(req, true, base, backlog, 0, left, []).0;
    DispatchKeepsEntries(req, true, base, backlog, 0, left, []);
    SameIdsStayGood(base, done);
    FlagsKeepQueue(done, items);
    LastEvent(c, s1, loop, Edit(items));
    run := [Edit(base)] + (loop + [Edit(items)]);
    assert run[1..] == loop + [Edit(items)];
  }
}
