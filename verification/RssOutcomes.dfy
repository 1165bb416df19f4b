/**
 What the operations of RssScheduling and RssDownloads come to for a caller: the outcomes of a
 settlement, of a download and of a pump, and the contents of a request.
*/
module RssOutcomes {
  import opened Sequences
  import opened RssTypes
  import opened RssRuleEngine
  import opened RssScheduling
  import RssPipeline
  import opened RssDownloads

  // ---------------------------------------------------------------- settlements

  /** Only the item at `i` differs, and not in what the feed says about it. */
  ghost predicate OnlyChanges(a: seq<RssItem>, b: seq<RssItem>, i: nat) {
    && |a| == |b| && (forall j :: 0 <= j < |a| && j != i ==> b[j] == a[j])
    && (i < |a| ==> b[i].entry == a[i].entry && b[i].state.read == a[i].state.read
                    && b[i].state.ignored == a[i].state.ignored && b[i].marker.waitlisted == a[i].marker.waitlisted)
  }

  /** The item after a successful download: it will not be downloaded again. */
  ghost predicate Downloaded(it: RssItem, path: string) {
    && it.state.downloaded && it.state.accepted && !it.state.queued
    && it.state.savePath == path && it.state.retryCount == 0
    && it.marker.decision == Succeeded && it.marker.reason == SettlementSuccess
  }

  /** The item after a failed attempt: one more try counted, everything else as before. */
  ghost predicate AttemptFailed(was: RssItem, it: RssItem) {
    && !it.state.queued && it.state.retryCount == was.state.retryCount + 1
    && it.state.downloaded == was.state.downloaded && it.state.accepted == was.state.accepted
    && it.state.savePath == was.state.savePath
    && it.marker.decision == Decision.Failed && it.marker.reason == SettlementFailed
  }

  /** A settlement concerns the one item with the id, and records its success or its failure. */
  lemma SettlementOutcome(items: seq<RssItem>, i: nat, success: bool, path: string)
    requires UniqueIds(items) && i < |items| && items[i].entry.id != ""
    ensures var r := ApplySettlement(items, items[i].entry.id, success, path);
            OnlyChanges(items, r, i) && if success then Downloaded(r[i], path) else AttemptFailed(items[i], r[i])
  {
    FindUnique(items, i);
  }

  /** An item that has been downloaded is no candidate again, whatever later diagnoses say about it and
      whatever the rules: no dispatch starts it. */
  lemma DownloadedStaysOut(env: Env, scope: Scope, newIds: set<string>, it: RssItem, path: string, d: Decision,
                           r: Reason)
    requires Downloaded(it, path)
    ensures !RuleEligible(env, it) && !Candidate(scope, newIds, Mark(it, d, r)) && !Passes(Mark(it, d, r))
  {
  }

  /** And so a successful settlement takes its item out of every later backlog. */
  lemma SettledLeavesBacklog(items: seq<RssItem>, i: nat, path: string, scope: Scope, newIds: set<string>, cap: nat,
                             backlog: seq<nat>)
    requires UniqueIds(items) && i < |items| && items[i].entry.id != ""
    requires IsBacklog(ApplySettlement(items, items[i].entry.id, true, path), scope, newIds, cap, backlog)
    ensures i !in backlog
  {
    SettlementOutcome(items, i, true, path);
    var r := ApplySettlement(items, items[i].entry.id, true, path);
    BacklogMembers(r, scope, newIds, cap, backlog);
    assert !Candidate(scope, newIds, r[i]);
  }

  /** A dispatch starts an item only if it was neither downloaded nor ignored, named a resource, and was
      last diagnosed as eligible. */
  lemma {:induction false} DispatchStartsEligible(req: RssItem -> Request, hasCallback: bool, items: seq<RssItem>,
                                                  backlog: seq<nat>, n: nat, left: int, sent: seq<Request>, i: nat)
    requires UniqueIds(items) && InRange(backlog, |items|) && n <= |backlog|
    requires i < |items| && !items[i].state.queued
    ensures DispatchFrom(req, hasCallback, items, backlog, n, left, sent).0[i].state.queued ==>
              && !items[i].state.downloaded && !items[i].state.ignored && hasCallback
              && (items[i].entry.magnet != "" || items[i].entry.torrentUrl != "")
              && items[i].marker.reason.DiagnosticRuleEligible?
    decreases |backlog| - n
  {
    if left > 0 && n < |backlog| {
      var id := items[backlog[n]].entry.id;
      var next := ApplyDownload(hasCallback, items, id);
      FindUnique(items, backlog[n]);
      if !Passes(items[backlog[n]]) {
        DispatchStartsEligible(req, hasCallback, items, backlog, n + 1, left, sent, i);
      } else if !next.1 {
        DispatchStartsEligible(req, hasCallback, next.0, backlog, n + 1, left, sent, i);
      } else if backlog[n] != i {
        DispatchStartsEligible(req, hasCallback, next.0, backlog, n + 1, left - 1,
                               sent + [req(items[Find(items, id).value])], i);
      }
    }
  }

  /** The overflow pass changes an item only by marking it as skipped for the length of the backlog. */
  lemma OverflowOutcome(base: seq<RssItem>, tracked: seq<nat>, items: seq<RssItem>, j: nat)
    requires IsOverflowed(base, tracked, items) && j < |items|
    ensures items[j] == base[j] ||
              (items[j].entry == base[j].entry && items[j].state == base[j].state
               && items[j].marker == Marker(Skipped, AutoBacklogOverflow, base[j].marker.waitlisted))
  {
  }

  // ---------------------------------------------------------------- downloads

  /** A download looks at the first item with the id and delivers its request exactly when it names a
      resource, is not queued yet and there is a callback; then, and only then, the item becomes
      queued. The markers say which of the outcomes it was. */
  lemma DownloadOutcome(hasCallback: bool, items: seq<RssItem>, i: nat)
    requires i < |items| && forall j :: 0 <= j < i ==> items[j].entry.id != items[i].entry.id
    ensures var d := ApplyDownload(hasCallback, items, items[i].entry.id);
            var was, it := items[i], d.0[i];
            var named := was.entry.magnet != "" || was.entry.torrentUrl != "";
            && OnlyChanges(items, d.0, i)
            && (d.1 <==> named && !was.state.queued && hasCallback)
            && it.state == was.state.(queued := was.state.queued || d.1)
            && (it.marker.reason == NoResource <==> !named)
            && (it.marker.reason == AlreadyQueued <==> named && was.state.queued)
            && (it.marker.reason == NoCallback <==> named && !was.state.queued && !hasCallback)
            && (it.marker.reason == ManualQueued <==> d.1)
            && it.marker.decision ==
                 (if d.1 then Queued else if it.marker.reason == NoCallback then Decision.Failed else Skipped)
  {
    assert Find(items, items[i].entry.id) == Some(i);
  }

  /** Without an item of the id, nothing happens. */
  lemma UnknownDownload(hasCallback: bool, items: seq<RssItem>, id: string)
    requires forall j :: 0 <= j < |items| ==> items[j].entry.id != id
    ensures ApplyDownload(hasCallback, items, id) == (items, false)
  {
    assert Find(items, id).None?;
  }

  // ---------------------------------------------------------------- requests

  ghost predicate UniqueRuleIds(rules: seq<RssRule>) {
    forall i, j :: 0 <= i < j < |rules| ==> rules[i].id != rules[j].id
  }

  ghost predicate Applies(env: Env, it: RssItem, k: nat)
    requires k < |env.rules|
  {
    env.rules[k].enabled && Covers(env.kw, env.rules[k], it.entry)
  }

  lemma {:induction false} RuleFound(rules: seq<RssRule>, k: nat)
    requires UniqueRuleIds(rules) && k < |rules|
    ensures FindRule(rules, rules[k].id) == Some(rules[k])
    decreases k
  {
    if k > 0 {
      assert rules[0].id != rules[k].id;
      RuleFound(rules[1..], k - 1);
    }
  }

  lemma {:induction false} FeedFound(feeds: seq<RssFeed>, f: nat)
    requires f < |feeds| && forall g :: 0 <= g < f ==> feeds[g].id != feeds[f].id
    ensures FindFeed(feeds, feeds[f].id) == Some(feeds[f])
    decreases f
  {
    if f > 0 {
      assert feeds[0].id != feeds[f].id;
      FeedFound(feeds[1..], f - 1);
    }
  }

  /** A request names its item and the links of the item. */
  lemma RequestNamesItem(env: Env, it: RssItem)
    ensures var q := RequestFor(env, it);
            && q.itemId == it.entry.id && q.feedId == it.entry.feedId && q.title == it.entry.title
            && q.magnet == it.entry.magnet && q.torrentUrl == it.entry.torrentUrl
  {
  }

  /** Where to save it and how to label it is told by the first enabled rule that covers the item, and
      left empty if no rule does. */
  lemma RequestFollowsRule(env: Env, it: RssItem, k: nat)
    requires UniqueRuleIds(env.rules)
    ensures var q := RequestFor(env, it);
            && (k < |env.rules| && Applies(env, it, k) && (forall j: nat :: j < k ==> !Applies(env, it, j)) ==>
                  && q.savePath == env.rules[k].savePath
                  && q.category == env.rules[k].category
                  && q.tagsCsv == env.rules[k].tagsCsv)
            && ((forall j: nat :: j < |env.rules| ==> !Applies(env, it, j)) ==>
                  q.savePath == "" && q.category == "" && q.tagsCsv == "")
  {
    var m := FirstMatch(env.kw, env.rules, it.entry);
    if k < |env.rules| && Applies(env, it, k) && forall j: nat :: j < k ==> !Applies(env, it, j) {
      assert m == Some(k) by {
        assert m.Some?;
        assert Applies(env, it, m.value);
      }
      RuleFound(env.rules, k);
    } else if m.Some? {
      assert Applies(env, it, m.value);
    }
  }

  /** The referer is the address of the item's feed, and empty for an unknown feed. */
  lemma RequestRefersToFeed(env: Env, it: RssItem, f: nat)
    ensures f < |env.feeds| && env.feeds[f].id == it.entry.feedId
            && (forall g :: 0 <= g < f ==> env.feeds[g].id != it.entry.feedId) ==>
              RequestFor(env, it).referer == env.feeds[f].url
    ensures (forall g :: 0 <= g < |env.feeds| ==> env.feeds[g].id != it.entry.feedId) ==>
              RequestFor(env, it).referer == ""
  {
    if f < |env.feeds| && env.feeds[f].id == it.entry.feedId
       && forall g :: 0 <= g < f ==> env.feeds[g].id != it.entry.feedId {
      FeedFound(env.feeds, f);
    }
    var feed := FindFeed(env.feeds, it.entry.feedId);
    if feed.Some? { FoundFeedIsListed(env.feeds, it.entry.feedId); }
  }

  lemma {:induction false} FoundFeedIsListed(feeds: seq<RssFeed>, id: string)
    requires FindFeed(feeds, id).Some?
    ensures exists g :: 0 <= g < |feeds| && feeds[g].id == id
    decreases |feeds|
  {
    if feeds[0].id != id {
      FoundFeedIsListed(feeds[1..], id);
      var g :| 0 <= g < |feeds[1..]| && feeds[1..][g].id == id;
      assert feeds[g + 1].id == id;
    }
  }

  // ---------------------------------------------------------------- the backlog by date

  /** `a` was published later than `b`, where an item without a date counts as published in 1970. */
  predicate Later(a: Entry, b: Entry) {
    match (a.publishedAt, b.publishedAt)
    case (Some(x), Some(y)) => x > y
    case (Some(x), None) => x > 0
    case (None, Some(y)) => y < 0
    case (None, None) => false
  }

  /** No entry of the backlog stands behind one published earlier, and no candidate left out was
      published later than one that is in. */
  lemma BacklogIsByDate(items: seq<RssItem>, scope: Scope, newIds: set<string>, cap: nat, backlog: seq<nat>)
    requires IsBacklog(items, scope, newIds, cap, backlog)
    ensures forall k, m :: 0 <= k < m < |backlog| ==> !Later(items[backlog[m]].entry, items[backlog[k]].entry)
    ensures forall j: nat, k :: j < |items| && j !in backlog && Candidate(scope, newIds, items[j])
                                   && 0 <= k < |backlog| ==>
              !Later(items[j].entry, items[backlog[k]].entry)
    ensures forall j: nat :: j < |items| && j !in backlog && Candidate(scope, newIds, items[j]) ==> |backlog| == cap
  {
    var all := Candidates(items, scope, newIds);
    forall k, m | 0 <= k < m < |backlog| ensures !Later(items[backlog[m]].entry, items[backlog[k]].entry) {
      assert !NewestFirst(items)(backlog[m], backlog[k]);
    }
    forall j: nat | j < |items| && j !in backlog && Candidate(scope, newIds, items[j])
      ensures |backlog| == cap && forall k :: 0 <= k < |backlog| ==> !Later(items[j].entry, items[backlog[k]].entry)
    {
      assert IsCandidate(scope, newIds)(items[j]);
      assert j in all;
      forall k | 0 <= k < |backlog| ensures !Later(items[j].entry, items[backlog[k]].entry) {
        assert backlog[k] in backlog;
        assert !NewestFirst(items)(j, backlog[k]);
      }
      AllInShort(all, backlog, j);
    }
  }

  /** A list that misses an element of `all` is not as long as `all`. */
  lemma AllInShort(all: seq<nat>, r: seq<nat>, j: nat)
    requires Distinct(r) && (forall x <- r :: x in all) && j in all && j !in r
    ensures |r| < |all|
  {
    ElementsAreFew(all);
    DistinctFits(r + [j], Elements(all));
  }

  function Elements(r: seq<nat>): set<nat> { set x | x in r }

  lemma {:induction false} ElementsAreFew(r: seq<nat>)
    ensures |Elements(r)| <= |r|
    decreases |r|
  {
    if r != [] {
      var front, last := r[..|r| - 1], r[|r| - 1];
      ElementsAreFew(front);
      assert r == front + [last];
      assert Elements(r) == Elements(front) + {last};
    }
  }

  lemma {:induction false} DistinctFits(r: seq<nat>, s: set<nat>)
    requires Distinct(r) && forall x <- r :: x in s
    ensures |r| <= |s|
    decreases |r|
  {
    if r != [] {
      DistinctFits(r[..|r| - 1], s - {r[|r| - 1]});
    }
  }

  // ---------------------------------------------------------------- events of the download path

  /** A delivered download becomes the last request of one queue: the magnet, if there is one, with the
      current limit set first, or else the trimmed torrent URL. During shutdown it becomes none. */
  lemma DeliveredTicket(c: Config, s: App, i: nat)
    requires i < |s.items| && forall j :: 0 <= j < i ==> s.items[j].entry.id != s.items[i].entry.id
    requires var it := s.items[i]; (it.entry.magnet != "" || it.entry.torrentUrl != "") && !it.state.queued
    ensures var it := s.items[i];
            var s' := Apply(c, s, Download(it.entry.id));
            var t := Ticket(|s.log.issued|, it.entry.id,
                            if it.entry.magnet != "" then it.entry.magnet else c.trim(it.entry.torrentUrl));
            if s.shuttingDown then s' == s.(items := s'.items)
            else && s'.log == s.log.(issued := s.log.issued + [t])
                 && (it.entry.magnet != "" ==>
                       && s'.magnets.half.queue == s.magnets.half.queue + [t] && s'.torrents == s.torrents
                       && s'.magnets.half.maxInFlight == InFlightLimit(s.limits, it.entry.id))
                 && (it.entry.magnet == "" ==>
                       s'.torrents.half.queue == s.torrents.half.queue + [t] && s'.magnets == s.magnets)
  {
    DownloadOutcome(true, s.items, i);
    assert Find(s.items, s.items[i].entry.id) == Some(i);
  }

  /** The settings allow so many magnets at once, and for RSS items no more than the concurrency
      setting; always at least one. */
  function InFlightLimit(l: Limits, itemId: string): (n: int)
    ensures n >= 1
  {
    var capped := if itemId == "" then l.magnetMaxInFlight
                  else Min(l.magnetMaxInFlight, Max(1, Min(50, l.maxConcurrent)));
    if capped < 1 then 1 else capped
  }

  /** What becomes of the item of a request that is settled. */
  ghost predicate ItemSettled(was: seq<RssItem>, now: seq<RssItem>, t: Ticket, success: bool, path: string) {
    && |was| == |now|
    && forall j :: 0 <= j < |was| ==>
         if was[j].entry.id != t.itemId then now[j] == was[j]
         else if success then Downloaded(now[j], path)
         else AttemptFailed(was[j], now[j])
  }

  lemma CloseOutcome(c: Config, s: App, t: Ticket, success: bool)
    requires GoodIds(s.items)
    ensures ItemSettled(s.items, Close(c, s, t, success).items, t, success, c.savePath)
  {
    var i := Find(s.items, t.itemId);
    if i.Some? && t.itemId != "" {
      SettlementOutcome(s.items, i.value, success, if success then c.savePath else "");
    }
  }

  lemma MagnetNext(c: Config, s: App)
    requires Inv(s) && Enabled(s, PumpMagnet) && s.magnets.half.queue != []
    ensures Pumped(s.magnets).1 == Some(s.magnets.half.queue[0])
  {
  }

  /** A magnet pump settles the oldest request: as a success exactly when the magnet is valid and
      shutdown has not begun. */
  lemma MagnetOutcome(c: Config, s: App)
    requires Wired(c.handlers) && Inv(s) && Enabled(s, PumpMagnet) && s.magnets.half.queue != []
    ensures var s', t := Apply(c, s, PumpMagnet), s.magnets.half.queue[0];
            && s'.log.settled == s.log.settled + [t] && s'.log.finished == s.log.finished + [t]
            && s'.magnets.half.queue == s.magnets.half.queue[1..]
            && ItemSettled(s.items, s'.items, t, !s.shuttingDown && c.validMagnet(c.trim(t.uri)), c.savePath)
  {
    MagnetNext(c, s);
    var t := s.magnets.half.queue[0];
    var s1 := s.(magnets := Pumped(s.magnets).0);
    CloseOutcome(c, s1, t, !s.shuttingDown && c.validMagnet(c.trim(t.uri)));
  }

  /** A torrent pump with a free slot takes the oldest request: it begins to fetch if there is an
      address and shutdown has not begun, and settles it as a failure otherwise. */
  lemma TorrentOutcome(c: Config, s: App)
    requires Wired(c.handlers) && Inv(s) && Enabled(s, PumpTorrent) && s.torrents.half.queue != []
    requires |s.torrents.flying| < s.torrents.half.maxInFlight
    ensures var s', t := Apply(c, s, PumpTorrent), s.torrents.half.queue[0];
            && s'.torrents.half.queue == s.torrents.half.queue[1..]
            && if c.trim(t.uri) != "" && !s.shuttingDown
               then s'.torrents.flying == s.torrents.flying + [t] && s'.items == s.items && s'.log == s.log
               else && s'.torrents.flying == s.torrents.flying && s'.log.settled == s.log.settled + [t]
                    && ItemSettled(s.items, s'.items, t, false, c.savePath)
  {
    var t := s.torrents.half.queue[0];
    CloseOutcome(c, s.(torrents := Pumped(s.torrents).0), t, false);
  }

  /** The end of a fetch settles its request by how it went. */
  lemma FetchOutcome(c: Config, s: App, i: nat, ok: bool)
    requires Inv(s) && i < |s.torrents.flying|
    ensures var s', t := Apply(c, s, TorrentDone(i, ok)), s.torrents.flying[i];
            && s'.log.settled == s.log.settled + [t] && s'.log.finished == s.log.finished + [t]
            && s'.torrents.flying == s.torrents.flying[..i] + s.torrents.flying[i + 1..]
            && ItemSettled(s.items, s'.items, t, ok, c.savePath)
  {
    CloseOutcome(c, s, s.torrents.flying[i], ok);
  }

  /** A request taken by the pump of an enqueue that must not start it, be it for shutdown or for want
      of a start handler, is finished, and settled as failed if there is a handler for that. */
  lemma RefusalOutcome(c: Config, s: App, magnet: bool)
    requires GoodIds(s.items)
    requires var l := if magnet then s.magnets else s.torrents;
             && l.posts != [] && l.posts[0] == RssPipeline.FromEnqueue
             && l.half.queue != [] && l.half.inFlight < l.half.maxInFlight
    requires s.shuttingDown || !(if magnet then c.handlers.startMagnet else c.handlers.startTorrent)
    ensures var t := (if magnet then s.magnets else s.torrents).half.queue[0];
            var s' := Apply(c, s, if magnet then PumpMagnet else PumpTorrent);
            && s'.log.finished == s.log.finished + [t]
            && s'.log.settled == s.log.settled + (if c.handlers.settle then [t] else [])
            && (if c.handlers.settle then ItemSettled(s.items, s'.items, t, false, "") else s'.items == s.items)
  {
    var l := if magnet then s.magnets else s.torrents;
    var s1 := if magnet then s.(magnets := Pumped(l).0) else s.(torrents := Pumped(l).0);
    CloseOutcome(c, s1, l.half.queue[0], false);
  }

  /** A request taken by the pump of a finish is lost where there is no start handler: it leaves the
      queue and is neither settled nor finished. */
  lemma DropOutcome(c: Config, s: App, magnet: bool)
    requires var l := if magnet then s.magnets else s.torrents;
             && l.posts != [] && l.posts[0] == RssPipeline.FromFinish
             && l.half.queue != [] && l.half.inFlight < l.half.maxInFlight
    requires !(if magnet then c.handlers.startMagnet else c.handlers.startTorrent)
    ensures var l := if magnet then s.magnets else s.torrents;
            var s' := Apply(c, s, if magnet then PumpMagnet else PumpTorrent);
            var l' := if magnet then s'.magnets else s'.torrents;
            && s'.log == s.log && s'.items == s.items
            && l'.half.queue == l.half.queue[1..] && l'.flying == l.flying && l'.half.inFlight == l.half.inFlight + 1
  {
  }
}
