/** RssService of src/core/rss/rss_service.cc. */
module RssServices {
  import opened Sequences
  import opened RssTypes
  import opened RssRuleEngine
  import opened RssScheduling
  import D = RssDedup

  class RssService {
    const kw: KeywordMatch
    const dedup: D.Dedup
    const trim: string -> string
    var feeds: seq<RssFeed>
    var items: seq<RssItem>
    var rules: seq<RssRule>
    var autoEnabled: bool
    var refreshInterval: int
    var maxPerRefresh: int
    var maxConcurrent: int
    var maxBacklog: int
    var policy: D.HistoryPolicy
    var playerCommand: string
    var hasCallback: bool
    var newItemIds: set<string>
    var scratch: seq<nat>
    /** The requests handed to the download callback so far. */
    var delivered: seq<Request>

    constructor (kw: KeywordMatch, fns: D.KeyFns, trim: string -> string)
      ensures IndexCurrent() && items == [] && feeds == [] && rules == [] && delivered == []
      ensures fresh(dedup) && this.kw == kw && dedup.fns == fns && this.trim == trim
      ensures InBounds(Settings())
    {
      this.kw, this.trim := kw, trim;
      dedup := new D.Dedup(fns);
      feeds, items, rules, scratch, delivered := [], [], [], [], [];
      autoEnabled, hasCallback, newItemIds := false, false, {};
      refreshInterval, playerCommand := 30, "";
      maxPerRefresh, maxConcurrent, maxBacklog, policy := 10, 3, 50, D.HistoryPolicy(5000, 90);
    }

    ghost function Environment(): Env
      reads this
    {
      Env(kw, feeds, rules, autoEnabled, hasCallback)
    }

    /** The incrementally kept index is the index of the item list. */
    ghost predicate IndexCurrent()
      reads this, dedup
    {
      dedup.View() == D.Built(dedup.fns, items)
    }

    function BacklogCap(): (n: nat)
      reads this
      ensures 1 <= n <= 500 && (1 <= maxBacklog <= 500 ==> n == maxBacklog)
    {
      Clamp(maxBacklog, 1, 500)
    }

    // -------------------------------------------------------------- diagnosis

    method DiagnoseItem(it: RssItem) returns (r: RssItem)
      ensures r == Mark(it, r.marker.decision, r.marker.reason)
      ensures r.marker.reason.DiagnosticRuleEligible? <==> RuleEligible(Environment(), it)
      ensures !r.marker.reason.AutoBacklogOverflow?
      ensures !autoEnabled ==> r.marker.reason.GlobalDisabled?
      ensures Explains(Environment(), it, r.marker.reason)
      ensures r.marker.decision == if r.marker.reason.NoCallback? then Failed else Skipped
    {
      if !autoEnabled {
        return Mark(it, Skipped, GlobalDisabled);
      }
      if it.entry.magnet == "" && it.entry.torrentUrl == "" {
        return Mark(it, Skipped, NoResource);
      }
      if it.state.downloaded || it.state.ignored || it.state.queued {
        return Mark(it, Skipped, StateBlocked);
      }
      r := DiagnoseRule(it);
    }

    method DiagnoseRule(it: RssItem) returns (r: RssItem)
      requires autoEnabled && HasResource(it) && !Blocked(it)
      ensures r == Mark(it, r.marker.decision, r.marker.reason)
      ensures r.marker.reason.DiagnosticRuleEligible? <==> RuleEligible(Environment(), it)
      ensures !r.marker.reason.AutoBacklogOverflow? && !r.marker.reason.RuleMissing?
      ensures Explains(Environment(), it, r.marker.reason)
      ensures r.marker.decision == if r.marker.reason.NoCallback? then Failed else Skipped
    {
      FoundFeed(feeds, it.entry.feedId);
      var feed := FindFeed(feeds, it.entry.feedId);
      if feed.None? {
        return Mark(it, Skipped, UnknownFeed);
      }
      if !feed.value.autoDownload {
        return Mark(it, Skipped, FeedAutoOff);
      }
      var m := FindFirstEnabledMatch(kw, rules, it.entry);
      if m.None? {
        return Mark(it, Skipped, NoRuleMatch);
      }
      var rule := FindRule(rules, rules[m.value].id);
      assert rules[m.value] in rules;
      if rule.None? {
        return Mark(it, Failed, RuleMissing);
      }
      if !hasCallback {
        return Mark(it, Failed, NoCallback);
      }
      return Mark(it, Skipped, DiagnosticRuleEligible);
    }

    method DiagnoseAll()
      modifies this`items
      ensures IsDiagnosed(Environment(), old(items), items) && SameEntries(old(items), items)
      ensures GoodIds(old(items)) ==> EditOf(old(items), items)
      ensures forall j :: 0 <= j < |items| ==> Explains(Environment(), old(items)[j], items[j].marker.reason)
    {
      for i := 0 to |items|
        invariant |items| == |old(items)|
        invariant forall j :: 0 <= j < i ==> Explains(Environment(), old(items)[j], items[j].marker.reason)
        invariant forall j :: i <= j < |items| ==> items[j] == old(items)[j]
        invariant forall j :: 0 <= j < i ==>
                    items[j] == Mark(old(items)[j], items[j].marker.decision, items[j].marker.reason)
                    && (items[j].marker.reason.DiagnosticRuleEligible? <==> RuleEligible(Environment(), old(items)[j]))
                    && !items[j].marker.reason.AutoBacklogOverflow?
                    && (!autoEnabled ==> items[j].marker.reason.GlobalDisabled?)
      {
        var it := DiagnoseItem(items[i]);
        items := items[i := it];
      }
      FlagsKeepQueue(old(items), items);
    }

    // -------------------------------------------------------------- backlog and markers

    method RebuildBacklog(scope: Scope)
      modifies this`scratch
      ensures IsBacklog(items, scope, newItemIds, BacklogCap(), scratch)
    {
      var found: seq<nat> := [];
      var n := |items|;
      ghost var selected := IsCandidate(scope, newItemIds);
      for i := 0 to n
        invariant found == Where(items[..i], selected)
      {
        assert items[..i + 1][..i] == items[..i];
        var it := items[i];
        if !InScope(scope, newItemIds, it) {
          continue;
        }
        if it.state.queued || it.state.downloaded || it.state.ignored {
          continue;
        }
        if it.entry.magnet == "" && it.entry.torrentUrl == "" {
          continue;
        }
        if !it.marker.reason.DiagnosticRuleEligible? {
          continue;
        }
        found := found + [i];
      }
      assert items[..n] == items;
      NewestFirstIsWeakOrder(items);
      scratch := SortTop(n, found, BacklogCap(), NewestFirst(items));
    }

    method ApplyOverflowMarkers() returns (ghost tracked: seq<nat>)
      modifies this`items, this`scratch
      ensures !autoEnabled ==> items == old(items) && tracked == []
      ensures autoEnabled ==> IsBacklog(old(items), AllEligible, newItemIds, BacklogCap(), tracked)
      ensures autoEnabled ==> IsOverflowed(old(items), tracked, items)
    {
      if !autoEnabled {
        return [];
      }
      RebuildBacklog(AllEligible);
      tracked := scratch;
      var ids := Ids(items, scratch);
      for i := 0 to |items|
        invariant |items| == |old(items)|
        invariant forall j :: i <= j < |items| ==> items[j] == old(items)[j]
        invariant forall j :: 0 <= j < i ==> items[j] == AfterOverflow(old(items)[j], ids)
      {
        var it := items[i];
        if it.state.queued || it.state.downloaded || it.state.ignored {
          continue;
        }
        if !it.marker.reason.DiagnosticRuleEligible? {
          continue;
        }
        if it.entry.id in ids {
          continue;
        }
        items := items[i := Mark(it, Skipped, AutoBacklogOverflow)];
      }
    }

    method ClearWaitlist(scope: Scope) returns (inflight: nat)
      modifies this`items
      ensures |items| == |old(items)| && inflight == QueuedCount(old(items))
      ensures forall j :: 0 <= j < |items| ==>
                items[j] ==
                  if InScope(scope, newItemIds, old(items)[j]) then Waitlist(old(items)[j], false) else old(items)[j]
    {
      inflight := 0;
      for i := 0 to |items|
        invariant |items| == |old(items)|
        invariant inflight == QueuedCount(old(items)[..i])
        invariant forall j :: i <= j < |items| ==> items[j] == old(items)[j]
        invariant forall j :: 0 <= j < i ==>
          items[j] ==
            if InScope(scope, newItemIds, old(items)[j]) then Waitlist(old(items)[j], false) else old(items)[j]
      {
        assert old(items)[..i + 1][..i] == old(items)[..i];
        if InScope(scope, newItemIds, items[i]) {
          items := items[i := Waitlist(items[i], false)];
        }
        if items[i].state.queued {
          inflight := inflight + 1;
        }
      }
      assert old(items)[..|items|] == old(items);
    }

    method MarkWaitlisted(backlog: seq<nat>, free: nat)
      requires InRange(backlog, |items|)
      modifies this`items
      ensures |items| == |old(items)|
      ensures forall j :: 0 <= j < |items| ==>
                items[j] == Waitlist(old(items)[j], old(items)[j].marker.waitlisted || Beyond(backlog, free, j))
    {
      var i := free;
      while i < |backlog|
        invariant free <= i && |items| == |old(items)|
        invariant forall j :: 0 <= j < |items| ==>
          items[j] == Waitlist(old(items)[j],
                               old(items)[j].marker.waitlisted || Beyond(backlog[..Min(i, |backlog|)], free, j))
      {
        ghost var before := items;
        items := items[backlog[i] := Waitlist(items[backlog[i]], true)];
        forall j | 0 <= j < |items|
          ensures Beyond(backlog[..i + 1], free, j) <==> Beyond(backlog[..i], free, j) || j == backlog[i]
        {
          BeyondStep(backlog, free, i, j);
        }
        i := i + 1;
      }
      assert backlog[..|backlog|] == backlog;
    }

    /** Marks exactly the backlog entries beyond the free slots. */
    method SyncWaitlist(scope: Scope)
      modifies this`items, this`scratch
      ensures |items| == |old(items)|
      ensures forall j :: 0 <= j < |items| ==> items[j] == Waitlist(old(items)[j], items[j].marker.waitlisted)
      ensures forall j :: 0 <= j < |items| && InScope(scope, newItemIds, items[j]) ==>
                (items[j].marker.waitlisted <==> Beyond(scratch, FreeSlots(maxConcurrent, QueuedCount(old(items))), j))
      ensures if autoEnabled then IsBacklog(items, scope, newItemIds, BacklogCap(), scratch) else scratch == []
    {
      var inflight := ClearWaitlist(scope);
      if !autoEnabled {
        scratch := [];
        return;
      }
      RebuildBacklog(scope);
      ghost var cleared := items;
      MarkWaitlisted(scratch, FreeSlots(maxConcurrent, inflight));
      SameBacklog(cleared, items, scope, newItemIds, BacklogCap(), scratch);
    }

    // -------------------------------------------------------------- one item

    method DownloadItem(itemId: string) returns (ok: bool)
      modifies this`items, this`delivered
      ensures SameEntries(old(items), items)
      ensures (items, ok) == ApplyDownload(hasCallback, old(items), itemId)
      ensures delivered ==
                if ok then old(delivered) + [Requester(Environment())(old(items)[Find(old(items), itemId).value])]
                           else old(delivered)
    {
      for i := 0 to |items|
        invariant items == old(items) && delivered == old(delivered)
        invariant forall j :: 0 <= j < i ==> items[j].entry.id != itemId
      {
        var it := items[i];
        if it.entry.id != itemId {
          continue;
        }
        assert Find(items, itemId) == Some(i);
        if it.entry.magnet == "" && it.entry.torrentUrl == "" {
          items := items[i := Mark(it, Skipped, NoResource)];
          return false;
        }
        if it.state.queued {
          items := items[i := Mark(it, Skipped, AlreadyQueued)];
          return false;
        }
        var feed := FindFeed(feeds, it.entry.feedId);
        var referer := if feed.Some? then feed.value.url else "";
        var savePath, category, tagsCsv := "", "", "";
        var m := FindFirstEnabledMatch(kw, rules, it.entry);
        if m.Some? {
          var rule := FindRule(rules, rules[m.value].id);
          if rule.Some? {
            savePath, category, tagsCsv := rule.value.savePath, rule.value.category, rule.value.tagsCsv;
          }
        }
        if !hasCallback {
          items := items[i := Mark(it, Failed, NoCallback)];
          return false;
        }
        var req := Request(it.entry.id, it.entry.feedId, it.entry.title, it.entry.magnet, it.entry.torrentUrl,
                           savePath, category, tagsCsv, referer);
        items := items[i := Mark(it.(state := it.state.(queued := true)), Queued, ManualQueued)];
        delivered := delivered + [req];
        return true;
      }
      return false;
    }

    /** The path that is stored is the one the download was given in the end, unless that is blank. */
    method ApplyRssDownloadSettlement(itemId: string, recordPath: string, success: bool, resolvedPath: string)
      modifies this`items
      ensures SameEntries(old(items), items)
      ensures items == ApplySettlement(old(items), itemId, success,
                                       if trim(resolvedPath) == "" then recordPath else resolvedPath)
    {
      if itemId == "" {
        return;
      }
      var path := if trim(resolvedPath) == "" then recordPath else resolvedPath;
      for i := 0 to |items|
        invariant items == old(items)
        invariant forall j :: 0 <= j < i ==> items[j].entry.id != itemId
      {
        var it := items[i];
        if it.entry.id != itemId {
          continue;
        }
        assert Find(items, itemId) == Some(i);
        it := it.(state := it.state.(queued := false));
        if success {
          it := it.(state := it.state.(accepted := true, downloaded := true, retryCount := 0, savePath := path));
          it := Mark(it, Succeeded, SettlementSuccess);
        } else {
          it := it.(state := it.state.(retryCount := it.state.retryCount + 1));
          it := Mark(it, Failed, SettlementFailed);
        }
        items := items[i := it];
        break;
      }
    }

    /** Every operation that keeps the entries keeps the store in order. */
    lemma StoreSurvives(was: seq<RssItem>)
      requires SameEntries(was, items)
      ensures dedup.View() == D.Built(dedup.fns, was) ==> IndexCurrent()
      ensures D.Clean(dedup.fns, was) ==> D.Clean(dedup.fns, items)
    {
      IndexSurvivesMarkers(dedup.fns, was, items);
    }

    // -------------------------------------------------------------- dispatch

    method CountQueued() returns (n: nat)
      ensures n == QueuedCount(items)
    {
      n := 0;
      for i := 0 to |items|
        invariant n == QueuedCount(items[..i])
      {
        assert items[..i + 1][..i] == items[..i];
        if items[i].state.queued {
          n := n + 1;
        }
      }
      assert items[..|items|] == items;
    }

    /** One round of the dispatch loop. */
    method StartCandidate(n: nat, ghost left: int) returns (ok: bool)
      requires InRange(scratch, |items|) && n < |scratch| && left > 0
      modifies this`items, this`delivered
      ensures |items| == |old(items)| && |delivered| == |old(delivered)| + (if ok then 1 else 0)
      ensures DispatchFrom(Requester(Environment()), hasCallback, old(items), scratch, n, left, old(delivered))
           == DispatchFrom(Requester(Environment()), hasCallback, items, scratch, n + 1,
                           if ok then left - 1 else left, delivered)
    {
      var it := items[scratch[n]];
      ghost var req, was, sent := Requester(Environment()), items, delivered;
      if it.state.queued || it.state.downloaded || it.state.ignored {
        DispatchSkips(req, hasCallback, was, scratch, n, left, sent);
        return false;
      }
      if !it.marker.reason.DiagnosticRuleEligible? {
        DispatchSkips(req, hasCallback, was, scratch, n, left, sent);
        return false;
      }
      ok := DownloadItem(it.entry.id);
      DispatchTries(req, hasCallback, was, scratch, n, left, sent, (items, ok), delivered);
    }

    /** The loop of dispatchDeferredAutoDownloads over the backlog in `scratch`. */
    method StartFromBacklog(cap: nat, maxConc: nat, queued: nat) returns (started: nat)
      requires InRange(scratch, |items|)
      modifies this`items, this`delivered
      ensures |items| == |old(items)| && |delivered| == |old(delivered)| + started
      ensures (items, delivered) == DispatchFrom(Requester(Environment()), hasCallback, old(items), scratch, 0,
                                                 Min(cap, maxConc - queued), old(delivered))
    {
      var scratchPos, inflight := 0, queued;
      started := 0;
      ghost var req := Requester(Environment());
      ghost var left := Min(cap, maxConc - queued);
      ghost var final := DispatchFrom(req, hasCallback, items, scratch, 0, left, delivered);
      while started < cap && inflight < maxConc && scratchPos < |scratch|
        invariant scratchPos <= |scratch| && |items| == |old(items)| && |delivered| == |old(delivered)| + started
        invariant left == Min(cap - started, maxConc - inflight)
        invariant final == DispatchFrom(req, hasCallback, items, scratch, scratchPos, left, delivered)
        decreases |scratch| - scratchPos
      {
        var ok := StartCandidate(scratchPos, left);
        scratchPos := scratchPos + 1;
        if ok {
          started := started + 1;
          inflight := inflight + 1;
          left := left - 1;
        }
      }
    }

    /** Builds the backlog and starts from it. */
    method StartBatch(cap: nat, scope: Scope) returns (started: nat)
      modifies this`items, this`delivered, this`scratch
      ensures SameEntries(old(items), items)
      ensures IsBacklog(old(items), scope, newItemIds, BacklogCap(), scratch) && InRange(scratch, |old(items)|)
      ensures QueuedCount(items) <= Max(QueuedCount(old(items)), Clamp(maxConcurrent, 1, 50))
      ensures !hasCallback ==> started == 0 && delivered == old(delivered)
      ensures hasCallback && UniqueIds(old(items)) ==>
                && started == StartCount(cap, FreeSlots(maxConcurrent, QueuedCount(old(items))), |scratch|)
                && items == StartAll(old(items), scratch, started)
                && delivered == old(delivered) + Requests(Requester(Environment()), old(items), scratch, 0, started)
    {
      var maxConc := Clamp(maxConcurrent, 1, 50);
      var inflight := CountQueued();
      RebuildBacklog(scope);
      BacklogIsReady(items, scope, newItemIds, BacklogCap(), scratch);
      started := StartFromBacklog(cap, maxConc, inflight);
      BatchOutcome(Requester(Environment()), hasCallback, old(items), scratch, cap, maxConc, inflight, old(delivered));
      DispatchBounded(Requester(Environment()), hasCallback, old(items), scratch, 0, Min(cap, maxConc - inflight),
                      old(delivered));
    }

    /** The marker passes that end a dispatch. */
    method RefreshMarkers(scope: Scope)
      requires autoEnabled
      modifies this`items, this`scratch
      ensures SameEntries(old(items), items)
      ensures |items| == |old(items)| && forall j :: 0 <= j < |items| ==> OnlyMarkers(items[j], old(items)[j])
      ensures GoodIds(old(items)) ==> EditOf(old(items), items)
    {
      ghost var tracked := ApplyOverflowMarkers();
      SyncWaitlist(scope);
      FlagsKeepQueue(old(items), items);
    }

    /** The dispatch after the diagnosis. */
    method DispatchDiagnosed(maxBatch: int, scope: Scope) returns (started: nat, ghost backlog: seq<nat>)
      requires autoEnabled
      modifies this`items, this`delivered, this`scratch
      ensures SameEntries(old(items), items)
      ensures IsBacklog(old(items), scope, newItemIds, BacklogCap(), backlog) && InRange(backlog, |old(items)|)
      ensures QueuedCount(items) <= Max(QueuedCount(old(items)), Clamp(maxConcurrent, 1, 50))
      ensures !hasCallback ==> started == 0 && delivered == old(delivered)
      ensures hasCallback && UniqueIds(old(items)) ==>
                && started == StartCount(Clamp(maxBatch, 1, 100), FreeSlots(maxConcurrent, QueuedCount(old(items))),
                                         |backlog|)
                && delivered == old(delivered) + Requests(Requester(Environment()), old(items), backlog, 0, started)
                && forall j :: 0 <= j < |items| ==> OnlyMarkers(items[j], StartAll(old(items), backlog, started)[j])
    {
      started := StartBatch(Clamp(maxBatch, 1, 100), scope);
      backlog := scratch;
      ghost var dispatched := items;
      RefreshMarkers(scope);
      QueuedSame(dispatched, items);
    }

    /** dispatchDeferredAutoDownloads. `base` is the item list when the backlog was built. */
    method DispatchDeferredAutoDownloads(maxBatch: int, refreshDiagnosis: bool, scope: Scope)
      returns (started: nat, ghost base: seq<RssItem>, ghost backlog: seq<nat>)
      modifies this`items, this`delivered, this`scratch
      ensures SameEntries(old(items), items)
      ensures !autoEnabled ==> started == 0 && items == old(items) && delivered == old(delivered)
      ensures QueuedCount(items) <= Max(QueuedCount(old(items)), Clamp(maxConcurrent, 1, 50))
      ensures autoEnabled ==> IsBacklog(base, scope, newItemIds, BacklogCap(), backlog)
      ensures autoEnabled ==>
                if refreshDiagnosis then IsDiagnosed(Environment(), old(items), base) else base == old(items)
      ensures autoEnabled && !hasCallback ==> started == 0 && delivered == old(delivered)
      ensures autoEnabled && hasCallback && UniqueIds(old(items)) ==>
                && InRange(backlog, |base|) && |items| == |base|
                && started == StartCount(Clamp(maxBatch, 1, 100), FreeSlots(maxConcurrent, QueuedCount(old(items))),
                                         |backlog|)
                && delivered == old(delivered) + Requests(Requester(Environment()), base, backlog, 0, started)
                && forall j :: 0 <= j < |items| ==> OnlyMarkers(items[j], StartAll(base, backlog, started)[j])
    {
      if !autoEnabled {
        return 0, [], [];
      }
      if refreshDiagnosis {
        DiagnoseAll();
      }
      base := items;
      QueuedSame(old(items), base);
      started, backlog := DispatchDiagnosed(maxBatch, scope);
    }

    /** The marker passes of refreshAutoDownloadDiagnostics, for items that `before` was diagnosed to. */
    method ShowDiagnosis(ghost before: seq<RssItem>)
      requires IsDiagnosed(Environment(), before, items)
      modifies this`items, this`scratch
      ensures |items| == |old(items)| && forall j :: 0 <= j < |items| ==> OnlyMarkers(items[j], old(items)[j])
      ensures autoEnabled && UniqueIds(before) ==>
                && IsBacklog(items, AllEligible, newItemIds, BacklogCap(), scratch)
                && EligibilityShown(Environment(), before, items, BacklogCap())
                && WaitlistShown(items, scratch, FreeSlots(maxConcurrent, QueuedCount(items)))
                && Count(items, Eligible()) == |scratch|
    {
      ghost var base := items;
      ghost var tracked := ApplyOverflowMarkers();
      ghost var marked := items;
      SyncWaitlist(AllEligible);
      if autoEnabled {
        PassesAddUp(Environment(), before, base, tracked, marked, items, newItemIds, BacklogCap(), scratch,
                    maxConcurrent);
      }
    }

    /** refreshAutoDownloadDiagnostics. */
    method RefreshAutoDownloadDiagnostics()
      modifies this`items, this`scratch
      ensures SameEntries(old(items), items)
      ensures |items| == |old(items)| && forall j :: 0 <= j < |items| ==> OnlyMarkers(items[j], old(items)[j])
      ensures GoodIds(old(items)) ==> EditOf(old(items), items)
      ensures autoEnabled && UniqueIds(old(items)) ==>
                && IsBacklog(items, AllEligible, newItemIds, BacklogCap(), scratch)
                && EligibilityShown(Environment(), old(items), items, BacklogCap())
                && WaitlistShown(items, scratch, FreeSlots(maxConcurrent, QueuedCount(items)))
                && Count(items, Eligible()) == |scratch|
    {
      DiagnoseAll();
      ShowDiagnosis(old(items));
      FlagsKeepQueue(old(items), items);
    }

    // -------------------------------------------------------------- the item store

    /** Items without a feed stay only while there are no feeds at all. */
    function Belongs(): (keeps: RssItem -> bool)
      reads this
      ensures forall it: RssItem :: keeps(it) <==>
                if it.entry.feedId == "" then |feeds| == 0 else exists f <- feeds :: f.id == it.entry.feedId
    {
      var ids, none := set f <- feeds :: f.id, feeds == [];
      (it: RssItem) => if it.entry.feedId == "" then none else it.entry.feedId in ids
    }

    method PruneItemsWithoutMatchingFeed()
      modifies this`items
      ensures items == Pick(old(items), Where(old(items), Belongs()))
      ensures forall it <- items :: Belongs()(it) && it in old(items)
      ensures old(D.Clean(dedup.fns, items)) ==> D.Clean(dedup.fns, items)
      ensures old(Sound()) ==> EditOf(old(items), items)
    {
      D.WhereKeepsNoClash(dedup.fns, items, Belongs());
      items := Pick(items, Where(items, Belongs()));
      if old(Sound()) { StoreIsEdit(dedup.fns, old(items), items); }
    }

    /** No duplicates, and every item has an id. */
    ghost predicate Sound()
      reads this, dedup
    {
      D.NoClash(dedup.fns, items) && HasIds(items)
    }

    /** The two calls that end every change of the item list. */
    method PruneAndIndex()
      modifies this`items, dedup
      ensures IndexCurrent() && forall it <- items :: Belongs()(it) && it in old(items)
      ensures items == Pick(old(items), Where(old(items), Belongs()))
      ensures old(D.Clean(dedup.fns, items)) ==> D.Clean(dedup.fns, items)
    {
      PruneItemsWithoutMatchingFeed();
      dedup.BuildIndex(items);
    }

    method ResetTransientState()
      modifies this`items
      ensures SameEntries(old(items), items)
      ensures forall j :: 0 <= j < |items| ==> !items[j].state.queued && !items[j].marker.waitlisted
    {
      for i := 0 to |items|
        invariant SameEntries(old(items), items)
        invariant forall j :: 0 <= j < i ==> !items[j].state.queued && !items[j].marker.waitlisted
      {
        var it := items[i];
        items := items[i := it.(state := it.state.(queued := false), marker := it.marker.(waitlisted := false))];
      }
    }

    /** The stored items without their queue flags and waitlist markers, and without orphans. */
    method AdoptItems(stored: seq<RssItem>)
      modifies this`items
      ensures forall it <- items :: !it.state.queued && !it.marker.waitlisted && Belongs()(it)
      ensures D.Clean(dedup.fns, stored) ==> D.Clean(dedup.fns, items)
      ensures HasIds(stored) ==> HasIds(items)
    {
      items := stored;
      ResetTransientState();
      ghost var reset := items;
      IndexSurvivesMarkers(dedup.fns, stored, reset);
      PruneItemsWithoutMatchingFeed();
      forall it | it in items ensures !it.state.queued && !it.marker.waitlisted {
        assert it in reset;
      }
      assert HasIds(stored) ==> HasIds(reset);
    }

    function Settings(): RssSettings
      reads this
    {
      RssSettings(autoEnabled, refreshInterval, maxPerRefresh, maxConcurrent, maxBacklog, policy.maxItems,
                  policy.maxAgeDays, playerCommand)
    }

    /** applySettings: out of range values are moved to the nearest end, and the command is trimmed. */
    method ApplySettings(s: RssSettings)
      modifies this`autoEnabled, this`maxPerRefresh, this`maxConcurrent, this`maxBacklog, this`policy
      modifies this`refreshInterval, this`playerCommand
      ensures InBounds(Settings()) && autoEnabled == s.globalAutoDownload && playerCommand == trim(s.playerCommand)
      ensures InBounds(s) && trim(s.playerCommand) == s.playerCommand ==> Settings() == s
      ensures Nearest(refreshInterval, s.refreshInterval, 5, 1440)
      ensures Nearest(maxPerRefresh, s.maxPerRefresh, 1, 100) && Nearest(maxConcurrent, s.maxConcurrent, 1, 50)
      ensures Nearest(maxBacklog, s.maxBacklog, 1, 500) && Nearest(policy.maxItems, s.historyMaxItems, 100, 100000)
      ensures Nearest(policy.maxAgeDays, s.historyMaxAgeDays, 0, 3650)
    {
      refreshInterval := Clamp(s.refreshInterval, 5, 1440);
      maxPerRefresh := Clamp(s.maxPerRefresh, 1, 100);
      maxConcurrent := Clamp(s.maxConcurrent, 1, 50);
      maxBacklog := Clamp(s.maxBacklog, 1, 500);
      autoEnabled := s.globalAutoDownload;
      playerCommand := trim(s.playerCommand);
      policy := D.HistoryPolicy(Clamp(s.historyMaxItems, 100, 100000), Clamp(s.historyMaxAgeDays, 0, 3650));
    }

    /** loadState. */
    method LoadState(storedFeeds: seq<RssFeed>, storedItems: seq<RssItem>, storedRules: seq<RssRule>,
                     stored: RssSettings)
      modifies this, dedup
      ensures IndexCurrent() && feeds == storedFeeds && rules == storedRules && scratch == []
      ensures forall it <- items :: !it.state.queued && !it.marker.waitlisted && Belongs()(it)
      ensures InBounds(Settings()) && autoEnabled == stored.globalAutoDownload
      ensures playerCommand == trim(stored.playerCommand)
      ensures InBounds(stored) && trim(stored.playerCommand) == stored.playerCommand ==> Settings() == stored
      ensures D.Clean(dedup.fns, storedItems) ==> D.Clean(dedup.fns, items)
      ensures D.Clean(dedup.fns, storedItems) && HasIds(storedItems) ==> GoodIds(items)
    {
      feeds, rules, scratch := storedFeeds, storedRules, [];
      ApplySettings(stored);
      AdoptItems(storedItems);
      dedup.BuildIndex(items);
      if D.Clean(dedup.fns, items) && HasIds(items) { CleanIdsAreUnique(dedup.fns, items); }
    }

    /** items_.erase(std::remove_if(...), items_.end()) */
    method KeepItems(keep: RssItem -> bool)
      modifies this`items
      ensures forall it :: it in items <==> it in old(items) && keep(it)
      ensures old(D.NoClash(dedup.fns, items)) ==> D.NoClash(dedup.fns, items)
      ensures old(D.AllScoped(dedup.fns, items)) ==> D.AllScoped(dedup.fns, items)
    {
      D.WhereKeepsNoClash(dedup.fns, items, keep);
      assert Filter(items, keep) == Pick(items, Where(items, keep));
      items := Filter(items, keep);
    }

    method ClearItemsForFeeds(feedIds: set<string>)
      requires IndexCurrent()
      modifies this`items, dedup
      ensures IndexCurrent()
      ensures forall it :: it in items <==> it in old(items) && it.entry.feedId !in feedIds
      ensures old(D.NoClash(dedup.fns, items)) ==> D.NoClash(dedup.fns, items)
      ensures old(D.AllScoped(dedup.fns, items)) ==> D.AllScoped(dedup.fns, items)
      ensures old(Sound()) ==> EditOf(old(items), items)
    {
      if feedIds == {} {
        if Sound() { StoreIsEdit(dedup.fns, items, items); }
        return;
      }
      KeepItems((it: RssItem) => it.entry.feedId !in feedIds);
      dedup.BuildIndex(items);
      if old(Sound()) { StoreIsEdit(dedup.fns, old(items), items); }
    }

    method RemoveFeed(feedId: string)
      requires IndexCurrent()
      modifies this`feeds, this`items, dedup
      ensures IndexCurrent()
      ensures forall f :: f in feeds <==> f in old(feeds) && f.id != feedId
      ensures forall it :: it in items <==> it in old(items) && it.entry.feedId != feedId && Belongs()(it)
      ensures old(D.NoClash(dedup.fns, items)) ==> D.NoClash(dedup.fns, items)
      ensures old(D.AllScoped(dedup.fns, items)) ==> D.AllScoped(dedup.fns, items)
      ensures old(Sound()) ==> EditOf(old(items), items)
    {
      feeds := Filter(feeds, (f: RssFeed) => f.id != feedId);
      KeepItems((it: RssItem) => it.entry.feedId != feedId);
      KeepItems(Belongs());
      dedup.BuildIndex(items);
      if old(Sound()) { StoreIsEdit(dedup.fns, old(items), items); }
    }

    /** RssDedup::pruneHistory on the item list. */
    method DropHistory(now: int) returns (removed: nat)
      modifies this`items
      ensures removed == |old(items)| - |items| && (removed == 0 ==> items == old(items))
      ensures policy.maxItems > 0 ==> |items| <= policy.maxItems
      ensures forall it :: it in items ==> it in old(items)
      ensures old(D.NoClash(dedup.fns, items)) ==> D.NoClash(dedup.fns, items)
      ensures old(D.AllScoped(dedup.fns, items)) ==> D.AllScoped(dedup.fns, items)
    {
      var rest;
      ghost var idx;
      rest, removed, idx := D.PruneHistory(items, policy, now);
      if D.NoClash(dedup.fns, items) { D.PickKeepsNoClash(dedup.fns, items, idx); }
      items := rest;
    }

    method PruneHistory(now: int) returns (removed: nat)
      requires IndexCurrent()
      modifies this`items, dedup
      ensures IndexCurrent() && removed == |old(items)| - |items|
      ensures policy.maxItems > 0 ==> |items| <= policy.maxItems
      ensures forall it :: it in items ==> it in old(items)
      ensures old(D.NoClash(dedup.fns, items)) ==> D.NoClash(dedup.fns, items)
      ensures old(D.AllScoped(dedup.fns, items)) ==> D.AllScoped(dedup.fns, items)
      ensures old(Sound()) ==> EditOf(old(items), items)
    {
      removed := DropHistory(now);
      if removed > 0 {
        dedup.BuildIndex(items);
      }
      if old(Sound()) { StoreIsEdit(dedup.fns, old(items), items); }
    }

    /** dedupIncoming, and the append that follows it: the fresh items, in order. */
    method Absorb(parsed: seq<RssItem>)
      requires IndexCurrent()
      modifies this`items, this`newItemIds, dedup
      ensures IndexCurrent() && items == old(items) + D.Fresh(dedup.fns, old(items), parsed)
      ensures old(D.Clean(dedup.fns, items)) && D.AllScoped(dedup.fns, parsed) ==> D.Clean(dedup.fns, items)
    {
      var unique := dedup.KeepFresh(items, parsed);
      if D.Clean(dedup.fns, items) && D.AllScoped(dedup.fns, parsed) {
        D.FilterKeepsClean(dedup.fns, items, parsed);
      }
      newItemIds := newItemIds + set it <- unique :: it.entry.id;
      items := items + unique;
    }

    /** refreshFeedImpl, for what the fetcher and the parser returned: the parsed items, or
        nothing. New items are appended; the index is current again on every path. */
    method RefreshFeed(feedId: string, parsed: Option<seq<RssItem>>)
      requires IndexCurrent()
      modifies this`items, this`newItemIds, dedup
      ensures IndexCurrent()
      ensures FindFeed(feeds, feedId).None? ==> items == old(items)
      ensures FindFeed(feeds, feedId).Some? ==>
                var grown := if parsed.None? then old(items)
                             else old(items) + D.Fresh(dedup.fns, old(items), parsed.value);
                items == Pick(grown, Where(grown, Belongs()))
      ensures old(D.Clean(dedup.fns, items)) && ScopedArrivals(parsed) ==> D.Clean(dedup.fns, items)
      ensures forall it <- items :: it in old(items) || Arrived(parsed, it)
      ensures old(D.Clean(dedup.fns, items) && HasIds(items)) && ScopedArrivals(parsed) && PlainArrivals(parsed) ==>
                EditOf(old(items), items)
    {
      var feed := FindFeed(feeds, feedId);
      if feed.None? {
        if Sound() { StoreIsEdit(dedup.fns, items, items); }
        return;
      }
      if parsed.Some? {
        Absorb(parsed.value);
        D.FreshArrived(dedup.fns, old(items), parsed.value);
      }
      PruneAndIndex();
      if D.Clean(dedup.fns, items) && old(HasIds(items)) && PlainArrivals(parsed) {
        StoreIsEdit(dedup.fns, old(items), items);
      }
    }

    ghost predicate Arrived(parsed: Option<seq<RssItem>>, it: RssItem) { parsed.Some? && it in parsed.value }

    ghost predicate Fetched(fetch: string -> Option<seq<RssItem>>, it: RssItem) { exists id :: Arrived(fetch(id), it) }

    /** The parser gives every item an id and queues none. */
    ghost predicate PlainArrivals(parsed: Option<seq<RssItem>>) {
      parsed.Some? ==> forall it <- parsed.value :: Plain(it)
    }

    ghost predicate PlainFetch(fetch: string -> Option<seq<RssItem>>) { forall id :: PlainArrivals(fetch(id)) }

    /** No key of a fetched item contains the separator where that matters. */
    ghost predicate ScopedArrivals(parsed: Option<seq<RssItem>>) {
      parsed.Some? ==> D.AllScoped(dedup.fns, parsed.value)
    }

    ghost predicate ScopedFetch(fetch: string -> Option<seq<RssItem>>) {
      forall id :: ScopedArrivals(fetch(id))
    }

    /** The enabled feeds one after the other. */
    method RefreshEnabledFeeds(fetch: string -> Option<seq<RssItem>>)
      requires IndexCurrent()
      modifies this`items, this`newItemIds, dedup
      ensures IndexCurrent()
      ensures old(D.Clean(dedup.fns, items)) && ScopedFetch(fetch) ==> D.Clean(dedup.fns, items)
      ensures forall it <- items :: it in old(items) || Fetched(fetch, it)
    {
      newItemIds := {};
      for i := 0 to |feeds|
        invariant IndexCurrent()
        invariant forall it <- items :: it in old(items) || Fetched(fetch, it)
        invariant old(D.Clean(dedup.fns, items)) && ScopedFetch(fetch) ==> D.Clean(dedup.fns, items)
      {
        if feeds[i].enabled {
          RefreshFeed(feeds[i].id, fetch(feeds[i].id));
        }
      }
    }

    /** refreshAllFeeds; `fetch` gives what fetching and parsing a feed returns. */
    method RefreshAllFeeds(fetch: string -> Option<seq<RssItem>>, now: int)
      requires IndexCurrent()
      modifies this`items, this`newItemIds, dedup
      ensures IndexCurrent() && forall it <- items :: Belongs()(it)
      ensures policy.maxItems > 0 ==> |items| <= policy.maxItems
      ensures old(D.Clean(dedup.fns, items)) && ScopedFetch(fetch) ==> D.Clean(dedup.fns, items)
      ensures forall it <- items :: it in old(items) || Fetched(fetch, it)
      ensures old(D.Clean(dedup.fns, items) && HasIds(items)) && ScopedFetch(fetch) && PlainFetch(fetch) ==>
                EditOf(old(items), items)
    {
      RefreshEnabledFeeds(fetch);
      var removed := PruneHistory(now);
      IncreasingShort(Where(items, Belongs()), |items|);
      PruneAndIndex();
      if D.Clean(dedup.fns, items) && old(HasIds(items)) && PlainFetch(fetch) {
        StoreIsEdit(dedup.fns, old(items), items);
      }
    }

    /** reloadItemStreamFromEnabledFeeds: what the enabled feeds brought before is dropped first. */
    method ReloadItemStreamFromEnabledFeeds(fetch: string -> Option<seq<RssItem>>, now: int)
      requires IndexCurrent()
      modifies this`items, this`newItemIds, dedup
      ensures IndexCurrent() && forall it <- items :: Belongs()(it)
      ensures policy.maxItems > 0 ==> |items| <= policy.maxItems
      ensures old(D.Clean(dedup.fns, items)) && ScopedFetch(fetch) ==> D.Clean(dedup.fns, items)
      ensures forall it <- items :: it in old(items) || Fetched(fetch, it)
      ensures old(D.Clean(dedup.fns, items) && HasIds(items)) && ScopedFetch(fetch) && PlainFetch(fetch) ==>
                EditOf(old(items), items)
    {
      var enabledIds := set f <- feeds | f.enabled :: f.id;
      ClearItemsForFeeds(enabledIds);
      RefreshAllFeeds(fetch, now);
      if D.Clean(dedup.fns, items) && old(HasIds(items)) && PlainFetch(fetch) {
        StoreIsEdit(dedup.fns, old(items), items);
      }
    }
  }

  /** What applySettings lets through. */
  predicate InBounds(s: RssSettings) {
    && 5 <= s.refreshInterval <= 1440
    && 1 <= s.maxPerRefresh <= 100 && 1 <= s.maxConcurrent <= 50 && 1 <= s.maxBacklog <= 500
    && 100 <= s.historyMaxItems <= 100000 && 0 <= s.historyMaxAgeDays <= 3650
  }

  /** `y` is the value of the range that lies nearest to `x`. */
  predicate Nearest(y: int, x: int, lo: int, hi: int) {
    lo <= y <= hi && (y == x || (y == lo && x < lo) || (y == hi && x > hi))
  }

  /** After a full refresh: the eligible items are as many as the cap allows; the items that would
      be auto-downloaded are the eligible ones and the overflow-marked ones; and no marked one is
      newer than an eligible one. */
  ghost predicate EligibilityShown(env: Env, before: seq<RssItem>, items: seq<RssItem>, cap: nat) {
    && |items| == |before|
    && Count(items, Eligible()) == Min(cap, Count(before, ByRule(env)))
    && (forall i, j | 0 <= i < |items| && 0 <= j < |items| ::
          items[i].marker.reason.AutoBacklogOverflow? && Eligible()(items[j]) ==> Time(items[i]) <= Time(items[j]))
    && (forall j :: 0 <= j < |items| ==>
          (RuleEligible(env, before[j]) <==> Eligible()(items[j]) || items[j].marker.reason.AutoBacklogOverflow?))
  }

  /** Exactly the backlog entries at rank `free` or later are waitlisted, and so their number is known. */
  ghost predicate WaitlistShown(items: seq<RssItem>, backlog: seq<nat>, free: nat) {
    && (forall j: nat :: j < |items| ==> (items[j].marker.waitlisted <==> Beyond(backlog, free, j)))
    && Count(items, Waitlisted()) == Max(0, |backlog| - free)
  }

  lemma RefreshedItem(env: Env, before: seq<RssItem>, base: seq<RssItem>, tracked: seq<nat>, marked: seq<RssItem>,
                      items: seq<RssItem>, newIds: set<string>, cap: nat, j: nat)
    requires IsDiagnosed(env, before, base) && UniqueIds(before) && env.autoEnabled
    requires IsBacklog(base, AllEligible, newIds, cap, tracked) && IsOverflowed(base, tracked, marked)
    requires |items| == |marked| && j < |items| && items[j] == Waitlist(marked[j], items[j].marker.waitlisted)
    ensures Eligible()(items[j]) <==> j in tracked
    ensures items[j].marker.reason.AutoBacklogOverflow? <==> RuleEligible(env, before[j]) && j !in tracked
    ensures items[j].marker.reason.AutoBacklogOverflow? ==>
              forall i <- tracked :: i < |items| ==> Time(items[j]) <= Time(marked[i])
    ensures j in tracked ==> RuleEligible(env, before[j]) && Candidate(AllEligible, newIds, items[j])
  {
    OverflowKeepsTracked(env, before, base, cap, newIds, tracked, marked, j);
    BacklogMembers(base, AllEligible, newIds, cap, tracked);
  }

  /** The items after all passes, one by one. */
  ghost predicate Refreshed(env: Env, before: seq<RssItem>, tracked: seq<nat>, items: seq<RssItem>) {
    && |items| == |before| && InRange(tracked, |items|)
    && forall j :: 0 <= j < |items| ==>
         && (Eligible()(items[j]) <==> j in tracked)
         && (items[j].marker.reason.AutoBacklogOverflow? <==> RuleEligible(env, before[j]) && j !in tracked)
         && (items[j].marker.reason.AutoBacklogOverflow? ==> forall i <- tracked :: Time(items[j]) <= Time(items[i]))
         && (j in tracked ==> RuleEligible(env, before[j]))
  }

  lemma RefreshedShows(env: Env, before: seq<RssItem>, tracked: seq<nat>, items: seq<RssItem>, cap: nat)
    requires Refreshed(env, before, tracked, items) && Count(items, Eligible()) == Min(cap, Count(before, ByRule(env)))
    ensures EligibilityShown(env, before, items, cap)
  {
  }

  lemma AllRefreshed(env: Env, before: seq<RssItem>, base: seq<RssItem>, tracked: seq<nat>, marked: seq<RssItem>,
                     items: seq<RssItem>, newIds: set<string>, cap: nat)
    requires IsDiagnosed(env, before, base) && UniqueIds(before) && env.autoEnabled
    requires IsBacklog(base, AllEligible, newIds, cap, tracked) && IsOverflowed(base, tracked, marked)
    requires |items| == |marked|
    requires forall j :: 0 <= j < |items| ==> items[j] == Waitlist(marked[j], items[j].marker.waitlisted)
    ensures Refreshed(env, before, tracked, items)
    ensures forall j :: 0 <= j < |items| && Eligible()(items[j]) ==> Candidate(AllEligible, newIds, items[j])
  {
    forall j | 0 <= j < |items|
      ensures Eligible()(items[j]) <==> j in tracked
      ensures items[j].marker.reason.AutoBacklogOverflow? <==> RuleEligible(env, before[j]) && j !in tracked
      ensures items[j].marker.reason.AutoBacklogOverflow? ==>
                forall i <- tracked :: i < |items| ==> Time(items[j]) <= Time(marked[i])
      ensures j in tracked ==> RuleEligible(env, before[j]) && Candidate(AllEligible, newIds, items[j])
    {
      RefreshedItem(env, before, base, tracked, marked, items, newIds, cap, j);
    }
  }

  /** What the passes of a full refresh add up to. */
  lemma RefreshOutcome(env: Env, before: seq<RssItem>, base: seq<RssItem>, tracked: seq<nat>, marked: seq<RssItem>,
                       items: seq<RssItem>, newIds: set<string>, cap: nat, backlog: seq<nat>)
    requires IsDiagnosed(env, before, base) && UniqueIds(before) && env.autoEnabled
    requires IsBacklog(base, AllEligible, newIds, cap, tracked) && IsOverflowed(base, tracked, marked)
    requires |items| == |marked|
    requires forall j :: 0 <= j < |items| ==> items[j] == Waitlist(marked[j], items[j].marker.waitlisted)
    requires IsBacklog(items, AllEligible, newIds, cap, backlog)
    ensures EligibilityShown(env, before, items, cap) && Count(items, Eligible()) == |backlog|
    ensures Distinct(backlog)
  {
    AllRefreshed(env, before, base, tracked, marked, items, newIds, cap);
    EligibleAfterOverflow(env, before, base, cap, newIds, tracked, marked);
    CountSame(items, Eligible(), marked, Eligible());
    RefreshedShows(env, before, tracked, items, cap);
    BacklogIsAllEligible(items, newIds, cap, backlog);
  }

  lemma WaitlistAddsUp(marked: seq<RssItem>, items: seq<RssItem>, newIds: set<string>, backlog: seq<nat>,
                       maxConcurrent: int)
    requires |items| == |marked| && InRange(backlog, |items|) && Distinct(backlog)
    requires forall j :: 0 <= j < |items| ==> items[j] == Waitlist(marked[j], items[j].marker.waitlisted)
    requires forall j :: 0 <= j < |items| && InScope(AllEligible, newIds, items[j]) ==>
               (items[j].marker.waitlisted <==> Beyond(backlog, FreeSlots(maxConcurrent, QueuedCount(marked)), j))
    ensures WaitlistShown(items, backlog, FreeSlots(maxConcurrent, QueuedCount(items)))
  {
    QueuedSame(marked, items);
    WaitlistCount(items, backlog, FreeSlots(maxConcurrent, QueuedCount(items)));
  }

  /** The waitlist pass and the passes before it. */
  lemma PassesAddUp(env: Env, before: seq<RssItem>, base: seq<RssItem>, tracked: seq<nat>, marked: seq<RssItem>,
                    items: seq<RssItem>, newIds: set<string>, cap: nat, backlog: seq<nat>, maxConcurrent: int)
    requires IsDiagnosed(env, before, base) && env.autoEnabled
    requires IsBacklog(base, AllEligible, newIds, cap, tracked) && IsOverflowed(base, tracked, marked)
    requires |items| == |marked|
    requires forall j :: 0 <= j < |items| ==> items[j] == Waitlist(marked[j], items[j].marker.waitlisted)
    requires forall j :: 0 <= j < |items| && InScope(AllEligible, newIds, items[j]) ==>
               (items[j].marker.waitlisted <==> Beyond(backlog, FreeSlots(maxConcurrent, QueuedCount(marked)), j))
    requires IsBacklog(items, AllEligible, newIds, cap, backlog)
    ensures UniqueIds(before) ==>
              && EligibilityShown(env, before, items, cap)
              && WaitlistShown(items, backlog, FreeSlots(maxConcurrent, QueuedCount(items)))
              && Count(items, Eligible()) == |backlog|
  {
    if UniqueIds(before) {
      RefreshOutcome(env, before, base, tracked, marked, items, newIds, cap, backlog);
      WaitlistAddsUp(marked, items, newIds, backlog, maxConcurrent);
    }
  }

  lemma BeyondStep(backlog: seq<nat>, free: nat, i: nat, j: nat)
    requires free <= i < |backlog|
    ensures Beyond(backlog[..i + 1], free, j) <==> Beyond(backlog[..i], free, j) || j == backlog[i]
  {
    var a, b := backlog[..i + 1], backlog[..i];
    if k :| free <= k < |a| && a[k] == j && k != i { assert b[k] == j; }
    if k :| free <= k < |b| && b[k] == j { assert a[k] == j; }
    assert a[i] == backlog[i];
  }

  /** Waitlist markers do not influence the backlog. */
  lemma SameBacklog(a: seq<RssItem>, b: seq<RssItem>, scope: Scope, newIds: set<string>, cap: nat, r: seq<nat>)
    requires |a| == |b| && forall j :: 0 <= j < |a| ==> b[j] == Waitlist(a[j], b[j].marker.waitlisted)
    requires IsBacklog(a, scope, newIds, cap, r)
    ensures IsBacklog(b, scope, newIds, cap, r)
  {
    var sel := IsCandidate(scope, newIds);
    WhereSame(a, b, sel);
    forall i: nat, j: nat ensures NewestFirst(a)(i, j) == NewestFirst(b)(i, j) {
      if i < |a| && j < |a| { assert Time(a[i]) == Time(b[i]) && Time(a[j]) == Time(b[j]); }
    }
  }

  lemma {:induction false} WhereSame<T>(a: seq<T>, b: seq<T>, p: T -> bool)
    requires |a| == |b| && forall j :: 0 <= j < |a| ==> p(a[j]) == p(b[j])
    ensures Where(a, p) == Where(b, p)
    decreases |a|
  {
    if a != [] { WhereSame(a[..|a| - 1], b[..|b| - 1], p); }
  }

  /** With ids present, a list without duplicates has unique ids, as the scheduler wants. */
  lemma CleanIdsAreUnique(fns: D.KeyFns, items: seq<RssItem>)
    requires D.NoClash(fns, items) && HasIds(items)
    ensures UniqueIds(items)
  {
    forall i, j | 0 <= i < j < |items| ensures items[i].entry.id != items[j].entry.id {
      assert !D.Clash(fns, items[i], items[j]);
    }
  }

  predicate Plain(it: RssItem) { !it.state.queued && it.entry.id != "" }

  /** Deletions and refreshes that leave no duplicates are edits in the sense of the download path. */
  lemma StoreIsEdit(fns: D.KeyFns, was: seq<RssItem>, items: seq<RssItem>)
    requires HasIds(was) && D.NoClash(fns, items)
    requires forall it <- items :: it in was || Plain(it)
    ensures EditOf(was, items)
  {
    CleanIdsAreUnique(fns, items);
    StoreKeepsQueue(was, items);
  }

  /** The passes that only touch flags and markers leave the index current. */
  lemma IndexSurvivesMarkers(fns: D.KeyFns, a: seq<RssItem>, b: seq<RssItem>)
    requires SameEntries(a, b)
    ensures D.Built(fns, a) == D.Built(fns, b)
    ensures D.Clean(fns, a) ==> D.Clean(fns, b)
  {
    D.BuiltSame(fns, a, b);
    if D.Clean(fns, a) {
      forall i, j | 0 <= i < j < |b| ensures !D.Clash(fns, b[i], b[j]) { assert !D.Clash(fns, a[i], a[j]); }
      forall i | 0 <= i < |b| ensures D.Scoped(fns, b[i]) { assert D.Scoped(fns, a[i]); }
    }
  }
}
