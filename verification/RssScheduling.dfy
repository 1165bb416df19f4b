/**
 What RssService (src/core/rss/rss_service.cc) decides about auto-downloads, as functions and
 predicates on its item list. Module RssServices has the methods.
*/
module RssScheduling {
  import opened Sequences
  import opened RssTypes
  import opened RssRuleEngine

  datatype Scope = AllEligible | NewItemsOnly

  /** What the decisions read besides the item. */
  datatype Env = Env(kw: KeywordMatch, feeds: seq<RssFeed>, rules: seq<RssRule>, autoEnabled: bool, hasCallback: bool)

  function FindFeed(feeds: seq<RssFeed>, id: string): (r: Option<RssFeed>)
    ensures r.Some? ==> r.value.id == id
    ensures r.None? ==> forall f <- feeds :: f.id != id
  {
    if feeds == [] then None else if feeds[0].id == id then Some(feeds[0]) else FindFeed(feeds[1..], id)
  }

  function FindRule(rules: seq<RssRule>, id: string): (r: Option<RssRule>)
    ensures r.Some? ==> r.value.id == id
    ensures r.None? ==> forall x <- rules :: x.id != id
  {
    if rules == [] then None else if rules[0].id == id then Some(rules[0]) else FindRule(rules[1..], id)
  }

  function Mark(it: RssItem, d: Decision, r: Reason): RssItem {
    it.(marker := it.marker.(decision := d, reason := r))
  }

  function Waitlist(it: RssItem, on: bool): RssItem { it.(marker := it.marker.(waitlisted := on)) }

  predicate HasResource(it: RssItem) { it.entry.magnet != "" || it.entry.torrentUrl != "" }

  predicate Blocked(it: RssItem) { it.state.queued || it.state.downloaded || it.state.ignored }

  /** The item would be auto-downloaded: its feed allows it and some enabled rule covers it. */
  ghost predicate RuleEligible(env: Env, it: RssItem) {
    && env.autoEnabled && env.hasCallback && HasResource(it) && !Blocked(it)
    && (var feed := FindFeed(env.feeds, it.entry.feedId); feed.Some? && feed.value.autoDownload)
    && exists rule <- env.rules :: rule.enabled && Covers(env.kw, rule, it.entry)
  }

  /** The first reason, in the order of the checks, why an item is or is not auto-downloaded. */
  ghost predicate Explains(env: Env, it: RssItem, r: Reason) {
    var named := it.entry.magnet != "" || it.entry.torrentUrl != "";
    var idle := !it.state.downloaded && !it.state.ignored && !it.state.queued;
    var listed := exists f <- env.feeds :: f.id == it.entry.feedId;
    var allowed := exists f :: f in env.feeds && FindFeed(env.feeds, it.entry.feedId) == Some(f) && f.autoDownload;
    var covered := exists rule <- env.rules :: rule.enabled && Covers(env.kw, rule, it.entry);
    match r
    case GlobalDisabled => !env.autoEnabled
    case NoResource => env.autoEnabled && !named
    case StateBlocked => env.autoEnabled && named && !idle
    case UnknownFeed => env.autoEnabled && named && idle && !listed
    case FeedAutoOff => env.autoEnabled && named && idle && listed && !allowed
    case NoRuleMatch => env.autoEnabled && named && idle && listed && allowed && !covered
    case NoCallback => env.autoEnabled && named && idle && listed && allowed && covered && !env.hasCallback
    case DiagnosticRuleEligible => env.autoEnabled && named && idle && listed && allowed && covered && env.hasCallback
    case _ => false
  }

  lemma {:induction false} FoundFeed(feeds: seq<RssFeed>, id: string)
    ensures FindFeed(feeds, id).Some? ==> FindFeed(feeds, id).value in feeds
    decreases |feeds|
  {
    if feeds != [] && feeds[0].id != id { FoundFeed(feeds[1..], id); }
  }

  /** The item equals `b` but for decision, reason and waitlist marker. */
  predicate OnlyMarkers(a: RssItem, b: RssItem) {
    a.entry == b.entry && a.state == b.state
  }

  // ---------------------------------------------------------------- the backlog

  function InScope(scope: Scope, newIds: set<string>, it: RssItem): bool {
    scope.NewItemsOnly? ==> it.entry.id in newIds
  }

  predicate Candidate(scope: Scope, newIds: set<string>, it: RssItem) {
    InScope(scope, newIds, it) && !Blocked(it) && HasResource(it) && it.marker.reason.DiagnosticRuleEligible?
  }

  /** An invalid date counts as the epoch. */
  function Time(it: RssItem): int { if it.entry.publishedAt.Some? then it.entry.publishedAt.value else 0 }

  function NewestFirst(items: seq<RssItem>): (nat, nat) -> bool {
    (i: nat, j: nat) => i < |items| && j < |items| && Time(items[i]) > Time(items[j])
  }

  lemma NewestFirstIsWeakOrder(items: seq<RssItem>)
    ensures WeakOrder(|items|, NewestFirst(items))
  {
  }

  function IsCandidate(scope: Scope, newIds: set<string>): RssItem -> bool {
    (it: RssItem) => Candidate(scope, newIds, it)
  }

  function Candidates(items: seq<RssItem>, scope: Scope, newIds: set<string>): (idx: seq<nat>)
    ensures InRange(idx, |items|)
  {
    Where(items, IsCandidate(scope, newIds))
  }

  /** `r` lists the newest `cap` candidates, newest first. */
  ghost predicate IsBacklog(items: seq<RssItem>, scope: Scope, newIds: set<string>, cap: nat, r: seq<nat>) {
    InRange(r, |items|) && IsTop(Candidates(items, scope, newIds), cap, NewestFirst(items), r)
  }

  lemma BacklogMembers(items: seq<RssItem>, scope: Scope, newIds: set<string>, cap: nat, r: seq<nat>)
    requires IsBacklog(items, scope, newIds, cap, r)
    ensures forall k :: 0 <= k < |r| ==> Candidate(scope, newIds, items[r[k]])
    ensures Distinct(r) && |r| <= cap
  {
    forall k | 0 <= k < |r| ensures Candidate(scope, newIds, items[r[k]]) {
      assert r[k] in Candidates(items, scope, newIds);
    }
  }

  ghost predicate UniqueIds(items: seq<RssItem>) {
    forall i, j :: 0 <= i < j < |items| ==> items[i].entry.id != items[j].entry.id
  }

  ghost predicate HasIds(items: seq<RssItem>) { forall it <- items :: it.entry.id != "" }

  ghost predicate GoodIds(items: seq<RssItem>) { UniqueIds(items) && HasIds(items) }

  /** Every queued item of `b` was queued in `a`. */
  ghost predicate QueuedFrom(a: seq<RssItem>, b: seq<RssItem>) {
    forall j :: 0 <= j < |b| && b[j].state.queued ==>
      exists i :: 0 <= i < |a| && a[i].state.queued && a[i].entry.id == b[j].entry.id
  }

  /** What an operation may do to the items that neither downloads nor settles one. */
  ghost predicate EditOf(a: seq<RssItem>, b: seq<RssItem>) { GoodIds(b) && QueuedFrom(a, b) }

  /** The passes that leave the flags of an item alone. */
  lemma FlagsKeepQueue(a: seq<RssItem>, b: seq<RssItem>)
    requires |a| == |b| && forall j :: 0 <= j < |a| ==> OnlyMarkers(b[j], a[j])
    ensures QueuedFrom(a, b) && (GoodIds(a) ==> EditOf(a, b))
  {
  }

  /** Pruning, clearing, removing a feed; and a refresh, whose new items are not queued. */
  lemma StoreKeepsQueue(a: seq<RssItem>, b: seq<RssItem>)
    requires forall it <- b :: it in a || !it.state.queued
    ensures QueuedFrom(a, b)
  {
    forall j | 0 <= j < |b| && b[j].state.queued
      ensures exists i :: 0 <= i < |a| && a[i].state.queued && a[i].entry.id == b[j].entry.id
    {
      assert b[j] in b;
    }
  }

  function QueuedCount(items: seq<RssItem>): (n: nat) { Count(items, (it: RssItem) => it.state.queued) }

  function FreeSlots(maxConcurrent: int, inflight: nat): nat { Max(0, Clamp(maxConcurrent, 1, 50) - inflight) }

  // ---------------------------------------------------------------- single items

  /** The first item with the id. */
  function Find(items: seq<RssItem>, id: string): (r: Option<nat>)
    ensures r.Some? ==> r.value < |items| && items[r.value].entry.id == id
    ensures forall j :: 0 <= j < (if r.Some? then r.value else |items|) ==> items[j].entry.id != id
    decreases |items|
  {
    if items == [] then None
    else
      var r := Find(items[..|items| - 1], id);
      if r.Some? then r else if items[|items| - 1].entry.id == id then Some(|items| - 1) else None
  }

  lemma FindUnique(items: seq<RssItem>, i: nat)
    requires UniqueIds(items) && i < |items|
    ensures Find(items, items[i].entry.id) == Some(i)
  {
    var r := Find(items, items[i].entry.id);
    assert r.Some? && r.value <= i;
    assert forall j :: 0 <= j < i ==> items[j].entry.id != items[i].entry.id;
  }

  function Started(it: RssItem): RssItem { Mark(it.(state := it.state.(queued := true)), Queued, ManualQueued) }

  /** The request that carries the item: the save path, category and tags come from the first rule
      whose id is that of the first enabled covering rule. */
  ghost function RequestFor(env: Env, it: RssItem): Request {
    var m := FirstMatch(env.kw, env.rules, it.entry);
    var rule := if m.Some? then FindRule(env.rules, env.rules[m.value].id) else None;
    var feed := FindFeed(env.feeds, it.entry.feedId);
    Request(it.entry.id, it.entry.feedId, it.entry.title, it.entry.magnet, it.entry.torrentUrl,
            if rule.Some? then rule.value.savePath else "",
            if rule.Some? then rule.value.category else "",
            if rule.Some? then rule.value.tagsCsv else "",
            if feed.Some? then feed.value.url else "")
  }

  ghost function Requester(env: Env): RssItem -> Request { (it: RssItem) => RequestFor(env, it) }

  function Settled(it: RssItem, success: bool, path: string): RssItem {
    if success then
      Mark(it.(state := it.state.(queued := false, accepted := true, downloaded := true,
                                  retryCount := 0, savePath := path)),
           Succeeded, SettlementSuccess)
    else
      Mark(it.(state := it.state.(queued := false, retryCount := it.state.retryCount + 1)), Failed, SettlementFailed)
  }

  ghost predicate SameEntries(a: seq<RssItem>, b: seq<RssItem>) {
    |a| == |b| && forall j :: 0 <= j < |a| ==> a[j].entry == b[j].entry
  }

  /** applyRssDownloadSettlement on the item list. */
  function ApplySettlement(items: seq<RssItem>, itemId: string, success: bool, path: string): (r: seq<RssItem>)
    ensures SameEntries(items, r)
  {
    if itemId == "" then items
    else
      var i := Find(items, itemId);
      if i.None? then items else items[i.value := Settled(items[i.value], success, path)]
  }

  /** downloadItem on the item list: the new list, and whether a request was delivered. */
  function ApplyDownload(hasCallback: bool, items: seq<RssItem>, itemId: string): (r: (seq<RssItem>, bool))
    ensures SameEntries(items, r.0)
  {
    var i := Find(items, itemId);
    if i.None? then (items, false)
    else
      var it := items[i.value];
      if !HasResource(it) then (items[i.value := Mark(it, Skipped, NoResource)], false)
      else if it.state.queued then (items[i.value := Mark(it, Skipped, AlreadyQueued)], false)
      else if !hasCallback then (items[i.value := Mark(it, Failed, NoCallback)], false)
      else (items[i.value := Started(it)], true)
  }

  // ---------------------------------------------------------------- dispatch

  /** The requests for the backlog entries of rank lo, ..., hi - 1. */
  function Requests(req: RssItem -> Request, items: seq<RssItem>, backlog: seq<nat>, lo: nat, hi: nat)
    : (r: seq<Request>)
    requires InRange(backlog, |items|) && lo <= hi <= |backlog|
    ensures |r| == hi - lo && forall k :: 0 <= k < |r| ==> r[k] == req(items[backlog[lo + k]])
    decreases hi - lo
  {
    if lo == hi then [] else [req(items[backlog[lo]])] + Requests(req, items, backlog, lo + 1, hi)
  }

  /** `base` with the first `n` backlog entries put into the queue. */
  function StartAll(base: seq<RssItem>, backlog: seq<nat>, n: nat): (r: seq<RssItem>)
    requires InRange(backlog, |base|) && n <= |backlog|
    ensures |r| == |base|
  {
    if n == 0 then base else StartAll(base, backlog, n - 1)[backlog[n - 1] := Started(base[backlog[n - 1]])]
  }

  lemma {:induction false} StartAllAt(base: seq<RssItem>, backlog: seq<nat>, n: nat, j: nat)
    requires InRange(backlog, |base|) && n <= |backlog| && j < |base|
    ensures StartAll(base, backlog, n)[j] == if j in backlog[..n] then Started(base[j]) else base[j]
    decreases n
  {
    if n > 0 {
      StartAllAt(base, backlog, n - 1, j);
      assert backlog[..n] == backlog[..n - 1] + [backlog[n - 1]];
      InExtended(backlog[..n - 1], backlog[n - 1], j);
    }
  }

  lemma StartAllIds(base: seq<RssItem>, backlog: seq<nat>, n: nat)
    requires InRange(backlog, |base|) && n <= |backlog|
    ensures forall j :: 0 <= j < |base| ==> StartAll(base, backlog, n)[j].entry == base[j].entry
  {
    forall j | 0 <= j < |base| ensures StartAll(base, backlog, n)[j].entry == base[j].entry {
      StartAllAt(base, backlog, n, j);
    }
  }

  /** The listed items pass the checks of the loop and of downloadItem. */
  ghost predicate Ready(base: seq<RssItem>, backlog: seq<nat>) {
    InRange(backlog, |base|) && Distinct(backlog)
    && forall k :: 0 <= k < |backlog| ==> Passes(base[backlog[k]]) && HasResource(base[backlog[k]])
  }

  lemma BacklogIsReady(items: seq<RssItem>, scope: Scope, newIds: set<string>, cap: nat, r: seq<nat>)
    requires IsBacklog(items, scope, newIds, cap, r)
    ensures Ready(items, r)
  {
    BacklogMembers(items, scope, newIds, cap, r);
  }

  lemma {:induction false} StartAllCount(base: seq<RssItem>, backlog: seq<nat>, n: nat)
    requires Ready(base, backlog) && n <= |backlog|
    ensures QueuedCount(StartAll(base, backlog, n)) == QueuedCount(base) + n
    decreases n
  {
    if n > 0 {
      StartAllCount(base, backlog, n - 1);
      NextIsUntouched(base, backlog, n - 1);
      CountUpdate(StartAll(base, backlog, n - 1), (it: RssItem) => it.state.queued, backlog[n - 1],
                  Started(base[backlog[n - 1]]));
    }
  }

  lemma NextIsUntouched(base: seq<RssItem>, backlog: seq<nat>, n: nat)
    requires Ready(base, backlog) && n < |backlog|
    ensures StartAll(base, backlog, n)[backlog[n]] == base[backlog[n]]
  {
    StartAllAt(base, backlog, n, backlog[n]);
    assert backlog[n] !in backlog[..n];
  }

  /** With unique ids the next entry is found by its id and starts. */
  lemma DispatchNext(base: seq<RssItem>, backlog: seq<nat>, n: nat)
    requires Ready(base, backlog) && n < |backlog| && UniqueIds(base)
    ensures var items, pos := StartAll(base, backlog, n), backlog[n];
            && items[pos] == base[pos] && Passes(items[pos]) && Find(items, base[pos].entry.id) == Some(pos)
            && ApplyDownload(true, items, base[pos].entry.id) == (StartAll(base, backlog, n + 1), true)
  {
    NextIsUntouched(base, backlog, n);
    StartAllIds(base, backlog, n);
    FindUnique(StartAll(base, backlog, n), backlog[n]);
  }

  predicate Passes(it: RssItem) { !Blocked(it) && it.marker.reason.DiagnosticRuleEligible? }

  /** The dispatch loop from rank `n` of the backlog with `left` starts to go and `sent` requests
      delivered so far: the item list and the requests it ends with. */
  function DispatchFrom(req: RssItem -> Request, hasCallback: bool, items: seq<RssItem>, backlog: seq<nat>, n: nat,
                        left: int, sent: seq<Request>): (r: (seq<RssItem>, seq<Request>))
    requires InRange(backlog, |items|) && n <= |backlog|
    ensures |r.0| == |items|
    decreases |backlog| - n
  {
    if left <= 0 || n == |backlog| then (items, sent)
    else if !Passes(items[backlog[n]]) then DispatchFrom(req, hasCallback, items, backlog, n + 1, left, sent)
    else
      var id := items[backlog[n]].entry.id;
      var next := ApplyDownload(hasCallback, items, id);
      if !next.1 then DispatchFrom(req, hasCallback, next.0, backlog, n + 1, left, sent)
      else DispatchFrom(req, hasCallback, next.0, backlog, n + 1, left - 1, sent + [req(items[Find(items, id).value])])
  }

  lemma {:induction false} DispatchKeepsEntries(req: RssItem -> Request, hasCallback: bool, items: seq<RssItem>,
                                                backlog: seq<nat>, n: nat, left: int, sent: seq<Request>)
    requires InRange(backlog, |items|) && n <= |backlog|
    ensures SameEntries(items, DispatchFrom(req, hasCallback, items, backlog, n, left, sent).0)
    decreases |backlog| - n
  {
    if left > 0 && n < |backlog| {
      var id := items[backlog[n]].entry.id;
      var next := ApplyDownload(hasCallback, items, id);
      if !Passes(items[backlog[n]]) {
        DispatchKeepsEntries(req, hasCallback, items, backlog, n + 1, left, sent);
      } else if !next.1 {
        DispatchKeepsEntries(req, hasCallback, next.0, backlog, n + 1, left, sent);
      } else {
        DispatchKeepsEntries(req, hasCallback, next.0, backlog, n + 1, left - 1,
                             sent + [req(items[Find(items, id).value])]);
      }
    }
  }

  lemma DispatchSkips(req: RssItem -> Request, hasCallback: bool, items: seq<RssItem>, backlog: seq<nat>, n: nat,
                      left: int, sent: seq<Request>)
    requires InRange(backlog, |items|) && n < |backlog| && left > 0 && !Passes(items[backlog[n]])
    ensures DispatchFrom(req, hasCallback, items, backlog, n, left, sent)
         == DispatchFrom(req, hasCallback, items, backlog, n + 1, left, sent)
  {
  }

  lemma DispatchTries(req: RssItem -> Request, hasCallback: bool, items: seq<RssItem>, backlog: seq<nat>, n: nat,
                      left: int, sent: seq<Request>, next: (seq<RssItem>, bool), more: seq<Request>)
    requires InRange(backlog, |items|) && n < |backlog| && left > 0 && Passes(items[backlog[n]])
    requires var id := items[backlog[n]].entry.id;
             && next == ApplyDownload(hasCallback, items, id)
             && more == if next.1 then sent + [req(items[Find(items, id).value])] else sent
    ensures |next.0| == |items|
    ensures DispatchFrom(req, hasCallback, items, backlog, n, left, sent)
         == DispatchFrom(req, hasCallback, next.0, backlog, n + 1, if next.1 then left - 1 else left, more)
  {
  }

  lemma DispatchStarts(req: RssItem -> Request, hasCallback: bool, items: seq<RssItem>, backlog: seq<nat>, n: nat,
                       left: int, sent: seq<Request>, next: seq<RssItem>)
    requires InRange(backlog, |items|) && n < |backlog| && left > 0 && Passes(items[backlog[n]])
    requires ApplyDownload(hasCallback, items, items[backlog[n]].entry.id) == (next, true)
    requires Find(items, items[backlog[n]].entry.id) == Some(backlog[n])
    ensures DispatchFrom(req, hasCallback, items, backlog, n, left, sent)
         == DispatchFrom(req, hasCallback, next, backlog, n + 1, left - 1, sent + [req(items[backlog[n]])])
  {
  }

  /** The loop, from rank `n` with its first entries started, starts the next `left` entries. */
  ghost predicate StartsNext(req: RssItem -> Request, base: seq<RssItem>, backlog: seq<nat>, n: nat, left: nat,
                             sent: seq<Request>)
    requires InRange(backlog, |base|) && n + left <= |backlog|
  {
    DispatchFrom(req, true, StartAll(base, backlog, n), backlog, n, left, sent)
    == (StartAll(base, backlog, n + left), sent + Requests(req, base, backlog, n, n + left))
  }

  lemma StartsNone(req: RssItem -> Request, base: seq<RssItem>, backlog: seq<nat>, n: nat, sent: seq<Request>)
    requires InRange(backlog, |base|) && n <= |backlog|
    ensures StartsNext(req, base, backlog, n, 0, sent)
  {
    assert sent + [] == sent;
  }

  lemma StartsOneMore(req: RssItem -> Request, base: seq<RssItem>, backlog: seq<nat>, n: nat, left: nat,
                      sent: seq<Request>)
    requires Ready(base, backlog) && UniqueIds(base) && n + left <= |backlog| && left > 0
    requires StartsNext(req, base, backlog, n + 1, left - 1, sent + [req(base[backlog[n]])])
    ensures StartsNext(req, base, backlog, n, left, sent)
  {
    DispatchOneMore(req, base, backlog, n, left, sent);
    RequestsStep(req, base, backlog, n, n + left, sent);
  }

  /** With unique ids and a callback, the loop starts the next `left` entries of the backlog. */
  lemma {:induction false} DispatchIsExact(req: RssItem -> Request, base: seq<RssItem>, backlog: seq<nat>, n: nat,
                                           left: nat, sent: seq<Request>)
    requires Ready(base, backlog) && UniqueIds(base) && n + left <= |backlog|
    ensures StartsNext(req, base, backlog, n, left, sent)
    decreases left
  {
    if left == 0 {
      StartsNone(req, base, backlog, n, sent);
    } else {
      DispatchIsExact(req, base, backlog, n + 1, left - 1, sent + [req(base[backlog[n]])]);
      StartsOneMore(req, base, backlog, n, left, sent);
    }
  }

  lemma RequestsStep(req: RssItem -> Request, base: seq<RssItem>, backlog: seq<nat>, n: nat, m: nat, sent: seq<Request>)
    requires InRange(backlog, |base|) && n < m <= |backlog|
    ensures sent + [req(base[backlog[n]])] + Requests(req, base, backlog, n + 1, m)
              == sent + Requests(req, base, backlog, n, m)
  {
    var head := [req(base[backlog[n]])];
    assert sent + head + Requests(req, base, backlog, n + 1, m)
         == sent + (head + Requests(req, base, backlog, n + 1, m));
  }

  lemma DispatchOneMore(req: RssItem -> Request, base: seq<RssItem>, backlog: seq<nat>, n: nat, left: nat,
                        sent: seq<Request>)
    requires Ready(base, backlog) && UniqueIds(base) && n < |backlog| && left > 0
    ensures DispatchFrom(req, true, StartAll(base, backlog, n), backlog, n, left, sent)
         == DispatchFrom(req, true, StartAll(base, backlog, n + 1), backlog, n + 1, left - 1,
                         sent + [req(base[backlog[n]])])
  {
    DispatchNext(base, backlog, n);
    DispatchStarts(req, true, StartAll(base, backlog, n), backlog, n, left, sent, StartAll(base, backlog, n + 1));
  }

  /** Beyond the end of the backlog a larger quota makes no difference. */
  lemma {:induction false} QuotaBeyondBacklog(req: RssItem -> Request, hasCallback: bool, items: seq<RssItem>,
                                              backlog: seq<nat>, n: nat, left: int, sent: seq<Request>)
    requires InRange(backlog, |items|) && n <= |backlog| && left >= |backlog| - n
    ensures DispatchFrom(req, hasCallback, items, backlog, n, left, sent)
         == DispatchFrom(req, hasCallback, items, backlog, n, |backlog| - n, sent)
    decreases |backlog| - n
  {
    if n < |backlog| {
      var rest, id := |backlog| - n, items[backlog[n]].entry.id;
      var next := ApplyDownload(hasCallback, items, id);
      if !Passes(items[backlog[n]]) {
        QuotaBeyondBacklog(req, hasCallback, items, backlog, n + 1, left, sent);
        QuotaBeyondBacklog(req, hasCallback, items, backlog, n + 1, rest, sent);
      } else if !next.1 {
        QuotaBeyondBacklog(req, hasCallback, next.0, backlog, n + 1, left, sent);
        QuotaBeyondBacklog(req, hasCallback, next.0, backlog, n + 1, rest, sent);
      } else {
        var more := sent + [req(items[Find(items, id).value])];
        QuotaBeyondBacklog(req, hasCallback, next.0, backlog, n + 1, left - 1, more);
      }
    }
  }

  /** How many entries one dispatch starts. */
  function StartCount(cap: nat, free: nat, backlog: nat): nat { Min(cap, Min(free, backlog)) }

  /** The loop with its quota: min(cap, free slots, backlog) entries start, newest first. */
  lemma DispatchOutcome(req: RssItem -> Request, base: seq<RssItem>, backlog: seq<nat>, cap: nat, maxConc: nat,
                        queued: nat, sent: seq<Request>)
    requires Ready(base, backlog) && UniqueIds(base)
    ensures var m := StartCount(cap, Max(0, maxConc - queued), |backlog|);
            && DispatchFrom(req, true, base, backlog, 0, Min(cap, maxConc - queued), sent)
            == (StartAll(base, backlog, m), sent + Requests(req, base, backlog, 0, m))
  {
    var left := Min(cap, maxConc - queued);
    var m := StartCount(cap, Max(0, maxConc - queued), |backlog|);
    DispatchIsExact(req, base, backlog, 0, m, sent);
    if left >= |backlog| {
      QuotaBeyondBacklog(req, true, base, backlog, 0, left, sent);
    }
  }

  /** Without a callback nothing starts. */
  lemma {:induction false} DispatchWithoutCallback(req: RssItem -> Request, items: seq<RssItem>, backlog: seq<nat>,
                                                   n: nat, left: int, sent: seq<Request>)
    requires InRange(backlog, |items|) && n <= |backlog|
    ensures DispatchFrom(req, false, items, backlog, n, left, sent).1 == sent
    decreases |backlog| - n
  {
    if left > 0 && n < |backlog| {
      if !Passes(items[backlog[n]]) {
        DispatchWithoutCallback(req, items, backlog, n + 1, left, sent);
      } else {
        var next := ApplyDownload(false, items, items[backlog[n]].entry.id);
        DispatchWithoutCallback(req, next.0, backlog, n + 1, left, sent);
      }
    }
  }

  /** What one batch does, in each case. */
  lemma BatchOutcome(req: RssItem -> Request, hasCallback: bool, base: seq<RssItem>, backlog: seq<nat>, cap: nat,
                     maxConc: nat, queued: nat, sent: seq<Request>)
    requires Ready(base, backlog)
    ensures var r := DispatchFrom(req, hasCallback, base, backlog, 0, Min(cap, maxConc - queued), sent);
            var m := StartCount(cap, Max(0, maxConc - queued), |backlog|);
            && SameEntries(base, r.0)
            && (!hasCallback ==> r.1 == sent)
            && (hasCallback && UniqueIds(base) ==>
                 r == (StartAll(base, backlog, m), sent + Requests(req, base, backlog, 0, m)))
  {
    DispatchKeepsEntries(req, hasCallback, base, backlog, 0, Min(cap, maxConc - queued), sent);
    if !hasCallback {
      DispatchWithoutCallback(req, base, backlog, 0, Min(cap, maxConc - queued), sent);
    } else if UniqueIds(base) {
      DispatchOutcome(req, base, backlog, cap, maxConc, queued, sent);
    }
  }

  /** A download queues one item if it delivers a request, and none otherwise. */
  lemma DownloadCount(hasCallback: bool, items: seq<RssItem>, id: string)
    ensures var r := ApplyDownload(hasCallback, items, id);
            QueuedCount(r.0) == QueuedCount(items) + if r.1 then 1 else 0
  {
    var i := Find(items, id);
    if i.Some? {
      CountUpdate(items, (it: RssItem) => it.state.queued, i.value, ApplyDownload(hasCallback, items, id).0[i.value]);
    }
  }

  /** Whatever ids and backlog look like, the loop queues at most as many items as it has to go. */
  lemma {:induction false} DispatchBounded(req: RssItem -> Request, hasCallback: bool, items: seq<RssItem>,
                                           backlog: seq<nat>, n: nat, left: int, sent: seq<Request>)
    requires InRange(backlog, |items|) && n <= |backlog|
    ensures QueuedCount(DispatchFrom(req, hasCallback, items, backlog, n, left, sent).0)
         <= QueuedCount(items) + Max(0, left)
    decreases |backlog| - n
  {
    if left > 0 && n < |backlog| {
      var id := items[backlog[n]].entry.id;
      var next := ApplyDownload(hasCallback, items, id);
      if !Passes(items[backlog[n]]) {
        DispatchBounded(req, hasCallback, items, backlog, n + 1, left, sent);
      } else {
        DownloadCount(hasCallback, items, id);
        var more := if next.1 then sent + [req(items[Find(items, id).value])] else sent;
        DispatchBounded(req, hasCallback, next.0, backlog, n + 1, if next.1 then left - 1 else left, more);
      }
    }
  }

  /** Dispatch never takes the number of queued items above the concurrency limit, unless it was
      there already. */
  lemma QueuedStaysBounded(base: seq<RssItem>, backlog: seq<nat>, cap: nat, maxConcurrent: int)
    requires Ready(base, backlog)
    ensures var queued, limit := QueuedCount(base), Clamp(maxConcurrent, 1, 50);
            var m := StartCount(cap, FreeSlots(maxConcurrent, queued), |backlog|);
            QueuedCount(StartAll(base, backlog, m)) == queued + m <= Max(queued, limit)
  {
    StartAllCount(base, backlog, StartCount(cap, FreeSlots(maxConcurrent, QueuedCount(base)), |backlog|));
  }

  lemma QueuedSame(a: seq<RssItem>, b: seq<RssItem>)
    requires |a| == |b| && forall j :: 0 <= j < |a| ==> a[j].state.queued == b[j].state.queued
    ensures QueuedCount(a) == QueuedCount(b)
  {
    var q := (it: RssItem) => it.state.queued;
    CountSame(a, q, b, q);
  }

  // ---------------------------------------------------------------- a full diagnosis

  /** `items` is `before` after every item has been diagnosed. */
  ghost predicate IsDiagnosed(env: Env, before: seq<RssItem>, items: seq<RssItem>) {
    && |items| == |before|
    && forall j :: 0 <= j < |items| ==>
         && items[j] == Mark(before[j], items[j].marker.decision, items[j].marker.reason)
         && (items[j].marker.reason.DiagnosticRuleEligible? <==> RuleEligible(env, before[j]))
         && !items[j].marker.reason.AutoBacklogOverflow?
         && (!env.autoEnabled ==> items[j].marker.reason.GlobalDisabled?)
  }

  function Eligible(): RssItem -> bool { (it: RssItem) => it.marker.reason.DiagnosticRuleEligible? }
  function Waitlisted(): RssItem -> bool { (it: RssItem) => it.marker.waitlisted }
  ghost function ByRule(env: Env): RssItem -> bool { (it: RssItem) => RuleEligible(env, it) }

  /** Position `j` is listed at rank `free` or later. */
  ghost predicate Beyond(backlog: seq<nat>, free: nat, j: nat) {
    exists k :: free <= k < |backlog| && backlog[k] == j
  }

  /** Markers of `b` after the overflow pass, with `tracked` the ids in the backlog. */
  function AfterOverflow(b: RssItem, tracked: set<string>): RssItem {
    if Blocked(b) || !b.marker.reason.DiagnosticRuleEligible? || b.entry.id in tracked then b
    else Mark(b, Skipped, AutoBacklogOverflow)
  }

  function Ids(items: seq<RssItem>, idx: seq<nat>): set<string> {
    set i <- idx | i < |items| :: items[i].entry.id
  }

  /** `items` is `base` after the overflow pass with the backlog `tracked`. */
  ghost predicate IsOverflowed(base: seq<RssItem>, tracked: seq<nat>, items: seq<RssItem>) {
    |items| == |base| && forall j :: 0 <= j < |items| ==> items[j] == AfterOverflow(base[j], Ids(base, tracked))
  }

  lemma TrackedByPosition(items: seq<RssItem>, tracked: seq<nat>, j: nat)
    requires UniqueIds(items) && InRange(tracked, |items|) && j < |items|
    ensures items[j].entry.id in Ids(items, tracked) <==> j in tracked
  {
    if items[j].entry.id in Ids(items, tracked) {
      var i :| i in tracked && i < |items| && items[i].entry.id == items[j].entry.id;
      assert i == j;
    }
  }

  /** The eligible items after the overflow pass are exactly the tracked ones, and every item it
      marks is no newer than any of them. */
  lemma OverflowKeepsTracked(env: Env, before: seq<RssItem>, base: seq<RssItem>, cap: nat, newIds: set<string>,
                             tracked: seq<nat>, items: seq<RssItem>, j: nat)
    requires IsDiagnosed(env, before, base) && UniqueIds(base) && env.autoEnabled
    requires IsBacklog(base, AllEligible, newIds, cap, tracked) && IsOverflowed(base, tracked, items) && j < |items|
    ensures Eligible()(items[j]) <==> j in tracked
    ensures items[j].marker.reason.AutoBacklogOverflow? <==> RuleEligible(env, before[j]) && j !in tracked
    ensures items[j].marker.reason.AutoBacklogOverflow? ==> forall i <- tracked :: Time(items[j]) <= Time(items[i])
  {
    TrackedByPosition(base, tracked, j);
    BacklogMembers(base, AllEligible, newIds, cap, tracked);
    var all := Candidates(base, AllEligible, newIds);
    assert j in all <==> RuleEligible(env, before[j]) by {
      assert IsCandidate(AllEligible, newIds)(base[j]) == Candidate(AllEligible, newIds, base[j]);
    }
    if j in all && j !in tracked {
      forall i | i in tracked ensures Time(items[j]) <= Time(items[i]) {
        assert !NewestFirst(base)(j, i);
      }
    }
  }

  /** So many items stay eligible as the cap allows. */
  lemma EligibleAfterOverflow(env: Env, before: seq<RssItem>, base: seq<RssItem>, cap: nat, newIds: set<string>,
                              tracked: seq<nat>, items: seq<RssItem>)
    requires IsDiagnosed(env, before, base) && UniqueIds(base) && env.autoEnabled
    requires IsBacklog(base, AllEligible, newIds, cap, tracked) && IsOverflowed(base, tracked, items)
    ensures Count(items, Eligible()) == |tracked| == Min(cap, Count(before, ByRule(env)))
  {
    forall k: nat ensures k in tracked <==> k < |items| && Eligible()(items[k]) {
      if k < |items| { OverflowKeepsTracked(env, before, base, cap, newIds, tracked, items, k); }
    }
    CountByListing(items, Eligible(), tracked);
    var sel := IsCandidate(AllEligible, newIds);
    forall j | 0 <= j < |base| ensures sel(base[j]) == ByRule(env)(before[j]) { }
    CountIsWhere(base, sel);
    CountSame(base, sel, before, ByRule(env));
  }

  /** After a full refresh the backlog lists every eligible item. */
  lemma BacklogIsAllEligible(items: seq<RssItem>, newIds: set<string>, cap: nat, r: seq<nat>)
    requires IsBacklog(items, AllEligible, newIds, cap, r) && Count(items, Eligible()) <= cap
    requires forall j :: 0 <= j < |items| && Eligible()(items[j]) ==> Candidate(AllEligible, newIds, items[j])
    ensures |r| == Count(items, Eligible())
  {
    var sel := IsCandidate(AllEligible, newIds);
    CountIsWhere(items, sel);
    CountSame(items, sel, items, Eligible());
  }

  /** Exactly the entries beyond the free slots are waitlisted, so their number is known. */
  lemma WaitlistCount(items: seq<RssItem>, backlog: seq<nat>, free: nat)
    requires InRange(backlog, |items|) && Distinct(backlog)
    requires forall j: nat :: j < |items| ==> (items[j].marker.waitlisted <==> Beyond(backlog, free, j))
    ensures Count(items, Waitlisted()) == Max(0, |backlog| - free)
  {
    var beyond := if free <= |backlog| then backlog[free..] else [];
    forall k: nat ensures k in beyond <==> k < |items| && Waitlisted()(items[k]) {
      if k in beyond {
        var m :| 0 <= m < |beyond| && beyond[m] == k;
        assert backlog[free + m] == k;
      }
      if k < |items| && Beyond(backlog, free, k) {
        var m :| free <= m < |backlog| && backlog[m] == k;
        assert beyond[m - free] == k;
      }
    }
    CountByListing(items, Waitlisted(), beyond);
  }
}
