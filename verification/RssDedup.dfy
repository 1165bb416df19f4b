/**
 RssDedup of src/core/rss/rss_dedup.cc. The five hash sets are compared with what they stand
 for: which pairs of items count as the same entry of the same feed.
*/
module RssDedup {
  import opened Sequences
  import opened RssTypes

  const SEPARATOR: char := '\U{1e}'

  /** extractInfoHash and normalizeTorrentUrl, left uninterpreted. */
  datatype KeyFns = KeyFns(infoHash: string -> string, normalizeUrl: string -> string)

  function FeedScopeKey(feedId: string, key: string): string {
    if key == "" then "" else if feedId == "" then key else feedId + [SEPARATOR] + key
  }

  /** Scoped keys coincide for the same key of the same feed, and otherwise only when one item has
      no feed and its key spells out the other's scope. */
  lemma ScopeKeysCollide(f: string, k: string, g: string, l: string)
    requires k != "" && l != "" && SEPARATOR !in f && SEPARATOR !in g
    ensures FeedScopeKey(f, k) == FeedScopeKey(g, l) <==>
              || (f == g && k == l)
              || (f == "" && g != "" && k == g + [SEPARATOR] + l)
              || (g == "" && f != "" && l == f + [SEPARATOR] + k)
  {
    if f != "" && g != "" && FeedScopeKey(f, k) == FeedScopeKey(g, l) {
      SplitAtSeparator(f, k, g, l);
    }
  }

  lemma SplitAtSeparator(f: string, k: string, g: string, l: string)
    requires SEPARATOR !in f && SEPARATOR !in g && f + [SEPARATOR] + k == g + [SEPARATOR] + l
    ensures f == g && k == l
  {
    var s := f + [SEPARATOR] + k;
    assert s == g + [SEPARATOR] + l;
    assert forall i :: 0 <= i < |f| ==> s[i] == f[i] && s[i] in f;
    assert forall i :: 0 <= i < |g| ==> s[i] == g[i] && s[i] in g;
    assert s[|f|] == SEPARATOR && s[|g|] == SEPARATOR;
    assert |f| == |g|;
    assert s[..|f|] == f && s[..|g|] == g;
    assert s[|f| + 1..] == k && s[|g| + 1..] == l;
  }

  // ---------------------------------------------------------------- meaning

  function UrlKey(fns: KeyFns, a: RssItem): string {
    if a.entry.torrentUrl == "" then "" else fns.normalizeUrl(a.entry.torrentUrl)
  }
  function HashKey(fns: KeyFns, a: RssItem): string {
    if a.entry.magnet == "" then "" else fns.infoHash(a.entry.magnet)
  }

  predicate SameKey(a: RssItem, k: string, b: RssItem, l: string) {
    k != "" && k == l && a.entry.feedId == b.entry.feedId
  }

  /** Two items are the same entry: equal ids, or within one feed an equal guid, link, normalised
      torrent URL or infohash. */
  predicate Clash(fns: KeyFns, a: RssItem, b: RssItem) {
    || (a.entry.id != "" && a.entry.id == b.entry.id)
    || SameKey(a, a.entry.guid, b, b.entry.guid)
    || SameKey(a, a.entry.link, b, b.entry.link)
    || SameKey(a, UrlKey(fns, a), b, UrlKey(fns, b))
    || SameKey(a, HashKey(fns, a), b, HashKey(fns, b))
  }

  ghost predicate NoClash(fns: KeyFns, items: seq<RssItem>) {
    forall i, j :: 0 <= i < j < |items| ==> !Clash(fns, items[i], items[j])
  }

  /** The feed id is free of the separator; without a feed, so are the keys. */
  predicate Scoped(fns: KeyFns, a: RssItem) {
    && SEPARATOR !in a.entry.feedId
    && (a.entry.feedId == "" ==>
          && SEPARATOR !in a.entry.guid && SEPARATOR !in a.entry.link
          && SEPARATOR !in UrlKey(fns, a) && SEPARATOR !in HashKey(fns, a))
  }

  ghost predicate AllScoped(fns: KeyFns, items: seq<RssItem>) {
    forall i :: 0 <= i < |items| ==> Scoped(fns, items[i])
  }

  // ---------------------------------------------------------------- the index

  datatype Index = Index(
    ids: set<string>,
    guids: set<string>,
    links: set<string>,
    urls: set<string>,
    hashes: set<string>)

  function Add(s: set<string>, feedId: string, key: string): set<string> {
    if key == "" then s else s + {FeedScopeKey(feedId, key)}
  }

  function Record(fns: KeyFns, x: Index, a: RssItem): Index {
    Index(if a.entry.id == "" then x.ids else x.ids + {a.entry.id},
          Add(x.guids, a.entry.feedId, a.entry.guid),
          Add(x.links, a.entry.feedId, a.entry.link),
          Add(x.urls, a.entry.feedId, UrlKey(fns, a)),
          Add(x.hashes, a.entry.feedId, HashKey(fns, a)))
  }

  /** What buildIndex computes. */
  function Built(fns: KeyFns, items: seq<RssItem>): Index
    decreases |items|
  {
    if items == [] then Index({}, {}, {}, {}, {})
    else Record(fns, Built(fns, items[..|items| - 1]), items[|items| - 1])
  }

  lemma BuiltExtend(fns: KeyFns, items: seq<RssItem>, a: RssItem)
    ensures Built(fns, items + [a]) == Record(fns, Built(fns, items), a)
  {
    assert (items + [a])[..|items|] == items;
  }

  predicate Known(s: set<string>, feedId: string, key: string) { key != "" && FeedScopeKey(feedId, key) in s }

  predicate IsDup(fns: KeyFns, x: Index, a: RssItem) {
    || (a.entry.id != "" && a.entry.id in x.ids)
    || Known(x.guids, a.entry.feedId, a.entry.guid)
    || Known(x.links, a.entry.feedId, a.entry.link)
    || Known(x.urls, a.entry.feedId, UrlKey(fns, a))
    || Known(x.hashes, a.entry.feedId, HashKey(fns, a))
  }

  lemma AddKnows(s: set<string>, a: RssItem, k: string, b: RssItem, l: string)
    requires SEPARATOR !in a.entry.feedId && SEPARATOR !in b.entry.feedId
    requires (a.entry.feedId == "" ==> SEPARATOR !in k) && (b.entry.feedId == "" ==> SEPARATOR !in l)
    ensures Known(Add(s, a.entry.feedId, k), b.entry.feedId, l) <==> Known(s, b.entry.feedId, l) || SameKey(a, k, b, l)
  {
    if k != "" && l != "" {
      ScopeKeysCollide(a.entry.feedId, k, b.entry.feedId, l);
      assert SEPARATOR in b.entry.feedId + [SEPARATOR] + l by {
        assert (b.entry.feedId + [SEPARATOR] + l)[|b.entry.feedId|] == SEPARATOR;
      }
      assert SEPARATOR in a.entry.feedId + [SEPARATOR] + k by {
        assert (a.entry.feedId + [SEPARATOR] + k)[|a.entry.feedId|] == SEPARATOR;
      }
    }
  }

  lemma RecordKnows(fns: KeyFns, x: Index, a: RssItem, b: RssItem)
    requires Scoped(fns, a) && Scoped(fns, b)
    ensures IsDup(fns, Record(fns, x, a), b) <==> IsDup(fns, x, b) || Clash(fns, a, b)
  {
    AddKnows(x.guids, a, a.entry.guid, b, b.entry.guid);
    AddKnows(x.links, a, a.entry.link, b, b.entry.link);
    AddKnows(x.urls, a, UrlKey(fns, a), b, UrlKey(fns, b));
    AddKnows(x.hashes, a, HashKey(fns, a), b, HashKey(fns, b));
  }

  /** The index of a list reports exactly the items that clash with some element of the list. */
  lemma {:induction false} IndexIsExact(fns: KeyFns, items: seq<RssItem>, b: RssItem)
    requires Scoped(fns, b) && AllScoped(fns, items)
    ensures IsDup(fns, Built(fns, items), b) <==> exists i :: 0 <= i < |items| && Clash(fns, items[i], b)
    decreases |items|
  {
    if items != [] {
      var n := |items| - 1;
      IndexIsExact(fns, items[..n], b);
      RecordKnows(fns, Built(fns, items[..n]), items[n], b);
      SomeClash(fns, items, b);
    }
  }

  lemma SomeClash(fns: KeyFns, items: seq<RssItem>, b: RssItem)
    requires items != []
    ensures var n := |items| - 1;
            (exists i :: 0 <= i < |items| && Clash(fns, items[i], b)) <==>
            (exists i :: 0 <= i < n && Clash(fns, items[..n][i], b)) || Clash(fns, items[n], b)
  {
    var n := |items| - 1;
    assert forall i :: 0 <= i < n ==> items[..n][i] == items[i];
  }

  /** Without a feed, a key that spells out another feed's scope makes a false duplicate. */
  lemma ForeignScopeIsMistaken(fns: KeyFns, a: RssItem, b: RssItem)
    requires a.entry == Entry("1", "", "", "", ['F', SEPARATOR, 'g'], None, "", "")
    requires b.entry == Entry("2", "F", "", "", "g", None, "", "")
    ensures IsDup(fns, Built(fns, [a]), b) && !Clash(fns, a, b)
  {
    assert [a][..0] == [];
    assert Built(fns, [a]) == Record(fns, Built(fns, []), a);
    assert FeedScopeKey("F", "g") == ['F', SEPARATOR, 'g'];
  }

  lemma {:induction false} BuiltSame(fns: KeyFns, a: seq<RssItem>, b: seq<RssItem>)
    requires |a| == |b| && forall j :: 0 <= j < |a| ==> a[j].entry == b[j].entry
    ensures Built(fns, a) == Built(fns, b)
    decreases |a|
  {
    if a != [] { BuiltSame(fns, a[..|a| - 1], b[..|b| - 1]); }
  }

  // ---------------------------------------------------------------- filtering

  function Dup(fns: KeyFns): (seq<RssItem>, RssItem) -> bool {
    (items: seq<RssItem>, b: RssItem) => IsDup(fns, Built(fns, items), b)
  }

  function Clashes(fns: KeyFns): (RssItem, RssItem) -> bool {
    (a: RssItem, b: RssItem) => Clash(fns, a, b)
  }

  /** The positions of the incoming items that filtering keeps. */
  function Kept(fns: KeyFns, existing: seq<RssItem>, incoming: seq<RssItem>): (pos: seq<nat>)
    ensures InRange(pos, |incoming|) && forall a, b :: 0 <= a < b < |pos| ==> pos[a] < pos[b]
  {
    Greedy(Dup(fns), existing, incoming, |incoming|)
  }

  function Fresh(fns: KeyFns, existing: seq<RssItem>, incoming: seq<RssItem>): seq<RssItem> {
    Pick(incoming, Kept(fns, existing, incoming))
  }

  lemma FreshArrived(fns: KeyFns, existing: seq<RssItem>, incoming: seq<RssItem>)
    ensures forall it <- Fresh(fns, existing, incoming) :: it in incoming
  {
  }

  /** What the loop has kept of the first `n` items. */
  function FreshUpTo(fns: KeyFns, existing: seq<RssItem>, incoming: seq<RssItem>, n: nat): seq<RssItem>
    requires n <= |incoming|
  {
    Pick(incoming, Greedy(Dup(fns), existing, incoming, n))
  }

  lemma DupMeansRedundant(fns: KeyFns, existing: seq<RssItem>, incoming: seq<RssItem>, pos: seq<nat>, j: nat)
    requires InRange(pos, j) && j < |incoming| && AllScoped(fns, existing) && AllScoped(fns, incoming)
    ensures Dup(fns)(existing + Pick(incoming, pos), incoming[j])
       <==> Redundant(Clashes(fns), existing, incoming, pos, j)
  {
    var kept := Pick(incoming, pos);
    var all, b := existing + kept, incoming[j];
    IndexIsExact(fns, all, b);
    if i :| 0 <= i < |all| && Clash(fns, all[i], b) {
      if i < |existing| {
        assert Clashes(fns)(existing[i], b);
      } else {
        assert all[i] == incoming[pos[i - |existing|]];
        assert Clashes(fns)(incoming[pos[i - |existing|]], b);
      }
    } else {
      forall i | 0 <= i < |existing| ensures !Clashes(fns)(existing[i], b) { assert all[i] == existing[i]; }
      forall m | 0 <= m < |pos| ensures !Clashes(fns)(incoming[pos[m]], b) { assert all[|existing| + m] == kept[m]; }
    }
  }

  /** Filtering keeps, in order, exactly the items that repeat neither an existing item nor an
      earlier kept one. */
  lemma FilterIsExact(fns: KeyFns, existing: seq<RssItem>, incoming: seq<RssItem>, j: nat)
    requires j < |incoming| && AllScoped(fns, existing) && AllScoped(fns, incoming)
    ensures j in Kept(fns, existing, incoming)
       <==> !Redundant(Clashes(fns), existing, incoming, Kept(fns, existing, incoming), j)
  {
    forall m: nat | m < |incoming| ensures DecidesAt(Dup(fns), Clashes(fns), existing, incoming, m) {
      DupMeansRedundant(fns, existing, incoming, Greedy(Dup(fns), existing, incoming, m), m);
    }
    GreedyIsExact(Dup(fns), Clashes(fns), existing, incoming, |incoming|, j);
  }

  /** The feed brings the item again: under the same id, or in the same feed under the same guid, link,
      torrent address or magnet hash. */
  ghost predicate Repeats(fns: KeyFns, a: Entry, b: Entry) {
    || (b.id != "" && a.id == b.id)
    || (a.feedId == b.feedId && (
         || (b.guid != "" && a.guid == b.guid)
         || (b.link != "" && a.link == b.link)
         || (a.torrentUrl != "" && b.torrentUrl != "" && fns.normalizeUrl(b.torrentUrl) != ""
             && fns.normalizeUrl(a.torrentUrl) == fns.normalizeUrl(b.torrentUrl))
         || (a.magnet != "" && b.magnet != "" && fns.infoHash(b.magnet) != ""
             && fns.infoHash(a.magnet) == fns.infoHash(b.magnet))))
  }

  lemma ClashRepeats(fns: KeyFns, a: RssItem, b: RssItem)
    ensures Clash(fns, a, b) <==> Repeats(fns, a.entry, b.entry)
  {
  }

  lemma OnlyFirst(pos: seq<nat>)
    requires InRange(pos, 1) && forall a, b :: 0 <= a < b < |pos| ==> pos[a] < pos[b]
    ensures pos == if 0 in pos then [0] else []
  {
    if |pos| > 1 { assert pos[0] < pos[1]; }
    if pos != [] { assert pos[0] == 0; }
  }

  /** A single arriving item is dropped exactly when it repeats one that is stored. */
  lemma RepeatedIsDropped(fns: KeyFns, existing: seq<RssItem>, it: RssItem)
    requires AllScoped(fns, existing) && Scoped(fns, it)
    ensures Fresh(fns, existing, [it]) ==
              if exists i :: 0 <= i < |existing| && Repeats(fns, existing[i].entry, it.entry) then [] else [it]
  {
    var kept := Kept(fns, existing, [it]);
    FilterIsExact(fns, existing, [it], 0);
    forall i | 0 <= i < |existing|
      ensures Clashes(fns)(existing[i], it) <==> Repeats(fns, existing[i].entry, it.entry)
    {
      ClashRepeats(fns, existing[i], it);
    }
    OnlyFirst(kept);
  }

  /** A kept item clashes with nothing that precedes it in the result. */
  lemma KeptIsNew(fns: KeyFns, existing: seq<RssItem>, incoming: seq<RssItem>, pos: seq<nat>, m: nat)
    requires pos == Kept(fns, existing, incoming) && m < |pos|
    requires AllScoped(fns, existing)
    requires AllScoped(fns, incoming)
    ensures forall i :: 0 <= i < |existing| ==> !Clash(fns, existing[i], incoming[pos[m]])
    ensures forall i :: 0 <= i < m ==> !Clash(fns, incoming[pos[i]], incoming[pos[m]])
  {
    assert pos[m] in pos;
    FilterIsExact(fns, existing, incoming, pos[m]);
    forall i | 0 <= i < |existing| ensures !Clash(fns, existing[i], incoming[pos[m]]) {
      assert !Clashes(fns)(existing[i], incoming[pos[m]]);
    }
    forall i | 0 <= i < m ensures !Clash(fns, incoming[pos[i]], incoming[pos[m]]) {
      assert !Clashes(fns)(incoming[pos[i]], incoming[pos[m]]);
    }
  }

  /** Filtering never creates a clash. */
  lemma FilterKeepsNoClash(fns: KeyFns, existing: seq<RssItem>, incoming: seq<RssItem>)
    requires NoClash(fns, existing)
    requires AllScoped(fns, existing)
    requires AllScoped(fns, incoming)
    ensures NoClash(fns, existing + Fresh(fns, existing, incoming))
  {
    var pos := Kept(fns, existing, incoming);
    var added := Pick(incoming, pos);
    var all := existing + added;
    forall i, j | 0 <= i < j < |all| ensures !Clash(fns, all[i], all[j]) {
      if j >= |existing| {
        KeptIsNew(fns, existing, incoming, pos, j - |existing|);
        assert all[j] == incoming[pos[j - |existing|]];
        if i >= |existing| { assert all[i] == incoming[pos[i - |existing|]]; }
      }
    }
  }

  /** Any choice of items, in any order, inherits freedom from clashes. */
  lemma PickKeepsNoClash(fns: KeyFns, items: seq<RssItem>, idx: seq<nat>)
    requires NoClash(fns, items) && InRange(idx, |items|) && Distinct(idx)
    ensures NoClash(fns, Pick(items, idx))
  {
    var r := Pick(items, idx);
    forall i, j | 0 <= i < j < |r| ensures !Clash(fns, r[i], r[j]) {
      assert idx[i] != idx[j];
      assert Clash(fns, r[i], r[j]) == Clash(fns, r[j], r[i]);
    }
  }

  /** erase(remove_if(...)) is such a choice. */
  lemma WhereKeepsNoClash(fns: KeyFns, items: seq<RssItem>, keep: RssItem -> bool)
    ensures NoClash(fns, items) ==> NoClash(fns, Pick(items, Where(items, keep)))
    ensures AllScoped(fns, items) ==> AllScoped(fns, Pick(items, Where(items, keep)))
  {
    var idx := Where(items, keep);
    assert Distinct(idx);
    if NoClash(fns, items) { PickKeepsNoClash(fns, items, idx); }
  }

  /** What the service keeps true of its item list. */
  ghost predicate Clean(fns: KeyFns, items: seq<RssItem>) {
    NoClash(fns, items) && AllScoped(fns, items)
  }

  lemma FilterKeepsClean(fns: KeyFns, existing: seq<RssItem>, incoming: seq<RssItem>)
    requires Clean(fns, existing) && AllScoped(fns, incoming)
    ensures Clean(fns, existing + Fresh(fns, existing, incoming))
  {
    FilterKeepsNoClash(fns, existing, incoming);
  }

  class Dedup {
    const fns: KeyFns
    var knownIds: set<string>
    var knownGuids: set<string>
    var knownLinks: set<string>
    var knownTorrentUrls: set<string>
    var knownInfohashes: set<string>

    ghost function View(): Index
      reads this
    {
      Index(knownIds, knownGuids, knownLinks, knownTorrentUrls, knownInfohashes)
    }

    constructor (fns: KeyFns)
      ensures this.fns == fns && View() == Built(fns, [])
    {
      this.fns := fns;
      knownIds, knownGuids, knownLinks, knownTorrentUrls, knownInfohashes := {}, {}, {}, {}, {};
    }

    method BuildIndex(existing: seq<RssItem>)
      modifies this
      ensures View() == Built(fns, existing)
    {
      knownIds, knownGuids, knownLinks, knownTorrentUrls, knownInfohashes := {}, {}, {}, {}, {};
      for i := 0 to |existing|
        invariant View() == Built(fns, existing[..i])
      {
        assert existing[..i + 1][..i] == existing[..i];
        RecordItem(existing[i]);
      }
      assert existing[..|existing|] == existing;
    }

    method RecordItem(item: RssItem)
      modifies this
      ensures View() == Record(fns, old(View()), item)
    {
      if item.entry.id != "" {
        knownIds := knownIds + {item.entry.id};
      }
      if item.entry.guid != "" {
        knownGuids := knownGuids + {FeedScopeKey(item.entry.feedId, item.entry.guid)};
      }
      if item.entry.link != "" {
        knownLinks := knownLinks + {FeedScopeKey(item.entry.feedId, item.entry.link)};
      }
      if item.entry.torrentUrl != "" {
        var normalized := fns.normalizeUrl(item.entry.torrentUrl);
        if normalized != "" {
          knownTorrentUrls := knownTorrentUrls + {FeedScopeKey(item.entry.feedId, normalized)};
        }
      }
      if item.entry.magnet != "" {
        var ih := fns.infoHash(item.entry.magnet);
        if ih != "" {
          knownInfohashes := knownInfohashes + {FeedScopeKey(item.entry.feedId, ih)};
        }
      }
    }

    method IsDuplicate(item: RssItem) returns (dup: bool)
      ensures dup <==> IsDup(fns, View(), item)
    {
      if item.entry.id != "" && item.entry.id in knownIds {
        return true;
      }
      if item.entry.guid != "" && FeedScopeKey(item.entry.feedId, item.entry.guid) in knownGuids {
        return true;
      }
      if item.entry.link != "" && FeedScopeKey(item.entry.feedId, item.entry.link) in knownLinks {
        return true;
      }
      if item.entry.torrentUrl != "" {
        var normalized := fns.normalizeUrl(item.entry.torrentUrl);
        if normalized != "" && FeedScopeKey(item.entry.feedId, normalized) in knownTorrentUrls {
          return true;
        }
      }
      if item.entry.magnet != "" {
        var ih := fns.infoHash(item.entry.magnet);
        if ih != "" && FeedScopeKey(item.entry.feedId, ih) in knownInfohashes {
          return true;
        }
      }
      return false;
    }

    /** The next incoming item. */
    method Offer(ghost existing: seq<RssItem>, incoming: seq<RssItem>, i: nat, unique: seq<RssItem>)
      returns (more: seq<RssItem>)
      requires i < |incoming| && unique == FreshUpTo(fns, existing, incoming, i)
                 && View() == Built(fns, existing + unique)
      modifies this
      ensures more == FreshUpTo(fns, existing, incoming, i + 1) && View() == Built(fns, existing + more)
    {
      ghost var pos := Greedy(Dup(fns), existing, incoming, i);
      var dup := IsDuplicate(incoming[i]);
      assert dup <==> Dup(fns)(existing + unique, incoming[i]);
      if dup {
        return unique;
      }
      RecordItem(incoming[i]);
      Appended(fns, existing, incoming, pos, i);
      return unique + [incoming[i]];
    }

    /** The loop of filterDuplicates and of RssService::dedupIncoming: starting from the index of
        `existing` it ends with the index of `existing` plus what was kept. */
    method KeepFresh(ghost existing: seq<RssItem>, incoming: seq<RssItem>) returns (unique: seq<RssItem>)
      requires View() == Built(fns, existing)
      modifies this
      ensures unique == Fresh(fns, existing, incoming)
      ensures View() == Built(fns, existing + unique)
    {
      unique := [];
      assert existing + unique == existing;
      for i := 0 to |incoming|
        invariant unique == FreshUpTo(fns, existing, incoming, i)
        invariant View() == Built(fns, existing + unique)
      {
        unique := Offer(existing, incoming, i, unique);
      }
    }
  }

  lemma Appended(fns: KeyFns, existing: seq<RssItem>, incoming: seq<RssItem>, pos: seq<nat>, i: nat)
    requires InRange(pos, i) && i < |incoming|
    ensures InRange(pos + [i], |incoming|) && Pick(incoming, pos + [i]) == Pick(incoming, pos) + [incoming[i]]
    ensures Built(fns, existing + (Pick(incoming, pos) + [incoming[i]]))
         == Record(fns, Built(fns, existing + Pick(incoming, pos)), incoming[i])
  {
    var unique := Pick(incoming, pos);
    BuiltExtend(fns, existing + unique, incoming[i]);
    assert existing + (unique + [incoming[i]]) == existing + unique + [incoming[i]];
  }

  method FilterDuplicates(fns: KeyFns, existing: seq<RssItem>, incoming: seq<RssItem>) returns (unique: seq<RssItem>)
    ensures unique == Fresh(fns, existing, incoming)
  {
    var dedup := new Dedup(fns);
    dedup.BuildIndex(existing);
    unique := dedup.KeepFresh(existing, incoming);
  }

  // ---------------------------------------------------------------- retention

  datatype HistoryPolicy = HistoryPolicy(maxItems: int, maxAgeDays: int)

  /** An invalid date orders before every valid one. */
  predicate Newer(a: Option<int>, b: Option<int>) { a.Some? && (b.None? || a.value > b.value) }

  predicate TooOld(a: RssItem, cutoff: int) {
    a.entry.publishedAt.Some? && a.entry.publishedAt.value < cutoff && !a.state.downloaded
  }

  /** Downloaded items come first, then newer ones. */
  predicate RanksBefore(a: RssItem, b: RssItem) {
    if a.state.downloaded != b.state.downloaded then a.state.downloaded
    else Newer(a.entry.publishedAt, b.entry.publishedAt)
  }

  method DropOld(items: seq<RssItem>, maxAgeDays: int, now: int) returns (rest: seq<RssItem>, ghost idx: seq<nat>)
    ensures InRange(idx, |items|) && Distinct(idx) && rest == Pick(items, idx)
    ensures |rest| <= |items| && (|rest| == |items| ==> rest == items)
    ensures forall j: nat :: j < |items| ==>
              (j in idx <==> !(maxAgeDays > 0 && TooOld(items[j], now - maxAgeDays * 86400)))
  {
    var cutoff := now - maxAgeDays * 86400;
    var young := Where(items, a => !(maxAgeDays > 0 && TooOld(a, cutoff)));
    IncreasingShort(young, |items|);
    if |young| == |items| {
      IncreasingFull(young, |items|);
    }
    return Pick(items, young), young;
  }

  method KeepBest(items: seq<RssItem>, max: nat) returns (rest: seq<RssItem>, ghost idx: seq<nat>)
    requires max < |items|
    ensures InRange(idx, |items|) && Distinct(idx) && rest == Pick(items, idx) && |rest| == max
    ensures forall j: nat, i <- idx :: j < |items| && j !in idx ==> !RanksBefore(items[j], items[i])
  {
    var n := |items|;
    var before := (i: nat, j: nat) => i < n && j < n && RanksBefore(items[i], items[j]);
    var all := seq(n, i => i);
    var order := SortTop(n, all, max, before);
    rest, idx := Pick(items, order), order;
    forall j: nat, i <- idx | j < |items| && j !in idx ensures !RanksBefore(items[j], items[i]) {
      assert all[j] == j && j in all;
      assert !before(j, i);
    }
  }

  /** What that means, for the positions `idx` that stay: a downloaded item goes only when the cap is
      full of downloaded ones; below the cap only items past the age go, none of them downloaded; and
      of two items that are both downloaded or both not, a dated one within the age never goes before
      an older or undated one. */
  lemma RetentionOutcome(items: seq<RssItem>, policy: HistoryPolicy, now: int, idx: seq<nat>, j: nat)
    requires InRange(idx, |items|) && j < |items| && j !in idx
    requires (policy.maxAgeDays > 0 && TooOld(items[j], now - policy.maxAgeDays * 86400))
             || (|idx| == policy.maxItems && forall i <- idx :: !RanksBefore(items[j], items[i]))
    ensures items[j].state.downloaded ==> |idx| == policy.maxItems && forall i <- idx :: items[i].state.downloaded
    ensures |idx| < policy.maxItems ==>
              && !items[j].state.downloaded && items[j].entry.publishedAt.Some?
              && now - items[j].entry.publishedAt.value > policy.maxAgeDays * 86400 > 0
    ensures items[j].entry.publishedAt.Some? && now - items[j].entry.publishedAt.value <= policy.maxAgeDays * 86400 ==>
              forall i <- idx :: items[i].state.downloaded == items[j].state.downloaded ==>
                && items[i].entry.publishedAt.Some?
                && items[i].entry.publishedAt.value >= items[j].entry.publishedAt.value
  {
  }

  /** Retention drops what is too old and not downloaded, then everything past the cap in the
      order of RanksBefore; `idx` are the positions that stay. */
  method PruneHistory(items: seq<RssItem>, policy: HistoryPolicy, now: int)
    returns (rest: seq<RssItem>, removed: nat, ghost idx: seq<nat>)
    ensures InRange(idx, |items|) && Distinct(idx) && rest == Pick(items, idx) && removed == |items| - |rest|
    ensures policy.maxItems > 0 ==> |rest| <= policy.maxItems
    ensures removed == 0 ==> rest == items
    ensures forall j: nat :: j < |items| && j !in idx ==>
              || (policy.maxAgeDays > 0 && TooOld(items[j], now - policy.maxAgeDays * 86400))
              || (|rest| == policy.maxItems && forall i <- idx :: !RanksBefore(items[j], items[i]))
    ensures policy.maxAgeDays > 0 ==> forall i <- idx :: !TooOld(items[i], now - policy.maxAgeDays * 86400)
  {
    rest, idx := DropOld(items, policy.maxAgeDays, now);
    if policy.maxItems > 0 && |rest| > policy.maxItems {
      ghost var young, aged := idx, rest;
      ghost var order;
      rest, order := KeepBest(rest, policy.maxItems);
      idx := Pick(young, order);
      Composed(items, young, order);
      ComposedRanks(items, young, order);
    }
    removed := |items| - |rest|;
  }

  lemma ComposedRanks(items: seq<RssItem>, young: seq<nat>, order: seq<nat>)
    requires InRange(young, |items|) && InRange(order, |young|)
    requires var aged := Pick(items, young);
             forall y: nat, i <- order :: y < |aged| && y !in order ==> !RanksBefore(aged[y], aged[i])
    ensures forall j: nat, i <- Pick(young, order) :: j in young && j !in Pick(young, order) ==>
              j < |items| && i < |items| && !RanksBefore(items[j], items[i])
  {
    var idx, aged := Pick(young, order), Pick(items, young);
    forall j: nat, i <- idx | j in young && j !in idx
      ensures j < |items| && i < |items| && !RanksBefore(items[j], items[i])
    {
      var y :| 0 <= y < |young| && young[y] == j;
      assert forall m :: 0 <= m < |order| ==> idx[m] == young[order[m]] && idx[m] in idx;
      assert y !in order;
      var m :| 0 <= m < |idx| && idx[m] == i;
      assert order[m] in order && aged[order[m]] == items[i] && aged[y] == items[j];
    }
  }

  lemma Composed(items: seq<RssItem>, outer: seq<nat>, inner: seq<nat>)
    requires InRange(outer, |items|) && InRange(inner, |outer|) && Distinct(outer) && Distinct(inner)
    ensures InRange(Pick(outer, inner), |items|) && Distinct(Pick(outer, inner))
    ensures Pick(Pick(items, outer), inner) == Pick(items, Pick(outer, inner))
    ensures forall x <- Pick(outer, inner) :: x in outer
  {
    forall i, j | 0 <= i < j < |inner| ensures outer[inner[i]] != outer[inner[j]] {
      if inner[i] < inner[j] { } else { assert inner[j] < inner[i]; }
    }
  }

  lemma {:induction false} IncreasingFull(idx: seq<nat>, n: nat)
    requires forall a, b :: 0 <= a < b < |idx| ==> idx[a] < idx[b]
    requires InRange(idx, n) && |idx| == n
    ensures forall i :: 0 <= i < n ==> idx[i] == i
    decreases n
  {
    if n > 0 {
      IncreasingShort(idx[..n - 1], idx[n - 1]);
      IncreasingFull(idx[..n - 1], n - 1);
    }
  }
}
