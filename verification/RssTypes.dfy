/** The records of src/core/rss/rss_types.h; times are seconds, None an invalid QDateTime. */
module RssTypes {
  import opened Sequences

  datatype Decision = Unknown | Queued | Skipped | Succeeded | Failed

  datatype Reason =
    | NoReason | NoResource | AlreadyQueued | NoCallback | ManualQueued
    | SettlementSuccess | SettlementFailed | AutoBacklogOverflow
    | GlobalDisabled | StateBlocked | UnknownFeed | FeedAutoOff | NoRuleMatch | RuleMissing
    | DiagnosticRuleEligible

  datatype RssFeed = RssFeed(id: string, title: string, url: string, enabled: bool, autoDownload: bool,
                             lastError: string)

  /** What the feed says about an item; nothing changes it later. */
  datatype Entry = Entry(
    id: string, feedId: string, title: string, link: string, guid: string,
    publishedAt: Option<int>, magnet: string, torrentUrl: string)

  /** The flags of an item that outlast a diagnosis. */
  datatype State = State(
    read: bool, ignored: bool, downloaded: bool, accepted: bool, queued: bool,
    retryCount: nat, savePath: string)

  /** The auto-download markers of an item. */
  datatype Marker = Marker(decision: Decision, reason: Reason, waitlisted: bool)

  datatype RssItem = RssItem(entry: Entry, state: State, marker: Marker)

  datatype RssRule = RssRule(
    id: string, feedIds: seq<string>, includeKeywords: seq<string>, excludeKeywords: seq<string>,
    useRegex: bool, enabled: bool, savePath: string, category: string, tagsCsv: string)

  datatype Request = Request(
    itemId: string, feedId: string, title: string, magnet: string, torrentUrl: string,
    savePath: string, category: string, tagsCsv: string, referer: string)

  datatype RssSettings = RssSettings(
    globalAutoDownload: bool, refreshInterval: int, maxPerRefresh: int, maxConcurrent: int, maxBacklog: int,
    historyMaxItems: int, historyMaxAgeDays: int, playerCommand: string)
}
