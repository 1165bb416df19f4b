/** The event handlers of src/app_controller.cc that carry RSS downloads, on the pipeline object. */
module AppControllers {
  import opened Sequences
  import opened RssTypes
  import opened RssScheduling
  import opened RssPipeline
  import opened RssDownloads

  class AppController {
    const config: Config
    const pipeline: RssDownloadPipeline<Ticket, Ticket>
    /** The items of the RssService. */
    var items: seq<RssItem>
    /** Torrent fetches that run on other threads. */
    var fetching: seq<Ticket>
    var limits: Limits
    var shuttingDown: bool
    var log: Log

    constructor (config: Config, items: seq<RssItem>, limits: Limits)
      ensures State() == Launched(items, limits) && fresh(pipeline) && this.config == config
    {
      this.config := config;
      pipeline := new RssDownloadPipeline<Ticket, Ticket>();
      this.items, fetching, shuttingDown, log, this.limits := items, [], false, Log([], [], []), limits;
    }

    ghost function State(): App
      reads this, pipeline
    {
      App(items, Lane(pipeline.Magnets(), pipeline.magnetPosts, []),
          Lane(pipeline.Torrents(), pipeline.rssTorrentPosts, fetching), log, limits, shuttingDown)
    }

    method ApplyLimits(limits: Limits)
      modifies this`limits
      ensures State() == RssDownloads.Apply(config, old(State()), Configure(limits))
    {
      this.limits := limits;
    }

    method EnqueueMagnet(uri: string, itemId: string)
      modifies pipeline, this`log
      ensures State() == IssueMagnet(old(State()), MagnetLimit(limits, itemId), Ticket(|old(log).issued|, itemId, uri))
    {
      var maxInFlight := limits.magnetMaxInFlight;
      if itemId != "" {
        maxInFlight := Min(maxInFlight, Clamp(limits.maxConcurrent, 1, 50));
      }
      pipeline.SetMagnetMaxInFlight(maxInFlight);
      var t := Ticket(|log.issued|, itemId, uri);
      log := log.(issued := log.issued + [t]);
      pipeline.EnqueueMagnet(t);
    }

    method EnqueueRssTorrentUrl(url: string, itemId: string)
      modifies pipeline, this`log
      ensures State() == IssueTorrent(old(State()), Ticket(|old(log).issued|, itemId, config.trim(url)))
    {
      var t := Ticket(|log.issued|, itemId, config.trim(url));
      log := log.(issued := log.issued + [t]);
      pipeline.EnqueueRssTorrentUrl(t);
    }

    /** The callback that initializeRss sets. */
    method OnDownloadRequest(it: RssItem)
      modifies pipeline, this`log
      ensures State() == Deliver(config, old(State()), it)
    {
      if shuttingDown {
        return;
      }
      if it.entry.magnet != "" {
        EnqueueMagnet(it.entry.magnet, it.entry.id);
      } else if it.entry.torrentUrl != "" {
        EnqueueRssTorrentUrl(it.entry.torrentUrl, it.entry.id);
      }
    }

    /** settleRssDownloadIfNeeded. */
    method Settle(t: Ticket, ok: bool, path: string)
      modifies this`items, this`log
      ensures items == ApplySettlement(old(items), t.itemId, ok, path)
      ensures log == old(log).(settled := old(log).settled + [t])
    {
      log := log.(settled := log.settled + [t]);
      if t.itemId == "" {
        return;
      }
      items := ApplySettlement(items, t.itemId, ok, path);
    }

    method FinishMagnet(t: Ticket)
      modifies pipeline, this`log
      ensures State() == old(State()).(magnets := Finish(old(State()).magnets), log := log)
      ensures log == old(log).(finished := old(log).finished + [t])
    {
      log := log.(finished := log.finished + [t]);
      pipeline.FinishMagnet();
    }

    method FinishRssTorrent(t: Ticket)
      modifies pipeline, this`log
      ensures State() == old(State()).(torrents := Finish(old(State()).torrents), log := log)
      ensures log == old(log).(finished := old(log).finished + [t])
    {
      log := log.(finished := log.finished + [t]);
      pipeline.FinishRssTorrent();
    }

    method StartOneMagnetOnUi(t: Ticket)
      modifies pipeline, this`items, this`log
      ensures State() == StartMagnet(config, old(State()), t)
    {
      if shuttingDown {
        Settle(t, false, "");
        FinishMagnet(t);
        return;
      }
      var trimmed := config.trim(t.uri);
      if !config.validMagnet(trimmed) {
        Settle(t, false, "");
        FinishMagnet(t);
        return;
      }
      Settle(t, true, config.savePath);
      FinishMagnet(t);
    }

    method StartOneRssTorrentUrlOnUi(t: Ticket)
      modifies pipeline, this`items, this`log, this`fetching
      ensures State() == StartTorrent(config, old(State()), t)
    {
      if config.trim(t.uri) == "" {
        Settle(t, false, "");
        FinishRssTorrent(t);
        return;
      }
      if shuttingDown {
        Settle(t, false, "");
        FinishRssTorrent(t);
        return;
      }
      fetching := fetching + [t];
    }

    /** A posted magnet pump runs, with its closure. */
    method OnPumpMagnet()
      requires pipeline.magnetPosts != []
      modifies pipeline, this`items, this`log
      ensures State() == RssDownloads.Apply(config, old(State()), PumpMagnet)
    {
      var closure := pipeline.magnetPosts[0];
      var item := pipeline.PumpMagnetQueue();
      if item.Some? {
        if closure == FromFinish {
          if config.handlers.startMagnet {
            StartOneMagnetOnUi(item.value);
          }
        } else if !shuttingDown && config.handlers.startMagnet {
          StartOneMagnetOnUi(item.value);
        } else {
          if config.handlers.settle {
            Settle(item.value, false, "");
          }
          FinishMagnet(item.value);
        }
      }
    }

    method OnPumpRssTorrent()
      requires pipeline.rssTorrentPosts != []
      modifies pipeline, this`items, this`log, this`fetching
      ensures State() == RssDownloads.Apply(config, old(State()), PumpTorrent)
    {
      var closure := pipeline.rssTorrentPosts[0];
      var item := pipeline.PumpRssTorrentUrlQueue();
      if item.Some? {
        if closure == FromFinish {
          if config.handlers.startTorrent {
            StartOneRssTorrentUrlOnUi(item.value);
          }
        } else if !shuttingDown && config.handlers.startTorrent {
          StartOneRssTorrentUrlOnUi(item.value);
        } else {
          if config.handlers.settle {
            Settle(item.value, false, "");
          }
          FinishRssTorrent(item.value);
        }
      }
    }

    /** The event that a fetch posts when it is over. */
    method OnTorrentFetched(i: nat, ok: bool)
      requires i < |fetching|
      modifies pipeline, this`items, this`log, this`fetching
      ensures State() == RssDownloads.Apply(config, old(State()), TorrentDone(i, ok))
    {
      var t := fetching[i];
      fetching := Without(fetching, i);
      Settle(t, ok, if ok then config.savePath else "");
      FinishRssTorrent(t);
    }
  }
}
