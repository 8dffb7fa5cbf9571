/**
 * The `Crawler` class of `frontier.py`: the seeding rule, the control flags,
 * one pass of the scheduling loop, the admission test and the processing of
 * a fetched page, and the adaptive controller. Each method is one atomic step
 * on the crawler's fields and its database; the worker pool, the clock and
 * the network are parameters (the number of tasks in flight, the clock
 * reading, the fetch result, the robots verdict).
 */
module Crawl {
  import opened Wrappers
  import opened FrontierStore
  import opened Schedule
  import opened Steps
  import Fetcher
  import Url
  import Parser

  /** The counters a checkpoint file restores. */
  datatype Restored = Restored(pagesOk: int, internalLinksUnique: int, externalLinksUnique: int)

  /** All counters zero, then the restored ones overwritten. */
  function InitialCounters(restored: Option<Restored>): (c: Counters)
    ensures restored.None? ==> c == Counters(0, 0, 0, 0, 0, 0, 0, 0, 0)
    ensures restored.Some? ==> c == Counters(restored.value.pagesOk, 0, 0, 0, 0, 0, 0,
                                             restored.value.internalLinksUnique, restored.value.externalLinksUnique)
  {
    var zero := Counters(0, 0, 0, 0, 0, 0, 0, 0, 0);
    match restored
    case None => zero
    case Some(r) => zero.(pagesOk := r.pagesOk, internalLinksUnique := r.internalLinksUnique,
                          externalLinksUnique := r.externalLinksUnique)
  }

  lemma SeedStep(seeds: seq<string>, i: nat, normalize: string -> Option<string>)
    requires i < |seeds|
    ensures var n := normalize(seeds[i]);
      SeedUrls(seeds[i..], normalize)
      == (if n.Some? && n.value != "" then [n.value] else []) + SeedUrls(seeds[i + 1..], normalize)
  {
    assert seeds[i..][0] == seeds[i];
    assert seeds[i..][1..] == seeds[i + 1..];
  }

  class Crawler {
    const cfg: Config
    /** `same_reg_domain` against the configured domain, fixed at construction. */
    const inDomain: string -> bool
    const db: DB
    var stats: Counters
    /** `_unique_internal` and `_unique_external`. */
    var uniqueInternal: set<string>
    var uniqueExternal: set<string>
    /** Host to the end of its CAPTCHA quarantine. */
    var quarantine: map<string, real>
    var stopFlag: bool
    var pauseFlag: bool
    var inflightLimit: int
    /** The latency and error windows, at most 200 samples each. */
    var latWindow: seq<real>
    var errWindow: seq<real>
    var timings: seq<(string, real)>
    /** What `save_record` and `save_edge` wrote, in order. */
    var records: seq<CrawlRecord>
    var edges: seq<(string, string)>
    var lastCheckpoint: real

    /**
     * The store keeps its own invariant, the windows stay bounded, and each
     * unique-link set holds only links on its side of the domain test.
     */
    ghost predicate Valid()
      reads this`latWindow, this`errWindow, this`uniqueInternal, this`uniqueExternal, db
    {
      && db.Valid()
      && |latWindow| <= 200 && |errWindow| <= 200
      && (forall u :: u in uniqueInternal ==> inDomain(u))
      && (forall u :: u in uniqueExternal ==> !inDomain(u))
    }

    /** The crawler's changing fields and its store's tables, as one value. */
    ghost function View(): CrawlState
      reads this`stats, this`uniqueInternal, this`uniqueExternal, this`quarantine, this`stopFlag, this`pauseFlag
      reads this`inflightLimit, this`latWindow, this`errWindow, this`timings, this`records, this`edges
      reads this`lastCheckpoint, db`frontier, db`seen
    {
      CrawlState(stats, uniqueInternal, uniqueExternal, quarantine, stopFlag, pauseFlag, inflightLimit,
                 latWindow, errWindow, timings, records, edges, lastCheckpoint, db.frontier, db.seen)
    }

    /**
     * `__init__` over an open store, after `_load_checkpoint_if_exists`:
     * `rawDomain` is the configured `allowed_domain`, which becomes the
     * crawler's domain stripped and lower-cased; the other settings are
     * `config`'s. The source raises on an empty domain list.
     */
    constructor (config: Config, rawDomain: Parser.AllowedDomains, store: DB, restored: Option<Restored>)
      requires store.Valid() && rawDomain != Parser.DomainList([])
      ensures Valid()
      ensures cfg == WithDomain(config, rawDomain) && inDomain == InternalTest(cfg) && db == store
      ensures stats == InitialCounters(restored)
      ensures uniqueInternal == {} && uniqueExternal == {} && quarantine == map[]
      ensures !stopFlag && !pauseFlag && inflightLimit == config.adMin
      ensures latWindow == [] && errWindow == [] && timings == [] && records == [] && edges == []
      ensures lastCheckpoint == 0.0
    {
      var c := WithDomain(config, rawDomain);
      cfg := c;
      inDomain := InternalTest(c);
      db := store;
      stats := InitialCounters(restored);
      uniqueInternal := {};
      uniqueExternal := {};
      quarantine := map[];
      stopFlag := false;
      pauseFlag := false;
      inflightLimit := config.adMin;
      latWindow := [];
      errWindow := [];
      timings := [];
      records := [];
      edges := [];
      lastCheckpoint := 0.0;
    }

    /**
     * `seed`: skipped on a resume; otherwise every truthy normalised seed is
     * pushed at priority and depth 0 without a parent, and every refused push
     * counts as an ignored duplicate.
     */
    method Seed(seeds: seq<string>, normalize: string -> Option<string>)
      requires Valid()
      modifies db, this`stats
      ensures Valid()
      ensures ResumeDetected(old(stats.pagesOk), |old(db.frontier)|) ==>
        stats == old(stats) && db.frontier == old(db.frontier)
      ensures !ResumeDetected(old(stats.pagesOk), |old(db.frontier)|) ==>
        var (f, refused) := PushAll(old(db.frontier), SeedUrls(seeds, normalize), Entry(0, 0, None));
        db.frontier == f && stats == old(stats).(dupInsertIgnored := old(stats.dupInsertIgnored) + refused)
      ensures db.seen == old(db.seen)
      ensures unchanged(this`uniqueInternal, this`uniqueExternal, this`quarantine, this`stopFlag, this`pauseFlag)
      ensures unchanged(this`inflightLimit, this`latWindow, this`errWindow, this`timings, this`records, this`edges)
      ensures lastCheckpoint == old(lastCheckpoint)
    {
      var frontierLeft := db.FrontierSize();
      if stats.pagesOk > 0 || frontierLeft > 0 {
        return;
      }
      ghost var e := Entry(0, 0, None);
      ghost var target := PushAll(db.frontier, SeedUrls(seeds, normalize), e);
      ghost var refused0 := stats.dupInsertIgnored;
      var i := 0;
      while i < |seeds|
        invariant 0 <= i <= |seeds|
        invariant Valid()
        invariant var (f, refused) := PushAll(db.frontier, SeedUrls(seeds[i..], normalize), e);
          f == target.0 && stats.dupInsertIgnored + refused == refused0 + target.1
        invariant stats == old(stats).(dupInsertIgnored := stats.dupInsertIgnored)
        invariant db.seen == old(db.seen)
      {
        SeedStep(seeds, i, normalize);
        var n := normalize(seeds[i]);
        if n.Some? && n.value != "" {
          var inserted := db.PushUrl(n.value, 0, 0, None);
          if !inserted {
            stats := stats.(dupInsertIgnored := stats.dupInsertIgnored + 1);
          }
        }
        i := i + 1;
      }
    }

    /** `pause`. */
    method Pause()
      modifies this`pauseFlag
      ensures View() == old(View()).(pauseFlag := true)
    {
      pauseFlag := true;
    }

    /** `resume`. */
    method Resume()
      modifies this`pauseFlag
      ensures View() == old(View()).(pauseFlag := false)
    {
      pauseFlag := false;
    }

    /** `stop`: sets the stop flag and resumes, so that a paused loop can exit. */
    method Stop()
      modifies this`stopFlag, this`pauseFlag
      ensures View() == old(View()).(stopFlag := true, pauseFlag := false)
    {
      stopFlag := true;
      Resume();
    }

    /** The inputs the batch loop reads, as they are now. */
    ghost function EnvOf(active: nat, now: real, robotsAllowed: string -> bool): BatchEnv
      reads this`quarantine, this`inflightLimit, this`stopFlag, this`pauseFlag
    {
      BatchEnv(cfg, inDomain, quarantine, now, robotsAllowed, active, inflightLimit, stopFlag || pauseFlag)
    }

    /** The state the batch loop changes, as it is now. */
    ghost function BatchView(dispatched: seq<Task>, requeued: nat): BatchState
      reads this`stats, db`seen, db`frontier
    {
      BatchState(stats, db.seen, db.frontier, dispatched, requeued, [])
    }

    /**
     * One pass of the scheduling loop. `active` is the number of tasks in
     * flight, `now` the clock reading, `robotsAllowed` the robots verdict.
     * Returns how the pass ended, the popped batch, the tasks submitted and
     * the popped rows that a `break` left unprocessed.
     */
    method Cycle(active: nat, now: real, robotsAllowed: string -> bool)
      returns (outcome: CycleOutcome, batch: seq<Row>, dispatched: seq<Task>, lost: seq<Row>)
      requires Valid()
      modifies this, db
      ensures Valid()
      ensures IsCycleBatch(cfg, old(View()), active, batch)
      ensures var r := CycleStep(cfg, inDomain, old(View()), active, now, robotsAllowed, batch);
        outcome == r.outcome && View() == r.state && dispatched == r.dispatched && lost == r.dropped
    {
      batch, dispatched, lost := [], [], [];
      if stopFlag || stats.pagesOk >= cfg.maxPages {
        return Exited, batch, dispatched, lost;
      }
      if pauseFlag {
        return Waiting, batch, dispatched, lost;
      }
      outcome := Ran;
      Checkpoint(now);
      batch, dispatched, lost := ScheduleBatch(active, now, robotsAllowed);
      if cfg.adaptiveEnabled {
        MaybeAdapt();
      }
    }

    /** The periodic checkpoint: stamp the time and, when so configured, pause. */
    method Checkpoint(now: real)
      modifies this`lastCheckpoint, this`pauseFlag
      ensures View() == Checkpointed(cfg, old(View()), now)
    {
      if cfg.checkpointEnabled && now - lastCheckpoint >= cfg.checkpointInterval as real {
        lastCheckpoint := now;
        if cfg.pauseAtCheckpoint {
          pauseFlag := true;
        }
      }
    }

    /** The capacity of the pass, the pop of twice that many rows, and the loop over them. */
    method ScheduleBatch(active: nat, now: real, robotsAllowed: string -> bool)
      returns (batch: seq<Row>, dispatched: seq<Task>, lost: seq<Row>)
      requires Valid()
      modifies db, this`stats
      ensures Valid()
      ensures var cap := CapacityOf(cfg, old(View()), active);
        && (cap == 0 ==> batch == [])
        && (cap > 0 ==> IsPopOf(old(db.frontier), 2 * cap, batch, old(db.frontier) - UrlsOf(batch)))
      ensures var res := BatchFrom(EnvFrom(cfg, inDomain, old(View()), active, now, robotsAllowed), old(View()), batch);
        && View() == old(View()).(stats := res.stats, seen := res.seen, frontier := res.frontier)
        && dispatched == res.dispatched && lost == res.dropped
    {
      batch, dispatched, lost := [], [], [];
      var capacity := Capacity(inflightLimit, active, cfg.maxPages, stats.pagesOk);
      if capacity > 0 {
        batch := db.PopBatch(capacity * 2);
        dispatched, lost := RunRows(batch, active, now, robotsAllowed);
      } else {
        assert db.frontier - UrlsOf(batch) == db.frontier;
      }
    }

    /** The loop over a popped batch: the filter chain, re-queueing, and submission up to the in-flight limit. */
    method RunRows(batch: seq<Row>, active: nat, now: real, robotsAllowed: string -> bool)
      returns (dispatched: seq<Task>, lost: seq<Row>)
      requires Valid()
      modifies db, this`stats
      ensures Valid()
      ensures var res := RunBatch(EnvOf(active, now, robotsAllowed), batch, old(BatchView([], 0)));
        && stats == res.stats && db.seen == res.seen && db.frontier == res.frontier
        && dispatched == res.dispatched && lost == res.dropped
    {
      ghost var env := EnvOf(active, now, robotsAllowed);
      ghost var fin := RunBatch(env, batch, BatchView([], 0));
      ghost var requeued: nat := 0;
      dispatched, lost := [], [];
      var i := 0;
      while i < |batch|
        invariant 0 <= i <= |batch|
        invariant Valid()
        invariant RunBatch(env, batch[i..], BatchView(dispatched, requeued)) == fin
        invariant lost == []
      {
        assert batch[i..][0] == batch[i] && batch[i..][1..] == batch[i + 1..];
        var broke;
        broke, dispatched, requeued := VisitRow(batch[i], active, now, robotsAllowed, dispatched, requeued);
        if broke {
          lost := batch[i..];
          return;
        }
        i := i + 1;
      }
    }

    /** One row of the batch loop: whether it breaks the loop, and the state it leaves. */
    method VisitRow(r: Row, active: nat, now: real, robotsAllowed: string -> bool,
                    dispatched: seq<Task>, ghost requeued: nat)
      returns (broke: bool, dispatched': seq<Task>, ghost requeued': nat)
      requires Valid()
      modifies db, this`stats
      ensures Valid()
      ensures var env := EnvOf(active, now, robotsAllowed);
        var before := old(BatchView(dispatched, requeued));
        && (broke <==> Breaks(env, before, r))
        && (broke ==> BatchView(dispatched', requeued') == before)
        && (!broke ==> BatchView(dispatched', requeued') == RowStep(env, before, r))
    {
      dispatched', requeued' := dispatched, requeued;
      broke := false;
      if stopFlag || pauseFlag {
        return true, dispatched', requeued';
      }
      var seen := db.IsSeen(r.url);
      if seen || r.depth > cfg.maxDepth {
        stats := stats.(dupSeen := stats.dupSeen + 1);
      } else if !inDomain(r.url) {
        stats := stats.(dupSeen := stats.dupSeen + 1);
      } else if cfg.respectRobots && !robotsAllowed(r.url) {
        stats := stats.(robotsBlockedCount := stats.robotsBlockedCount + 1);
        var _ := db.MarkSeen(r.url);
      } else {
        var host := Url.Netloc(r.url);
        if host in quarantine && quarantine[host] != 0.0 && now < quarantine[host] {
          var _ := db.PushUrl(r.url, r.priority, r.depth, r.parent);
          requeued' := requeued + 1;
        } else if active + |dispatched| >= inflightLimit {
          broke := true;
        } else {
          dispatched' := dispatched + [Task(r.url, r.depth, r.parent)];
        }
      }
    }

    /** The guard at the start of `_fetch_and_process`: run only while pages remain and the crawler is not stopped. */
    method Admit() returns (go: bool)
      ensures go <==> stats.pagesOk < cfg.maxPages && !stopFlag
    {
      go := !(stats.pagesOk >= cfg.maxPages || stopFlag);
    }

    /** The link loop of a fetched page. */
    method ProcessLinks(page: string, depth: int, links: seq<string>)
      requires Valid()
      modifies db, this`stats, this`uniqueInternal, this`uniqueExternal, this`edges
      ensures Valid()
      ensures View() == WithLinks(old(View()), LinkFold(inDomain, page, depth, links, LinksOf(old(View()))))
    {
      ghost var s0 := View();
      ghost var fin := LinkFold(inDomain, page, depth, links, LinksOf(s0));
      var i := 0;
      while i < |links|
        invariant 0 <= i <= |links|
        invariant Valid()
        invariant View() == WithLinks(s0, LinksOf(View()))
        invariant LinkFold(inDomain, page, depth, links[i..], LinksOf(View())) == fin
      {
        assert links[i..][0] == links[i] && links[i..][1..] == links[i + 1..];
        VisitLink(page, depth, links[i]);
        i := i + 1;
      }
    }

    /** One discovered link: the unique-link sets and counters, the edge, and the push of an internal link. */
    method VisitLink(page: string, depth: int, u: string)
      requires Valid()
      modifies db, this`stats, this`uniqueInternal, this`uniqueExternal, this`edges
      ensures Valid()
      ensures View() == WithLinks(old(View()), LinkStep(inDomain, page, depth, LinksOf(old(View())), u))
    {
      ghost var s0 := View();
      NoteUnique(u);
      edges := edges + [(page, u)];
      ghost var s2 := View();
      assert s2 == WithLinks(s0, NoteLink(inDomain, LinksOf(s0), u).(edges := s0.edges + [(page, u)]));
      if inDomain(u) {
        QueueChild(page, depth, u);
      }
    }

    /** The unique-link set and counter of the link's side. */
    method NoteUnique(u: string)
      requires Valid()
      modifies this`stats, this`uniqueInternal, this`uniqueExternal
      ensures Valid()
      ensures View() == WithLinks(old(View()), NoteLink(inDomain, LinksOf(old(View())), u))
    {
      if inDomain(u) {
        NoteInternal(u);
      } else {
        NoteExternal(u);
      }
    }

    /** An internal link: a first sighting joins the set and resets the counter to its size. */
    method NoteInternal(u: string)
      requires Valid() && inDomain(u)
      modifies this`stats, this`uniqueInternal
      ensures Valid()
      ensures View() == WithLinks(old(View()), NoteLink(inDomain, LinksOf(old(View())), u))
    {
      if u !in uniqueInternal {
        ghost var s0 := View();
        uniqueInternal := uniqueInternal + {u};
        stats := stats.(internalLinksUnique := |uniqueInternal|);
        assert View() == s0.(uniqueInternal := uniqueInternal, stats := stats);
      }
    }

    /** An external link: a first sighting joins the set and resets the counter to its size. */
    method NoteExternal(u: string)
      requires Valid() && !inDomain(u)
      modifies this`stats, this`uniqueExternal
      ensures Valid()
      ensures View() == WithLinks(old(View()), NoteLink(inDomain, LinksOf(old(View())), u))
    {
      if u !in uniqueExternal {
        ghost var s0 := View();
        uniqueExternal := uniqueExternal + {u};
        stats := stats.(externalLinksUnique := |uniqueExternal|);
        assert View() == s0.(uniqueExternal := uniqueExternal, stats := stats);
      }
    }

    /** The push of an internal link, counting a refused insert as a duplicate. */
    method QueueChild(page: string, depth: int, u: string)
      requires Valid()
      modifies db, this`stats
      ensures Valid()
      ensures View() == WithLinks(old(View()), QueueLink(page, depth, LinksOf(old(View())), u))
    {
      var inserted := db.PushUrl(u, depth + 1, depth + 1, Some(page));
      if !inserted {
        stats := stats.(dupInsertIgnored := stats.dupInsertIgnored + 1);
      }
    }

    /**
     * `_fetch_and_process` after its guard, given what the fetch returned,
     * its elapsed time, the links `extract_links` finds in the page, and the
     * clock reading.
     */
    method Process(task: Task, fetched: Fetcher.FetchResult, elapsed: Option<real>, links: seq<string>, now: real)
      requires Valid()
      modifies this, db
      ensures Valid()
      ensures View() == ProcessStep(cfg, inDomain, old(View()), task, fetched, elapsed, links, now)
    {
      RecordSamples(task.url, fetched, elapsed);
      var rec := RecordOf(task, fetched, elapsed);
      match OutcomeOf(fetched)
      case CaptchaPage => OnCaptcha(task, rec, now);
      case FetchError => OnError(task, rec);
      case HtmlPage => OnPage(task, fetched.content, links, rec);
      case OtherAnswer => OnOther(task, fetched.status, rec);
    }

    /** The samples taken after every fetch: the timing and latency when there is one, then the error flag. */
    method RecordSamples(url: string, fetched: Fetcher.FetchResult, elapsed: Option<real>)
      requires Valid()
      modifies this`timings, this`latWindow, this`errWindow
      ensures Valid()
      ensures View() == Sampled(old(View()), url, fetched, elapsed)
    {
      if elapsed.Some? {
        SampleTiming(url, elapsed.value);
      }
      SampleError(fetched);
    }

    method SampleTiming(url: string, elapsed: real)
      requires Valid()
      modifies this`timings, this`latWindow
      ensures Valid()
      ensures View() == old(View()).(timings := old(timings) + [(url, elapsed)], latWindow := Window(old(latWindow), elapsed))
    {
      timings := timings + [(url, elapsed)];
      latWindow := Window(latWindow, elapsed);
    }

    method SampleError(fetched: Fetcher.FetchResult)
      requires Valid()
      modifies this`errWindow
      ensures Valid()
      ensures View() == old(View()).(errWindow := Window(old(errWindow), if HasError(fetched) then 1.0 else 0.0))
    {
      ghost var s0 := View();
      var sample := if HasError(fetched) then 1.0 else 0.0;
      var w := Window(errWindow, sample);
      assert |w| <= 200;
      errWindow := w;
      assert View() == s0.(errWindow := w);
    }

    /** A CAPTCHA: quarantine the host, re-queue the URL at priority `depth`, count an error; the URL is not marked seen. */
    method OnCaptcha(task: Task, rec: CrawlRecord, now: real)
      requires Valid()
      modifies db, this`quarantine, this`records, this`stats
      ensures Valid()
      ensures View() == CaptchaStep(cfg, old(View()), task, rec, now)
    {
      ghost var s0 := View();
      quarantine := quarantine[Url.Netloc(task.url) := now + cfg.captchaQuarantineSec as real];
      var _ := db.PushUrl(task.url, task.depth, task.depth, task.parent);
      assert db.frontier == Push(s0.frontier, task.url, Entry(task.depth, task.depth, task.parent)).0;
      records := records + [rec];
      stats := stats.(errorCount := stats.errorCount + 1);
      assert View() == CaptchaStep(cfg, s0, task, rec, now);
    }

    /** Any other fetch error: count it and mark the URL seen. */
    method OnError(task: Task, rec: CrawlRecord)
      requires Valid()
      modifies db, this`records, this`stats
      ensures Valid()
      ensures View() == ErrorStep(old(View()), task, rec)
    {
      records := records + [rec];
      stats := stats.(errorCount := stats.errorCount + 1);
      var _ := db.MarkSeen(task.url);
    }

    /** A 2xx HTML page: the page work, the record, and the URL marked seen. */
    method OnPage(task: Task, content: string, links: seq<string>, rec: CrawlRecord)
      requires Valid()
      modifies db, this`stats, this`uniqueInternal, this`uniqueExternal, this`edges, this`stopFlag, this`records
      ensures Valid()
      ensures View() == PageStep(cfg, inDomain, old(View()), task, content, links, rec)
    {
      ProcessPage(task, content, links);
      records := records + [rec];
      var _ := db.MarkSeen(task.url);
    }

    /** Anything else: a 2xx answer counts as non-HTML; the URL is marked seen. */
    method OnOther(task: Task, status: Option<int>, rec: CrawlRecord)
      requires Valid()
      modifies db, this`records, this`stats
      ensures Valid()
      ensures View() == OtherStep(old(View()), task, status, rec)
    {
      if Is2xx(status) {
        stats := stats.(nonHtmlCount := stats.nonHtmlCount + 1);
      }
      records := records + [rec];
      var _ := db.MarkSeen(task.url);
    }

    /** A 2xx HTML page: save it when configured, walk its links, then the guarded page count. */
    method ProcessPage(task: Task, content: string, links: seq<string>)
      requires Valid()
      modifies db, this`stats, this`uniqueInternal, this`uniqueExternal, this`edges, this`stopFlag
      ensures Valid()
      ensures View() == PageWork(cfg, inDomain, old(View()), task, content, links)
    {
      ghost var s0 := View();
      if cfg.storeHtml {
        stats := stats.(totalBytesSaved := stats.totalBytesSaved + SavedBytes(content));
      }
      ghost var s1 := View();
      assert LinksOf(s1) == LinksOf(s0);
      ProcessLinks(task.url, task.depth, links);
      assert View() == WithLinks(s0, LinkFold(inDomain, task.url, task.depth, links, LinksOf(s0))).(stats := stats, stopFlag := stopFlag);
      if stats.pagesOk < cfg.maxPages && !stopFlag {
        stats := stats.(pagesOk := stats.pagesOk + 1);
        if stats.pagesOk >= cfg.maxPages {
          stopFlag := true;
        }
      }
    }

    /** `_maybe_adapt`: the backlog is the current frontier size. */
    method MaybeAdapt()
      requires Valid()
      modifies this`inflightLimit
      ensures Valid()
      ensures View() == old(View()).(inflightLimit := AdaptedLimit(cfg, latWindow, errWindow, |db.frontier|, old(inflightLimit)))
    {
      ghost var s0 := View();
      if |latWindow| < 10 {
        return;
      }
      var avgLat := Mean(latWindow);
      var errRate := if errWindow != [] then Mean(errWindow) else 0.0;
      var q := db.FrontierSize();
      var limit := inflightLimit;
      if avgLat < cfg.adLow && errRate < cfg.adErrHigh / 2.0 && q > limit {
        limit := Min(cfg.adMax, limit + cfg.adStep);
      }
      if avgLat > cfg.adHigh || errRate > cfg.adErrHigh {
        limit := Max(cfg.adMin, limit - cfg.adStep);
      }
      assert limit == AdaptedLimit(cfg, latWindow, errWindow, q, inflightLimit);
      inflightLimit := limit;
      assert View() == s0.(inflightLimit := limit);
    }
  }
}
