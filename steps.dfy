/**
 * The state of `Crawler` in `frontier.py` as one value, and each atomic step
 * the crawler takes as a function on it: the processing of a fetched URL in
 * `_fetch_and_process` (its samples and its four outcome paths) and one pass
 * of the scheduling loop of `run`. The class in module Crawl is proved to
 * perform exactly these steps; the lemmas here state what the steps promise.
 */
module Steps {
  import opened Wrappers
  import opened FrontierStore
  import opened Schedule
  import Fetcher
  import Url

  /** The crawler's fields that change, with the two tables of its store. */
  datatype CrawlState = CrawlState(
    stats: Counters,
    uniqueInternal: set<string>, uniqueExternal: set<string>,
    quarantine: map<string, real>,
    stopFlag: bool, pauseFlag: bool, inflightLimit: int,
    latWindow: seq<real>, errWindow: seq<real>, timings: seq<(string, real)>,
    records: seq<CrawlRecord>, edges: seq<(string, string)>,
    lastCheckpoint: real,
    frontier: map<string, Entry>, seen: set<string>)

  /** The part of the state the link loop works on. */
  function LinksOf(s: CrawlState): LinkState
  {
    LinkState(s.uniqueInternal, s.uniqueExternal, s.stats.internalLinksUnique, s.stats.externalLinksUnique,
              s.frontier, s.stats.dupInsertIgnored, s.edges)
  }

  /** The state with the link loop's part replaced. */
  function WithLinks(s: CrawlState, ls: LinkState): CrawlState
  {
    s.(uniqueInternal := ls.internal, uniqueExternal := ls.external, frontier := ls.frontier, edges := ls.edges,
       stats := s.stats.(internalLinksUnique := ls.internalCount, externalLinksUnique := ls.externalCount,
                         dupInsertIgnored := ls.dupInsertIgnored))
  }

  // ---------- Processing a fetched URL ----------

  /** The samples taken after every fetch: the timing and latency when there is one, and the error flag. */
  function Sampled(s: CrawlState, url: string, fetched: Fetcher.FetchResult, elapsed: Option<real>): CrawlState
  {
    var s1 :=
      if elapsed.Some? then s.(timings := s.timings + [(url, elapsed.value)], latWindow := Window(s.latWindow, elapsed.value))
      else s;
    s1.(errWindow := Window(s1.errWindow, if HasError(fetched) then 1.0 else 0.0))
  }

  /** A CAPTCHA: quarantine the host, re-push the URL at priority `depth`, save the record, count an error. */
  function CaptchaStep(cfg: Config, s: CrawlState, t: Task, rec: CrawlRecord, now: real): CrawlState
  {
    s.(quarantine := s.quarantine[Url.Netloc(t.url) := now + cfg.captchaQuarantineSec as real],
       frontier := Push(s.frontier, t.url, Entry(t.depth, t.depth, t.parent)).0,
       records := s.records + [rec],
       stats := s.stats.(errorCount := s.stats.errorCount + 1))
  }

  /** Any other error: save the record, count the error, mark the URL seen. */
  function ErrorStep(s: CrawlState, t: Task, rec: CrawlRecord): CrawlState
  {
    s.(records := s.records + [rec], stats := s.stats.(errorCount := s.stats.errorCount + 1), seen := s.seen + {t.url})
  }

  /** The work on a 2xx HTML page: the saved bytes, the link loop, then the guarded page count. */
  function PageWork(cfg: Config, isInternal: string -> bool, s: CrawlState, t: Task, content: string, links: seq<string>)
    : CrawlState
  {
    var saved := if cfg.storeHtml then SavedBytes(content) else 0;
    var s1 := WithLinks(s, LinkFold(isInternal, t.url, t.depth, links, LinksOf(s)));
    var (pages, stop) := CountPage(s.stats.pagesOk, cfg.maxPages, s.stopFlag);
    s1.(stats := s1.stats.(pagesOk := pages, totalBytesSaved := s.stats.totalBytesSaved + saved), stopFlag := stop)
  }

  /** A 2xx HTML page: the page work, then the record, then the URL marked seen. */
  function PageStep(cfg: Config, isInternal: string -> bool, s: CrawlState, t: Task, content: string,
                    links: seq<string>, rec: CrawlRecord): CrawlState
  {
    var s1 := PageWork(cfg, isInternal, s, t, content, links);
    s1.(records := s1.records + [rec], seen := s1.seen + {t.url})
  }

  /** Anything else: a 2xx answer counts as non-HTML; the record is saved and the URL marked seen. */
  function OtherStep(s: CrawlState, t: Task, status: Option<int>, rec: CrawlRecord): CrawlState
  {
    s.(stats := s.stats.(nonHtmlCount := s.stats.nonHtmlCount + if Is2xx(status) then 1 else 0),
       records := s.records + [rec], seen := s.seen + {t.url})
  }

  /** `_fetch_and_process` after its entry guard, on what the fetch returned and the links found in the page. */
  function ProcessStep(cfg: Config, isInternal: string -> bool, s: CrawlState, t: Task, fetched: Fetcher.FetchResult,
                       elapsed: Option<real>, links: seq<string>, now: real): CrawlState
  {
    var s1 := Sampled(s, t.url, fetched, elapsed);
    var rec := RecordOf(t, fetched, elapsed);
    match OutcomeOf(fetched)
    case CaptchaPage => CaptchaStep(cfg, s1, t, rec, now)
    case FetchError => ErrorStep(s1, t, rec)
    case HtmlPage => PageStep(cfg, isInternal, s1, t, fetched.content, links, rec)
    case OtherAnswer => OtherStep(s1, t, fetched.status, rec)
  }

  /** The samples of a fetch: one error sample and, when timed, one timing and one latency; the windows stay within 200. */
  lemma SampledWindows(s: CrawlState, url: string, fetched: Fetcher.FetchResult, elapsed: Option<real>)
    requires |s.latWindow| <= 200 && |s.errWindow| <= 200
    ensures var s1 := Sampled(s, url, fetched, elapsed);
      && |s1.latWindow| <= 200 && 0 < |s1.errWindow| <= 200
      && s1.errWindow[|s1.errWindow| - 1] == (if HasError(fetched) then 1.0 else 0.0)
      && (elapsed.Some? ==> s1.latWindow[|s1.latWindow| - 1] == elapsed.value
                            && s1.timings == s.timings + [(url, elapsed.value)])
      && (elapsed.None? ==> s1.latWindow == s.latWindow && s1.timings == s.timings)
  {
    if elapsed.Some? {
      WindowKeepsLatest(s.latWindow, elapsed.value);
    }
    WindowKeepsLatest(s.errWindow, if HasError(fetched) then 1.0 else 0.0);
  }

  /** Processing a URL changes the samples exactly as `Sampled` does, whatever the outcome. */
  lemma ProcessSamples(cfg: Config, isInternal: string -> bool, s: CrawlState, t: Task, fetched: Fetcher.FetchResult,
                       elapsed: Option<real>, links: seq<string>, now: real)
    ensures var s' := ProcessStep(cfg, isInternal, s, t, fetched, elapsed, links, now);
      var s1 := Sampled(s, t.url, fetched, elapsed);
      (s'.latWindow, s'.errWindow, s'.timings) == (s1.latWindow, s1.errWindow, s1.timings)
  {
  }

  /** Every processed URL leaves exactly one record, its own. */
  lemma ProcessRecords(cfg: Config, isInternal: string -> bool, s: CrawlState, t: Task, fetched: Fetcher.FetchResult,
                       elapsed: Option<real>, links: seq<string>, now: real)
    ensures ProcessStep(cfg, isInternal, s, t, fetched, elapsed, links, now).records
            == s.records + [RecordOf(t, fetched, elapsed)]
  {
  }

  /** An error is counted exactly when the fetch reported one, a CAPTCHA included. */
  lemma ProcessErrorCount(cfg: Config, isInternal: string -> bool, s: CrawlState, t: Task, fetched: Fetcher.FetchResult,
                          elapsed: Option<real>, links: seq<string>, now: real)
    ensures ProcessStep(cfg, isInternal, s, t, fetched, elapsed, links, now).stats.errorCount
            == s.stats.errorCount + (if HasError(fetched) then 1 else 0)
  {
  }

  /** A 2xx answer without error that is not an HTML page counts as non-HTML; nothing else does. */
  lemma ProcessNonHtmlCount(cfg: Config, isInternal: string -> bool, s: CrawlState, t: Task, fetched: Fetcher.FetchResult,
                            elapsed: Option<real>, links: seq<string>, now: real)
    ensures ProcessStep(cfg, isInternal, s, t, fetched, elapsed, links, now).stats.nonHtmlCount
            == s.stats.nonHtmlCount + (if !HasError(fetched) && !OkHtml(fetched) && Is2xx(fetched.status) then 1 else 0)
  {
  }

  /** A page is counted only on the HTML path, and only while the budget lasts and the crawler is not stopped. */
  lemma ProcessPageCount(cfg: Config, isInternal: string -> bool, s: CrawlState, t: Task, fetched: Fetcher.FetchResult,
                         elapsed: Option<real>, links: seq<string>, now: real)
    ensures ProcessStep(cfg, isInternal, s, t, fetched, elapsed, links, now).stats.pagesOk
            == s.stats.pagesOk + (if !HasError(fetched) && OkHtml(fetched) && s.stats.pagesOk < cfg.maxPages && !s.stopFlag then 1 else 0)
  {
  }

  /** The stop flag is never cleared, and only the HTML path can set it. */
  lemma ProcessStopFlag(cfg: Config, isInternal: string -> bool, s: CrawlState, t: Task, fetched: Fetcher.FetchResult,
                        elapsed: Option<real>, links: seq<string>, now: real)
    ensures var s' := ProcessStep(cfg, isInternal, s, t, fetched, elapsed, links, now);
      OutcomeOf(fetched) == HtmlPage ==> s'.stopFlag == CountPage(s.stats.pagesOk, cfg.maxPages, s.stopFlag).1
    ensures var s' := ProcessStep(cfg, isInternal, s, t, fetched, elapsed, links, now);
      OutcomeOf(fetched) != HtmlPage ==> s'.stopFlag == s.stopFlag
  {
  }

  /**
   * The page budget holds across a processed URL: at most one page is
   * counted and never past the budget, reaching the budget sets the stop
   * flag, and the stop flag is never cleared.
   */
  lemma ProcessBudget(cfg: Config, isInternal: string -> bool, s: CrawlState, t: Task, fetched: Fetcher.FetchResult,
                      elapsed: Option<real>, links: seq<string>, now: real)
    requires s.stats.pagesOk <= cfg.maxPages
    ensures var s' := ProcessStep(cfg, isInternal, s, t, fetched, elapsed, links, now);
      && s.stats.pagesOk <= s'.stats.pagesOk <= cfg.maxPages
      && (s.stopFlag ==> s'.stopFlag)
      && (s'.stats.pagesOk > s.stats.pagesOk && s'.stats.pagesOk == cfg.maxPages ==> s'.stopFlag)
  {
    ProcessPageCount(cfg, isInternal, s, t, fetched, elapsed, links, now);
    ProcessStopFlag(cfg, isInternal, s, t, fetched, elapsed, links, now);
  }

  /** Only a CAPTCHA leaves the URL unseen; every other outcome marks it seen, and no other URL enters the seen set. */
  lemma ProcessSeen(cfg: Config, isInternal: string -> bool, s: CrawlState, t: Task, fetched: Fetcher.FetchResult,
                    elapsed: Option<real>, links: seq<string>, now: real)
    ensures var s' := ProcessStep(cfg, isInternal, s, t, fetched, elapsed, links, now);
      OutcomeOf(fetched) == CaptchaPage ==> s'.seen == s.seen
    ensures var s' := ProcessStep(cfg, isInternal, s, t, fetched, elapsed, links, now);
      OutcomeOf(fetched) != CaptchaPage ==> s'.seen == s.seen + {t.url}
  {
  }

  /** A CAPTCHA outcome runs the CAPTCHA branch on the sampled state. */
  lemma CaptchaProcessStep(cfg: Config, isInternal: string -> bool, s: CrawlState, t: Task, fetched: Fetcher.FetchResult,
                           elapsed: Option<real>, links: seq<string>, now: real)
    requires OutcomeOf(fetched) == CaptchaPage
    ensures ProcessStep(cfg, isInternal, s, t, fetched, elapsed, links, now)
         == CaptchaStep(cfg, Sampled(s, t.url, fetched, elapsed), t, RecordOf(t, fetched, elapsed), now)
  {
  }

  /** Sampling leaves the quarantine alone. */
  lemma SampledQuarantine(s: CrawlState, url: string, fetched: Fetcher.FetchResult, elapsed: Option<real>)
    ensures Sampled(s, url, fetched, elapsed).quarantine == s.quarantine
  {
  }

  /** The CAPTCHA branch sets the host's quarantine deadline. */
  lemma CaptchaQuarantine(cfg: Config, s: CrawlState, t: Task, rec: CrawlRecord, now: real)
    ensures CaptchaStep(cfg, s, t, rec, now).quarantine == s.quarantine[Url.Netloc(t.url) := now + cfg.captchaQuarantineSec as real]
  {
  }

  /**
   * A CAPTCHA quarantines the URL's host until the clock reading plus the
   * quarantine time.
   */
  lemma ProcessQuarantine(cfg: Config, isInternal: string -> bool, s: CrawlState, t: Task, fetched: Fetcher.FetchResult,
                          elapsed: Option<real>, links: seq<string>, now: real)
    requires OutcomeOf(fetched) == CaptchaPage
    ensures ProcessStep(cfg, isInternal, s, t, fetched, elapsed, links, now).quarantine
         == s.quarantine[Url.Netloc(t.url) := now + cfg.captchaQuarantineSec as real]
  {
    CaptchaProcessStep(cfg, isInternal, s, t, fetched, elapsed, links, now);
    SampledQuarantine(s, t.url, fetched, elapsed);
    CaptchaQuarantine(cfg, Sampled(s, t.url, fetched, elapsed), t, RecordOf(t, fetched, elapsed), now);
  }

  /** No outcome other than a CAPTCHA touches the quarantine. */
  lemma ProcessQuarantineOnlyOnCaptcha(cfg: Config, isInternal: string -> bool, s: CrawlState, t: Task,
                                       fetched: Fetcher.FetchResult, elapsed: Option<real>, links: seq<string>, now: real)
    requires OutcomeOf(fetched) != CaptchaPage
    ensures ProcessStep(cfg, isInternal, s, t, fetched, elapsed, links, now).quarantine == s.quarantine
  {
  }

  /** A CAPTCHA puts the URL back in the frontier, under priority and depth `depth` unless it is already queued. */
  lemma ProcessRequeue(cfg: Config, isInternal: string -> bool, s: CrawlState, t: Task, fetched: Fetcher.FetchResult,
                       elapsed: Option<real>, links: seq<string>, now: real)
    requires OutcomeOf(fetched) == CaptchaPage && Admissible(t.url)
    ensures var s' := ProcessStep(cfg, isInternal, s, t, fetched, elapsed, links, now);
      && t.url in s'.frontier
      && s'.frontier[t.url] == (if t.url in s.frontier then s.frontier[t.url] else Entry(t.depth, t.depth, t.parent))
  {
  }

  /** Every internal link, in order, is a link that passes the domain test. */
  lemma {:induction false} InternalLinksSound(isInternal: string -> bool, links: seq<string>)
    ensures forall u :: u in InternalLinks(isInternal, links) ==> u in links && isInternal(u)
    decreases |links|
  {
    if links != [] {
      InternalLinksSound(isInternal, links[1..]);
      InternalLinksCons(isInternal, links);
    }
  }

  /**
   * What the page work does to the frontier: existing entries are kept, and
   * only admissible internal links of the page enter, each as its child.
   */
  lemma PageWorkFrontier(cfg: Config, isInternal: string -> bool, s: CrawlState, t: Task, content: string, links: seq<string>)
    ensures var f := PageWork(cfg, isInternal, s, t, content, links).frontier;
      && s.frontier.Keys <= f.Keys
      && (forall u :: u in s.frontier ==> f[u] == s.frontier[u])
      && forall u :: u in f && u !in s.frontier ==>
           u in links && isInternal(u) && f[u] == ChildEntry(t.url, t.depth)
  {
    LinkFoldFrontier(isInternal, t.url, t.depth, links, LinksOf(s));
    PushAllContents(s.frontier, InternalLinks(isInternal, links), ChildEntry(t.url, t.depth));
    InternalLinksSound(isInternal, links);
  }

  /**
   * What processing does to the frontier: a CAPTCHA pushes the URL back, an
   * HTML page pushes its internal links in order as its children, and the
   * other outcomes leave it alone.
   */
  lemma ProcessFrontier(cfg: Config, isInternal: string -> bool, s: CrawlState, t: Task, fetched: Fetcher.FetchResult,
                        elapsed: Option<real>, links: seq<string>, now: real)
    ensures var s' := ProcessStep(cfg, isInternal, s, t, fetched, elapsed, links, now);
      OutcomeOf(fetched) == CaptchaPage ==> s'.frontier == Push(s.frontier, t.url, Entry(t.depth, t.depth, t.parent)).0
    ensures var s' := ProcessStep(cfg, isInternal, s, t, fetched, elapsed, links, now);
      OutcomeOf(fetched) == HtmlPage ==>
        s'.frontier == PushAll(s.frontier, InternalLinks(isInternal, links), ChildEntry(t.url, t.depth)).0
    ensures var s' := ProcessStep(cfg, isInternal, s, t, fetched, elapsed, links, now);
      OutcomeOf(fetched) == FetchError || OutcomeOf(fetched) == OtherAnswer ==> s'.frontier == s.frontier
  {
    LinkFoldFrontier(isInternal, t.url, t.depth, links, LinksOf(s));
  }

  /**
   * The page work on the unique-link sets: each link joins the set its domain
   * test picks, and a counter becomes its set's size once the set grew.
   */
  lemma PageWorkLinks(cfg: Config, isInternal: string -> bool, s: CrawlState, t: Task, content: string, links: seq<string>)
    ensures var s' := PageWork(cfg, isInternal, s, t, content, links);
      && s'.uniqueInternal == s.uniqueInternal + LinkSet(isInternal, links, true)
      && s'.uniqueExternal == s.uniqueExternal + LinkSet(isInternal, links, false)
      && s'.stats.internalLinksUnique
         == (if s'.uniqueInternal == s.uniqueInternal then s.stats.internalLinksUnique else |s'.uniqueInternal|)
      && s'.stats.externalLinksUnique
         == (if s'.uniqueExternal == s.uniqueExternal then s.stats.externalLinksUnique else |s'.uniqueExternal|)
  {
    LinkFoldSets(isInternal, t.url, t.depth, links, LinksOf(s));
    LinkFoldCounts(isInternal, t.url, t.depth, links, LinksOf(s));
  }

  /** Only an HTML page touches the unique-link sets, their counters and the edges. */
  lemma ProcessLinksOnlyOnPages(cfg: Config, isInternal: string -> bool, s: CrawlState, t: Task, fetched: Fetcher.FetchResult,
                                elapsed: Option<real>, links: seq<string>, now: real)
    requires OutcomeOf(fetched) != HtmlPage
    ensures var s' := ProcessStep(cfg, isInternal, s, t, fetched, elapsed, links, now);
      LinksOf(s').(frontier := s.frontier) == LinksOf(s)
  {
  }

  /** The unique-link sets stay on their sides of the domain test. */
  lemma ProcessLinkSides(cfg: Config, isInternal: string -> bool, s: CrawlState, t: Task, fetched: Fetcher.FetchResult,
                         elapsed: Option<real>, links: seq<string>, now: real)
    requires forall u :: u in s.uniqueInternal ==> isInternal(u)
    requires forall u :: u in s.uniqueExternal ==> !isInternal(u)
    ensures var s' := ProcessStep(cfg, isInternal, s, t, fetched, elapsed, links, now);
      (forall u :: u in s'.uniqueInternal ==> isInternal(u)) && (forall u :: u in s'.uniqueExternal ==> !isInternal(u))
  {
    var s1 := Sampled(s, t.url, fetched, elapsed);
    if OutcomeOf(fetched) == HtmlPage {
      PageWorkLinks(cfg, isInternal, s1, t, fetched.content, links);
    } else {
      ProcessLinksOnlyOnPages(cfg, isInternal, s, t, fetched, elapsed, links, now);
    }
  }

  // ---------- One pass of the scheduling loop ----------

  /** How a pass of the scheduling loop ends. */
  datatype CycleOutcome =
    | Exited   // the loop condition failed
    | Waiting  // the crawler is paused: the pass sits in the pause wait
    | Ran      // the pass ran its checkpoint, batch and adaptive steps

  /** The loop condition, then the pause wait. */
  function CycleOutcomeOf(cfg: Config, s: CrawlState): CycleOutcome
  {
    if s.stopFlag || s.stats.pagesOk >= cfg.maxPages then Exited
    else if s.pauseFlag then Waiting
    else Ran
  }

  /** `now - self._last_checkpoint >= self.checkpoint_interval` with checkpoints enabled. */
  predicate CheckpointDue(cfg: Config, last: real, now: real)
  {
    cfg.checkpointEnabled && now - last >= cfg.checkpointInterval as real
  }

  /** The periodic checkpoint: stamp the time and, when so configured, pause. */
  function Checkpointed(cfg: Config, s: CrawlState, now: real): CrawlState
  {
    if CheckpointDue(cfg, s.lastCheckpoint, now) then
      s.(lastCheckpoint := now, pauseFlag := s.pauseFlag || cfg.pauseAtCheckpoint)
    else s
  }

  /** The inputs of the batch loop in state `s`; `active` tasks are in flight. */
  function EnvFrom(cfg: Config, isInternal: string -> bool, s: CrawlState, active: nat, now: real,
                   robotsAllowed: string -> bool): BatchEnv
  {
    BatchEnv(cfg, isInternal, s.quarantine, now, robotsAllowed, active, s.inflightLimit, s.stopFlag || s.pauseFlag)
  }

  /** The batch loop over rows popped from the frontier of `s`. */
  function BatchFrom(env: BatchEnv, s: CrawlState, batch: seq<Row>): BatchState
  {
    RunBatch(env, batch, BatchState(s.stats, s.seen, s.frontier - UrlsOf(batch), [], 0, []))
  }

  /** The capacity of a pass in state `s`. */
  function CapacityOf(cfg: Config, s: CrawlState, active: nat): nat
  {
    Capacity(s.inflightLimit, active, cfg.maxPages, s.stats.pagesOk)
  }

  /**
   * The rows `pop_batch` may return to a pass: none unless the pass runs with
   * a positive capacity, else a pop of twice the capacity.
   */
  ghost predicate IsCycleBatch(cfg: Config, s: CrawlState, active: nat, batch: seq<Row>)
  {
    if CycleOutcomeOf(cfg, s) != Ran || CapacityOf(cfg, s, active) == 0 then batch == []
    else IsPopOf(s.frontier, 2 * CapacityOf(cfg, s, active), batch, s.frontier - UrlsOf(batch))
  }

  /** A pass: how it ended, the new state, the tasks submitted, the rows re-pushed and the rows a `break` dropped. */
  datatype CycleResult = CycleResult(outcome: CycleOutcome, state: CrawlState, dispatched: seq<Task>,
                                     requeued: nat, dropped: seq<Row>)

  /** One pass of the scheduling loop over the rows `batch` popped from the frontier. */
  function CycleStep(cfg: Config, isInternal: string -> bool, s: CrawlState, active: nat, now: real,
                     robotsAllowed: string -> bool, batch: seq<Row>): CycleResult
  {
    var outcome := CycleOutcomeOf(cfg, s);
    if outcome != Ran then CycleResult(outcome, s, [], 0, [])
    else
      var c := Checkpointed(cfg, s, now);
      var res := BatchFrom(EnvFrom(cfg, isInternal, c, active, now, robotsAllowed), c, batch);
      var b := c.(stats := res.stats, seen := res.seen, frontier := res.frontier);
      var limit :=
        if cfg.adaptiveEnabled then AdaptedLimit(cfg, b.latWindow, b.errWindow, |b.frontier|, b.inflightLimit)
        else b.inflightLimit;
      CycleResult(Ran, b.(inflightLimit := limit), res.dispatched, res.requeued, res.dropped)
  }

  /** A pass that does not run changes nothing; one that runs clears no flag and sets the pause flag exactly at a pausing checkpoint. */
  lemma CycleFlags(cfg: Config, isInternal: string -> bool, s: CrawlState, active: nat, now: real,
                   robotsAllowed: string -> bool, batch: seq<Row>)
    ensures var r := CycleStep(cfg, isInternal, s, active, now, robotsAllowed, batch);
      && (r.outcome == Exited <==> s.stopFlag || s.stats.pagesOk >= cfg.maxPages)
      && (r.outcome == Waiting <==> !s.stopFlag && s.stats.pagesOk < cfg.maxPages && s.pauseFlag)
      && (r.outcome != Ran ==> r.state == s && r.dispatched == [] && r.dropped == [])
      && (r.outcome == Ran ==>
            && !r.state.stopFlag
            && (r.state.pauseFlag <==> CheckpointDue(cfg, s.lastCheckpoint, now) && cfg.pauseAtCheckpoint)
            && r.state.lastCheckpoint == (if CheckpointDue(cfg, s.lastCheckpoint, now) then now else s.lastCheckpoint))
  {
  }

  /**
   * Every popped row is accounted for exactly once, as a duplicate, a
   * robots block, a re-push, a dispatch or a dropped row; no other counter
   * changes, and the samples and link bookkeeping are untouched.
   */
  lemma CycleAccounting(cfg: Config, isInternal: string -> bool, s: CrawlState, active: nat, now: real,
                        robotsAllowed: string -> bool, batch: seq<Row>)
    requires CycleOutcomeOf(cfg, s) == Ran
    ensures var r := CycleStep(cfg, isInternal, s, active, now, robotsAllowed, batch);
      && (r.state.stats.dupSeen - s.stats.dupSeen) + (r.state.stats.robotsBlockedCount - s.stats.robotsBlockedCount)
         + r.requeued + |r.dispatched| + |r.dropped| == |batch|
      && r.state.stats.(dupSeen := s.stats.dupSeen, robotsBlockedCount := s.stats.robotsBlockedCount) == s.stats
      && LinksOf(r.state).(frontier := s.frontier) == LinksOf(s)
      && r.state.latWindow == s.latWindow && r.state.errWindow == s.errWindow && r.state.records == s.records
  {
    var c := Checkpointed(cfg, s, now);
    var env := EnvFrom(cfg, isInternal, c, active, now, robotsAllowed);
    BatchAccounting(env, batch, BatchState(c.stats, c.seen, c.frontier - UrlsOf(batch), [], 0, []));
  }

  /**
   * The in-flight limit holds: the tasks a pass submits, added to those in
   * flight, never exceed the limit the pass started with. Each submitted task
   * is a popped row that passed the whole filter chain, and the seen set only grows.
   */
  lemma CycleDispatch(cfg: Config, isInternal: string -> bool, s: CrawlState, active: nat, now: real,
                      robotsAllowed: string -> bool, batch: seq<Row>)
    requires CycleOutcomeOf(cfg, s) == Ran
    ensures var r := CycleStep(cfg, isInternal, s, active, now, robotsAllowed, batch);
      var env := EnvFrom(cfg, isInternal, Checkpointed(cfg, s, now), active, now, robotsAllowed);
      && (r.dispatched == [] || active + |r.dispatched| <= s.inflightLimit)
      && s.seen <= r.state.seen
      && forall i :: 0 <= i < |r.dispatched| ==>
           Admitted(env, s.seen, r.dispatched[i])
           && exists row :: row in batch && r.dispatched[i] == Task(row.url, row.depth, row.parent)
  {
    var c := Checkpointed(cfg, s, now);
    var env := EnvFrom(cfg, isInternal, c, active, now, robotsAllowed);
    var st := BatchState(c.stats, c.seen, c.frontier - UrlsOf(batch), [], 0, []);
    BatchNeverOverfills(env, batch, st);
    DispatchedAreAdmitted(env, batch, st);
  }

  /**
   * What a pass leaves in the frontier: the popped rows are gone, except
   * those re-pushed under their own entries; the rows not popped are untouched.
   */
  lemma CycleFrontier(cfg: Config, isInternal: string -> bool, s: CrawlState, active: nat, now: real,
                      robotsAllowed: string -> bool, batch: seq<Row>)
    requires CycleOutcomeOf(cfg, s) == Ran
    ensures var r := CycleStep(cfg, isInternal, s, active, now, robotsAllowed, batch);
      var rest := s.frontier - UrlsOf(batch);
      && rest.Keys <= r.state.frontier.Keys
      && (forall u :: u in rest ==> r.state.frontier[u] == s.frontier[u])
      && forall u :: u in r.state.frontier && u !in rest ==>
           exists row :: row in batch && row.url == u && r.state.frontier[u] == EntryOf(row)
  {
    var c := Checkpointed(cfg, s, now);
    var env := EnvFrom(cfg, isInternal, c, active, now, robotsAllowed);
    RequeueRestoresEntries(env, batch, BatchState(c.stats, c.seen, c.frontier - UrlsOf(batch), [], 0, []));
  }

  /**
   * A checkpoint that pauses halts the batch loop at its first row: every
   * popped row is dropped, neither dispatched nor put back, so it leaves the
   * frontier without being crawled or marked seen.
   */
  lemma PausingCheckpointDropsBatch(cfg: Config, isInternal: string -> bool, s: CrawlState, active: nat, now: real,
                                    robotsAllowed: string -> bool, batch: seq<Row>)
    requires CycleOutcomeOf(cfg, s) == Ran && CheckpointDue(cfg, s.lastCheckpoint, now) && cfg.pauseAtCheckpoint
    ensures var r := CycleStep(cfg, isInternal, s, active, now, robotsAllowed, batch);
      && r.dispatched == [] && r.dropped == batch && r.requeued == 0
      && r.state.frontier == s.frontier - UrlsOf(batch) && r.state.seen == s.seen && r.state.pauseFlag
  {
    var c := Checkpointed(cfg, s, now);
    var env := EnvFrom(cfg, isInternal, c, active, now, robotsAllowed);
    HaltedDropsBatch(env, batch, BatchState(c.stats, c.seen, c.frontier - UrlsOf(batch), [], 0, []));
  }

  /** With a non-negative step, a pass keeps an in-flight limit inside `[ad_min, ad_max]` there. */
  lemma CycleLimitBounds(cfg: Config, isInternal: string -> bool, s: CrawlState, active: nat, now: real,
                         robotsAllowed: string -> bool, batch: seq<Row>)
    requires cfg.adStep >= 0 && cfg.adMin <= s.inflightLimit <= cfg.adMax
    ensures var r := CycleStep(cfg, isInternal, s, active, now, robotsAllowed, batch);
      cfg.adMin <= r.state.inflightLimit <= cfg.adMax
  {
    var r := CycleStep(cfg, isInternal, s, active, now, robotsAllowed, batch);
    if r.outcome == Ran && cfg.adaptiveEnabled {
      var c := Checkpointed(cfg, s, now);
      var res := BatchFrom(EnvFrom(cfg, isInternal, c, active, now, robotsAllowed), c, batch);
      AdaptKeepsBounds(cfg, s.latWindow, s.errWindow, |res.frontier|, s.inflightLimit);
    }
  }
}
