/**
 * The decisions of `Crawler` in `frontier.py`, as functions of the state they
 * read: the capacity of a scheduling cycle, the filter chain over a popped
 * batch, the bookkeeping of a fetched page's links, the guarded page counter,
 * the bounded sample windows and the adaptive in-flight limit. The class in
 * module Crawl performs these steps on its fields and is proved against them.
 */
module Schedule {
  import opened Wrappers
  import opened Text
  import opened FrontierStore
  import Parser
  import Url
  import Fetcher

  /** The configuration the crawler reads once, at construction; latency thresholds in seconds. */
  datatype Config = Config(
    allowedDomain: string, maxPages: int, maxDepth: int,
    respectRobots: bool, followSubdomains: bool, storeHtml: bool,
    captchaQuarantineSec: int,
    adaptiveEnabled: bool, adMin: int, adMax: int, adStep: int,
    adLow: real, adHigh: real, adErrHigh: real,
    checkpointEnabled: bool, checkpointInterval: int, pauseAtCheckpoint: bool)

  /**
   * `allowed_domain` from the configured value: the first element of a list,
   * stripped and lower-cased. None where the source raises, on an empty list.
   */
  function ConfiguredDomain(raw: Parser.AllowedDomains): (r: Option<string>)
    ensures r.Some? ==> NoUpper(r.value)
    ensures r.None? <==> raw == Parser.DomainList([])
  {
    match raw
    case OneDomain(s) => LowerHasNoUpper(Strip(s)); Some(Lower(Strip(s)))
    case DomainList(ds) => if ds == [] then None else LowerHasNoUpper(Strip(ds[0])); Some(Lower(Strip(ds[0])))
  }

  /** The settings with `allowed_domain` taken from its configured value. */
  function WithDomain(config: Config, raw: Parser.AllowedDomains): (c: Config)
    requires raw != Parser.DomainList([])
    ensures Some(c.allowedDomain) == ConfiguredDomain(raw) && NoUpper(c.allowedDomain)
    ensures c.(allowedDomain := config.allowedDomain) == config
  {
    config.(allowedDomain := ConfiguredDomain(raw).value)
  }

  /** The statistics counters of the crawler. */
  datatype Counters = Counters(
    pagesOk: int, errorCount: int, nonHtmlCount: int, robotsBlockedCount: int,
    dupSeen: int, dupInsertIgnored: int, totalBytesSaved: int,
    internalLinksUnique: int, externalLinksUnique: int)

  /** A link target is internal when it passes `same_reg_domain` against the configured domain. */
  predicate Internal(cfg: Config, url: string)
  {
    Parser.SameRegDomain(url, Parser.OneDomain(cfg.allowedDomain), cfg.followSubdomains)
  }

  // ---------- Seeding ----------

  /** `seed` is skipped when a previous crawl left pages counted or URLs queued. */
  predicate ResumeDetected(pagesOk: int, frontierSize: nat)
  {
    pagesOk > 0 || frontierSize > 0
  }

  /** The seeds whose normalisation is truthy, normalised, in order. */
  function SeedUrls(seeds: seq<string>, normalize: string -> Option<string>): (r: seq<string>)
    ensures forall u :: u in r ==> u != "" && exists s :: s in seeds && normalize(s) == Some(u)
    ensures |r| <= |seeds|
    decreases |seeds|
  {
    if seeds == [] then []
    else
      var rest := SeedUrls(seeds[1..], normalize);
      assert forall s :: s in seeds[1..] ==> s in seeds;
      var n := normalize(seeds[0]);
      if n.Some? && n.value != "" then [n.value] + rest else rest
  }

  /** Every seed whose normalisation is truthy is among the seeded URLs. */
  lemma {:induction false} SeedUrlsComplete(seeds: seq<string>, normalize: string -> Option<string>)
    ensures forall s :: s in seeds && normalize(s).Some? && normalize(s).value != "" ==>
      normalize(s).value in SeedUrls(seeds, normalize)
    decreases |seeds|
  {
    if seeds != [] {
      SeedUrlsComplete(seeds[1..], normalize);
      assert forall s :: s in seeds ==> s == seeds[0] || s in seeds[1..];
    }
  }

  /** Seeding keeps the seeds' order: the URLs of two lists are those of each, one after the other. */
  lemma {:induction false} SeedUrlsConcat(a: seq<string>, b: seq<string>, normalize: string -> Option<string>)
    ensures SeedUrls(a + b, normalize) == SeedUrls(a, normalize) + SeedUrls(b, normalize)
    decreases |a|
  {
    if a == [] {
      assert a + b == b;
    } else {
      assert (a + b)[0] == a[0];
      assert (a + b)[1..] == a[1..] + b;
      SeedUrlsConcat(a[1..], b, normalize);
    }
  }

  // ---------- One scheduling cycle ----------

  /**
   * The capacity of a cycle: free in-flight slots, capped by the pages still
   * to be counted. Positive only when both are, and then it fills one of them
   * exactly without overshooting either.
   */
  function Capacity(limit: int, active: int, maxPages: int, pagesOk: int): (c: nat)
    ensures c > 0 <==> active < limit && pagesOk < maxPages
    ensures c > 0 ==> active + c <= limit && pagesOk + c <= maxPages
    ensures c > 0 ==> active + c == limit || pagesOk + c == maxPages
  {
    Min(Max(0, limit - active), Max(0, maxPages - pagesOk))
  }

  /** `until and time.time() < until`: a recorded, non-zero quarantine end still in the future. */
  predicate Quarantined(q: map<string, real>, host: string, now: real)
  {
    host in q && q[host] != 0.0 && now < q[host]
  }

  /** A dispatched call `_fetch_and_process(url, depth, parent)`. */
  datatype Task = Task(url: string, depth: int, parent: Option<string>)

  /**
   * The inputs the batch loop reads and does not change. `inDomain` is the
   * domain test of the crawler and `halted` is `stop_flag or pause_flag`.
   */
  datatype BatchEnv = BatchEnv(
    cfg: Config, inDomain: string -> bool, quarantine: map<string, real>, now: real,
    robotsAllowed: string -> bool, active: nat, limit: int, halted: bool)

  /** What the filter chain decides for one popped row. */
  datatype Verdict = SeenOrDeep | OffDomain | RobotsBlocked | Requeued | Eligible

  /** The filter chain, in its order: seen or too deep, off-domain, robots, quarantine. */
  function Classify(env: BatchEnv, seen: set<string>, r: Row): Verdict
  {
    if r.url in seen || r.depth > env.cfg.maxDepth then SeenOrDeep
    else if !env.inDomain(r.url) then OffDomain
    else if env.cfg.respectRobots && !env.robotsAllowed(r.url) then RobotsBlocked
    else if Quarantined(env.quarantine, Url.Netloc(r.url), env.now) then Requeued
    else Eligible
  }

  /**
   * The state the batch loop changes. `requeued` counts re-pushed rows and
   * `dropped` collects the rows left unprocessed by a `break`; neither is
   * kept by the crawler.
   */
  datatype BatchState = BatchState(
    stats: Counters, seen: set<string>, frontier: map<string, Entry>,
    dispatched: seq<Task>, requeued: nat, dropped: seq<Row>)

  /** The loop stops at this row: the crawler is halted, or the row is eligible and the in-flight set is full. */
  predicate Breaks(env: BatchEnv, st: BatchState, r: Row)
  {
    env.halted || (Classify(env, st.seen, r) == Eligible && env.active + |st.dispatched| >= env.limit)
  }

  /** The effect of one row that does not stop the loop. */
  function RowStep(env: BatchEnv, st: BatchState, r: Row): BatchState
  {
    match Classify(env, st.seen, r)
    case SeenOrDeep => st.(stats := st.stats.(dupSeen := st.stats.dupSeen + 1))
    case OffDomain => st.(stats := st.stats.(dupSeen := st.stats.dupSeen + 1))
    case RobotsBlocked =>
      st.(stats := st.stats.(robotsBlockedCount := st.stats.robotsBlockedCount + 1), seen := st.seen + {r.url})
    case Requeued => st.(frontier := Push(st.frontier, r.url, EntryOf(r)).0, requeued := st.requeued + 1)
    case Eligible => st.(dispatched := st.dispatched + [Task(r.url, r.depth, r.parent)])
  }

  /** The batch loop of a cycle over the rows still to visit. */
  function RunBatch(env: BatchEnv, rows: seq<Row>, st: BatchState): BatchState
    decreases |rows|
  {
    if rows == [] then st
    else if Breaks(env, st, rows[0]) then st.(dropped := st.dropped + rows)
    else RunBatch(env, rows[1..], RowStep(env, st, rows[0]))
  }

  /** The tally of rows a batch state accounts for. */
  function Tally(st: BatchState): int
  {
    st.stats.dupSeen + st.stats.robotsBlockedCount + st.requeued + |st.dispatched| + |st.dropped|
  }

  /**
   * Every popped row is accounted for exactly once: counted as a duplicate,
   * counted as robots-blocked, re-pushed, dispatched, or dropped by a `break`.
   * No other counter changes.
   */
  lemma {:induction false} BatchAccounting(env: BatchEnv, rows: seq<Row>, st: BatchState)
    ensures var fin := RunBatch(env, rows, st);
      && Tally(fin) == Tally(st) + |rows|
      && fin.stats.(dupSeen := st.stats.dupSeen, robotsBlockedCount := st.stats.robotsBlockedCount) == st.stats
    decreases |rows|
  {
    if rows != [] && !Breaks(env, st, rows[0]) {
      BatchAccounting(env, rows[1..], RowStep(env, st, rows[0]));
    }
  }

  /** A halted crawler drops the whole batch and changes nothing else. */
  lemma HaltedDropsBatch(env: BatchEnv, rows: seq<Row>, st: BatchState)
    requires env.halted
    ensures RunBatch(env, rows, st) == st.(dropped := st.dropped + rows)
  {
    if rows == [] {
      assert st.dropped + rows == st.dropped;
    }
  }

  /**
   * Dispatch never takes the in-flight count past the limit: a cycle that
   * starts within the limit ends within it.
   */
  lemma {:induction false} BatchNeverOverfills(env: BatchEnv, rows: seq<Row>, st: BatchState)
    requires st.dispatched == [] || env.active + |st.dispatched| <= env.limit
    ensures var fin := RunBatch(env, rows, st);
      fin.dispatched == [] || env.active + |fin.dispatched| <= env.limit
    decreases |rows|
  {
    if rows != [] && !Breaks(env, st, rows[0]) {
      BatchNeverOverfills(env, rows[1..], RowStep(env, st, rows[0]));
    }
  }

  /** A row the chain lets through: unseen, shallow enough, on the domain, allowed, not quarantined. */
  predicate Admitted(env: BatchEnv, seen: set<string>, t: Task)
  {
    && t.url !in seen && t.depth <= env.cfg.maxDepth
    && env.inDomain(t.url)
    && (env.cfg.respectRobots ==> env.robotsAllowed(t.url))
    && !Quarantined(env.quarantine, Url.Netloc(t.url), env.now)
  }

  /**
   * Every dispatched task passed the whole chain, and each is a popped row;
   * the seen set only grows.
   */
  lemma {:induction false} DispatchedAreAdmitted(env: BatchEnv, rows: seq<Row>, st: BatchState)
    ensures var fin := RunBatch(env, rows, st);
      && st.seen <= fin.seen
      && |st.dispatched| <= |fin.dispatched| && fin.dispatched[..|st.dispatched|] == st.dispatched
      && forall i :: |st.dispatched| <= i < |fin.dispatched| ==>
           Admitted(env, st.seen, fin.dispatched[i])
           && exists r :: r in rows && fin.dispatched[i] == Task(r.url, r.depth, r.parent)
    decreases |rows|
  {
    if rows != [] && !Breaks(env, st, rows[0]) {
      var st1 := RowStep(env, st, rows[0]);
      DispatchedAreAdmitted(env, rows[1..], st1);
      var fin := RunBatch(env, rows[1..], st1);
      assert fin == RunBatch(env, rows, st);
      assert fin.dispatched[..|st.dispatched|] == st.dispatched by {
        assert fin.dispatched[..|st1.dispatched|][..|st.dispatched|] == fin.dispatched[..|st.dispatched|];
      }
      forall i | |st.dispatched| <= i < |fin.dispatched|
        ensures Admitted(env, st.seen, fin.dispatched[i])
        ensures exists r :: r in rows && fin.dispatched[i] == Task(r.url, r.depth, r.parent)
      {
        if i < |st1.dispatched| {
          assert i == |st.dispatched| && Classify(env, st.seen, rows[0]) == Eligible;
          assert fin.dispatched[i] == fin.dispatched[..|st1.dispatched|][i] == st1.dispatched[i];
          assert rows[0] in rows;
        } else {
          var r :| r in rows[1..] && fin.dispatched[i] == Task(r.url, r.depth, r.parent);
          assert r in rows;
        }
      }
    }
  }

  /**
   * The batch adds to the frontier only the re-pushed rows, each under its
   * original priority, depth and parent; entries already there are untouched.
   */
  lemma {:induction false} RequeueRestoresEntries(env: BatchEnv, rows: seq<Row>, st: BatchState)
    ensures var fin := RunBatch(env, rows, st);
      && st.frontier.Keys <= fin.frontier.Keys
      && (forall u :: u in st.frontier ==> fin.frontier[u] == st.frontier[u])
      && forall u :: u in fin.frontier && u !in st.frontier ==>
           exists r :: r in rows && r.url == u && fin.frontier[u] == EntryOf(r)
    decreases |rows|
  {
    if rows != [] && !Breaks(env, st, rows[0]) {
      var st1 := RowStep(env, st, rows[0]);
      RequeueRestoresEntries(env, rows[1..], st1);
      var fin := RunBatch(env, rows[1..], st1);
      forall u | u in fin.frontier && u !in st.frontier
        ensures exists r :: r in rows && r.url == u && fin.frontier[u] == EntryOf(r)
      {
        if u in st1.frontier {
          assert u == rows[0].url && st1.frontier[u] == EntryOf(rows[0]);
          assert rows[0] in rows;
        } else {
          var r :| r in rows[1..] && r.url == u && fin.frontier[u] == EntryOf(r);
          assert r in rows;
        }
      }
    }
  }

  // ---------- Bookkeeping of a fetched page ----------

  /** The CSV/JSONL row `save_record` writes. */
  datatype CrawlRecord = CrawlRecord(
    url: string, parent: Option<string>, depth: int, status: Option<int>,
    contentType: string, size: Option<int>, elapsed: Option<real>, error: Option<string>)

  /** `err` is truthy. */
  predicate HasError(r: Fetcher.FetchResult)
  {
    r.error.Some? && r.error.value != ""
  }

  /** `status and 200 <= status < 300`. */
  predicate Is2xx(status: Option<int>)
  {
    status.Some? && status.value != 0 && 200 <= status.value < 300
  }

  /** `ok_html`: a 2xx answer with an HTML Content-Type and some content. */
  predicate OkHtml(r: Fetcher.FetchResult)
  {
    Is2xx(r.status) && Parser.IsHtmlContent(r.headers) && r.content != ""
  }

  /**
   * The fetch loop's case-sensitive `text/html` test is stricter than
   * `is_html_content`: every page it treats as HTML the crawler does too.
   */
  lemma {:induction false} FetchHtmlIsHtmlContent(h: Parser.Headers)
    requires Contains(Fetcher.HeaderOr(h, "Content-Type"), "text/html")
    ensures Parser.IsHtmlContent(h)
  {
    var ct := Fetcher.HeaderOr(h, "Content-Type");
    assert ct != "";
    assert Parser.ContentTypeOf(h) == ct;
    ContainsLower(ct, "text/html");
    assert Lower("text/html") == "text/html";
  }

  /** The four paths through `_fetch_and_process` after the fetch. */
  datatype Outcome = CaptchaPage | FetchError | HtmlPage | OtherAnswer

  function OutcomeOf(r: Fetcher.FetchResult): (o: Outcome)
    ensures o == CaptchaPage <==> r.error == Some("CAPTCHA_DETECTED")
    ensures o == FetchError <==> HasError(r) && r.error != Some("CAPTCHA_DETECTED")
    ensures o == HtmlPage <==> !HasError(r) && OkHtml(r)
  {
    if r.error == Some("CAPTCHA_DETECTED") then CaptchaPage
    else if HasError(r) then FetchError
    else if OkHtml(r) then HtmlPage
    else OtherAnswer
  }

  /** The record saved for a fetched URL; its error is kept only on the two error paths. */
  function RecordOf(t: Task, r: Fetcher.FetchResult, elapsed: Option<real>): CrawlRecord
  {
    CrawlRecord(t.url, t.parent, t.depth, r.status,
                if r.headers != map[] then Fetcher.HeaderOr(r.headers, "Content-Type") else "",
                if r.content != "" then Some(|r.content|) else None,
                elapsed, if HasError(r) then r.error else None)
  }

  /** `save_html` writes at most 10 MiB and returns the length written. */
  function SavedBytes(content: string): (n: nat)
    ensures n <= |content| && n <= 10 * 1024 * 1024
    ensures n == |content| || n == 10 * 1024 * 1024
  {
    Min(|content|, 10 * 1024 * 1024)
  }

  /** `deque(maxlen=200).append(x)`: the latest 200 samples. */
  function Window(w: seq<real>, x: real): (r: seq<real>)
    ensures |r| == Min(200, |w| + 1)
  {
    if |w| >= 200 then w[|w| - 199..] + [x] else w + [x]
  }

  /** The window holds the newest samples, in order, ending with `x`. */
  lemma WindowKeepsLatest(w: seq<real>, x: real)
    ensures Window(w, x) == (w + [x])[|w| + 1 - |Window(w, x)|..]
  {
  }

  /** The state the link loop of a fetched page changes. */
  datatype LinkState = LinkState(
    internal: set<string>, external: set<string>,
    internalCount: int, externalCount: int,
    frontier: map<string, Entry>, dupInsertIgnored: int,
    edges: seq<(string, string)>)

  /** The frontier entry of a link found at depth `depth` on `page`. */
  function ChildEntry(page: string, depth: int): Entry
  {
    Entry(depth + 1, depth + 1, Some(page))
  }

  /** The domain test of the crawler, as the link loop receives it. */
  function InternalTest(cfg: Config): string -> bool
  {
    (u: string) => Internal(cfg, u)
  }

  /** The unique-link set and counter of the link's side, after seeing `u`. */
  function NoteLink(isInternal: string -> bool, st: LinkState, u: string): LinkState
  {
    if isInternal(u) then
      if u !in st.internal then st.(internal := st.internal + {u}, internalCount := |st.internal + {u}|) else st
    else
      if u !in st.external then st.(external := st.external + {u}, externalCount := |st.external + {u}|) else st
  }

  /** The push of an internal link as a child of `page`; a refused insert counts as a duplicate. */
  function QueueLink(page: string, depth: int, st: LinkState, u: string): LinkState
  {
    var (f, inserted) := Push(st.frontier, u, ChildEntry(page, depth));
    st.(frontier := f, dupInsertIgnored := st.dupInsertIgnored + if inserted then 0 else 1)
  }

  /** The bookkeeping of one discovered link; `isInternal` is the domain test. */
  function LinkStep(isInternal: string -> bool, page: string, depth: int, st: LinkState, u: string): LinkState
  {
    var st2 := NoteLink(isInternal, st, u).(edges := st.edges + [(page, u)]);
    if isInternal(u) then QueueLink(page, depth, st2, u) else st2
  }

  /** The link loop of a fetched page over the links still to visit. */
  function LinkFold(isInternal: string -> bool, page: string, depth: int, links: seq<string>, st: LinkState): LinkState
    decreases |links|
  {
    if links == [] then st else LinkFold(isInternal, page, depth, links[1..], LinkStep(isInternal, page, depth, st, links[0]))
  }

  /** The internal links, in order. */
  function InternalLinks(isInternal: string -> bool, links: seq<string>): seq<string>
    decreases |links|
  {
    if links == [] then []
    else (if isInternal(links[0]) then [links[0]] else []) + InternalLinks(isInternal, links[1..])
  }

  /** What one discovered link changes. */
  lemma LinkStepFacts(isInternal: string -> bool, page: string, depth: int, st: LinkState, u: string)
    ensures var s := LinkStep(isInternal, page, depth, st, u);
      var here := isInternal(u);
      var (f, inserted) := Push(st.frontier, u, ChildEntry(page, depth));
      && s.internal == (if here then st.internal + {u} else st.internal)
      && s.external == (if here then st.external else st.external + {u})
      && s.internalCount == (if here && u !in st.internal then |s.internal| else st.internalCount)
      && s.externalCount == (if !here && u !in st.external then |s.external| else st.externalCount)
      && s.edges == st.edges + [(page, u)]
      && s.frontier == (if here then f else st.frontier)
      && s.dupInsertIgnored == st.dupInsertIgnored + (if here && !inserted then 1 else 0)
  {
  }

  /** The links that pass, or fail, the domain test. */
  function LinkSet(isInternal: string -> bool, links: seq<string>, side: bool): set<string>
  {
    set u | u in links && isInternal(u) == side
  }

  lemma LinkSetCons(isInternal: string -> bool, links: seq<string>, side: bool)
    requires links != []
    ensures LinkSet(isInternal, links, side)
      == (if isInternal(links[0]) == side then {links[0]} else {}) + LinkSet(isInternal, links[1..], side)
  {
    assert forall u :: u in links <==> u == links[0] || u in links[1..];
  }

  lemma LinkSetEmpty(isInternal: string -> bool, links: seq<string>, side: bool)
    requires links == []
    ensures LinkSet(isInternal, links, side) == {}
  {
    assert forall u :: u !in links;
  }

  /** The set of unique internal links, or of unique external ones. */
  function SideSet(st: LinkState, side: bool): set<string>
  {
    if side then st.internal else st.external
  }

  /** One link joins the set of its side only. */
  lemma LinkStepSide(isInternal: string -> bool, page: string, depth: int, st: LinkState, u: string, side: bool)
    ensures SideSet(LinkStep(isInternal, page, depth, st, u), side)
         == SideSet(st, side) + (if isInternal(u) == side then {u} else {})
  {
  }

  lemma {:induction false} LinkFoldSide(isInternal: string -> bool, page: string, depth: int, links: seq<string>, st: LinkState, side: bool)
    ensures SideSet(LinkFold(isInternal, page, depth, links, st), side) == SideSet(st, side) + LinkSet(isInternal, links, side)
    decreases |links|
  {
    if links != [] {
      var st1 := LinkStep(isInternal, page, depth, st, links[0]);
      LinkStepSide(isInternal, page, depth, st, links[0], side);
      LinkFoldSide(isInternal, page, depth, links[1..], st1, side);
      LinkSetCons(isInternal, links, side);
    } else {
      LinkSetEmpty(isInternal, links, side);
    }
  }

  /** Every link lands in the set its domain test picks; the sets grow by exactly the links. */
  lemma LinkFoldSets(isInternal: string -> bool, page: string, depth: int, links: seq<string>, st: LinkState)
    ensures var fin := LinkFold(isInternal, page, depth, links, st);
      && fin.internal == st.internal + LinkSet(isInternal, links, true)
      && fin.external == st.external + LinkSet(isInternal, links, false)
  {
    LinkFoldSide(isInternal, page, depth, links, st, true);
    LinkFoldSide(isInternal, page, depth, links, st, false);
  }

  /** A unique-link counter equals its set's size once the set grew, and is untouched otherwise. */
  lemma {:induction false} LinkFoldCounts(isInternal: string -> bool, page: string, depth: int, links: seq<string>, st: LinkState)
    ensures var fin := LinkFold(isInternal, page, depth, links, st);
      && fin.internalCount == (if fin.internal == st.internal then st.internalCount else |fin.internal|)
      && fin.externalCount == (if fin.external == st.external then st.externalCount else |fin.external|)
    decreases |links|
  {
    if links != [] {
      var st1 := LinkStep(isInternal, page, depth, st, links[0]);
      LinkStepFacts(isInternal, page, depth, st, links[0]);
      LinkFoldCounts(isInternal, page, depth, links[1..], st1);
      LinkFoldSets(isInternal, page, depth, links[1..], st1);
    }
  }

  lemma InternalLinksCons(isInternal: string -> bool, links: seq<string>)
    requires links != []
    ensures isInternal(links[0]) ==>
      && InternalLinks(isInternal, links) != [] && InternalLinks(isInternal, links)[0] == links[0]
      && InternalLinks(isInternal, links)[1..] == InternalLinks(isInternal, links[1..])
    ensures !isInternal(links[0]) ==> InternalLinks(isInternal, links) == InternalLinks(isInternal, links[1..])
  {
    if isInternal(links[0]) {
      assert InternalLinks(isInternal, links) == [links[0]] + InternalLinks(isInternal, links[1..]);
    } else {
      assert InternalLinks(isInternal, links) == [] + InternalLinks(isInternal, links[1..]);
    }
  }

  /**
   * Only internal links go to the frontier, in order, each at priority and
   * depth `depth + 1` with the page as parent; every refused push counts as an
   * ignored duplicate.
   */
  lemma {:induction false} LinkFoldFrontier(isInternal: string -> bool, page: string, depth: int, links: seq<string>, st: LinkState)
    ensures var fin := LinkFold(isInternal, page, depth, links, st);
      var (f, refused) := PushAll(st.frontier, InternalLinks(isInternal, links), ChildEntry(page, depth));
      fin.frontier == f && fin.dupInsertIgnored == st.dupInsertIgnored + refused
    decreases |links|
  {
    if links != [] {
      var st1 := LinkStep(isInternal, page, depth, st, links[0]);
      LinkStepFacts(isInternal, page, depth, st, links[0]);
      LinkFoldFrontier(isInternal, page, depth, links[1..], st1);
      InternalLinksCons(isInternal, links);
    }
  }

  /** One edge per link, in order. */
  lemma {:induction false} LinkFoldEdges(isInternal: string -> bool, page: string, depth: int, links: seq<string>, st: LinkState)
    ensures LinkFold(isInternal, page, depth, links, st).edges == st.edges + seq(|links|, i requires 0 <= i < |links| => (page, links[i]))
    decreases |links|
  {
    if links != [] {
      var st1 := LinkStep(isInternal, page, depth, st, links[0]);
      LinkFoldEdges(isInternal, page, depth, links[1..], st1);
      var tail := seq(|links[1..]|, i requires 0 <= i < |links[1..]| => (page, links[1..][i]));
      var all := seq(|links|, i requires 0 <= i < |links| => (page, links[i]));
      assert all == [(page, links[0])] + tail;
    }
  }

  // ---------- The page budget ----------

  /**
   * The guarded increment: count the page when the budget allows and the
   * crawler is not stopped; reaching the budget stops the crawler.
   */
  function CountPage(pagesOk: int, maxPages: int, stop: bool): (r: (int, bool))
    ensures r.0 == pagesOk || (r.0 == pagesOk + 1 && r.0 <= maxPages)
    ensures r.0 == pagesOk + 1 <==> pagesOk < maxPages && !stop
    ensures r.1 <==> stop || (r.0 >= maxPages && r.0 == pagesOk + 1)
  {
    if pagesOk < maxPages && !stop then (pagesOk + 1, pagesOk + 1 >= maxPages) else (pagesOk, stop)
  }

  /** `k` pages completing one after another, each running the guarded increment. */
  function CountPages(pagesOk: int, maxPages: int, stop: bool, k: nat): (int, bool)
    decreases k
  {
    if k == 0 then (pagesOk, stop)
    else
      var (p, s) := CountPage(pagesOk, maxPages, stop);
      CountPages(p, maxPages, s, k - 1)
  }

  /**
   * However many pages complete, the counter lands on the budget and no
   * further: starting within budget and not stopped, `k` completions count
   * `min(k, budget left)` pages.
   */
  lemma {:induction false} BudgetNeverOvershoots(pagesOk: int, maxPages: int, k: nat)
    requires pagesOk <= maxPages
    ensures CountPages(pagesOk, maxPages, false, k).0 == Min(maxPages, pagesOk + k)
    ensures CountPages(pagesOk, maxPages, false, k).1 <==> pagesOk < maxPages && pagesOk + k >= maxPages
    decreases k
  {
    if k > 0 {
      var (p, s) := CountPage(pagesOk, maxPages, false);
      if pagesOk < maxPages {
        BudgetNeverOvershoots(p, maxPages, k - 1);
        if p == maxPages {
          StoppedCountsNothing(p, maxPages, k - 1);
        }
      } else {
        StoppedCountsNothing(pagesOk, maxPages, k - 1);
        NothingLeftCountsNothing(pagesOk, maxPages, k - 1);
      }
    }
  }

  lemma {:induction false} StoppedCountsNothing(pagesOk: int, maxPages: int, k: nat)
    ensures CountPages(pagesOk, maxPages, true, k) == (pagesOk, true)
    decreases k
  {
    if k > 0 {
      StoppedCountsNothing(pagesOk, maxPages, k - 1);
    }
  }

  lemma {:induction false} NothingLeftCountsNothing(pagesOk: int, maxPages: int, k: nat)
    requires pagesOk >= maxPages
    ensures CountPages(pagesOk, maxPages, false, k) == (pagesOk, false)
    decreases k
  {
    if k > 0 {
      NothingLeftCountsNothing(pagesOk, maxPages, k - 1);
    }
  }

  // ---------- The adaptive in-flight limit ----------

  function Sum(xs: seq<real>): real
    decreases |xs|
  {
    if xs == [] then 0.0 else Sum(xs[..|xs| - 1]) + xs[|xs| - 1]
  }

  /** The mean of a window, 0.0 for an empty one. */
  function Mean(xs: seq<real>): real
  {
    if xs == [] then 0.0 else Sum(xs) / (|xs| as real)
  }

  /** `avg_lat < ad_low and err_rate < ad_err_high / 2 and q > inflight_limit`. */
  predicate ShouldGrow(cfg: Config, lat: seq<real>, err: seq<real>, backlog: int, limit: int)
  {
    Mean(lat) < cfg.adLow && Mean(err) < cfg.adErrHigh / 2.0 && backlog > limit
  }

  /** `avg_lat > ad_high or err_rate > ad_err_high`. */
  predicate ShouldShrink(cfg: Config, lat: seq<real>, err: seq<real>)
  {
    Mean(lat) > cfg.adHigh || Mean(err) > cfg.adErrHigh
  }

  /** `_maybe_adapt`: the grow step, then the shrink step, on the limit; nothing below ten latency samples. */
  function AdaptedLimit(cfg: Config, lat: seq<real>, err: seq<real>, backlog: int, limit: int): int
  {
    if |lat| < 10 then limit
    else
      var grown := if ShouldGrow(cfg, lat, err, backlog, limit) then Min(cfg.adMax, limit + cfg.adStep) else limit;
      if ShouldShrink(cfg, lat, err) then Max(cfg.adMin, grown - cfg.adStep) else grown
  }

  /** With a non-negative step, a limit inside `[ad_min, ad_max]` stays inside. */
  lemma AdaptKeepsBounds(cfg: Config, lat: seq<real>, err: seq<real>, backlog: int, limit: int)
    requires cfg.adStep >= 0 && cfg.adMin <= limit <= cfg.adMax
    ensures cfg.adMin <= AdaptedLimit(cfg, lat, err, backlog, limit) <= cfg.adMax
  {
  }

  /** A negative step breaks that bound: the grow step lowers a limit sitting at `ad_min`. */
  lemma NegativeStepLeavesBounds()
    ensures var cfg := Config("", 0, 0, false, false, false, 0, true, 4, 32, -2, 1.0, 2.0, 0.5, false, 0, false);
      var lat := seq(10, i => 0.0);
      var err := seq(10, i => 0.0);
      AdaptedLimit(cfg, lat, err, 100, 4) == 2
  {
    var lat := seq(10, i => 0.0);
    assert Sum(lat) == 0.0 by {
      ZeroSum(lat);
    }
  }

  lemma {:induction false} ZeroSum(xs: seq<real>)
    requires forall i :: 0 <= i < |xs| ==> xs[i] == 0.0
    ensures Sum(xs) == 0.0
    decreases |xs|
  {
    if xs != [] {
      ZeroSum(xs[..|xs| - 1]);
    }
  }

  /**
   * The limit moves only for its reasons: it never changes below ten samples,
   * rises only when the grow test held, falls only when the shrink test held,
   * and stays put when neither did. With ten samples or more, a shrink never
   * raises it; shrinking alone lowers it by the step but not below the
   * minimum, growing alone raises it by the step but not above the maximum.
   */
  lemma AdaptDirection(cfg: Config, lat: seq<real>, err: seq<real>, backlog: int, limit: int)
    requires cfg.adStep >= 0 && cfg.adMin <= limit <= cfg.adMax
    ensures var r := AdaptedLimit(cfg, lat, err, backlog, limit);
      && (|lat| < 10 ==> r == limit)
      && (r > limit ==> ShouldGrow(cfg, lat, err, backlog, limit))
      && (r < limit ==> ShouldShrink(cfg, lat, err))
      && (!ShouldGrow(cfg, lat, err, backlog, limit) && !ShouldShrink(cfg, lat, err) ==> r == limit)
      && (|lat| >= 10 && ShouldShrink(cfg, lat, err) ==> r <= limit)
      && (|lat| >= 10 && ShouldShrink(cfg, lat, err) && !ShouldGrow(cfg, lat, err, backlog, limit) ==>
            r == Max(cfg.adMin, limit - cfg.adStep))
      && (|lat| >= 10 && ShouldGrow(cfg, lat, err, backlog, limit) && !ShouldShrink(cfg, lat, err) ==>
            r == Min(cfg.adMax, limit + cfg.adStep))
  {
  }
}
