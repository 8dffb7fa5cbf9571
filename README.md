# bama_crawler: crawl control, modelled and proved in Dafny

`bama_crawler` is a polite, resumable, single-domain web crawler. A
SQLite-backed frontier of URLs is ordered by priority. A scheduling loop
pops batches from it and filters each row: already seen or too deep,
off-domain, blocked by robots.txt, or on a host quarantined after a CAPTCHA.
The rows left over are handed to worker threads, up to an adaptive in-flight
limit. Each worker fetches its page with per-host rate limiting and retries,
classifies the answer and counts it. For an HTML page it also queues the
page's internal links one level deeper, and it stops the crawl once
`max_pages` pages have been counted.

This project models that control logic and proves what it promises.

| file | module | models |
|---|---|---|
| `wrappers.dfy` | `Wrappers` | `Option`, `Min`, `Max` |
| `text.dfy` | `Text` | `str.lower`, `str.strip`, `in` on strings, `str.isdigit` and decimal digits |
| `frontier_store.dfy` | `FrontierStore` | `db.py`: the frontier and seen tables, as class `DB` |
| `url.dfy` | `Url` | `utils.py`: the steps of `normalize_url`, `RateLimiter`, and `urlsplit(...).netloc` |
| `parser.dfy` | `Parser` | `parser.py`: `is_html_content`, `same_reg_domain`, the loop of `extract_links` |
| `fetcher.dfy` | `Fetcher` | `fetcher.py`: `_detect_captcha`, `_looks_js_page`, `_parse_retry_after`, the retry loop of `fetch` |
| `robots.dfy` | `Robots` | `robots.py`: the TTL cache and the queries, which allow a URL when the parser raises, as class `RobotsCache` |
| `schedule.dfy` | `Schedule` | `frontier.py`, part 1: capacity, the batch filter chain, page outcomes, link bookkeeping, the page counter, sample windows, the adaptive limit |
| `steps.dfy` | `Steps` | `frontier.py`, part 2: the crawler state as one value, `_fetch_and_process` as a step function, and one pass of `run` |
| `crawl.dfy` | `Crawl` | `frontier.py`, part 3: class `Crawler`, with the fields the source updates and a method per operation |

The design follows the source's form:
- Objects whose fields the source updates are classes: `DB`, `RateLimiter`,
  `RobotsCache` and `Crawler`.
- Each method is specified by its full new state. For `Crawler` this is
  `View()`, the fields as one `Steps.CrawlState`, stated through a pure step
  function of `Steps` or `Schedule`.
- The lemmas about those functions state what the crawler promises, for
  example that every popped row is accounted for once, that the page count
  never passes `max_pages`, and that the in-flight limit stays within its
  bounds.
- Each loop in the source is a method with a loop proved against the
  function that specifies it: the retry loop, the pop query, the batch loop,
  the link loop, seeding and `extract_links`.

The model keeps the source's behaviour where it is surprising:
- `same_reg_domain` with subdomains is a plain suffix test, so
  `notexample.com` passes for `example.com`.
- `same_reg_domain` lower-cases only the host, so a direct call with a
  domain holding a capital letter matches nothing. The crawler itself
  passes its domain already stripped and lower-cased (`Schedule.ConfiguredDomain`).
- `fetch` treats a page as HTML by a case-sensitive `text/html` test, and
  the crawler by a case-insensitive one; every page the first accepts the
  second accepts too (`Schedule.FetchHtmlIsHtmlContent`).
- The CAPTCHA test in `fetch` looks for `text/html` case-sensitively, so
  `Text/HTML` pages escape it.
- The `window.__INITIAL_STATE__` marker of `_looks_js_page` is compared
  against lower-cased text and never matches.
- Rows popped after a `break` in the batch loop are not put back: a stop, a
  pause or a full in-flight set drops them. `Schedule.HaltedDropsBatch`,
  `Steps.PausingCheckpointDropsBatch` and the `dropped` component of
  `Schedule.BatchState` state and track this.
- A negative `adaptive_step` moves the limit outside its bounds.

Inputs that come from outside the program are parameters:
- the clock reading `now`;
- what the network returned to each fetch attempt;
- robots.txt verdicts;
- the library's URL joining, quoting and date parsing;
- HTML tag extraction: `extract_links` takes the hrefs in document order.

## Model

| member | source | states |
|---|---|---|
| `FrontierStore.DB.constructor` | src/bama_crawler/db.py:43-55 | a new database has an empty frontier and an empty seen table |
| `FrontierStore.DB.Reopen` | src/bama_crawler/db.py:43-55 | opening an existing file keeps both tables as they were (`CREATE TABLE IF NOT EXISTS`) |
| `FrontierStore.DB.PushUrl` | src/bama_crawler/db.py:73-98 | it returns true exactly when the URL is non-empty, at most 2048 characters and not yet queued; that entry is then added and nothing else changes; otherwise the frontier is unchanged; the seen table is never touched |
| `FrontierStore.Push` | src/bama_crawler/db.py:73-98 | `INSERT OR IGNORE` on the frontier map; what it inserts and when it refuses is stated by `FrontierStore.DB.PushUrl`, which is proved against it |
| `FrontierStore.PushAll` | src/bama_crawler/db.py:89-98 | a `push_url` per URL in order, counting the refusals; `FrontierStore.PushAllAccounting` and `FrontierStore.PushAllContents` state its size balance and its contents |
| `FrontierStore.PushAllAccounting` | src/bama_crawler/db.py:89-98 | pushing a list of URLs: the new frontier size plus the number refused equals the old size plus the list length |
| `FrontierStore.PushAllContents` | src/bama_crawler/db.py:89-98 | after pushing a list, the keys are the old keys plus the admissible URLs; existing entries are kept (INSERT OR IGNORE); every new key carries the pushed entry |
| `FrontierStore.LeastPriorityExists` | src/bama_crawler/db.py:117-120 | a non-empty frontier has a URL of least priority, the next row `ORDER BY priority` yields |
| `FrontierStore.PopStep` | src/bama_crawler/db.py:117-124 | taking a least-priority URL from the rest keeps the rows distinct, ascending, taken from the frontier and no higher than anything left |
| `FrontierStore.SelectByPriority` | src/bama_crawler/db.py:117-120 | it returns `min(n, size)` rows, or all rows when `n` is negative (SQLite's `LIMIT -1`); each row is a frontier entry; the rows are distinct and in ascending priority; no unselected entry has lower priority than a selected one |
| `FrontierStore.DB.PopBatch` | src/bama_crawler/db.py:103-124 | the rows are such a selection of at most `n` rows, removed from the frontier; every other entry and the seen table are unchanged |
| `FrontierStore.IsPopOf` | src/bama_crawler/db.py:103-124 | the specification of `pop_batch`: at most `n` distinct rows in ascending priority, no lower priority left behind, exactly those removed; `FrontierStore.SelectByPriority` shows it can be met and `FrontierStore.DB.PopBatch` meets it |
| `FrontierStore.DB.MarkSeen` | src/bama_crawler/db.py:126-139 | the URL is added to the seen table, the result is true, the frontier is unchanged |
| `FrontierStore.DB.IsSeen` | src/bama_crawler/db.py:141-152 | true exactly when the URL is in the seen table |
| `FrontierStore.DB.FrontierSize` | src/bama_crawler/db.py:154-163 | the number of queued URLs |
| `Url.Netloc` | src/bama_crawler/robots.py:64 | `urlsplit(url).netloc` never contains `/`, `?` or `#` |
| `Url.NormalizeParts` | src/bama_crawler/utils.py:50-60 | scheme lower-cased; netloc free of capitals and equal to the lowered netloc with `:80` removed under `http` and `:443` under `https` when it ends so, and unchanged otherwise; path re-quoted; query and fragment untouched |
| `Url.StripDefaultPortRule` | src/bama_crawler/utils.py:55-58 | the port step removes the scheme's default port exactly when the netloc ends in it, and nothing else |
| `Url.NormalFormUnique` | src/bama_crawler/utils.py:44-63 | there is only one normal form of a URL's parts, so `normalize_url`'s result is determined |
| `Url.NormalizeUrl` | src/bama_crawler/utils.py:44-63 | a URL comes back exactly when joining and splitting succeed; it is `urlunsplit` of the normal form of the parts: lowered scheme, the lowered netloc with the scheme's default port removed, the path re-quoted, query and fragment kept |
| `Url.DefaultPortRule` | src/bama_crawler/utils.py:55-58 | the lowered netloc loses nothing, or `:80` under `http`, or `:443` under `https`, and never more than one port |
| `Url.NormalizeExample` | src/bama_crawler/utils.py:52-56 | `HTTP://Example.COM:80/a` gets scheme `http` and netloc `example.com` |
| `Url.ForeignPortKept` | src/bama_crawler/utils.py:55-58 | `:443` under `http` and `:80` under `https` are kept |
| `Url.SleepFor` | src/bama_crawler/utils.py:103-106 | the sleep is never negative, always reaches `last + min_delay`, and when positive ends exactly there |
| `Url.RateLimiter.constructor` | src/bama_crawler/utils.py:76-85 | the delay is clamped to at least 0; no key has a history |
| `Url.RateLimiter.Wait` | src/bama_crawler/utils.py:87-108 | with a zero delay it does nothing; otherwise it sleeps `SleepFor` of the key's last value and stores that value plus `min_delay`, whether or not it slept |
| `Url.IdleKeyLetsBurstThrough` | src/bama_crawler/utils.py:103-108 | for a key idle since time 0, two calls at 1000.0 and 1000.5 with `min_delay` 1 both return at once, 0.5 s apart |
| `Url.IntendedReservation` | src/bama_crawler/utils.py:105-108 | storing the end of the wait instead gives a value no earlier than `now` and no earlier than `last + min_delay` |
| `Url.IntendedSpacing` | src/bama_crawler/utils.py:101-108 | with that reservation, any later call on the key, whenever it starts, ends at least `min_delay` after the previous one ended |
| `Schedule.FetchHtmlIsHtmlContent` | src/bama_crawler/fetcher.py:165-189 | a Content-Type in which `fetch` finds `text/html` case-sensitively makes `is_html_content` true |
| `Text.ContainsLower` | src/bama_crawler/parser.py:25 | an occurrence survives lower-casing both strings |
| `Parser.HtmlContentExamples` | src/bama_crawler/parser.py:14-25 | the match ignores case; an empty `Content-Type` falls back to `content-type`; no header means not HTML |
| `Parser.IsHtmlContent` | src/bama_crawler/parser.py:14-25 | `is_html_content`; `Parser.HtmlContentExamples` and `Schedule.FetchHtmlIsHtmlContent` state how it reads the headers |
| `Parser.AnyDomainMatches` | src/bama_crawler/parser.py:84-91 | true exactly when some allowed domain matches the host: suffix with subdomains, equality without |
| `Parser.SameRegDomain` | src/bama_crawler/parser.py:60-91 | true exactly when the lower-cased host matches one of the allowed domains; a single string is a one-element list |
| `Parser.ExactHostOnly` | src/bama_crawler/parser.py:80-91 | without subdomains, true exactly when the lowered host is one of the domains; an empty list matches nothing |
| `Parser.CapitalDomainNeverMatches` | src/bama_crawler/parser.py:80-89 | a domain holding a capital letter matches no URL, because only the host is lowered |
| `Parser.HostOfPlainUrl` | src/bama_crawler/parser.py:80 | for `scheme://host` followed by a path, the host compared is the host lower-cased |
| `Parser.HostOf` | src/bama_crawler/parser.py:80 | the lowered `urlsplit(url).netloc`; `Parser.HostOfPlainUrl` states it for `scheme://host/path` |
| `Parser.DomainMatches` | src/bama_crawler/parser.py:84-90 | one domain's test, suffix or equality as the flag selects; `Parser.SuffixMatches`, `Parser.ExactHostOnly` and `Parser.ForeignHostRejected` state it |
| `Parser.SuffixMatches` | src/bama_crawler/parser.py:84-90 | with subdomains, every host ending in the domain matches, whatever comes before it; exact mode matches only when nothing comes before it |
| `Parser.ForeignHostRejected` | src/bama_crawler/parser.py:84-91 | a host whose lowered form does not end in the domain never matches |
| `Parser.KeptLinksConcat` | src/bama_crawler/parser.py:49-57 | the link filter distributes over concatenation of the href list |
| `Parser.KeptLinks` | src/bama_crawler/parser.py:49-55 | the links the loop of `extract_links` keeps, before the count limit; `Parser.KeptLinksConcat` and `Parser.KeptLinksSound` state it |
| `Parser.KeptLinksSound` | src/bama_crawler/parser.py:53-55 | every kept link is non-empty, shorter than 2048, and the normalisation of one of the hrefs |
| `Parser.ExtractLinks` | src/bama_crawler/parser.py:27-58 | the result is the first `max(0, max_links)` normalised links that pass the filter, in document order |
| `Parser.ExtractLinksBounds` | src/bama_crawler/parser.py:49-55 | the result has at most `max(0, max_links)` links, each filtered and derived from an href |
| `Fetcher.CaptchaSixMarkers` | src/bama_crawler/fetcher.py:86-94 | detection holds exactly when the text is non-empty and its lowered form contains one of six markers; `g-recaptcha` and `hcaptcha` add nothing beyond `captcha` |
| `Fetcher.DetectCaptcha` | src/bama_crawler/fetcher.py:73-94 | `_detect_captcha`; `Fetcher.CaptchaSixMarkers` and `Fetcher.CaptchaIgnoresCase` state it |
| `Fetcher.CaptchaIgnoresCase` | src/bama_crawler/fetcher.py:88-94 | detection gives the same answer on the lowered text |
| `Fetcher.InitialStateMarkerDead` | src/bama_crawler/fetcher.py:221-228 | the upper-case marker never occurs in the lowered text, so a page looks script-driven exactly when one of the other three markers occurs or the stripped text is shorter than 1000 |
| `Fetcher.LooksJsPage` | src/bama_crawler/fetcher.py:205-228 | `_looks_js_page`; `Fetcher.InitialStateMarkerDead` states it |
| `Fetcher.TruncToInt` | src/bama_crawler/fetcher.py:124 | `int()` of a float truncates toward zero |
| `Fetcher.ParseRetryAfter` | src/bama_crawler/fetcher.py:96-127 | the wait is never negative; an empty value gives 0; a stripped value of digits gives its number; a value that is neither digits nor a date gives 0 |
| `Fetcher.RetryAfterSecondsRoundTrip` | src/bama_crawler/fetcher.py:108-115 | a delta-seconds value written in decimal parses back to that number |
| `Fetcher.RetryAfterPaddedSeconds` | src/bama_crawler/fetcher.py:108-115 | surrounding whitespace and leading zeros around a decimal number do not change the seconds read |
| `Fetcher.RetryAfterDate` | src/bama_crawler/fetcher.py:120-125 | an HTTP date less than a second ahead gives 0; a later date gives the whole seconds until it, truncated |
| `Fetcher.AttemptStep` | src/bama_crawler/fetcher.py:158-199 | each attempt waits for the rate limiter, then sends its one request; a returned result carries a status; an exception is retried after a backoff of `attempt` seconds |
| `Fetcher.AttemptRetryable` | src/bama_crawler/fetcher.py:170-176 | a 429 or 503 is retried with the message `retryable status N`; after the request it pauses `min(wait, 120)` seconds when the Retry-After wait is positive, then backs off `attempt` seconds |
| `Fetcher.AttemptReturned` | src/bama_crawler/fetcher.py:179-195 | any other response is returned with its headers; content and status are the rendered page and 200 exactly when rendering is on, the type is HTML, the page looks script-driven and the render is non-empty; the error is `CAPTCHA_DETECTED` exactly when the type holds `text/html` and the returned content is detected, and None otherwise; the render step happens exactly when it is tried |
| `Fetcher.Fetch` | src/bama_crawler/fetcher.py:152-203 | the result and the trace of side effects are those of attempts 1 to `retries + 1` run until one returns |
| `Fetcher.RetryOutcome` | src/bama_crawler/fetcher.py:157-203 | when every attempt is retried, the result is `(None, {}, "", last error)`; otherwise it is the result of the first attempt that returns, all earlier ones having been retried |
| `Fetcher.RetryFrom` | src/bama_crawler/fetcher.py:157-203 | attempts `k` to `last` run until one returns; `Fetcher.RetryOutcome`, `Fetcher.RetryIsPolite` and `Fetcher.RetryRequests` state its result and trace |
| `Fetcher.FetchSpec` | src/bama_crawler/fetcher.py:152-203 | the specification of `fetch`; `Fetcher.Fetch` is proved against it, and `Fetcher.FetchOutcome`, `Fetcher.FetchReturned` and `Fetcher.FetchIsPolite` state it |
| `Fetcher.FetchOutcome` | src/bama_crawler/fetcher.py:152-203 | the status is None exactly when all `retries + 1` attempts failed, and then the error is the last attempt's message |
| `Fetcher.FetchReturned` | src/bama_crawler/fetcher.py:157-195 | a result with a status comes from an answered attempt, all earlier attempts having failed: its headers, and the content and status that attempt delivers; its error is `CAPTCHA_DETECTED` exactly when the HTML test and the detector both hold, and None otherwise |
| `Fetcher.RetryIsPolite` | src/bama_crawler/fetcher.py:157-164 | in the trace, every request comes right after a rate-limiter wait for the host, with an attempt number in range |
| `Fetcher.RetryRequests` | src/bama_crawler/fetcher.py:157-164 | from attempt `k` on, the requests are numbered `k`, `k + 1`, ... in order, at most one per remaining attempt and at least one |
| `Fetcher.FetchIsPolite` | src/bama_crawler/fetcher.py:157-164 | every request of `fetch` comes right after a rate-limiter wait for the host; the requests are numbered 1, 2, ... in order, at most `retries + 1` of them and at least one when an attempt is allowed |
| `Fetcher.CaptchaMissedOnCapitalisedType` | src/bama_crawler/fetcher.py:189-195 | a page reading `captcha` served as `Text/HTML` is returned without error, although the detector would flag it |
| `Robots.ReadParser` | src/bama_crawler/robots.py:70-76 | the parser reads `https://<host>/robots.txt`; a failed read leaves `disallow_all` false |
| `Robots.CacheHitWithinTtl` | src/bama_crawler/robots.py:64-79 | a refetched entry is stamped with the current time; a later lookup within the TTL returns it and changes nothing, whatever robots.txt would now say |
| `Robots.EntryStep` | src/bama_crawler/robots.py:54-79 | the TTL rule of `_get_entry`; `Robots.CacheHitWithinTtl`, `Robots.RefetchAfterTtl` and `Robots.OtherHostsUntouched` state it |
| `Robots.RefetchAfterTtl` | src/bama_crawler/robots.py:66-78 | an entry older than the TTL is replaced by a freshly read one stamped now |
| `Robots.OtherHostsUntouched` | src/bama_crawler/robots.py:64-79 | a lookup adds or refreshes only its own host's entry |
| `Robots.AllowedBy` | src/bama_crawler/robots.py:93-96 | false exactly when the parser answers no; an exception allows |
| `Robots.DelayOf` | src/bama_crawler/robots.py:109-113 | some delay exactly when the parser gives a non-zero number, and then that number; None on an exception |
| `Robots.RobotsCache.constructor` | src/bama_crawler/robots.py:42-52 | an empty cache with the agent and TTL given |
| `Robots.RobotsCache.GetEntry` | src/bama_crawler/robots.py:54-79 | the entry and the new cache are those of the TTL rule for the URL's host |
| `Robots.RobotsCache.Allowed` | src/bama_crawler/robots.py:81-96 | the cache is updated by the TTL rule and the answer fails open |
| `Robots.RobotsCache.CrawlDelay` | src/bama_crawler/robots.py:98-113 | the cache is updated by the TTL rule and the delay is that of `DelayOf` |
| `Schedule.ConfiguredDomain` | src/bama_crawler/frontier.py:65-69 | the configured domain has no capital letter; it is undefined exactly for an empty list, where the source raises |
| `Schedule.WithDomain` | src/bama_crawler/frontier.py:61-69 | the crawler's settings are the configuration's, except that the domain is the configured one stripped and lower-cased |
| `Schedule.SeedUrls` | src/bama_crawler/frontier.py:199-203 | every seed pushed is non-empty and the normalisation of some seed, and there are no more of them than seeds |
| `Schedule.SeedUrlsComplete` | src/bama_crawler/frontier.py:199-203 | every seed whose normalisation is truthy is pushed |
| `Schedule.SeedUrlsConcat` | src/bama_crawler/frontier.py:199-203 | seeds are pushed in their order: the URLs of two seed lists are those of the first followed by those of the second |
| `Schedule.Capacity` | src/bama_crawler/frontier.py:428-432 | the capacity is positive exactly when there is a free slot and a page left; it then overshoots neither and fills one of them exactly |
| `Schedule.BatchAccounting` | src/bama_crawler/frontier.py:436-465 | every popped row is accounted once: as a duplicate, robots-blocked, re-queued, dispatched or dropped; no other counter changes |
| `Schedule.Classify` | src/bama_crawler/frontier.py:440-461 | the filter chain in its order; `Schedule.DispatchedAreAdmitted` states what passing it means |
| `Schedule.RowStep` | src/bama_crawler/frontier.py:440-465 | one row that does not break the loop; `Schedule.BatchAccounting` states its bookkeeping |
| `Schedule.RunBatch` | src/bama_crawler/frontier.py:436-465 | the batch loop with its `break`; `Schedule.BatchAccounting`, `Schedule.HaltedDropsBatch`, `Schedule.BatchNeverOverfills`, `Schedule.DispatchedAreAdmitted` and `Schedule.RequeueRestoresEntries` state it, and `Crawl.Crawler.RunRows` is proved against it |
| `Schedule.HaltedDropsBatch` | src/bama_crawler/frontier.py:437-438 | with the stop or pause flag set, the whole remaining batch is dropped and nothing else changes |
| `Schedule.BatchNeverOverfills` | src/bama_crawler/frontier.py:463-465 | tasks in flight plus tasks dispatched never exceed the in-flight limit |
| `Schedule.DispatchedAreAdmitted` | src/bama_crawler/frontier.py:440-465 | every dispatched task comes from a popped row that passed every filter (unseen at the start of the batch, within depth, in domain, allowed by robots, not quarantined); earlier dispatches are kept; the seen set only grows |
| `Schedule.RequeueRestoresEntries` | src/bama_crawler/frontier.py:457-461 | the batch keeps every frontier entry; an entry it adds is a quarantined row re-pushed with its own priority, depth and parent |
| `Schedule.OutcomeOf` | src/bama_crawler/frontier.py:535-553 | an answer is a CAPTCHA exactly on the `CAPTCHA_DETECTED` error, an error on any other non-empty error, and an HTML page exactly when error-free, 2xx, HTML and non-empty |
| `Schedule.SavedBytes` | src/bama_crawler/storage.py:42-59 | the bytes counted for a page are the smaller of its length and 10 MiB: at most both, and equal to one of them |
| `Schedule.Window` | src/bama_crawler/frontier.py:140-141 | a sample window holds at most 200 samples and grows by one until full |
| `Schedule.WindowKeepsLatest` | src/bama_crawler/frontier.py:140-141 | the window is the newest samples in order, ending with the one just added |
| `Schedule.LinkStepFacts` | src/bama_crawler/frontier.py:564-589 | one link joins the internal or the external set by the domain test; that side's counter becomes the set size when the link is new; an edge is recorded; only an internal link is pushed, one level deeper, and a refused push is counted |
| `Schedule.LinkFoldSets` | src/bama_crawler/frontier.py:564-580 | after the link loop, each unique set has grown by exactly the page's links of that side |
| `Schedule.LinkFoldCounts` | src/bama_crawler/frontier.py:572-580 | after the link loop, each unique counter is the set size if the set grew, and is unchanged otherwise |
| `Schedule.LinkFoldFrontier` | src/bama_crawler/frontier.py:585-589 | the link loop pushes exactly the internal links, in order, at depth + 1, and counts each refused push |
| `Schedule.LinkFoldEdges` | src/bama_crawler/frontier.py:582-583 | the link loop records one edge from the page to each link, in order, duplicates included |
| `Schedule.CountPage` | src/bama_crawler/frontier.py:592-598 | the count rises by one exactly when below `max_pages` and not stopped, never past `max_pages`; the stop flag is set when stopped or when this count reaches the limit |
| `Schedule.BudgetNeverOvershoots` | src/bama_crawler/frontier.py:592-598 | `k` pages counted from below the limit give `min(max_pages, pages_ok + k)`; the stop flag is raised exactly when the limit is reached |
| `Schedule.StoppedCountsNothing` | src/bama_crawler/frontier.py:593-594 | once stopped, no page is counted |
| `Schedule.NothingLeftCountsNothing` | src/bama_crawler/frontier.py:593-594 | at or past the limit, no page is counted and the stop flag stays as it was |
| `Schedule.AdaptKeepsBounds` | src/bama_crawler/frontier.py:631-635 | with a non-negative step, the adapted limit stays within `[ad_min, ad_max]` |
| `Schedule.AdaptedLimit` | src/bama_crawler/frontier.py:622-635 | `_maybe_adapt`'s new limit; `Schedule.AdaptKeepsBounds` and `Schedule.AdaptDirection` state it |
| `Schedule.NegativeStepLeavesBounds` | src/bama_crawler/frontier.py:631-632 | with step -2, a limit of 4 and minimum 4 is lowered to 2 on fast, error-free samples |
| `Schedule.AdaptDirection` | src/bama_crawler/frontier.py:622-635 | with fewer than 10 samples the limit is unchanged; it rises only on the grow condition and falls only on the shrink condition; when neither holds it is unchanged; with 10 samples a shrink never raises it, shrinking alone gives `max(ad_min, limit - step)` and growing alone `min(ad_max, limit + step)` |
| `Steps.SampledWindows` | src/bama_crawler/frontier.py:529-532 | after a fetch the error window ends with its 0/1 flag; with an elapsed time the latency window ends with it and the timing is recorded; without one both stay; all windows stay at most 200 long |
| `Steps.ProcessStep` | src/bama_crawler/frontier.py:495-617 | `_fetch_and_process` after the fetch; the `Steps.Process...` lemmas state each of its effects, and `Crawl.Crawler.Process` is proved against it |
| `Steps.ProcessSamples` | src/bama_crawler/frontier.py:528-532 | the samples are taken on every path through the worker |
| `Steps.ProcessRecords` | src/bama_crawler/frontier.py:539-614 | exactly one record is saved per processed URL, on every path |
| `Steps.ProcessErrorCount` | src/bama_crawler/frontier.py:535-550 | the error count rises by one exactly when the fetch reported an error, CAPTCHA included |
| `Steps.ProcessNonHtmlCount` | src/bama_crawler/frontier.py:609-612 | the non-HTML count rises by one exactly on an error-free 2xx answer that is not a non-empty HTML page |
| `Steps.ProcessPageCount` | src/bama_crawler/frontier.py:592-598 | the page count rises by one exactly on an HTML page found below the limit and not stopped |
| `Steps.ProcessStopFlag` | src/bama_crawler/frontier.py:592-598 | the stop flag changes only on an HTML page, as the guarded count sets it |
| `Steps.ProcessBudget` | src/bama_crawler/frontier.py:592-598 | processing never takes the page count past `max_pages`, never clears the stop flag, and sets it when it counts the last page |
| `Steps.ProcessSeen` | src/bama_crawler/frontier.py:535-550 | a CAPTCHA URL is not marked seen; on every other path the URL is marked seen |
| `Steps.ProcessQuarantine` | src/bama_crawler/frontier.py:535-537 | a CAPTCHA quarantines the URL's host until now plus `captcha_quarantine_sec` |
| `Steps.ProcessQuarantineOnlyOnCaptcha` | src/bama_crawler/frontier.py:544-617 | no other path touches the quarantine |
| `Steps.ProcessRequeue` | src/bama_crawler/frontier.py:538 | after a CAPTCHA the URL is queued again, with priority and depth equal to its depth, unless it was already queued |
| `Steps.InternalLinksSound` | src/bama_crawler/frontier.py:586-587 | the links pushed are links of the page that pass the domain test |
| `Steps.PageWorkFrontier` | src/bama_crawler/frontier.py:585-589 | a page's work keeps every frontier entry and adds only internal links of the page, one level deeper, with the page as parent |
| `Steps.ProcessFrontier` | src/bama_crawler/frontier.py:535-589 | a CAPTCHA re-pushes the URL; an HTML page pushes its internal links in order; other paths leave the frontier alone |
| `Steps.PageWorkLinks` | src/bama_crawler/frontier.py:572-580 | a page's work grows each unique set by its links of that side and updates the counters to match |
| `Steps.ProcessLinksOnlyOnPages` | src/bama_crawler/frontier.py:553-555 | off the HTML path, the link sets, counters and edges do not change |
| `Steps.ProcessLinkSides` | src/bama_crawler/frontier.py:572-580 | the internal set holds only in-domain URLs and the external set only off-domain ones, and processing keeps it so |
| `Steps.CycleFlags` | src/bama_crawler/frontier.py:411-425 | a pass exits exactly when stopped or at the page limit; it waits exactly when paused otherwise; a pass that does not run changes nothing; one that runs stamps a due checkpoint with `now`, sets the pause flag exactly at a pausing checkpoint, and never sets the stop flag |
| `Steps.CycleStep` | src/bama_crawler/frontier.py:411-489 | one pass of `run`; `Steps.CycleFlags`, `Steps.CycleAccounting`, `Steps.CycleDispatch`, `Steps.CycleFrontier` and `Steps.CycleLimitBounds` state it, and `Crawl.Crawler.Cycle` is proved against it |
| `Steps.CycleAccounting` | src/bama_crawler/frontier.py:428-465 | in a pass, every popped row is counted once as a duplicate, robots-blocked, re-queued, dispatched or dropped; no other counter and no link state changes |
| `Steps.CycleDispatch` | src/bama_crawler/frontier.py:431-465 | a pass never fills more than the in-flight limit; each task comes from a popped row that passed every filter; the seen set only grows |
| `Steps.CycleFrontier` | src/bama_crawler/frontier.py:434-461 | after a pass the frontier is the unpopped rest plus re-queued rows, with their own entries |
| `Steps.PausingCheckpointDropsBatch` | src/bama_crawler/frontier.py:420-438 | when a checkpoint pauses the crawl, the popped batch is dropped whole: nothing dispatched, nothing re-queued, the rows gone from the frontier and not seen |
| `Steps.CycleLimitBounds` | src/bama_crawler/frontier.py:488-489 | with a non-negative step, a pass keeps the in-flight limit within `[ad_min, ad_max]` |
| `Crawl.InitialCounters` | src/bama_crawler/frontier.py:96-113 | counters start at zero; a checkpoint restores `pages_ok` and the two unique-link counts only |
| `Crawl.Crawler.constructor` | src/bama_crawler/frontier.py:53-149 | a new crawler's domain is the configured one stripped and lower-cased; it has empty sets, windows and records, both flags clear, the limit at `ad_min`, and the counters of `InitialCounters` |
| `Crawl.Crawler.Seed` | src/bama_crawler/frontier.py:180-208 | on resume nothing changes; otherwise the normalised seeds are pushed at priority 0, depth 0, without a parent, and every refused push is counted; nothing else changes |
| `Crawl.Crawler.Pause` | src/bama_crawler/frontier.py:210-218 | sets the pause flag and changes nothing else |
| `Crawl.Crawler.Resume` | src/bama_crawler/frontier.py:220-228 | clears the pause flag and changes nothing else |
| `Crawl.Crawler.Stop` | src/bama_crawler/frontier.py:230-238 | sets the stop flag, clears the pause flag and changes nothing else |
| `Crawl.Crawler.Cycle` | src/bama_crawler/frontier.py:411-489 | one pass of `run` pops a batch as `IsCycleBatch` allows and leaves the state, tasks and dropped rows as `CycleStep` specifies |
| `Crawl.Crawler.Checkpoint` | src/bama_crawler/frontier.py:420-425 | a due checkpoint stamps the time and pauses when so configured; a checkpoint not due changes nothing |
| `Crawl.Crawler.ScheduleBatch` | src/bama_crawler/frontier.py:428-465 | with no capacity nothing is popped; otherwise twice the capacity is popped by priority, and the batch loop leaves the counters, seen table and frontier as `BatchFrom` specifies |
| `Crawl.Crawler.RunRows` | src/bama_crawler/frontier.py:436-465 | the batch loop over popped rows does what `RunBatch` specifies |
| `Crawl.Crawler.VisitRow` | src/bama_crawler/frontier.py:436-465 | one row breaks the loop exactly when `Breaks` says, leaving everything as it was; otherwise it applies `RowStep` |
| `Crawl.Crawler.Admit` | src/bama_crawler/frontier.py:511-514 | the worker proceeds exactly when pages are left and the crawler is not stopped |
| `Crawl.Crawler.Process` | src/bama_crawler/frontier.py:516-620 | processing a fetched URL leaves the state that `ProcessStep` specifies |
| `Crawl.Crawler.RecordSamples` | src/bama_crawler/frontier.py:528-532 | the samples after a fetch are those of `Sampled` |
| `Crawl.Crawler.SampleTiming` | src/bama_crawler/frontier.py:529-531 | the timing is appended and the latency enters its window; nothing else changes |
| `Crawl.Crawler.SampleError` | src/bama_crawler/frontier.py:532 | the 0/1 error flag enters its window; nothing else changes |
| `Crawl.Crawler.OnCaptcha` | src/bama_crawler/frontier.py:535-542 | quarantine, re-push, record and error count as `CaptchaStep` specifies |
| `Crawl.Crawler.OnError` | src/bama_crawler/frontier.py:545-550 | record, error count and seen mark as `ErrorStep` specifies |
| `Crawl.Crawler.OnPage` | src/bama_crawler/frontier.py:555-602 | the page work, then the record, as `PageStep` specifies |
| `Crawl.Crawler.OnOther` | src/bama_crawler/frontier.py:609-614 | the non-HTML count and the record, as `OtherStep` specifies |
| `Crawl.Crawler.ProcessPage` | src/bama_crawler/frontier.py:555-598 | the saved bytes, the link loop and the guarded count of `PageWork` |
| `Crawl.Crawler.ProcessLinks` | src/bama_crawler/frontier.py:563-589 | the link loop leaves the link state that `LinkFold` specifies |
| `Crawl.Crawler.VisitLink` | src/bama_crawler/frontier.py:564-589 | one link of the loop, as `LinkStep` specifies |
| `Crawl.Crawler.NoteUnique` | src/bama_crawler/frontier.py:572-580 | the link enters its side's unique set, and that side's counter follows the set |
| `Crawl.Crawler.NoteInternal` | src/bama_crawler/frontier.py:573-576 | the internal side of `NoteUnique` |
| `Crawl.Crawler.NoteExternal` | src/bama_crawler/frontier.py:577-580 | the external side of `NoteUnique` |
| `Crawl.Crawler.QueueChild` | src/bama_crawler/frontier.py:586-589 | an internal link is pushed one level deeper with the page as parent; a refused push is counted |
| `Crawl.Crawler.MaybeAdapt` | src/bama_crawler/frontier.py:622-635 | the in-flight limit becomes `AdaptedLimit` of the windows, the queue size and the old limit; nothing else changes |

## Findings

| source | as written | input that shows it | evidently intended | confidence | as-written member | corrected member |
|---|---|---|---|---|---|---|
| src/bama_crawler/utils.py:108 | `wait` stores `now + delay`. When the key was idle, `delay` is negative and the stored time lies in the past (`last + min_delay`) | `min_delay` 1, key unused (last 0), calls at 1000.0 and 1000.5: neither sleeps, and the requests are 0.5 s apart | store the time the wait ends, `now + max(delay, 0)`, so consecutive requests on a key are at least `min_delay` apart | medium, not executed | `Url.RateLimiter.Wait`, `Url.IdleKeyLetsBurstThrough` | `Url.IntendedReservation`, `Url.IntendedSpacing` |

## Left out

- Concurrency is not modelled: the thread pool, `cf.wait`, the per-host semaphores, the locks and the pause condition variable. Each operation is one atomic step. The number of tasks in flight is a parameter (`active`). The race between a worker's entry guard (`Admit`) and its later page count is therefore not modelled; the guarded count in `CountPage` is.
- The pause wait (frontier.py:413-417) is the `Waiting` outcome of a pass. Waking up comes from `Resume` or `Stop`.
- The `remaining == 0` break (frontier.py:428-430) cannot happen: the loop condition just checked `pages_ok < max_pages`. `Capacity` and `CycleOutcomeOf` cover it.
- The clock is left out. Each step takes one reading, `now`. This includes the second `time.time()` in the quarantine test (frontier.py:459), which the model takes equal to the cycle's reading.
- Network, browser and file I/O are left out. What each fetch attempt returned is the parameter `outcomes`. The robots.txt read is `read`, and the verdicts of `RobotFileParser` are `canFetch` and `delay`.
- Sleeps are not executed: `time.sleep` in `fetch` and in `RateLimiter.wait` becomes a `Sleep` action or the returned sleep time.
- The storage side effects are left out: files, the CSV/JSONL writers and the SHA-256 path. Records and edges are kept as sequences, and `save_html` as the byte count it returns (`SavedBytes`).
- `_write_checkpoint`, the JSON status snapshot, the final report, the charts, the progress bar, the key listener and the signal handler are user interface and file I/O. They are not modelled.
- The checkpoint read (frontier.py:167-176) is the `restored` parameter of the constructor. A missing or unreadable file is None.
- The library's URL functions are passed in, not modelled: `urljoin`, `urldefrag`, `quote`, `unquote`, `urlunsplit` and `parsedate_to_datetime`. `urlsplit(...).netloc` is modelled for URLs whose scheme `urlsplit` recognises (`Url.Netloc`).
- `len(html.strip()) < 1000` counts characters of the text. The model does not distinguish characters from bytes, and `.content` from `.text`: content is a string throughout.
- `str.lower` and `str.strip` are modelled on ASCII letters and the ASCII whitespace set only.
- `Text.IsDigits`: `str.isdigit` also accepts non-ASCII digits (and digit-like characters such as superscripts), which the model does not; `Fetcher.ParseRetryAfter` therefore reads only ASCII delta-seconds.
- The response headers are a plain map, looked up case-sensitively by the exact names the source uses. `requests` uses a case-insensitive dictionary, which the model does not.
- What `can_fetch` answers after a failed robots.txt read (`ReadFailed`) is left to the `canFetch` parameter and not constrained. The standard library's `RobotFileParser` keeps `last_checked` at 0 after a failed `read()`, and its `can_fetch` then answers no. So setting `disallow_all = False` at robots.py:76 probably does not make the crawler allow the URL; this is library behaviour, not executed and not modelled.
- HTML parsing by BeautifulSoup is not modelled. `extract_links` receives the `href` values in document order.
- The `str(content)` branch of fetcher.py:190 is not modelled, because content is always text in the model.
- `dup_count` (frontier.py:104) is computed only by `_final_report`, as `dup_seen + dup_insert_ignored` (frontier.py:711). The final report is not modelled, so neither is `dup_count`.
- `Schedule.AdaptKeepsBounds`: it requires `adaptive_step >= 0`, because a negative step leaves the bounds (`Schedule.NegativeStepLeavesBounds`).
- `Steps.CycleLimitBounds`: it requires `adaptive_step >= 0`, for the same reason.
- Exceptions raised by the SQLite layer are not modelled. Each database call succeeds, and `frontier_size` never falls back to 0 in `seed`.
