/**
 * `fetcher.py`: the retry loop of `Fetcher.fetch` and its three helpers. What
 * each attempt's request returns (or raises), what the headless browser renders
 * and how an HTTP date is parsed are passed in; the waits, requests, renders and
 * sleeps the loop performs are returned as a trace of actions.
 */
module Fetcher {
  import opened Wrappers
  import opened Text

  type Headers = map<string, string>

  /** The eight markers of `_detect_captcha`, searched in the lower-cased page. */
  const CaptchaMarkers: seq<string> := [
    "captcha", "g-recaptcha", "hcaptcha",
    "cf-challenge", "cf-turnstile",
    "are you human", "bot verification", "attention required"
  ]

  /** `any(k in lower for k in keys)`. */
  predicate AnyMarker(lower: string, markers: seq<string>)
  {
    exists i :: 0 <= i < |markers| && Contains(lower, markers[i])
  }

  /** `_detect_captcha`: false on an empty page, else a marker occurs in the lower-cased page. */
  predicate DetectCaptcha(html: string)
  {
    html != "" && AnyMarker(Lower(html), CaptchaMarkers)
  }

  /**
   * Two of the eight markers are redundant: every page containing `g-recaptcha`
   * or `hcaptcha` already contains `captcha`.
   */
  lemma {:induction false} CaptchaSixMarkers(html: string)
    ensures DetectCaptcha(html) <==> html != "" && AnyMarker(Lower(html), [
      "captcha", "cf-challenge", "cf-turnstile",
      "are you human", "bot verification", "attention required"])
  {
    var lower := Lower(html);
    var six := ["captcha", "cf-challenge", "cf-turnstile", "are you human", "bot verification", "attention required"];
    if Contains(lower, "g-recaptcha") {
      ContainsAt("g-recaptcha", "captcha", 4);
      ContainsTransitive(lower, "g-recaptcha", "captcha");
    }
    if Contains(lower, "hcaptcha") {
      ContainsAt("hcaptcha", "captcha", 1);
      ContainsTransitive(lower, "hcaptcha", "captcha");
    }
    if AnyMarker(lower, CaptchaMarkers) {
      var i :| 0 <= i < |CaptchaMarkers| && Contains(lower, CaptchaMarkers[i]);
      if i <= 2 {
        assert Contains(lower, six[0]);
      } else {
        assert Contains(lower, six[i - 2]);
      }
    }
    if AnyMarker(lower, six) {
      var i :| 0 <= i < |six| && Contains(lower, six[i]);
      if i == 0 {
        assert Contains(lower, CaptchaMarkers[0]);
      } else {
        assert Contains(lower, CaptchaMarkers[i + 2]);
      }
    }
  }

  /** Detection ignores the case of the page. */
  lemma CaptchaIgnoresCase(html: string)
    ensures DetectCaptcha(Lower(html)) == DetectCaptcha(html)
  {
    LowerIdempotent(html);
  }

  /** `"window.__INITIAL_STATE__" in lower`: a literal with capitals, searched for in a lower-cased page. */
  predicate InitialStateMarker(lower: string)
  {
    Contains(lower, "window.__INITIAL_STATE__")
  }

  /** `_looks_js_page`, as written. */
  predicate LooksJsPage(html: string)
  {
    var lower := Lower(html);
    || Contains(lower, "<div id=\"app\"")
    || Contains(lower, "<div id='app'")
    || Contains(lower, "id=\"__next\"")
    || InitialStateMarker(lower)
    || |Strip(html)| < 1000
  }

  /** The Vuex/Redux marker can never match, so only four tests decide. */
  lemma {:induction false} InitialStateMarkerDead(html: string)
    ensures !InitialStateMarker(Lower(html))
    ensures LooksJsPage(html) <==>
      || Contains(Lower(html), "<div id=\"app\"")
      || Contains(Lower(html), "<div id='app'")
      || Contains(Lower(html), "id=\"__next\"")
      || |Strip(html)| < 1000
  {
    LowerHasNoUpper(html);
    var marker := "window.__INITIAL_STATE__";
    assert !NoUpper(marker) by {
      assert IsUpper(marker[9]);
    }
    if InitialStateMarker(Lower(html)) {
      ContainsKeepsNoUpper(Lower(html), "window.__INITIAL_STATE__");
    }
  }

  /** `int(x)` on a float: truncation toward zero. */
  function TruncToInt(x: real): (n: int)
    ensures x >= 0.0 ==> n as real <= x < n as real + 1.0
    ensures x < 0.0 ==> n as real - 1.0 < x <= n as real
  {
    if x >= 0.0 then x.Floor else -((-x).Floor)
  }

  /**
   * `_parse_retry_after`: delta-seconds, or an HTTP date (`parseDate` gives its
   * instant in seconds, None when it does not parse) less the clock reading
   * `now`; never negative, 0 when nothing parses.
   */
  function ParseRetryAfter(value: string, parseDate: string -> Option<real>, now: real): (w: int)
    ensures w >= 0
    ensures value == "" ==> w == 0
    ensures value != "" && IsDigits(Strip(value)) ==> w == DigitsValue(Strip(value))
    ensures value != "" && !IsDigits(Strip(value)) && parseDate(Strip(value)).None? ==> w == 0
  {
    if value == "" then 0
    else
      var v := Strip(value);
      if IsDigits(v) then Max(0, DigitsValue(v))
      else
        match parseDate(v)
        case None => 0
        case Some(t) => Max(0, TruncToInt(t - now))
  }

  lemma {:induction false} DigitsUnstripped(s: string)
    requires IsDigits(s)
    ensures Strip(s) == s
  {
    assert TrimLeft(s) == s;
    assert !IsSpace(s[|s| - 1]);
  }

  /** A delta-seconds value reads back as the number written. */
  lemma {:induction false} RetryAfterSecondsRoundTrip(n: nat, parseDate: string -> Option<real>, now: real)
    ensures ParseRetryAfter(Decimal(n), parseDate, now) == n
  {
    DecimalRoundTrip(n);
    DigitsUnstripped(Decimal(n));
  }

  /** Surrounding whitespace and leading zeros do not change the delta-seconds read. */
  lemma RetryAfterPaddedSeconds(pre: string, zeros: string, n: nat, post: string,
                                parseDate: string -> Option<real>, now: real)
    requires forall i :: 0 <= i < |pre| ==> IsSpace(pre[i])
    requires forall i :: 0 <= i < |zeros| ==> zeros[i] == '0'
    requires forall i :: 0 <= i < |post| ==> IsSpace(post[i])
    ensures ParseRetryAfter(pre + zeros + Decimal(n) + post, parseDate, now) == n
  {
    DecimalRoundTrip(n);
    var d := zeros + Decimal(n);
    assert IsDigits(d) by {
      forall i | 0 <= i < |d| ensures IsDigit(d[i]) {
        if i >= |zeros| {
          assert d[i] == Decimal(n)[i - |zeros|];
        }
      }
    }
    LeadingZerosValue(zeros, Decimal(n));
    assert pre + zeros + Decimal(n) + post == pre + d + post;
    StripPadded(pre, d, post);
  }

  /** A date less than a second ahead, or in the past, means no wait; a later one, its whole seconds. */
  lemma {:induction false} RetryAfterDate(value: string, parseDate: string -> Option<real>, now: real, t: real)
    requires value != "" && !IsDigits(Strip(value)) && parseDate(Strip(value)) == Some(t)
    ensures t < now + 1.0 ==> ParseRetryAfter(value, parseDate, now) == 0
    ensures t >= now ==> ParseRetryAfter(value, parseDate, now) as real <= t - now < ParseRetryAfter(value, parseDate, now) as real + 1.0
  {
    var n := TruncToInt(t - now);
    if t < now + 1.0 {
      assert n <= 0;
    }
  }

  /** What one attempt's `session.get` did; `rendered` is what the browser would return, `clock` the time the Retry-After date is measured from. */
  datatype Attempt =
    | Raised(message: string)
    | Response(status: int, headers: Headers, text: string, rendered: Option<string>, clock: real)

  /** The tuple `fetch` returns, without the elapsed time: status, headers, content, error. */
  datatype FetchResult = FetchResult(status: Option<int>, headers: Headers, content: string, error: Option<string>)

  /** The side effects of an attempt, in order. */
  datatype Action = RateWait(host: string) | Request(attempt: nat) | Render | Sleep(seconds: real)

  /** An attempt either returns from `fetch` or is caught and retried with an error message. */
  datatype Step = Returned(result: FetchResult, actions: seq<Action>) | Retried(error: string, actions: seq<Action>)

  /** `resp.headers.get(name, "") or ""`. */
  function HeaderOr(h: Headers, name: string): string
  {
    if name in h then h[name] else ""
  }

  /** The message of the exception raised on a retryable status. */
  function RetryableMessage(status: nat): string
  {
    "retryable status " + Decimal(status)
  }

  /** One pass of the loop body, attempt number `k`. */
  function AttemptStep(host: string, k: nat, a: Attempt, enableRender: bool, parseDate: string -> Option<real>): (s: Step)
    ensures StepShape(host, k, s)
    ensures s.Returned? ==> s.result.status.Some?
    ensures a.Raised? ==> s == Retried(a.message, [RateWait(host), Request(k), Sleep(k as real)])
  {
    var pre := [RateWait(host), Request(k)];
    match a
    case Raised(m) => Retried(m, pre + [Sleep(k as real)])
    case Response(status, h, text, rendered, clock) =>
      var ct := HeaderOr(h, "Content-Type");
      if status == 429 || status == 503 then
        var w := ParseRetryAfter(HeaderOr(h, "Retry-After"), parseDate, clock);
        var pause := if w > 0 then [Sleep(Min(w, 120) as real)] else [];
        Retried(RetryableMessage(status), pre + pause + [Sleep(k as real)])
      else
        var tryRender := enableRender && Contains(ct, "text/html") && LooksJsPage(text);
        var useRendered := tryRender && rendered.Some? && rendered.value != "";
        var content := if useRendered then rendered.value else text;
        var st := if useRendered then 200 else status;
        var acts := pre + (if tryRender then [Render] else []);
        if Contains(ct, "text/html") && DetectCaptcha(content) then
          Returned(FetchResult(Some(st), h, content, Some("CAPTCHA_DETECTED")), acts)
        else
          Returned(FetchResult(Some(st), h, content, None), acts)
  }

  /** A response `fetch` does not retry: neither 429 nor 503. */
  predicate Answered(a: Attempt)
  {
    a.Response? && a.status != 429 && a.status != 503
  }

  /** The page is rendered: rendering is on, the type is HTML and the page looks script-driven. */
  predicate RenderTried(enableRender: bool, a: Attempt)
    requires a.Response?
  {
    enableRender && Contains(HeaderOr(a.headers, "Content-Type"), "text/html") && LooksJsPage(a.text)
  }

  /**
   * The content and status handed back for an answered response: the
   * rendered page with status 200 when a render was tried and came back
   * non-empty, the response's own text and status otherwise.
   */
  function Delivered(enableRender: bool, a: Attempt): (string, int)
    requires a.Response?
  {
    if RenderTried(enableRender, a) && a.rendered.Some? && a.rendered.value != "" then (a.rendered.value, 200)
    else (a.text, a.status)
  }

  /**
   * A 429 or 503 is retried with the message `retryable status N`: after the
   * wait and the request, a pause of the Retry-After seconds capped at 120
   * when there are any, then the backoff of `k` seconds.
   */
  lemma AttemptRetryable(host: string, k: nat, a: Attempt, enableRender: bool, parseDate: string -> Option<real>)
    requires a.Response? && (a.status == 429 || a.status == 503)
    ensures var s := AttemptStep(host, k, a, enableRender, parseDate);
      var w := ParseRetryAfter(HeaderOr(a.headers, "Retry-After"), parseDate, a.clock);
      && s.Retried? && s.error == RetryableMessage(a.status)
      && (w > 0 ==> s.actions == [RateWait(host), Request(k), Sleep(Min(w, 120) as real), Sleep(k as real)])
      && (w == 0 ==> s.actions == [RateWait(host), Request(k), Sleep(k as real)])
  {
  }

  /**
   * An answered response is returned with its headers; its content and
   * status are the rendered page's exactly when a render was tried and came
   * back non-empty; it is flagged `CAPTCHA_DETECTED` exactly when the
   * Content-Type holds `text/html` and the returned content looks like a
   * challenge, and carries no error otherwise; the render happens exactly
   * when it was tried.
   */
  lemma AttemptReturned(host: string, k: nat, a: Attempt, enableRender: bool, parseDate: string -> Option<real>)
    requires Answered(a)
    ensures var s := AttemptStep(host, k, a, enableRender, parseDate);
      && s.Returned? && s.result.headers == a.headers
      && (s.result.content, s.result.status) == (Delivered(enableRender, a).0, Some(Delivered(enableRender, a).1))
      && (s.result.error == Some("CAPTCHA_DETECTED") <==>
            Contains(HeaderOr(a.headers, "Content-Type"), "text/html") && DetectCaptcha(s.result.content))
      && (s.result.error == None || s.result.error == Some("CAPTCHA_DETECTED"))
      && (Render in s.actions <==> RenderTried(enableRender, a))
  {
  }

  /**
   * Attempts `k` to `last` of the loop, where `steps(j)` is what attempt `j`
   * does and `lastErr` the error of the attempt before `k`.
   */
  function RetryFrom(k: nat, last: nat, steps: nat -> Step, lastErr: Option<string>): (FetchResult, seq<Action>)
    decreases last + 1 - k
  {
    if k > last then (FetchResult(None, map[], "", lastErr), [])
    else
      match steps(k)
      case Returned(res, acts) => (res, acts)
      case Retried(err, acts) =>
        var (res, rest) := RetryFrom(k + 1, last, steps, Some(err));
        (res, acts + rest)
  }

  /** What each attempt does, by attempt number. */
  function StepsOf(host: string, outcomes: nat -> Attempt, enableRender: bool, parseDate: string -> Option<real>): nat -> Step
  {
    (k: nat) => AttemptStep(host, k, outcomes(k), enableRender, parseDate)
  }

  /** `range(1, retries + 2)` has this many attempts. */
  function AttemptCount(retries: int): nat
  {
    Max(0, retries + 1)
  }

  /** The specification of `fetch`: attempts 1 to `retries + 1`, outcome `outcomes(k)` for attempt `k`. */
  function FetchSpec(host: string, retries: int, outcomes: nat -> Attempt, enableRender: bool,
                     parseDate: string -> Option<real>): (FetchResult, seq<Action>)
  {
    RetryFrom(1, AttemptCount(retries), StepsOf(host, outcomes, enableRender, parseDate), None)
  }

  /**
   * `fetch(url)` for the host `host` of the URL: wait for the rate limiter,
   * request, turn 429 and 503 into a retry after any Retry-After pause,
   * optionally render a JavaScript page, flag CAPTCHA pages, and back off
   * `attempt` seconds after each failure.
   */
  method Fetch(host: string, retries: int, outcomes: nat -> Attempt, enableRender: bool,
               parseDate: string -> Option<real>) returns (result: FetchResult, actions: seq<Action>)
    ensures (result, actions) == FetchSpec(host, retries, outcomes, enableRender, parseDate)
  {
    var steps := StepsOf(host, outcomes, enableRender, parseDate);
    var lastErr: Option<string> := None;
    actions := [];
    var last := AttemptCount(retries);
    var attempt := 1;
    ghost var spec := FetchSpec(host, retries, outcomes, enableRender, parseDate);
    assert actions + RetryFrom(attempt, last, steps, lastErr).1 == RetryFrom(attempt, last, steps, lastErr).1;
    while attempt <= last
      invariant 1 <= attempt <= last + 1
      invariant spec == (RetryFrom(attempt, last, steps, lastErr).0, actions + RetryFrom(attempt, last, steps, lastErr).1)
      decreases last + 1 - attempt
    {
      var step := steps(attempt);
      match step {
        case Returned(res, acts) =>
          RetryFromReturned(spec, actions, attempt, last, steps, lastErr, step);
          result := res;
          actions := actions + acts;
          return;
        case Retried(err, acts) =>
          RetryFromRetried(spec, actions, attempt, last, steps, lastErr, step);
          lastErr := Some(err);
          actions := actions + acts;
          attempt := attempt + 1;
      }
    }
    result := FetchResult(None, map[], "", lastErr);
    assert actions + [] == actions;
  }

  /** An attempt that returns ends the loop with its result and actions. */
  lemma RetryFromReturned(spec: (FetchResult, seq<Action>), done: seq<Action>, k: nat, last: nat, steps: nat -> Step,
                          lastErr: Option<string>, s: Step)
    requires k <= last && steps(k) == s && s.Returned?
    requires spec == (RetryFrom(k, last, steps, lastErr).0, done + RetryFrom(k, last, steps, lastErr).1)
    ensures spec == (s.result, done + s.actions)
  {
  }

  /** An attempt that fails hands its error and actions on to the next attempt. */
  lemma RetryFromRetried(spec: (FetchResult, seq<Action>), done: seq<Action>, k: nat, last: nat, steps: nat -> Step,
                         lastErr: Option<string>, s: Step)
    requires k <= last && steps(k) == s && s.Retried?
    requires spec == (RetryFrom(k, last, steps, lastErr).0, done + RetryFrom(k, last, steps, lastErr).1)
    ensures spec == (RetryFrom(k + 1, last, steps, Some(s.error)).0, (done + s.actions) + RetryFrom(k + 1, last, steps, Some(s.error)).1)
  {
    StepAppend(done, s.actions, RetryFrom(k + 1, last, steps, Some(s.error)).1);
  }

  lemma StepAppend(a: seq<Action>, b: seq<Action>, c: seq<Action>)
    ensures a + (b + c) == (a + b) + c
  {
  }

  /** Every attempt from `k` to `last` fails and is retried. */
  predicate AllRetried(k: int, last: int, steps: nat -> Step)
  {
    forall j: nat :: k <= j <= last ==> steps(j).Retried?
  }

  /**
   * The loop gives up, with no headers, no content and the last attempt's
   * error, exactly when every attempt failed; otherwise it returns what the
   * first attempt that did not fail produced.
   */
  lemma {:induction false} RetryOutcome(k: nat, last: nat, steps: nat -> Step, lastErr: Option<string>)
    ensures var (r, _) := RetryFrom(k, last, steps, lastErr);
      && (AllRetried(k, last, steps) ==>
            r == FetchResult(None, map[], "", if k > last then lastErr else Some(steps(last).error)))
      && (!AllRetried(k, last, steps) ==>
            exists j :: k <= j <= last && AllRetried(k, j - 1, steps) && steps(j).Returned? && r == steps(j).result)
    decreases last + 1 - k
  {
    if k <= last {
      var r := RetryFrom(k, last, steps, lastErr).0;
      match steps(k)
      case Returned(res, _) =>
        assert AllRetried(k, k - 1, steps);
      case Retried(err, _) =>
        RetryOutcome(k + 1, last, steps, Some(err));
        assert r == RetryFrom(k + 1, last, steps, Some(err)).0;
        if AllRetried(k, last, steps) {
          assert AllRetried(k + 1, last, steps);
        } else {
          assert !AllRetried(k + 1, last, steps);
          var j :| k + 1 <= j <= last && AllRetried(k + 1, j - 1, steps) && steps(j).Returned? && r == steps(j).result;
          assert AllRetried(k, j - 1, steps);
        }
    }
  }

  /** `fetch` returns no status exactly when every attempt failed, and then the last attempt's error. */
  lemma FetchOutcome(host: string, retries: int, outcomes: nat -> Attempt, enableRender: bool, parseDate: string -> Option<real>)
    ensures var steps := StepsOf(host, outcomes, enableRender, parseDate);
      var last := AttemptCount(retries);
      var (r, _) := FetchSpec(host, retries, outcomes, enableRender, parseDate);
      && (r.status.None? <==> AllRetried(1, last, steps))
      && (AllRetried(1, last, steps) ==>
            r == FetchResult(None, map[], "", if last == 0 then None else Some(steps(last).error)))
  {
    var steps := StepsOf(host, outcomes, enableRender, parseDate);
    var last := AttemptCount(retries);
    RetryOutcome(1, last, steps, None);
    if !AllRetried(1, last, steps) {
      var r := FetchSpec(host, retries, outcomes, enableRender, parseDate).0;
      var j :| 1 <= j <= last && AllRetried(1, j - 1, steps) && steps(j).Returned? && r == steps(j).result;
      assert steps(j) == AttemptStep(host, j, outcomes(j), enableRender, parseDate);
    }
  }

  /**
   * A result with a status comes from the first attempt that was answered:
   * every attempt before it failed, the headers are that response's, the
   * content and status are what it delivers, and the error is the CAPTCHA
   * flag exactly when the HTML test and the detector agree, and none
   * otherwise.
   */
  lemma FetchReturned(host: string, retries: int, outcomes: nat -> Attempt, enableRender: bool, parseDate: string -> Option<real>)
    ensures var steps := StepsOf(host, outcomes, enableRender, parseDate);
      var (r, _) := FetchSpec(host, retries, outcomes, enableRender, parseDate);
      r.status.Some? ==>
        && (r.error == None || r.error == Some("CAPTCHA_DETECTED"))
        && (r.error == Some("CAPTCHA_DETECTED") <==>
              Contains(HeaderOr(r.headers, "Content-Type"), "text/html") && DetectCaptcha(r.content))
        && exists j :: 1 <= j <= AttemptCount(retries) && AllRetried(1, j - 1, steps) && Answered(outcomes(j))
             && r.headers == outcomes(j).headers && (r.content, r.status.value) == Delivered(enableRender, outcomes(j))
  {
    var steps := StepsOf(host, outcomes, enableRender, parseDate);
    var last := AttemptCount(retries);
    var r := FetchSpec(host, retries, outcomes, enableRender, parseDate).0;
    RetryOutcome(1, last, steps, None);
    if r.status.Some? {
      FetchOutcome(host, retries, outcomes, enableRender, parseDate);
      var j :| 1 <= j <= last && AllRetried(1, j - 1, steps) && steps(j).Returned? && r == steps(j).result;
      assert steps(j) == AttemptStep(host, j, outcomes(j), enableRender, parseDate);
      assert Answered(outcomes(j));
      AttemptReturned(host, j, outcomes(j), enableRender, parseDate);
    }
  }

  /** An attempt's trace: a rate-limiter wait for the host, the request numbered `k`, then no other request. */
  predicate StepShape(host: string, k: nat, s: Step)
  {
    && |s.actions| >= 2 && s.actions[0] == RateWait(host) && s.actions[1] == Request(k)
    && forall i :: 2 <= i < |s.actions| ==> !s.actions[i].Request?
  }

  /** Every request in the trace comes right after a rate-limiter wait for the host and is numbered from `k` to `last`. */
  predicate Polite(host: string, k: nat, last: nat, acts: seq<Action>)
  {
    forall i :: 0 <= i < |acts| && acts[i].Request? ==>
      i > 0 && acts[i - 1] == RateWait(host) && k <= acts[i].attempt <= last
  }

  lemma PoliteAppend(host: string, k: nat, last: nat, a: seq<Action>, b: seq<Action>)
    requires Polite(host, k, last, a) && Polite(host, k, last, b)
    requires b != [] ==> !b[0].Request?
    ensures Polite(host, k, last, a + b)
  {
    forall i | 0 <= i < |a + b| && (a + b)[i].Request?
      ensures i > 0 && (a + b)[i - 1] == RateWait(host) && k <= (a + b)[i].attempt <= last
    {
      if i >= |a| {
        assert (a + b)[i] == b[i - |a|];
        if i - |a| > 0 {
          assert (a + b)[i - 1] == b[i - |a| - 1];
        }
      }
    }
  }

  /** When every attempt is shaped so, the loop's trace starts with a wait, and every request follows a wait and is numbered within the attempts. */
  lemma {:induction false} RetryIsPolite(host: string, k: nat, last: nat, steps: nat -> Step, lastErr: Option<string>)
    requires forall j :: StepShape(host, j, steps(j))
    ensures var (_, acts) := RetryFrom(k, last, steps, lastErr);
      Polite(host, k, last, acts) && (acts != [] ==> acts[0] == RateWait(host))
    decreases last + 1 - k
  {
    if k <= last {
      var s := steps(k);
      assert StepShape(host, k, s);
      assert Polite(host, k, last, s.actions);
      if s.Retried? {
        RetryIsPolite(host, k + 1, last, steps, Some(s.error));
        var rest := RetryFrom(k + 1, last, steps, Some(s.error)).1;
        assert Polite(host, k, last, rest);
        PoliteAppend(host, k, last, s.actions, rest);
      }
    }
  }

  /** The numbers of the requests of a trace, in order. */
  function Requests(acts: seq<Action>): seq<nat>
    decreases |acts|
  {
    if acts == [] then []
    else (if acts[0].Request? then [acts[0].attempt] else []) + Requests(acts[1..])
  }

  lemma {:induction false} RequestsConcat(a: seq<Action>, b: seq<Action>)
    ensures Requests(a + b) == Requests(a) + Requests(b)
    decreases |a|
  {
    if a == [] {
      assert a + b == b;
    } else {
      assert (a + b)[0] == a[0];
      assert (a + b)[1..] == a[1..] + b;
      RequestsConcat(a[1..], b);
    }
  }

  lemma {:induction false} NoRequests(acts: seq<Action>)
    requires forall i :: 0 <= i < |acts| ==> !acts[i].Request?
    ensures Requests(acts) == []
    decreases |acts|
  {
    if acts != [] {
      NoRequests(acts[1..]);
    }
  }

  /** An attempt shaped so makes exactly one request, numbered `k`. */
  lemma {:induction false} RequestsOfShape(host: string, k: nat, s: Step)
    requires StepShape(host, k, s)
    ensures Requests(s.actions) == [k]
  {
    var acts := s.actions;
    assert acts[1..][0] == Request(k);
    assert acts[1..][1..] == acts[2..];
    NoRequests(acts[2..]);
  }

  /**
   * From attempt `k` to `last`, the requests are numbered `k`, `k + 1`, ... in
   * order, one per attempt made, at least one when any attempt is made.
   */
  lemma {:induction false} RetryRequests(host: string, k: nat, last: nat, steps: nat -> Step, lastErr: Option<string>)
    requires forall j :: StepShape(host, j, steps(j))
    ensures var rs := Requests(RetryFrom(k, last, steps, lastErr).1);
      && |rs| <= (if k <= last then last + 1 - k else 0)
      && (k <= last ==> |rs| >= 1)
      && forall i :: 0 <= i < |rs| ==> rs[i] == k + i
    decreases last + 1 - k
  {
    if k <= last {
      var s := steps(k);
      RequestsOfShape(host, k, s);
      if s.Retried? {
        var rest := RetryFrom(k + 1, last, steps, Some(s.error)).1;
        RetryRequests(host, k + 1, last, steps, Some(s.error));
        RequestsConcat(s.actions, rest);
      }
    }
  }

  /**
   * Each request of `fetch` is preceded by a rate-limiter wait for the host,
   * and the requests are numbered 1, 2, ... in order, at most `retries + 1` of
   * them and at least one when any attempt is allowed.
   */
  lemma FetchIsPolite(host: string, retries: int, outcomes: nat -> Attempt, enableRender: bool, parseDate: string -> Option<real>)
    ensures var (_, acts) := FetchSpec(host, retries, outcomes, enableRender, parseDate);
      && Polite(host, 1, AttemptCount(retries), acts)
      && |Requests(acts)| <= AttemptCount(retries)
      && (AttemptCount(retries) > 0 ==> |Requests(acts)| >= 1)
      && forall i :: 0 <= i < |Requests(acts)| ==> Requests(acts)[i] == i + 1
  {
    var steps := StepsOf(host, outcomes, enableRender, parseDate);
    forall j ensures StepShape(host, j, steps(j)) {
      var s := AttemptStep(host, j, outcomes(j), enableRender, parseDate);
      assert steps(j) == s;
    }
    RetryIsPolite(host, 1, AttemptCount(retries), steps, None);
    RetryRequests(host, 1, AttemptCount(retries), steps, None);
  }

  /**
   * The case-sensitive test of the fetch loop disagrees with `is_html_content`:
   * a CAPTCHA page served as `Text/HTML` is returned without the CAPTCHA error.
   */
  lemma CaptchaMissedOnCapitalisedType(host: string, parseDate: string -> Option<real>)
    ensures var h := map["Content-Type" := "Text/HTML"];
      var s := AttemptStep(host, 1, Response(200, h, "captcha", None, 0.0), false, parseDate);
      s.Returned? && s.result.error == None && DetectCaptcha("captcha")
  {
    assert "captcha"[..7] == "captcha";
    ContainsAt("captcha", "captcha", 0);
    assert Lower("captcha") == "captcha";
    assert Contains(Lower("captcha"), CaptchaMarkers[0]);
    var h := map["Content-Type" := "Text/HTML"];
    assert HeaderOr(h, "Content-Type") == "Text/HTML";
    NoUpperNoMatch("Text/HTML");
  }

  lemma {:induction false} NoUpperNoMatch(ct: string)
    requires ct == "Text/HTML"
    ensures !Contains(ct, "text/html")
  {
    assert ct[0] != "text/html"[0];
    assert ct[1..] == "ext/HTML";
    assert |ct[1..]| < 9;
    ShortNoContains(ct[1..], "text/html");
  }

  lemma {:induction false} ShortNoContains(s: string, sub: string)
    requires |s| < |sub|
    ensures !Contains(s, sub)
    decreases |s|
  {
    if s != [] {
      ShortNoContains(s[1..], sub);
    }
  }
}
