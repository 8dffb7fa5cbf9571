/**
 * `robots.py`: a per-host cache of robots.txt parsers with a time-to-live, and
 * the two queries on it, which allow the URL (or give no delay) when the
 * parser's query raises. Reading robots.txt over the
 * network and the rule matching of the standard library's parser are passed
 * in as functions; the clock reading is a parameter.
 */
module Robots {
  import opened Wrappers
  import Url

  /** What reading `https://<host>/robots.txt` did: parsed rules, or an exception. */
  datatype ReadOutcome = Fetched(rules: string, disallowAll: bool) | ReadFailed(message: string)

  /** A `RobotFileParser` after `set_url` and `read`. */
  datatype RobotsParser = RobotsParser(robotsUrl: string, outcome: ReadOutcome, disallowAll: bool)

  /** `RobotsEntry`: a parser and the time it was fetched. */
  datatype RobotsEntry = RobotsEntry(parser: RobotsParser, fetchedAt: real)

  /** The answer of `can_fetch`: yes, no, or an exception. */
  datatype Verdict = Yes | No | Raises

  /** The answer of the parser's `crawl_delay`: none, a number, or an exception. */
  datatype DelayAnswer = NoDelay | Delay(seconds: real) | DelayRaises

  /** The robots.txt address for a host: always HTTPS. */
  function RobotsUrl(host: string): string
  {
    "https://" + host + "/robots.txt"
  }

  /** A fresh parser: a failed read leaves `disallow_all` false. */
  function ReadParser(host: string, read: string -> ReadOutcome): (p: RobotsParser)
    ensures p.robotsUrl == RobotsUrl(host) && p.outcome == read(RobotsUrl(host))
    ensures p.outcome.ReadFailed? ==> !p.disallowAll
    ensures p.outcome.Fetched? ==> p.disallowAll == p.outcome.disallowAll
  {
    var outcome := read(RobotsUrl(host));
    match outcome
    case Fetched(_, da) => RobotsParser(RobotsUrl(host), outcome, da)
    case ReadFailed(_) => RobotsParser(RobotsUrl(host), outcome, false)
  }

  /** The entry for `host` is missing or older than the time-to-live. */
  predicate Stale(cache: map<string, RobotsEntry>, ttl: int, host: string, now: real)
  {
    host !in cache || now - cache[host].fetchedAt > ttl as real
  }

  /** `_get_entry` on the cache contents: the entry returned and the new cache. */
  function EntryStep(cache: map<string, RobotsEntry>, ttl: int, host: string, now: real, read: string -> ReadOutcome)
    : (map<string, RobotsEntry>, RobotsEntry)
  {
    if Stale(cache, ttl, host, now) then
      var e := RobotsEntry(ReadParser(host, read), now);
      (cache[host := e], e)
    else (cache, cache[host])
  }

  /**
   * A lookup that reads robots.txt stamps the entry with the current time; a
   * later lookup for the host within the time-to-live of that stamp reuses the
   * entry, whatever robots.txt would now read, and changes nothing.
   */
  lemma CacheHitWithinTtl(cache: map<string, RobotsEntry>, ttl: int, host: string,
                          t1: real, t2: real, read1: string -> ReadOutcome, read2: string -> ReadOutcome)
    ensures var (c1, e1) := EntryStep(cache, ttl, host, t1, read1);
      && (Stale(cache, ttl, host, t1) ==> e1.fetchedAt == t1)
      && (t2 - e1.fetchedAt <= ttl as real ==> EntryStep(c1, ttl, host, t2, read2) == (c1, e1))
  {
    var (c1, e1) := EntryStep(cache, ttl, host, t1, read1);
    assert host in c1 && c1[host] == e1;
  }

  /** Once the time-to-live has passed since the entry was fetched, the next lookup reads robots.txt again. */
  lemma RefetchAfterTtl(cache: map<string, RobotsEntry>, ttl: int, host: string, now: real, read: string -> ReadOutcome)
    requires host in cache && now - cache[host].fetchedAt > ttl as real
    ensures var (c, e) := EntryStep(cache, ttl, host, now, read);
      e == RobotsEntry(ReadParser(host, read), now) && c == cache[host := e]
  {
  }

  /** A lookup touches only its own host's entry, and leaves it present. */
  lemma OtherHostsUntouched(cache: map<string, RobotsEntry>, ttl: int, host: string, now: real, read: string -> ReadOutcome)
    ensures var (c, e) := EntryStep(cache, ttl, host, now, read);
      c.Keys == cache.Keys + {host} && c[host] == e
      && forall h :: h in cache && h != host ==> c[h] == cache[h]
  {
  }

  /** `allowed`: an exception from `can_fetch` lets the URL through. */
  function AllowedBy(v: Verdict): (b: bool)
    ensures !b <==> v == No
  {
    match v
    case Yes => true
    case No => false
    case Raises => true
  }

  /** `crawl_delay`: `float(d) if d else None`, and None on an exception. */
  function DelayOf(a: DelayAnswer): (r: Option<real>)
    ensures r.Some? <==> a.Delay? && a.seconds != 0.0
    ensures r.Some? ==> r.value == a.seconds
  {
    match a
    case NoDelay => None
    case Delay(d) => if d != 0.0 then Some(d) else None
    case DelayRaises => None
  }

  /** The robots.txt cache. Each call runs at the clock reading `now` it is given. */
  class RobotsCache {
    const userAgent: string
    const ttl: int
    var cache: map<string, RobotsEntry>

    /** `__init__`, with the default time-to-live of an hour when called as the crawler does. */
    constructor (agent: string, ttlSec: int)
      ensures userAgent == agent && ttl == ttlSec && cache == map[]
    {
      userAgent := agent;
      ttl := ttlSec;
      cache := map[];
    }

    /** `_get_entry`: refetch when the host's entry is missing or expired, else reuse it. */
    method GetEntry(url: string, now: real, read: string -> ReadOutcome) returns (entry: RobotsEntry)
      modifies this
      ensures (cache, entry) == EntryStep(old(cache), ttl, Url.Netloc(url), now, read)
    {
      var host := Url.Netloc(url);
      if host !in cache || now - cache[host].fetchedAt > ttl as real {
        var rfp := ReadParser(host, read);
        entry := RobotsEntry(rfp, now);
        cache := cache[host := entry];
      } else {
        entry := cache[host];
      }
    }

    /** `allowed`: the parser's verdict for this agent and URL, true when it raises. */
    method Allowed(url: string, now: real, read: string -> ReadOutcome,
                   canFetch: (RobotsParser, string, string) -> Verdict) returns (b: bool)
      modifies this
      ensures var (c, e) := EntryStep(old(cache), ttl, Url.Netloc(url), now, read);
        cache == c && b == AllowedBy(canFetch(e.parser, userAgent, url))
    {
      var entry := GetEntry(url, now, read);
      var v := canFetch(entry.parser, userAgent, url);
      b := v != No;
    }

    /** `crawl_delay`: the parser's delay when it is a non-zero number, else None. */
    method CrawlDelay(url: string, now: real, read: string -> ReadOutcome,
                      delay: (RobotsParser, string) -> DelayAnswer) returns (r: Option<real>)
      modifies this
      ensures var (c, e) := EntryStep(old(cache), ttl, Url.Netloc(url), now, read);
        cache == c && r == DelayOf(delay(e.parser, userAgent))
    {
      var entry := GetEntry(url, now, read);
      var a := delay(entry.parser, userAgent);
      match a {
        case NoDelay => r := None;
        case Delay(d) => r := if d != 0.0 then Some(d) else None;
        case DelayRaises => r := None;
      }
    }
  }
}
